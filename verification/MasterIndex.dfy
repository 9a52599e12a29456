/** The in-memory master index: namespace sets, superseded and deprecated marks,
    and the branching version graph. */
module MasterIndex {
  import opened Prelude
  import Versions

  type Parents = map<string, string>
  type Children = map<string, set<string>>

  // ---- the version forest, by definition

  /** A parent carries the smaller version number, so links cannot form a cycle. */
  ghost predicate Forest(parent: Parents, ver: string -> nat) {
    forall c :: c in parent ==> ver(parent[c]) < ver(c) && parent[c] != ""
  }

  function ChildrenOf(children: Children, n: string): set<string> {
    if n in children then children[n] else {}
  }

  /** The child sets list exactly the links of the parent map. */
  ghost predicate Inverse(parent: Parents, children: Children) {
    forall p, c :: c in ChildrenOf(children, p) <==> c in parent && parent[c] == p
  }

  /** Adding a child to a parent takes it from no other. */
  function WithChild(children: Children, p: string, c: string): Children {
    children[p := ChildrenOf(children, p) + {c}]
  }

  /** A link from an older record to a newer one that has no other parent. */
  ghost predicate Fits(parent: Parents, ver: string -> nat, p: string, c: string) {
    ver(p) < ver(c) && p != "" && (c in parent ==> parent[c] == p)
  }

  /** The version graph stays a forest exactly under links that fit. */
  lemma LinkKeepsForestIff(parent: Parents, children: Children, ver: string -> nat, p: string, c: string)
    requires Forest(parent, ver) && Inverse(parent, children)
    ensures Forest(parent[c := p], ver) && Inverse(parent[c := p], WithChild(children, p, c))
       <==> Fits(parent, ver, p, c)
  {
    var now, sets := parent[c := p], WithChild(children, p, c);
    if Fits(parent, ver, p, c) {
      forall q, x ensures x in ChildrenOf(sets, q) <==> x in now && now[x] == q {
        assert x in ChildrenOf(children, q) <==> x in parent && parent[x] == q;
      }
    } else if Forest(now, ver) {
      assert now[c] == p;
      assert c in ChildrenOf(children, parent[c]);
      assert c in ChildrenOf(sets, parent[c]) && now[c] != parent[c];
    }
  }

  /** Parent, grandparent and so on, nearest first. */
  ghost function Ancestors(parent: Parents, ver: string -> nat, n: string): seq<string>
    requires Forest(parent, ver)
    decreases ver(n)
  {
    if n in parent then [parent[n]] + Ancestors(parent, ver, parent[n]) else []
  }

  ghost function Root(parent: Parents, ver: string -> nat, n: string): string
    requires Forest(parent, ver)
    decreases ver(n)
  {
    if n in parent then Root(parent, ver, parent[n]) else n
  }

  ghost function Descendants(parent: Parents, ver: string -> nat, n: string): set<string>
    requires Forest(parent, ver)
  {
    set d | d in parent && n in Ancestors(parent, ver, d)
  }

  /** All versions that share the root of `n`. */
  ghost function Lineage(parent: Parents, ver: string -> nat, n: string): set<string>
    requires Forest(parent, ver)
  {
    {Root(parent, ver, n)} + set d | d in parent && Root(parent, ver, d) == Root(parent, ver, n)
  }

  ghost function Heads(children: Children, nodes: set<string>): set<string> {
    set n | n in nodes && ChildrenOf(children, n) == {}
  }

  ghost function BranchPoints(children: Children, nodes: set<string>): set<string> {
    set n | n in nodes && |ChildrenOf(children, n)| > 1
  }

  lemma {:induction false} AncestorsAreOlder(parent: Parents, ver: string -> nat, n: string)
    requires Forest(parent, ver)
    ensures forall i :: 0 <= i < |Ancestors(parent, ver, n)| ==> ver(Ancestors(parent, ver, n)[i]) < ver(n)
    ensures forall i, j :: 0 <= i < j < |Ancestors(parent, ver, n)| ==>
              ver(Ancestors(parent, ver, n)[j]) < ver(Ancestors(parent, ver, n)[i])
    decreases ver(n)
  {
    if n in parent {
      AncestorsAreOlder(parent, ver, parent[n]);
    }
  }

  lemma AncestorsAhead(parent: Parents, ver: string -> nat, n: string, out: seq<string>)
    requires Forest(parent, ver) && n in parent
    ensures out + Ancestors(parent, ver, n) == (out + [parent[n]]) + Ancestors(parent, ver, parent[n])
  {
  }

  lemma {:induction false} RootIsLastAncestor(parent: Parents, ver: string -> nat, n: string)
    requires Forest(parent, ver)
    ensures Root(parent, ver, n) !in parent
    ensures var a := Ancestors(parent, ver, n);
            if |a| == 0 then Root(parent, ver, n) == n else a[|a| - 1] == Root(parent, ver, n)
    ensures forall x :: x in Ancestors(parent, ver, n) ==> Root(parent, ver, x) == Root(parent, ver, n)
    decreases ver(n)
  {
    if n in parent {
      RootIsLastAncestor(parent, ver, parent[n]);
    }
  }

  /** Below a root, the lineage is the root with all its descendants. */
  lemma LineageIsRootAndDescendants(parent: Parents, ver: string -> nat, n: string)
    requires Forest(parent, ver)
    ensures var r := Root(parent, ver, n);
            Lineage(parent, ver, n) == {r} + Descendants(parent, ver, r)
  {
    var r := Root(parent, ver, n);
    RootIsLastAncestor(parent, ver, n);
    forall d | d in parent ensures r in Ancestors(parent, ver, d) <==> Root(parent, ver, d) == r {
      RootIsLastAncestor(parent, ver, d);
    }
  }

  /** Lineages partition the ids: everyone is in its own, and two of them are the
      same set or have nothing in common. */
  lemma LineagesPartition(parent: Parents, ver: string -> nat, a: string, b: string)
    requires Forest(parent, ver)
    ensures a in Lineage(parent, ver, a)
    ensures b in Lineage(parent, ver, a) <==> Lineage(parent, ver, b) == Lineage(parent, ver, a)
    ensures b !in Lineage(parent, ver, a) <==> Lineage(parent, ver, b) !! Lineage(parent, ver, a)
  {
    RootIsLastAncestor(parent, ver, a);
    RootIsLastAncestor(parent, ver, b);
    forall x | x in Lineage(parent, ver, a) ensures Root(parent, ver, x) == Root(parent, ver, a) {
    }
    forall x | x in Lineage(parent, ver, b) ensures Root(parent, ver, x) == Root(parent, ver, b) {
    }
  }

  lemma NotOwnDescendant(parent: Parents, ver: string -> nat, n: string)
    requires Forest(parent, ver)
    ensures n !in Descendants(parent, ver, n)
  {
    AncestorsAreOlder(parent, ver, n);
  }

  /** Descending is transitive closure: the descendants of `n` are the children of
      `n` and of its descendants. */
  lemma DescendantsAreClosure(parent: Parents, ver: string -> nat, n: string)
    requires Forest(parent, ver)
    ensures Descendants(parent, ver, n)
         == set c | c in parent && (parent[c] == n || parent[c] in Descendants(parent, ver, n))
  {
    forall c | c in parent
      ensures n in Ancestors(parent, ver, c) <==> parent[c] == n || parent[c] in Descendants(parent, ver, n)
    {
      if parent[c] !in parent {
        assert Ancestors(parent, ver, parent[c]) == [];
      }
    }
  }

  // ---- counting heads

  ghost function SumDegrees(children: Children, nodes: set<string>): nat {
    if nodes == {} then 0
    else var n :| n in nodes; |ChildrenOf(children, n)| + SumDegrees(children, nodes - {n})
  }

  /** Over branch points: how many children each has beyond its first. */
  ghost function SumExcess(children: Children, nodes: set<string>): int {
    if nodes == {} then 0
    else var n :| n in nodes; |ChildrenOf(children, n)| - 1 + SumExcess(children, nodes - {n})
  }

  lemma {:induction false} SumDegreesWithout(children: Children, nodes: set<string>, n: string)
    requires n in nodes
    ensures SumDegrees(children, nodes) == |ChildrenOf(children, n)| + SumDegrees(children, nodes - {n})
    decreases |nodes|
  {
    var m :| m in nodes && SumDegrees(children, nodes) == |ChildrenOf(children, m)| + SumDegrees(children, nodes - {m});
    if m != n {
      SumDegreesWithout(children, nodes - {m}, n);
      SumDegreesWithout(children, nodes - {n}, m);
      assert nodes - {m} - {n} == nodes - {n} - {m};
    }
  }

  lemma {:induction false} SumExcessWithout(children: Children, nodes: set<string>, n: string)
    requires n in nodes
    ensures SumExcess(children, nodes) == |ChildrenOf(children, n)| - 1 + SumExcess(children, nodes - {n})
    decreases |nodes|
  {
    var m :| m in nodes
             && SumExcess(children, nodes) == |ChildrenOf(children, m)| - 1 + SumExcess(children, nodes - {m});
    if m != n {
      SumExcessWithout(children, nodes - {m}, n);
      SumExcessWithout(children, nodes - {n}, m);
      assert nodes - {m} - {n} == nodes - {n} - {m};
    }
  }

  function ParentIn(parent: Parents, nodes: set<string>): set<string> {
    set c | c in parent && parent[c] in nodes
  }

  lemma ParentInSplits(parent: Parents, children: Children, nodes: set<string>, n: string)
    requires Inverse(parent, children) && n in nodes
    ensures |ParentIn(parent, nodes)| == |ParentIn(parent, nodes - {n})| + |ChildrenOf(children, n)|
  {
    var rest := ParentIn(parent, nodes - {n});
    assert ParentIn(parent, nodes) == rest + ChildrenOf(children, n);
    assert rest !! ChildrenOf(children, n);
  }

  /** Every child has one parent, so degrees count the children. */
  lemma {:induction false} DegreesCountChildren(parent: Parents, children: Children, nodes: set<string>)
    requires Inverse(parent, children)
    ensures SumDegrees(children, nodes) == |ParentIn(parent, nodes)|
    decreases |nodes|
  {
    if nodes == {} {
      assert ParentIn(parent, nodes) == {};
    } else {
      var n :| n in nodes;
      SumDegreesWithout(children, nodes, n);
      DegreesCountChildren(parent, children, nodes - {n});
      ParentInSplits(parent, children, nodes, n);
    }
  }

  lemma NodeJoins(children: Children, nodes: set<string>, n: string)
    requires n in nodes
    ensures var degree, rest := |ChildrenOf(children, n)|, nodes - {n};
            && |Heads(children, nodes)| == |Heads(children, rest)| + (if degree == 0 then 1 else 0)
            && BranchPoints(children, nodes) == BranchPoints(children, rest) + (if degree > 1 then {n} else {})
            && n !in BranchPoints(children, rest)
  {
    var rest := nodes - {n};
    if ChildrenOf(children, n) == {} {
      assert Heads(children, nodes) == Heads(children, rest) + {n};
    } else {
      assert Heads(children, nodes) == Heads(children, rest);
    }
  }

  lemma {:induction false} HeadsBalance(children: Children, nodes: set<string>)
    ensures SumDegrees(children, nodes) + |Heads(children, nodes)|
         == |nodes| + SumExcess(children, BranchPoints(children, nodes))
    decreases |nodes|
  {
    if nodes == {} {
      assert Heads(children, nodes) == {} && BranchPoints(children, nodes) == {};
    } else {
      var n :| n in nodes;
      HeadsBalance(children, nodes - {n});
      SumDegreesWithout(children, nodes, n);
      NodeJoins(children, nodes, n);
      if |ChildrenOf(children, n)| > 1 {
        SumExcessWithout(children, BranchPoints(children, nodes), n);
        assert BranchPoints(children, nodes) - {n} == BranchPoints(children, nodes - {n});
      } else {
        assert BranchPoints(children, nodes) == BranchPoints(children, nodes - {n});
      }
    }
  }

  lemma BelowLineage(parent: Parents, ver: string -> nat, n: string)
    requires Forest(parent, ver)
    ensures var nodes := Lineage(parent, ver, n);
            ParentIn(parent, nodes) == nodes - {Root(parent, ver, n)}
  {
    var nodes, r := Lineage(parent, ver, n), Root(parent, ver, n);
    RootIsLastAncestor(parent, ver, n);
    forall c | c in parent ensures parent[c] in nodes <==> c in nodes {
      assert Root(parent, ver, c) == Root(parent, ver, parent[c]);
    }
  }

  /** A lineage has one head, and one more for every extra child at a branch point. */
  lemma HeadCount(parent: Parents, children: Children, ver: string -> nat, n: string)
    requires Forest(parent, ver) && Inverse(parent, children)
    ensures var nodes := Lineage(parent, ver, n);
            |Heads(children, nodes)| == 1 + SumExcess(children, BranchPoints(children, nodes))
  {
    var nodes, r := Lineage(parent, ver, n), Root(parent, ver, n);
    HeadsBalance(children, nodes);
    DegreesCountChildren(parent, children, nodes);
    BelowLineage(parent, ver, n);
    assert |nodes - {r}| == |nodes| - 1;
  }

  // ---- the index object

  /** Every child of a seen id off the worklist has been seen. */
  ghost predicate Settled(parent: Parents, seen: set<string>, stack: seq<string>) {
    forall c :: c in parent && parent[c] in seen && parent[c] !in stack ==> c in seen
  }

  /** Where the descendant worklist stands. */
  ghost predicate Explored(parent: Parents, ver: string -> nat, id: string,
                           out: set<string>, seen: set<string>, stack: seq<string>)
    requires Forest(parent, ver)
  {
    && seen == out + {id}
    && out <= Descendants(parent, ver, id)
    && (forall n :: n in stack ==> n in seen)
    && Settled(parent, seen, stack)
  }

  lemma VisitChild(parent: Parents, ver: string -> nat, id: string,
                   out: set<string>, seen: set<string>, stack: seq<string>, child: string)
    requires Forest(parent, ver) && child in parent && child !in seen
    requires Explored(parent, ver, id, out, seen, stack + [parent[child]])
    ensures Explored(parent, ver, id, out + {child}, seen + {child}, (stack + [child]) + [parent[child]])
  {
    var node := parent[child];
    assert node in stack + [node];
    DescendantsAreClosure(parent, ver, id);
    assert forall n :: n in (stack + [child]) + [node] <==> n in stack + [node] || n == child;
  }

  lemma ChildrenAre(parent: Parents, children: Children, n: string)
    requires Inverse(parent, children)
    ensures forall c :: c in ChildrenOf(children, n) <==> c in parent && parent[c] == n
  {
  }

  /** With all its children seen, a node can leave the worklist. */
  lemma NodeIsDone(parent: Parents, ver: string -> nat, id: string, out: set<string>, seen: set<string>,
                   stack: seq<string>, node: string)
    requires Forest(parent, ver) && Explored(parent, ver, id, out, seen, stack + [node])
    requires forall c :: c in parent && parent[c] == node ==> c in seen
    ensures Explored(parent, ver, id, out, seen, stack)
  {
    hide Descendants;
    assert forall n :: n in stack + [node] <==> n in stack || n == node;
  }

  class MasterIndex {
    var records: set<string>
    var namespaces: map<string, set<string>>
    var superseded: map<string, string>
    var supersedes: map<string, string>
    var deprecated: set<string>
    var versionChildren: Children
    var versionParent: Parents
    /** The version number the record of each id carries. */
    ghost const ver: string -> nat

    ghost predicate Valid()
      reads this
    {
      Forest(versionParent, ver) && Inverse(versionParent, versionChildren)
    }

    constructor (ghost ver: string -> nat)
      ensures Valid() && this.ver == ver
      ensures records == {} && namespaces == map[] && superseded == map[] && supersedes == map[]
      ensures deprecated == {} && versionParent == map[] && versionChildren == map[]
    {
      this.ver := ver;
      records, namespaces, superseded, supersedes, deprecated := {}, map[], map[], map[], {};
      versionChildren, versionParent := map[], map[];
    }

    method LinkVersion(parentId: string, childId: string)
      modifies this`versionChildren, this`versionParent
      ensures versionParent == old(versionParent)[childId := parentId]
      ensures versionChildren == WithChild(old(versionChildren), parentId, childId)
      ensures old(Valid()) ==> (Valid() <==> Fits(old(versionParent), ver, parentId, childId))
    {
      if Valid() {
        LinkKeepsForestIff(versionParent, versionChildren, ver, parentId, childId);
      }
      hide Fits, Forest, Inverse;
      var siblings := if parentId in versionChildren then versionChildren[parentId] else {};
      versionChildren := versionChildren[parentId := siblings + {childId}];
      versionParent := versionParent[childId := parentId];
    }

    /** Index a record. Its own `supersedes` field, if set, links it to its parent. */
    method IndexRecord(id: string, namespace: string, parentId: Option<string>)
      modifies this
      ensures records == old(records) + {id}
      ensures namespaces.Keys == old(namespaces).Keys + {namespace}
      ensures forall ns :: ns in namespaces ==>
                namespaces[ns] == (if ns in old(namespaces) then old(namespaces)[ns] else {})
                                  + (if ns == namespace then {id} else {})
      ensures superseded == old(superseded) && supersedes == old(supersedes) && deprecated == old(deprecated)
      ensures var links := parentId.Some? && parentId.value != "";
              && versionParent == (if links then old(versionParent)[id := parentId.value] else old(versionParent))
              && versionChildren == (if links then WithChild(old(versionChildren), parentId.value, id)
                                     else old(versionChildren))
              && (old(Valid()) ==> (Valid() <==> !links || Fits(old(versionParent), ver, parentId.value, id)))
    {
      hide Fits, Forest, Inverse;
      records := records + {id};
      var members := if namespace in namespaces then namespaces[namespace] else {};
      namespaces := namespaces[namespace := members + {id}];
      if parentId.Some? && parentId.value != "" {
        LinkVersion(parentId.value, id);
      }
    }

    method MarkSuperseded(oldId: string, newId: string)
      modifies this`superseded, this`supersedes, this`versionChildren, this`versionParent
      ensures superseded == old(superseded)[oldId := newId] && supersedes == old(supersedes)[newId := oldId]
      ensures versionParent == old(versionParent)[newId := oldId]
      ensures versionChildren == WithChild(old(versionChildren), oldId, newId)
      ensures old(Valid()) ==> (Valid() <==> Fits(old(versionParent), ver, oldId, newId))
    {
      hide Fits, Forest, Inverse;
      superseded := superseded[oldId := newId];
      supersedes := supersedes[newId := oldId];
      LinkVersion(oldId, newId);
    }

    method MarkDeprecated(id: string)
      modifies this`deprecated
      ensures deprecated == old(deprecated) + {id}
    {
      deprecated := deprecated + {id};
    }

    /** Climb to the id without a parent; the `seen` guard never stops the climb. */
    method GetVersionRoot(id: string) returns (root: string)
      requires Valid()
      ensures root == Root(versionParent, ver, id)
    {
      root := id;
      var seen := {root};
      while root in versionParent
        invariant Root(versionParent, ver, root) == Root(versionParent, ver, id)
        invariant forall x :: x in seen ==> ver(root) <= ver(x)
        decreases ver(root)
      {
        var up := versionParent[root];
        if up in seen {
          break;
        }
        seen := seen + {up};
        root := up;
      }
    }

    method GetVersionAncestors(id: string) returns (out: seq<string>)
      requires Valid()
      ensures out == Ancestors(versionParent, ver, id)
    {
      hide Inverse;
      out := [];
      var current := if id in versionParent then Some(versionParent[id]) else None;
      var seen := {id};
      ghost var below := id;
      while current.Some? && current.value != "" && current.value !in seen
        invariant current == if below in versionParent then Some(versionParent[below]) else None
        invariant out + Ancestors(versionParent, ver, below) == Ancestors(versionParent, ver, id)
        invariant forall x :: x in seen ==> ver(below) <= ver(x)
        decreases ver(below)
      {
        var up := current.value;
        AncestorsAhead(versionParent, ver, below, out);
        seen := seen + {up};
        out := out + [up];
        below := up;
        current := if up in versionParent then Some(versionParent[up]) else None;
      }
      assert below !in versionParent;
      assert out + [] == out;
    }

    /** Push the children of a node that were not seen before. */
    method VisitChildren(ghost id: string, node: string, children: set<string>, out0: set<string>, seen0: set<string>,
                         stack0: seq<string>) returns (out: set<string>, seen: set<string>, stack: seq<string>)
      requires Valid() && children == ChildrenOf(versionChildren, node)
      requires Explored(versionParent, ver, id, out0, seen0, stack0 + [node])
      ensures Explored(versionParent, ver, id, out, seen, stack)
      ensures out0 <= out && (out == out0 ==> |stack| == |stack0|)
    {
      out, seen, stack := out0, seen0, stack0;
      ChildrenAre(versionParent, versionChildren, node);
      hide Inverse, Explored, Descendants, Forest;
      var rest := children;
      while rest != {}
        invariant rest <= children
        invariant Explored(versionParent, ver, id, out, seen, stack + [node])
        invariant out0 <= out && (out == out0 ==> |stack| == |stack0|)
        invariant forall c :: c in children && c !in rest ==> c in seen
        decreases rest
      {
        var child :| child in rest;
        rest := rest - {child};
        if child !in seen {
          VisitChild(versionParent, ver, id, out, seen, stack, child);
          seen := seen + {child};
          out := out + {child};
          stack := stack + [child];
        }
      }
      NodeIsDone(versionParent, ver, id, out, seen, stack, node);
    }

    /** The worklist collects exactly the transitive closure of the child sets. */
    method GetVersionDescendants(id: string) returns (out: set<string>)
      requires Valid()
      ensures out == Descendants(versionParent, ver, id)
    {
      hide Descendants, Inverse;
      out := {};
      var stack := [id];
      var seen := {id};
      while stack != []
        invariant Explored(versionParent, ver, id, out, seen, stack)
        decreases Descendants(versionParent, ver, id) - out, |stack|
      {
        var node := stack[|stack| - 1];
        assert stack == stack[..|stack| - 1] + [node];
        stack := stack[..|stack| - 1];
        var rest := if node in versionChildren then versionChildren[node] else {};
        out, seen, stack := VisitChildren(id, node, rest, out, seen, stack);
      }
      ClosedHoldsDescendants(versionParent, ver, id, seen);
      NotOwnDescendant(versionParent, ver, id);
    }

    method LineageNodes(id: string) returns (nodes: set<string>)
      requires Valid()
      ensures nodes == Lineage(versionParent, ver, id)
    {
      var root := GetVersionRoot(id);
      var below := GetVersionDescendants(root);
      nodes := {root} + below;
      LineageIsRootAndDescendants(versionParent, ver, id);
      RootIsLastAncestor(versionParent, ver, id);
    }

    /** The ids of a namespace without those marked, in no particular order. */
    method GetNamespaceIds(namespace: string, includeDeprecated: bool, includeSuperseded: bool)
      returns (ids: seq<string>)
      ensures Distinct(ids)
      ensures forall r :: r in ids <==>
                && namespace in namespaces && r in namespaces[namespace]
                && (includeDeprecated || r !in deprecated)
                && (includeSuperseded || r !in superseded)
    {
      ids := [];
      var all := if namespace in namespaces then namespaces[namespace] else {};
      var left := all;
      while left != {}
        invariant left <= all && Distinct(ids)
        invariant forall r :: r in ids <==>
                    r in all && r !in left
                    && (includeDeprecated || r !in deprecated) && (includeSuperseded || r !in superseded)
        decreases left
      {
        var r :| r in left;
        left := left - {r};
        if !includeDeprecated && r in deprecated {
          continue;
        }
        if !includeSuperseded && r in superseded {
          continue;
        }
        ids := ids + [r];
      }
    }

    method GetVersionHeads(id: string) returns (heads: set<string>)
      requires Valid()
      ensures heads == Heads(versionChildren, Lineage(versionParent, ver, id))
    {
      var nodes := LineageNodes(id);
      heads := set n | n in nodes && ChildrenOf(versionChildren, n) == {};
    }

    method GetBranchPoints(id: string) returns (points: set<string>)
      requires Valid()
      ensures points == BranchPoints(versionChildren, Lineage(versionParent, ver, id))
    {
      var nodes := LineageNodes(id);
      points := set n | n in nodes && |ChildrenOf(versionChildren, n)| > 1;
    }
  }

  lemma {:induction false} ClosedHoldsAncestry(parent: Parents, ver: string -> nat, id: string, closed: set<string>,
                                               d: string)
    requires Forest(parent, ver) && id in closed
    requires forall c :: c in parent && parent[c] in closed ==> c in closed
    requires d in parent && id in Ancestors(parent, ver, d)
    ensures d in closed
    decreases ver(d)
  {
    if parent[d] != id {
      ClosedHoldsAncestry(parent, ver, id, closed, parent[d]);
    }
  }

  lemma ClosedHoldsDescendants(parent: Parents, ver: string -> nat, id: string, closed: set<string>)
    requires Forest(parent, ver) && id in closed
    requires forall c :: c in parent && parent[c] in closed ==> c in closed
    ensures Descendants(parent, ver, id) <= closed
  {
    forall d | d in Descendants(parent, ver, id) ensures d in closed {
      ClosedHoldsAncestry(parent, ver, id, closed, d);
    }
  }

  // ---- the index of a store that a run of writes and updates has led to

  /** The links that the records themselves name. */
  function NamedParents(records: Versions.Records): Parents {
    map c | c in records && records[c].supersedes.Some? :: records[c].supersedes.value
  }

  function VersionIn(records: Versions.Records): string -> nat {
    id => if id in records then records[id].version else 0
  }

  /** In every reachable store the links of its records make a forest. */
  lemma NamedParentsAreForest(run: seq<Versions.Event>)
    requires Versions.Legal(Versions.EMPTY_VERSIONS, run)
    requires "" !in Versions.Exec(Versions.EMPTY_VERSIONS, run).records
    ensures var records := Versions.Exec(Versions.EMPTY_VERSIONS, run).records;
            Forest(NamedParents(records), VersionIn(records))
  {
    Versions.EdgesHoldInEveryRun(Versions.EMPTY_VERSIONS, run);
    var records := Versions.Exec(Versions.EMPTY_VERSIONS, run).records;
    forall c | c in NamedParents(records)
      ensures VersionIn(records)(NamedParents(records)[c]) < VersionIn(records)(c) && NamedParents(records)[c] != ""
    {
      assert Versions.Rooted(records, records[c]);
    }
  }

  /** A sidecar that stood at any time of a run says what a record of its end names. */
  lemma SidecarsAreNamed(before: seq<Versions.Event>, after: seq<Versions.Event>, o: string)
    requires Versions.Legal(Versions.EMPTY_VERSIONS, before)
    requires Versions.Legal(Versions.Exec(Versions.EMPTY_VERSIONS, before), after)
    requires o in Versions.Exec(Versions.EMPTY_VERSIONS, before).sidecars
    ensures var n := Versions.Exec(Versions.EMPTY_VERSIONS, before).sidecars[o];
            var named := NamedParents(Versions.Exec(Versions.Exec(Versions.EMPTY_VERSIONS, before), after).records);
            n in named && named[n] == o
  {
    Versions.EdgesHoldInEveryRun(Versions.EMPTY_VERSIONS, before);
    Versions.EdgesHoldInEveryRun(Versions.Exec(Versions.EMPTY_VERSIONS, before), after);
  }

  /** The version graph after any links, from old to new, in their order. */
  ghost function LinkAll(links: seq<(string, string)>): (Parents, Children) {
    if |links| == 0 then (map[], map[])
    else
      var (parent, children) := LinkAll(links[..|links| - 1]);
      var (p, c) := links[|links| - 1];
      (parent[c := p], WithChild(children, p, c))
  }

  /** Every link is one that the records name. */
  ghost predicate AllNamed(links: seq<(string, string)>, named: Parents) {
    forall i :: 0 <= i < |links| ==> links[i].1 in named && named[links[i].1] == links[i].0
  }

  /** Each of them fits when it is made, in whatever order and however often they come. */
  lemma {:induction false} NamedLinksFit(links: seq<(string, string)>, named: Parents, ver: string -> nat)
    requires Forest(named, ver) && AllNamed(links, named)
    ensures var (parent, children) := LinkAll(links);
            && Forest(parent, ver) && Inverse(parent, children)
            && (forall c :: c in parent ==> c in named && parent[c] == named[c])
            && (forall i :: 0 <= i < |links| ==> links[i].1 in parent)
            && (forall c :: c in named ==> Fits(parent, ver, named[c], c))
  {
    if |links| > 0 {
      var init := links[..|links| - 1];
      NamedLinksFit(init, named, ver);
      var (parent, children) := LinkAll(init);
      LinkKeepsForestIff(parent, children, ver, links[|links| - 1].0, links[|links| - 1].1);
      hide Inverse;
    }
  }

  /** Whatever records and sidecars of a reachable store an index has seen, its version
      graph is a forest, so its queries answer for the true one: each lineage is the root
      with its descendants and has a head more than its branch points have further
      children. When it has seen every record, its links are those the records name. */
  lemma ReachableIndexIsForest(run: seq<Versions.Event>, links: seq<(string, string)>, n: string)
    requires Versions.Legal(Versions.EMPTY_VERSIONS, run)
    requires "" !in Versions.Exec(Versions.EMPTY_VERSIONS, run).records
    requires AllNamed(links, NamedParents(Versions.Exec(Versions.EMPTY_VERSIONS, run).records))
    ensures var records := Versions.Exec(Versions.EMPTY_VERSIONS, run).records;
            var ver, parent, children := VersionIn(records), LinkAll(links).0, LinkAll(links).1;
            && Forest(parent, ver) && Inverse(parent, children)
            && Lineage(parent, ver, n) == {Root(parent, ver, n)} + Descendants(parent, ver, Root(parent, ver, n))
            && |Heads(children, Lineage(parent, ver, n))|
               == 1 + SumExcess(children, BranchPoints(children, Lineage(parent, ver, n)))
            && ((forall c :: c in NamedParents(records) ==> (NamedParents(records)[c], c) in links) ==>
                  parent == NamedParents(records))
  {
    var records := Versions.Exec(Versions.EMPTY_VERSIONS, run).records;
    var ver, parent, children := VersionIn(records), LinkAll(links).0, LinkAll(links).1;
    NamedParentsAreForest(run);
    hide *;
    NamedLinksFit(links, NamedParents(records), ver);
    LineageIsRootAndDescendants(parent, ver, n);
    HeadCount(parent, children, ver, n);
    CompleteLinks(links, NamedParents(records), ver);
  }

  lemma CompleteLinks(links: seq<(string, string)>, named: Parents, ver: string -> nat)
    requires Forest(named, ver) && AllNamed(links, named)
    ensures (forall c :: c in named ==> (named[c], c) in links) ==> LinkAll(links).0 == named
  {
    NamedLinksFit(links, named, ver);
    hide *;
    if forall c :: c in named ==> (named[c], c) in links {
      forall c | c in named ensures c in LinkAll(links).0 {
        assert (named[c], c) in links;
        var i :| 0 <= i < |links| && links[i] == (named[c], c);
      }
    }
  }

  /** The root that a complete index finds is the first version of the lineage. */
  lemma {:induction false} RootIsFirstVersion(records: Versions.Records, id: string)
    requires Versions.AllRooted(records, records) && id in records
    requires Forest(NamedParents(records), VersionIn(records))
    ensures Root(NamedParents(records), VersionIn(records), id) == Versions.RootOf(records, id)
    decreases records[id].version
  {
    match records[id].supersedes {
      case None =>
      case Some(p) => RootIsFirstVersion(records, p);
    }
  }
}
