/** The causal graph: two adjacency maps kept as transposes, and the traversals. */
module Graph {
  import opened Prelude
  import opened Walks

  datatype Edge = Edge(target: string, kind: string, weight: real, edgeId: string, text: string, metadata: string)

  type Adjacency = map<string, seq<Edge>>

  datatype Direction = Outgoing | Incoming | Both

  function EdgesOf(adj: Adjacency, n: string): seq<Edge> {
    if n in adj then adj[n] else []
  }

  predicate KindMatches(e: Edge, kind: Option<string>) {
    kind.Some? ==> e.kind == kind.value
  }

  /** The edges of `a` that lead to `b`, in order, with the shared fields only. */
  function Links(edges: seq<Edge>, b: string): seq<Edge> {
    if |edges| == 0 then []
    else
      var last := edges[|edges| - 1];
      Links(edges[..|edges| - 1], b) + if last.target == b then [last.(target := "")] else []
  }

  /** Each edge stands once in either map, and parallel edges in the same order. */
  ghost predicate Transposed(outgoing: Adjacency, incoming: Adjacency) {
    forall u, v :: Links(EdgesOf(outgoing, u), v) == Links(EdgesOf(incoming, v), u)
  }

  function Retain(edges: seq<Edge>, target: string, kind: Option<string>): seq<Edge> {
    if |edges| == 0 then []
    else
      var last := edges[|edges| - 1];
      Retain(edges[..|edges| - 1], target, kind)
      + if last.target == target && KindMatches(last, kind) then [] else [last]
  }

  /** The links of a kind other than the removed one. */
  function OtherKinds(links: seq<Edge>, kind: Option<string>): seq<Edge> {
    if |links| == 0 then []
    else
      var last := links[|links| - 1];
      OtherKinds(links[..|links| - 1], kind) + if KindMatches(last, kind) then [] else [last]
  }

  lemma {:induction false} LinksAfterRetain(edges: seq<Edge>, target: string, kind: Option<string>, b: string)
    ensures Links(Retain(edges, target, kind), b)
         == if b == target then OtherKinds(Links(edges, b), kind) else Links(edges, b)
  {
    if |edges| > 0 {
      var init, last := edges[..|edges| - 1], edges[|edges| - 1];
      var links, link := Links(init, b), last.(target := "");
      LinksAfterRetain(init, target, kind, b);
      OtherKindsAppend(links, link, kind);
      assert Links(edges, b) == if last.target == b then links + [link] else links;
      if last.target == target && KindMatches(last, kind) {
        assert Retain(edges, target, kind) == Retain(init, target, kind);
      } else {
        LinksAppend(Retain(init, target, kind), last, b);
      }
    }
  }

  lemma OtherKindsAppend(links: seq<Edge>, link: Edge, kind: Option<string>)
    ensures OtherKinds(links + [link], kind) == OtherKinds(links, kind) + if KindMatches(link, kind) then [] else [link]
  {
    assert (links + [link])[..|links|] == links;
  }

  lemma LinksAppend(edges: seq<Edge>, e: Edge, b: string)
    ensures Links(edges + [e], b) == Links(edges, b) + if e.target == b then [e.(target := "")] else []
  {
    assert (edges + [e])[..|edges|] == edges;
  }

  /** The targets the traversals follow from a node. */
  function Targets(edges: seq<Edge>, kind: Option<string>): set<string> {
    set e | e in edges && KindMatches(e, kind) :: e.target
  }

  function DirectedEdges(outgoing: Adjacency, incoming: Adjacency, direction: Direction, n: string): seq<Edge> {
    (if direction != Incoming then EdgesOf(outgoing, n) else [])
    + (if direction != Outgoing then EdgesOf(incoming, n) else [])
  }

  function Moves(outgoing: Adjacency, incoming: Adjacency, direction: Direction, kind: Option<string>)
    : string -> set<string>
  {
    n => Targets(DirectedEdges(outgoing, incoming, direction, n), kind)
  }

  predicate Wanted(e: Edge, kind: Option<string>) {
    kind.None? || e.kind == kind.value
  }

  /** The nodes one step away: the other ends of the outgoing edges, of the incoming ones, or of
      both, of the kind asked for or of any. */
  lemma MovesAre(outgoing: Adjacency, incoming: Adjacency, direction: Direction, kind: Option<string>,
                 n: string, t: string)
    ensures t in Moves(outgoing, incoming, direction, kind)(n) <==>
              || (direction in {Outgoing, Both} && n in outgoing
                  && exists e :: e in outgoing[n] && e.target == t && Wanted(e, kind))
              || (direction in {Incoming, Both} && n in incoming
                  && exists e :: e in incoming[n] && e.target == t && Wanted(e, kind))
  {
    var edges := DirectedEdges(outgoing, incoming, direction, n);
    assert forall e :: e in edges <==>
        (direction != Incoming && e in EdgesOf(outgoing, n)) || (direction != Outgoing && e in EdgesOf(incoming, n));
    hide DirectedEdges;
    if t in Targets(edges, kind) {
      var e :| e in edges && KindMatches(e, kind) && e.target == t;
      assert Wanted(e, kind);
    }
    if e :| e in edges && e.target == t && Wanted(e, kind) {
      assert KindMatches(e, kind);
    }
  }

  function Stays(target: string, kind: Option<string>): Edge -> bool {
    (e: Edge) => !(e.target == target && Wanted(e, kind))
  }

  /** Removing takes away the edges to the target of the kind given, or of any kind, and leaves
      every other one in its place. */
  lemma {:induction false} RetainKeeps(edges: seq<Edge>, target: string, kind: Option<string>)
    ensures Retain(edges, target, kind) == Filter(edges, Stays(target, kind))
    ensures forall e :: e in Retain(edges, target, kind) <==> e in edges && !(e.target == target && Wanted(e, kind))
  {
    if |edges| > 0 {
      RetainKeeps(edges[..|edges| - 1], target, kind);
    }
  }

  lemma {:induction false} LinksShowTargets(edges: seq<Edge>, kind: Option<string>, b: string)
    ensures b in Targets(edges, kind) <==> exists l :: l in Links(edges, b) && KindMatches(l, kind)
  {
    if |edges| > 0 {
      var init, last := edges[..|edges| - 1], edges[|edges| - 1];
      LinksShowTargets(init, kind, b);
      assert edges == init + [last];
      assert Targets(edges, kind) == Targets(init, kind) + if KindMatches(last, kind) then {last.target} else {};
      if last.target == b {
        var link := last.(target := "");
        assert link in Links(edges, b) && KindMatches(link, kind) == KindMatches(last, kind);
      }
    }
  }

  lemma MovesTranspose(outgoing: Adjacency, incoming: Adjacency, kind: Option<string>, x: string, y: string)
    requires Transposed(outgoing, incoming)
    ensures y in Moves(outgoing, incoming, Outgoing, kind)(x) <==> x in Moves(outgoing, incoming, Incoming, kind)(y)
  {
    LinksShowTargets(EdgesOf(outgoing, x), kind, y);
    LinksShowTargets(EdgesOf(incoming, y), kind, x);
    assert DirectedEdges(outgoing, incoming, Outgoing, x) == EdgesOf(outgoing, x);
    assert DirectedEdges(outgoing, incoming, Incoming, y) == EdgesOf(incoming, y);
    assert Links(EdgesOf(outgoing, x), y) == Links(EdgesOf(incoming, y), x);
  }

  /** In every graph reached by adding and removing edges, `u` reaches `v` along
      outgoing edges exactly when `v` reaches `u` along incoming ones. */
  lemma ReachabilityIsSymmetric(outgoing: Adjacency, incoming: Adjacency, kind: Option<string>,
                                u: string, v: string, n: nat)
    requires Transposed(outgoing, incoming)
    ensures v in Ball(Moves(outgoing, incoming, Outgoing, kind), u, n)
       <==> u in Ball(Moves(outgoing, incoming, Incoming, kind), v, n)
  {
    var succ, pred := Moves(outgoing, incoming, Outgoing, kind), Moves(outgoing, incoming, Incoming, kind);
    forall x, y ensures y in succ(x) <==> x in pred(y) {
      MovesTranspose(outgoing, incoming, kind, x, y);
    }
    ReachIsSymmetric(succ, pred, u, v, n);
  }

  /** The edges listed under one source node. */
  function EdgesFrom(edges: seq<(string, Edge)>, n: string): seq<Edge> {
    if |edges| == 0 then []
    else
      var last := edges[|edges| - 1];
      EdgesFrom(edges[..|edges| - 1], n) + if last.0 == n then [last.1] else []
  }

  class GraphState {
    var outgoing: Adjacency
    var incoming: Adjacency

    ghost predicate Valid()
      reads this
    {
      Transposed(outgoing, incoming)
    }

    constructor ()
      ensures Valid() && outgoing == map[] && incoming == map[]
    {
      outgoing, incoming := map[], map[];
    }

    method AddEdge(source: string, e: Edge)
      requires Valid()
      modifies this
      ensures Valid()
      ensures outgoing == old(outgoing)[source := EdgesOf(old(outgoing), source) + [e]]
      ensures incoming == old(incoming)[e.target := EdgesOf(old(incoming), e.target) + [e.(target := source)]]
    {
      outgoing := outgoing[source := (if source in outgoing then outgoing[source] else []) + [e]];
      incoming := incoming[e.target := (if e.target in incoming then incoming[e.target] else [])
                                       + [e.(target := source)]];
      forall u, v ensures Links(EdgesOf(outgoing, u), v) == Links(EdgesOf(incoming, v), u) {
        LinksAppend(EdgesOf(old(outgoing), source), e, v);
        LinksAppend(EdgesOf(old(incoming), e.target), e.(target := source), u);
        assert Links(EdgesOf(old(outgoing), u), v) == Links(EdgesOf(old(incoming), v), u);
      }
    }

    method RemoveEdge(source: string, target: string, kind: Option<string>)
      requires Valid()
      modifies this
      ensures Valid()
      ensures forall u :: EdgesOf(outgoing, u)
                == if u == source then Retain(EdgesOf(old(outgoing), u), target, kind) else EdgesOf(old(outgoing), u)
      ensures forall v :: EdgesOf(incoming, v)
                == if v == target then Retain(EdgesOf(old(incoming), v), source, kind) else EdgesOf(old(incoming), v)
    {
      if source in outgoing {
        outgoing := outgoing[source := Retain(outgoing[source], target, kind)];
      }
      if target in incoming {
        incoming := incoming[target := Retain(incoming[target], source, kind)];
      }
      forall u, v ensures Links(EdgesOf(outgoing, u), v) == Links(EdgesOf(incoming, v), u) {
        LinksAfterRetain(EdgesOf(old(outgoing), source), target, kind, v);
        LinksAfterRetain(EdgesOf(old(incoming), target), source, kind, u);
        assert Links(EdgesOf(old(outgoing), u), v) == Links(EdgesOf(old(incoming), v), u);
      }
    }

    /** The body of the sweep for one node: emit its unseen targets. */
    method ExpandNode(node: string, kind: Option<string>, direction: Direction, visited: set<string>,
                      emitted: set<string>, result: seq<string>, next: seq<string>,
                      ghost start: string, ghost k: nat)
      returns (emitted': set<string>, result': seq<string>, next': seq<string>)
      requires var succ := Moves(outgoing, incoming, direction, kind);
               && Sweeping(succ, start, k, emitted, result, next)
               && node in Ball(succ, start, k) && start in visited
               && visited <= emitted + {start}
      ensures var succ := Moves(outgoing, incoming, direction, kind);
              && Sweeping(succ, start, k, emitted', result', next')
              && emitted <= emitted' && succ(node) <= emitted' + {start}
    {
      hide Sweeping, Ball;
      ghost var succ := Moves(outgoing, incoming, direction, kind);
      emitted', result', next' := emitted, result, next;
      var edges := DirectedEdges(outgoing, incoming, direction, node);
      for j := 0 to |edges|
        invariant Sweeping(succ, start, k, emitted', result', next')
        invariant emitted <= emitted' && Targets(edges[..j], kind) <= emitted' + {start}
      {
        var e := edges[j];
        TargetsStep(edges, j, kind);
        if KindMatches(e, kind) && e.target !in visited {
          if e.target !in emitted' {
            NextBall(succ, start, k, node, e.target);
            Emit(succ, start, k, emitted', result', next', node, e.target);
            emitted' := emitted' + {e.target};
            result' := result' + [e.target];
          } else {
            EmitAgain(succ, start, k, emitted', result', next', e.target);
          }
          next' := next' + [e.target];
        }
      }
      assert edges[..|edges|] == edges;
    }

    /** One frontier node: skipped when it was expanded before. */
    method VisitNode(node: string, kind: Option<string>, direction: Direction, visited: set<string>,
                     emitted: set<string>, result: seq<string>, next: seq<string>,
                     ghost start: string, ghost k: nat, ghost before: set<string>, ghost done: seq<string>)
      returns (visited': set<string>, emitted': set<string>, result': seq<string>, next': seq<string>)
      requires var succ := Moves(outgoing, incoming, direction, kind);
               && Sweeping(succ, start, k, emitted, result, next)
               && Expanded(succ, start, k, before, done, visited, emitted)
               && node in Ball(succ, start, k) && start in visited + {node}
      ensures var succ := Moves(outgoing, incoming, direction, kind);
              && Sweeping(succ, start, k, emitted', result', next')
              && Expanded(succ, start, k, before, done + [node], visited', emitted')
    {
      visited', emitted', result', next' := visited, emitted, result, next;
      if node !in visited {
        visited' := visited + {node};
        emitted', result', next' := ExpandNode(node, kind, direction, visited', emitted, result, next, start, k);
      }
    }

    /** One round of the sweep: expand every frontier node not yet visited. */
    method ExpandLevel(frontier: seq<string>, kind: Option<string>, direction: Direction, visited: set<string>,
                       emitted: set<string>, result: seq<string>, ghost start: string, ghost k: nat)
      returns (visited': set<string>, emitted': set<string>, result': seq<string>, next: seq<string>)
      requires LevelStart(Moves(outgoing, incoming, direction, kind), start, k, visited, emitted, result, frontier)
      ensures LevelStart(Moves(outgoing, incoming, direction, kind), start, k + 1, visited', emitted', result', next)
    {
      hide Ball, ByDistance;
      ghost var succ := Moves(outgoing, incoming, direction, kind);
      visited', emitted', result', next := visited, emitted, result, [];
      FirstRound(succ, start, k, visited, emitted, result, frontier);
      for i := 0 to |frontier|
        invariant Sweeping(succ, start, k, emitted', result', next)
        invariant Expanded(succ, start, k, visited, frontier[..i], visited', emitted')
      {
        assert frontier[..i + 1] == frontier[..i] + [frontier[i]];
        assert frontier[i] in frontier;
        StartIsVisited(succ, start, k, visited, frontier[..i], visited', emitted', frontier, frontier[i]);
        visited', emitted', result', next :=
          VisitNode(frontier[i], kind, direction, visited', emitted', result', next, start, k, visited, frontier[..i]);
      }
      assert frontier[..|frontier|] == frontier;
      RoundDone(succ, start, k, visited, frontier, visited', emitted', result', next);
    }

    /** Each node at filtered distance 1..depth once, nearer nodes first. */
    method Neighbors(start: string, depth: nat, kind: Option<string>, direction: Direction)
      returns (result: seq<string>)
      ensures Distinct(result)
      ensures forall x :: x in result <==>
                x != start && x in Ball(Moves(outgoing, incoming, direction, kind), start, depth)
      ensures ByDistance(Moves(outgoing, incoming, direction, kind), start, result)
    {
      var visited: set<string> := {};
      var frontier := [start];
      result := [];
      var emitted: set<string> := {};
      for k := 0 to depth
        invariant LevelStart(Moves(outgoing, incoming, direction, kind), start, k, visited, emitted, result, frontier)
      {
        visited, emitted, result, frontier :=
          ExpandLevel(frontier, kind, direction, visited, emitted, result, start, k);
      }
    }

    /** Follow the edges of one dequeued node; stop as soon as one hits the target. */
    method ExtendPath(current: string, path: seq<string>, target: string, queue: PathQueue, visited: set<string>,
                      ghost source: string, ghost k: nat, ghost m: nat)
      returns (found: Option<seq<string>>, queue': PathQueue, visited': set<string>)
      requires var succ := Moves(outgoing, incoming, Outgoing, None);
               && Searching(succ, source, target, k, queue, m, visited, {current})
               && current in Ball(succ, source, k)
               && WalkBetween(succ, source, current, path) && |path| == k + 1
      ensures var succ := Moves(outgoing, incoming, Outgoing, None);
              && (found.Some? ==> WalkBetween(succ, source, target, found.value) && |found.value| == k + 2)
              && (found.None? ==> Searching(succ, source, target, k, queue', m, visited', {}))
      ensures visited <= visited' <= visited + SuccTargets(current)
      ensures visited' == visited ==> queue' == queue
    {
      hide Searching, WalkBetween, Ball;
      ghost var succ := Moves(outgoing, incoming, Outgoing, None);
      found, queue', visited' := None, queue, visited;
      var edges := EdgesOf(outgoing, current);
      assert DirectedEdges(outgoing, incoming, Outgoing, current) == edges;
      for j := 0 to |edges|
        invariant Searching(succ, source, target, k, queue', m, visited', {current})
        invariant visited <= visited' <= visited + succ(current)
        invariant Targets(edges[..j], None) <= visited'
        invariant visited' == visited ==> queue' == queue
      {
        var t := edges[j].target;
        TargetsStep(edges, j, None);
        if t == target {
          WalkExtends(succ, source, current, path, t);
          found := Some(path + [t]);
          return;
        }
        if t !in visited' {
          PushBack(succ, source, target, k, queue', m, visited', current, path, t);
          visited' := visited' + {t};
          queue' := queue' + [(t, path + [t])];
        }
      }
      assert edges[..|edges|] == edges;
      CloseNode(succ, source, target, k, queue', m, visited', current);
    }

    ghost function SuccTargets(n: string): set<string>
      reads this
    {
      Moves(outgoing, incoming, Outgoing, None)(n)
    }

    /** Dequeue one entry: give up at the depth limit, or extend its path. */
    method SearchStep(source: string, target: string, depth: nat, queue: PathQueue, visited: set<string>,
                      ghost k: nat, ghost m: nat)
      returns (done: bool, found: Option<seq<string>>, queue': PathQueue, visited': set<string>)
      requires queue != [] && m > 0
      requires Searching(Moves(outgoing, incoming, Outgoing, None), source, target, k, queue, m, visited, {})
      ensures done ==> ShortestPath(Moves(outgoing, incoming, Outgoing, None), source, target, depth, found)
      ensures !done ==>
                Searching(Moves(outgoing, incoming, Outgoing, None), source, target, k, queue', m - 1, visited', {})
      ensures visited <= visited' <= visited + AllTargets(outgoing)
      ensures !done && visited' == visited ==> |queue'| < |queue|
    {
      ghost var succ := Moves(outgoing, incoming, Outgoing, None);
      var (current, path) := queue[0];
      if |path| > depth {
        TooFar(succ, source, target, k, queue, m, visited, depth);
        return true, None, queue, visited;
      }
      PopFront(succ, source, target, k, queue, m, visited);
      MovesStayInside(outgoing, incoming, current);
      found, queue', visited' := ExtendPath(current, path, target, queue[1..], visited, source, k, m - 1);
      done := found.Some?;
      if done {
        FoundShortest(succ, source, target, k, queue, m, visited, depth, found.value);
      }
    }

    /** A shortest outgoing walk of at most `depth` edges, or none when there is none. */
    method Path(source: string, target: string, depth: nat) returns (found: Option<seq<string>>)
      ensures ShortestPath(Moves(outgoing, incoming, Outgoing, None), source, target, depth, found)
    {
      hide Moves, Searching, ShortestPath, AllTargets, Ball;
      ghost var succ := Moves(outgoing, incoming, Outgoing, None);
      if source == target {
        StandingStill(succ, source, depth);
        return Some([source]);
      }
      var visited := {source};
      var queue: PathQueue := [(source, [source])];
      ghost var k: nat, m: nat := 0, 1;
      SearchStarts(succ, source, target);
      while queue != []
        invariant Searching(succ, source, target, k, queue, m, visited, {})
        invariant visited <= {source} + AllTargets(outgoing)
        decreases {source} + AllTargets(outgoing) - visited, |queue|
      {
        k, m := WaitingDistance(succ, source, target, k, queue, m, visited);
        var done;
        done, found, queue, visited := SearchStep(source, target, depth, queue, visited, k, m);
        if done {
          return;
        }
        m := m - 1;
      }
      NowhereToGo(succ, source, target, k, m, visited, depth);
      found := None;
    }

    /** Collect the edges of one node, and queue the targets not expanded yet. */
    method CollectNode(node: string, nodes: set<string>, edges: seq<(string, Edge)>, next: seq<string>,
                       ghost others: set<string>, ghost near: set<string>)
      returns (edges': seq<(string, Edge)>, next': seq<string>)
      requires Collected(outgoing, others, edges) && node !in others && nodes <= near
      ensures Collected(outgoing, others + {node}, edges')
      ensures forall x :: x in next' ==> x in next || x in SuccTargets(node)
      ensures forall x :: x in next || (x in SuccTargets(node) && x !in near) ==> x in next'
    {
      var found := EdgesOf(outgoing, node);
      assert DirectedEdges(outgoing, incoming, Outgoing, node) == found;
      edges', next' := edges, next;
      for j := 0 to |found|
        invariant edges' == edges + Tagged(node, found[..j])
        invariant forall x :: x in next' ==> x in next || x in Targets(found[..j], None)
        invariant forall x :: x in next || (x in Targets(found[..j], None) && x !in near) ==> x in next'
      {
        TargetsStep(found, j, None);
        assert Tagged(node, found[..j + 1]) == Tagged(node, found[..j]) + [(node, found[j])];
        edges' := edges' + [(node, found[j])];
        if found[j].target !in nodes {
          next' := next' + [found[j].target];
        }
      }
      assert found[..|found|] == found;
      CollectedGrows(outgoing, others, edges, node);
    }

    /** One frontier node of a level: skipped when it was expanded before. */
    method CollectVisit(node: string, nodes: set<string>, edges: seq<(string, Edge)>, next: seq<string>,
                        ghost root: string, ghost k: nat, ghost before: set<string>, ghost done: seq<string>)
      returns (nodes': set<string>, edges': seq<(string, Edge)>, next': seq<string>)
      requires NextLevel(Moves(outgoing, incoming, Outgoing, None), root, k, before, done, nodes, next)
      requires Collected(outgoing, nodes, edges) && node in Ball(Moves(outgoing, incoming, Outgoing, None), root, k)
      ensures NextLevel(Moves(outgoing, incoming, Outgoing, None), root, k, before, done + [node], nodes', next')
      ensures Collected(outgoing, nodes', edges')
    {
      ghost var succ := Moves(outgoing, incoming, Outgoing, None);
      nodes', edges', next' := nodes + {node}, edges, next;
      if node !in nodes {
        edges', next' := CollectNode(node, nodes', edges, next, nodes, Ball(succ, root, k));
      } else {
        assert nodes' == nodes;
      }
      NextLevelStep(succ, root, k, before, done, nodes, next, node, next');
    }

    method CollectLevel(nodes: set<string>, edges: seq<(string, Edge)>, frontier: seq<string>, ghost root: string,
                        ghost k: nat)
      returns (nodes': set<string>, edges': seq<(string, Edge)>, next: seq<string>)
      requires LevelOf(Moves(outgoing, incoming, Outgoing, None), root, k, nodes, frontier)
      requires Collected(outgoing, nodes, edges)
      ensures LevelOf(Moves(outgoing, incoming, Outgoing, None), root, k + 1, nodes', next)
      ensures Collected(outgoing, nodes', edges')
    {
      hide Ball, NextLevel, Collected;
      ghost var succ := Moves(outgoing, incoming, Outgoing, None);
      nodes', edges', next := nodes, edges, [];
      LevelNodesAreNear(succ, root, k, nodes, frontier);
      for i := 0 to |frontier|
        invariant Collected(outgoing, nodes', edges')
        invariant NextLevel(succ, root, k, nodes, frontier[..i], nodes', next)
      {
        assert frontier[..i + 1] == frontier[..i] + [frontier[i]] && frontier[i] in frontier;
        nodes', edges', next := CollectVisit(frontier[i], nodes', edges', next, root, k, nodes, frontier[..i]);
      }
      assert frontier[..|frontier|] == frontier;
      NextLevelDone(succ, root, k, nodes, frontier, nodes', next);
    }

    /** The nodes within `depth`, and the outgoing edges of the nodes nearer than that. */
    method Subgraph(root: string, depth: nat) returns (nodes: set<string>, edges: seq<(string, Edge)>)
      ensures nodes == Ball(Moves(outgoing, incoming, Outgoing, None), root, depth)
      ensures forall n :: EdgesFrom(edges, n)
                == if depth > 0 && n in Ball(Moves(outgoing, incoming, Outgoing, None), root, depth - 1)
                   then EdgesOf(outgoing, n) else []
    {
      ghost var succ := Moves(outgoing, incoming, Outgoing, None);
      nodes, edges := {}, [];
      var frontier := [root];
      for k := 0 to depth
        invariant LevelOf(succ, root, k, nodes, frontier) && Collected(outgoing, nodes, edges)
      {
        nodes, edges, frontier := CollectLevel(nodes, edges, frontier, root, k);
      }
      nodes := nodes + set x | x in frontier;
      if depth > 0 {
        BallGrows(succ, root, depth - 1, depth);
      }
    }
  }

  function AllTargets(outgoing: Adjacency): set<string> {
    set n, e | n in outgoing && e in outgoing[n] :: e.target
  }

  lemma MovesStayInside(outgoing: Adjacency, incoming: Adjacency, n: string)
    ensures Moves(outgoing, incoming, Outgoing, None)(n) <= AllTargets(outgoing)
  {
    assert DirectedEdges(outgoing, incoming, Outgoing, n) == EdgesOf(outgoing, n);
  }

  function Tagged(node: string, found: seq<Edge>): seq<(string, Edge)> {
    seq(|found|, i requires 0 <= i < |found| => (node, found[i]))
  }

  lemma {:induction false} EdgesFromTagged(edges: seq<(string, Edge)>, node: string, found: seq<Edge>, n: string)
    ensures EdgesFrom(edges + Tagged(node, found), n) == EdgesFrom(edges, n) + if n == node then found else []
  {
    hide EdgesFrom;
    if |found| == 0 {
      assert edges + Tagged(node, found) == edges;
    } else {
      var init, last := found[..|found| - 1], found[|found| - 1];
      EdgesFromTagged(edges, node, init, n);
      TaggedAppend(edges, node, init, last);
      EdgesFromAppend(edges + Tagged(node, init), (node, last), n);
      assert init + [last] == found;
    }
  }

  lemma TaggedAppend(edges: seq<(string, Edge)>, node: string, init: seq<Edge>, last: Edge)
    ensures edges + Tagged(node, init + [last]) == edges + Tagged(node, init) + [(node, last)]
  {
  }

  lemma EdgesFromAppend(edges: seq<(string, Edge)>, e: (string, Edge), n: string)
    ensures EdgesFrom(edges + [e], n) == EdgesFrom(edges, n) + if e.0 == n then [e.1] else []
  {
    assert (edges + [e])[..|edges|] == edges;
  }

  lemma CollectedGrows(outgoing: Adjacency, others: set<string>, edges: seq<(string, Edge)>, node: string)
    requires Collected(outgoing, others, edges) && node !in others
    ensures Collected(outgoing, others + {node}, edges + Tagged(node, EdgesOf(outgoing, node)))
  {
    forall n {
      EdgesFromTagged(edges, node, EdgesOf(outgoing, node), n);
    }
  }

  /** The collected edges are the whole edge lists of the expanded nodes. */
  ghost predicate Collected(outgoing: Adjacency, nodes: set<string>, edges: seq<(string, Edge)>) {
    forall n :: EdgesFrom(edges, n) == if n in nodes then EdgesOf(outgoing, n) else []
  }

  lemma StartIsVisited(succ: string -> set<string>, start: string, k: nat, before: set<string>, done: seq<string>,
                       visited: set<string>, emitted: set<string>, frontier: seq<string>, node: string)
    requires Expanded(succ, start, k, before, done, visited, emitted)
    requires done + [node] <= frontier && (k == 0 ==> frontier == [start])
    requires k > 0 ==> before == Ball(succ, start, k - 1)
    ensures start in visited + {node}
  {
    if k > 0 {
      BallGrows(succ, start, 0, k - 1);
    } else {
      assert (done + [node])[|done|] == frontier[|done|];
    }
  }

  lemma EmitAgain(succ: string -> set<string>, start: string, k: nat,
                  emitted: set<string>, result: seq<string>, next: seq<string>, t: string)
    requires Sweeping(succ, start, k, emitted, result, next) && t in emitted
    ensures Sweeping(succ, start, k, emitted, result, next + [t])
  {
  }

  lemma TargetsStep(edges: seq<Edge>, j: nat, kind: Option<string>)
    requires j < |edges|
    ensures Targets(edges[..j + 1], kind)
         == Targets(edges[..j], kind) + if KindMatches(edges[j], kind) then {edges[j].target} else {}
    ensures KindMatches(edges[j], kind) ==> edges[j].target in Targets(edges, kind)
  {
    assert edges[..j + 1] == edges[..j] + [edges[j]];
  }
}
