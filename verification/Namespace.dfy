/** Reading a namespace through the master index against a scan of every record. */
module Namespace {
  import opened Prelude
  import Master = MasterIndex
  import Versions

  // ---- one handle on a store, as values

  /** The part of a master index that namespace reads use: the namespace of each
      indexed id, and the ids marked superseded and deprecated. */
  datatype Index = Index(members: map<string, string>, superseded: set<string>, deprecated: set<string>)

  /** The store on disk (the namespace of every record, and its sidecars), the index in
      memory and the index saved last. */
  datatype Handle = Handle(records: map<string, string>, superseded: set<string>, deprecated: set<string>,
                           index: Index, saved: Option<Index>)

  const NOTHING := Index(map[], {}, {})
  const NEW_STORE := Handle(map[], {}, {}, NOTHING, None)

  /** What `get` lets through. */
  predicate Visible(h: Handle, r: string, includeDeprecated: bool, includeSuperseded: bool) {
    r in h.records && (includeDeprecated || r !in h.deprecated) && (includeSuperseded || r !in h.superseded)
  }

  ghost function Scan(h: Handle, ns: string, includeDeprecated: bool, includeSuperseded: bool): set<string> {
    set r | r in h.records && h.records[r] == ns && Visible(h, r, includeDeprecated, includeSuperseded)
  }

  ghost function Listed(ix: Index, ns: string, includeDeprecated: bool, includeSuperseded: bool): set<string> {
    set r | r in ix.members && ix.members[r] == ns && (includeDeprecated || r !in ix.deprecated)
            && (includeSuperseded || r !in ix.superseded)
  }

  ghost function Indexed(h: Handle, ns: string, includeDeprecated: bool, includeSuperseded: bool): set<string> {
    set r | r in Listed(h.index, ns, includeDeprecated, includeSuperseded)
            && Visible(h, r, includeDeprecated, includeSuperseded)
  }

  ghost predicate AgreesOn(h: Handle, ns: string, includeDeprecated: bool, includeSuperseded: bool) {
    Indexed(h, ns, includeDeprecated, includeSuperseded) == Scan(h, ns, includeDeprecated, includeSuperseded)
  }

  ghost predicate AgreesAlways(h: Handle) {
    forall ns, d, s :: AgreesOn(h, ns, d, s)
  }

  // ---- runs

  /** `Foreign…` comes from another process, which this index does not see, and
      `CutShort` is an update that died between the record and its sidecar. */
  datatype Event =
    | Write(id: string, ns: string)
    | Update(prior: string, id: string, ns: string)
    | Deprecate(id: string)
    | Persist
    | Restart
    | ForeignDeprecate(id: string)
    | ForeignWrite(id: string, ns: string)
    | ForeignUpdate(prior: string, id: string, ns: string)
    | CutShort(id: string, ns: string)

  predicate Enabled(h: Handle, e: Event) {
    match e
    case Write(id, _) => id !in h.records
    case Update(prior, id, _) => prior in h.records && id !in h.records
    case Deprecate(id) => id in h.records
    case ForeignDeprecate(id) => id in h.records
    case ForeignWrite(id, _) => id !in h.records
    case ForeignUpdate(prior, id, _) => prior in h.records && id !in h.records
    case CutShort(id, _) => id !in h.records
    case _ => true
  }

  function Indexing(ix: Index, id: string, ns: string): Index {
    ix.(members := ix.members[id := ns])
  }

  /** A restart loads the saved index, and rebuilds it from the records when it lists
      none. Rebuilding brings back no mark. */
  function Next(h: Handle, e: Event): Handle {
    match e
    case Write(id, ns) => h.(records := h.records[id := ns], index := Indexing(h.index, id, ns))
    case Update(prior, id, ns) =>
      h.(records := h.records[id := ns], superseded := h.superseded + {prior},
         index := Indexing(h.index, id, ns).(superseded := h.index.superseded + {prior}))
    case Deprecate(id) =>
      h.(deprecated := h.deprecated + {id},
         index := if id in h.deprecated then h.index else h.index.(deprecated := h.index.deprecated + {id}))
    case Persist => h.(saved := Some(h.index))
    case Restart =>
      var loaded := if h.saved.Some? then h.saved.value else NOTHING;
      h.(index := if |h.records| > 0 && |loaded.members| == 0 then loaded.(members := h.records) else loaded)
    case ForeignDeprecate(id) => h.(deprecated := h.deprecated + {id})
    case ForeignWrite(id, ns) => h.(records := h.records[id := ns])
    case ForeignUpdate(prior, id, ns) => h.(records := h.records[id := ns], superseded := h.superseded + {prior})
    case CutShort(id, ns) => h.(records := h.records[id := ns])
  }

  predicate Legal(h: Handle, run: seq<Event>)
    decreases |run|
  {
    |run| == 0 || (Enabled(h, run[0]) && Legal(Next(h, run[0]), run[1..]))
  }

  function Exec(h: Handle, run: seq<Event>): Handle
    decreases |run|
  {
    if |run| == 0 then h else Exec(Next(h, run[0]), run[1..])
  }

  /** An index knows nothing that is not on disk. */
  ghost predicate Backed(ix: Index, h: Handle) {
    && (forall r :: r in ix.members ==> r in h.records && h.records[r] == ix.members[r])
    && ix.superseded <= h.superseded
    && ix.deprecated <= h.deprecated
  }

  ghost predicate Inv(h: Handle) {
    Backed(h.index, h) && (h.saved.Some? ==> Backed(h.saved.value, h))
  }

  lemma NextKeepsInv(h: Handle, e: Event)
    requires Inv(h) && Enabled(h, e)
    ensures Inv(Next(h, e))
  {
  }

  lemma {:induction false} RunKeepsInv(h: Handle, run: seq<Event>)
    requires Inv(h) && Legal(h, run)
    ensures Inv(Exec(h, run))
    decreases |run|
  {
    if |run| > 0 {
      NextKeepsInv(h, run[0]);
      RunKeepsInv(Next(h, run[0]), run[1..]);
    }
  }

  // ---- agreement

  /** A backed index never shows more than the scan, and shows all of it exactly when
      it lists what the scan finds. */
  lemma IndexedIsScanIff(h: Handle, ns: string, d: bool, s: bool)
    requires Inv(h)
    ensures Indexed(h, ns, d, s) <= Scan(h, ns, d, s)
    ensures AgreesOn(h, ns, d, s) <==> Scan(h, ns, d, s) <= h.index.members.Keys
  {
    if AgreesOn(h, ns, d, s) {
      forall r | r in Scan(h, ns, d, s) ensures r in h.index.members {
        assert r in Indexed(h, ns, d, s);
      }
    }
  }

  /** In every reachable state, with crashes and other processes, the two reads are the
      same for every namespace and both flags exactly when the index lists every
      record. */
  lemma AgreementIff(run: seq<Event>)
    requires Legal(NEW_STORE, run)
    ensures var h := Exec(NEW_STORE, run);
            AgreesAlways(h) <==> h.index.members.Keys == h.records.Keys
  {
    RunKeepsInv(NEW_STORE, run);
    var h := Exec(NEW_STORE, run);
    forall ns, d, s
      ensures AgreesOn(h, ns, d, s) <==> Scan(h, ns, d, s) <= h.index.members.Keys
    {
      IndexedIsScanIff(h, ns, d, s);
    }
    if AgreesAlways(h) {
      forall r | r in h.records ensures r in h.index.members {
        assert AgreesOn(h, h.records[r], true, true);
        assert r in Scan(h, h.records[r], true, true);
      }
    }
  }

  ghost predicate Complete(h: Handle) {
    h.index.members.Keys == h.records.Keys
  }

  /** Of all steps only a write the index does not see can lose completeness, and a
      restart that loads an old, non-empty index. */
  lemma StaysCompleteIff(h: Handle, e: Event)
    requires Inv(h) && Enabled(h, e) && Complete(h)
    ensures Complete(Next(h, e)) <==>
              && !e.ForeignWrite? && !e.ForeignUpdate? && !e.CutShort?
              && (e.Restart? && h.saved.Some? ==>
                    |h.saved.value.members| == 0 || h.saved.value.members.Keys == h.records.Keys)
  {
    match e {
      case ForeignWrite(id, ns) => assert id in Next(h, e).records && id !in h.index.members;
      case ForeignUpdate(_, id, ns) => assert id in Next(h, e).records && id !in h.index.members;
      case CutShort(id, ns) => assert id in Next(h, e).records && id !in h.index.members;
      case _ =>
    }
  }

  /** Each write goes through this handle, and each restart finds an index saved since
      the last write, or none. */
  ghost predicate SeesAllWrites(h: Handle, run: seq<Event>)
    decreases |run|
  {
    |run| > 0 ==>
      && !run[0].ForeignWrite? && !run[0].ForeignUpdate? && !run[0].CutShort?
      && (run[0].Restart? && h.saved.Some? ==>
            |h.saved.value.members| == 0 || h.saved.value.members.Keys == h.records.Keys)
      && SeesAllWrites(Next(h, run[0]), run[1..])
  }

  lemma {:induction false} CompleteThroughout(h: Handle, run: seq<Event>)
    requires Inv(h) && Legal(h, run) && Complete(h) && SeesAllWrites(h, run)
    ensures Complete(Exec(h, run))
    decreases |run|
  {
    if |run| > 0 {
      NextKeepsInv(h, run[0]);
      StaysCompleteIff(h, run[0]);
      CompleteThroughout(Next(h, run[0]), run[1..]);
    }
  }

  /** A handle whose index saw all writes reads what a scan reads, also after a rebuild
      that forgot every mark and after deprecations by others. */
  lemma IndexedReadIsScan(run: seq<Event>, ns: string, d: bool, s: bool)
    requires Legal(NEW_STORE, run) && SeesAllWrites(NEW_STORE, run)
    ensures AgreesOn(Exec(NEW_STORE, run), ns, d, s)
  {
    CompleteThroughout(NEW_STORE, run);
    AgreementIff(run);
  }

  /** What the index learns from a step: its own writes, updates and first deprecations, and
      nothing from others. */
  lemma IndexLearns(h: Handle, e: Event, id: string)
    requires Enabled(h, e) && !e.Restart?
    ensures var ix := Next(h, e).index;
            && (id in ix.members <==> id in h.index.members || ((e.Write? || e.Update?) && e.id == id))
            && (id in ix.members && !((e.Write? || e.Update?) && e.id == id) ==> ix.members[id] == h.index.members[id])
            && ((e.Write? || e.Update?) && e.id == id ==> ix.members[id] == e.ns)
            && (id in ix.superseded <==> id in h.index.superseded || (e.Update? && e.prior == id))
            && (id in ix.deprecated <==> id in h.index.deprecated || (e == Deprecate(id) && id !in h.deprecated))
  {
  }

  // ---- what a read shows, from the writes alone

  /** The record a step writes, and its namespace. */
  function Wrote(e: Event): Option<(string, string)> {
    match e
    case Write(id, ns) => Some((id, ns))
    case Update(_, id, ns) => Some((id, ns))
    case ForeignWrite(id, ns) => Some((id, ns))
    case ForeignUpdate(_, id, ns) => Some((id, ns))
    case CutShort(id, ns) => Some((id, ns))
    case _ => None
  }

  predicate Deprecates(e: Event, id: string) {
    e == Deprecate(id) || e == ForeignDeprecate(id)
  }

  /** A sidecar for the record: an update cut short leaves none. */
  predicate Supersedes(e: Event, id: string) {
    (e.Update? || e.ForeignUpdate?) && e.prior == id
  }

  ghost predicate EverWrote(run: seq<Event>, id: string, ns: string) {
    exists i :: 0 <= i < |run| && Wrote(run[i]) == Some((id, ns))
  }

  ghost predicate EverDeprecated(run: seq<Event>, id: string) {
    exists i :: 0 <= i < |run| && Deprecates(run[i], id)
  }

  ghost predicate EverSuperseded(run: seq<Event>, id: string) {
    exists i :: 0 <= i < |run| && Supersedes(run[i], id)
  }

  lemma FirstOrLater(run: seq<Event>, id: string, ns: string)
    requires |run| > 0
    ensures EverWrote(run, id, ns) <==> Wrote(run[0]) == Some((id, ns)) || EverWrote(run[1..], id, ns)
    ensures EverDeprecated(run, id) <==> Deprecates(run[0], id) || EverDeprecated(run[1..], id)
    ensures EverSuperseded(run, id) <==> Supersedes(run[0], id) || EverSuperseded(run[1..], id)
  {
    hide Wrote, Deprecates, Supersedes;
    assert forall i :: 0 < i < |run| ==> run[i] == run[1..][i - 1];
    assert forall i :: 0 <= i < |run[1..]| ==> run[1..][i] == run[i + 1];
  }

  lemma NextOnDisk(h: Handle, e: Event, id: string, ns: string)
    requires Enabled(h, e)
    ensures var t := Next(h, e);
            && ((id in t.records && t.records[id] == ns) <==>
                  (id in h.records && h.records[id] == ns) || Wrote(e) == Some((id, ns)))
            && (id in t.deprecated <==> id in h.deprecated || Deprecates(e, id))
            && (id in t.superseded <==> id in h.superseded || Supersedes(e, id))
  {
  }

  lemma {:induction false} DiskHoldsTheRun(h: Handle, run: seq<Event>, id: string, ns: string)
    requires Legal(h, run)
    ensures var t := Exec(h, run);
            && ((id in t.records && t.records[id] == ns) <==>
                  (id in h.records && h.records[id] == ns) || EverWrote(run, id, ns))
            && (id in t.deprecated <==> id in h.deprecated || EverDeprecated(run, id))
            && (id in t.superseded <==> id in h.superseded || EverSuperseded(run, id))
    decreases |run|
  {
    if |run| > 0 {
      NextOnDisk(h, run[0], id, ns);
      FirstOrLater(run, id, ns);
      hide Next, Wrote, Deprecates, Supersedes, EverWrote, EverDeprecated, EverSuperseded, Enabled;
      DiskHoldsTheRun(Next(h, run[0]), run[1..], id, ns);
    }
  }

  /** A scan shows a record exactly when some step of the run wrote it in the namespace, and none
      deprecated or superseded it, unless those are asked for too. */
  lemma ScanShowsTheRun(run: seq<Event>, ns: string, includeDeprecated: bool, includeSuperseded: bool, id: string)
    requires Legal(NEW_STORE, run)
    ensures id in Scan(Exec(NEW_STORE, run), ns, includeDeprecated, includeSuperseded) <==>
              && EverWrote(run, id, ns)
              && (includeDeprecated || !EverDeprecated(run, id))
              && (includeSuperseded || !EverSuperseded(run, id))
  {
    DiskHoldsTheRun(NEW_STORE, run, id, ns);
    hide Exec;
  }

  /** So does a handle whose index saw all writes. */
  lemma IndexedShowsTheRun(run: seq<Event>, ns: string, includeDeprecated: bool, includeSuperseded: bool, id: string)
    requires Legal(NEW_STORE, run) && SeesAllWrites(NEW_STORE, run)
    ensures id in Indexed(Exec(NEW_STORE, run), ns, includeDeprecated, includeSuperseded) <==>
              && EverWrote(run, id, ns)
              && (includeDeprecated || !EverDeprecated(run, id))
              && (includeSuperseded || !EverSuperseded(run, id))
  {
    IndexedReadIsScan(run, ns, includeDeprecated, includeSuperseded);
    ScanShowsTheRun(run, ns, includeDeprecated, includeSuperseded, id);
    hide Exec, Scan, Indexed, EverWrote, EverDeprecated, EverSuperseded, SeesAllWrites;
  }

  // ---- the limit

  function Shown(ids: seq<string>, visible: set<string>): (r: seq<string>)
    ensures forall x :: x in r ==> x in visible
  {
    if |ids| == 0 then []
    else Shown(ids[..|ids| - 1], visible) + if ids[|ids| - 1] in visible then [ids[|ids| - 1]] else []
  }

  lemma ShownAppend(s: seq<string>, x: string, visible: set<string>)
    ensures Shown(s + [x], visible) == Shown(s, visible) + if x in visible then [x] else []
  {
    assert (s + [x])[..|s|] == s;
  }

  lemma ShownNothing(s: seq<string>, visible: set<string>)
    requires |s| == 0
    ensures Shown(s, visible) == []
  {
  }

  lemma {:induction false} ShownConcat(a: seq<string>, b: seq<string>, visible: set<string>)
    ensures Shown(a + b, visible) == Shown(a, visible) + Shown(b, visible)
  {
    hide *;
    if |b| == 0 {
      assert a + b == a;
      ShownNothing(b, visible);
    } else {
      var init, x := b[..|b| - 1], b[|b| - 1];
      ShownConcat(a, init, visible);
      ShownAppend(a + init, x, visible);
      ShownAppend(init, x, visible);
      assert a + b == (a + init) + [x] && b == init + [x];
    }
  }

  lemma {:induction false} ShownAllIff(ids: seq<string>, visible: set<string>)
    ensures |Shown(ids, visible)| <= |ids|
    ensures |Shown(ids, visible)| == |ids| <==> forall x :: x in ids ==> x in visible
    ensures |Shown(ids, visible)| == 0 <==> forall x :: x in ids ==> x !in visible
  {
    if |ids| > 0 {
      ShownAllIff(ids[..|ids| - 1], visible);
      assert forall x :: x in ids <==> x in ids[..|ids| - 1] || x == ids[|ids| - 1];
    }
  }

  /** The index cuts its list to the limit before it knows what is visible. It still
      returns as many as it could exactly when no visible id is cut off, or none of
      the ids it kept is hidden. */
  lemma LimitedIff(ids: seq<string>, visible: set<string>, limit: nat)
    requires limit <= |ids|
    ensures |Shown(ids[..limit], visible)| == (if |Shown(ids, visible)| < limit then |Shown(ids, visible)| else limit)
       <==> (forall x :: x in ids[..limit] ==> x in visible) || (forall x :: x in ids[limit..] ==> x !in visible)
  {
    assert ids == ids[..limit] + ids[limit..];
    ShownConcat(ids[..limit], ids[limit..], visible);
    ShownAllIff(ids[..limit], visible);
    ShownAllIff(ids[limit..], visible);
    hide Shown;
  }

  /** Two ids and a limit of one: the first is deprecated by another process, so the
      indexed read comes back empty and the scan finds the second. */
  lemma LimitHidesARecord(a: string, b: string, ns: string)
    requires a != b
    ensures var h := Exec(NEW_STORE, [Write(a, ns), Write(b, ns), ForeignDeprecate(a)]);
            && Legal(NEW_STORE, [Write(a, ns), Write(b, ns), ForeignDeprecate(a)])
            && Listed(h.index, ns, false, false) == {a, b}
            && Shown([a, b][..1], Scan(h, ns, false, false)) == []
            && Scan(h, ns, false, false) == {b}
  {
    var h1 := Next(NEW_STORE, Write(a, ns));
    var h2 := Next(h1, Write(b, ns));
    var h3 := Next(h2, ForeignDeprecate(a));
    assert [Write(a, ns), Write(b, ns), ForeignDeprecate(a)][1..] == [Write(b, ns), ForeignDeprecate(a)];
    assert [Write(b, ns), ForeignDeprecate(a)][1..] == [ForeignDeprecate(a)];
    assert [ForeignDeprecate(a)][1..] == [];
    assert Legal(h3, []) && Exec(h3, []) == h3;
    assert Legal(h2, [ForeignDeprecate(a)]) && Exec(h2, [ForeignDeprecate(a)]) == h3;
    assert Legal(h1, [Write(b, ns), ForeignDeprecate(a)]) && Exec(h1, [Write(b, ns), ForeignDeprecate(a)]) == h3;
    assert Exec(NEW_STORE, [Write(a, ns), Write(b, ns), ForeignDeprecate(a)]) == h3;
    assert [a, b][..1] == [a] && [a][..0] == [];
    assert Scan(h3, ns, false, false) == {b};
  }

  // ---- the reading side, as an object

  /** A record as read, with what its sidecars add. */
  datatype Reading = Reading(id: string, namespace: string, deprecated: bool, supersededBy: Option<string>)

  method ListIds(ids: set<string>) returns (order: seq<string>)
    ensures Distinct(order) && forall r :: r in order <==> r in ids
  {
    order := [];
    var left := ids;
    while left != {}
      invariant left <= ids && Distinct(order)
      invariant forall r :: r in order <==> r in ids && r !in left
      decreases left
    {
      var r :| r in left;
      order, left := order + [r], left - {r};
    }
  }

  class ReadEngine {
    var index: Master.MasterIndex?
    var records: map<string, string>
    var superseded: map<string, string>
    var deprecated: set<string>

    constructor (index: Master.MasterIndex?, records: map<string, string>, superseded: map<string, string>,
                 deprecated: set<string>)
      ensures this.index == index && this.records == records
      ensures this.superseded == superseded && this.deprecated == deprecated
    {
      this.index, this.records, this.superseded, this.deprecated := index, records, superseded, deprecated;
    }

    function Sees(id: string, includeDeprecated: bool, includeSuperseded: bool): bool
      reads this
    {
      id in records && (includeDeprecated || id !in deprecated) && (includeSuperseded || id !in superseded)
    }

    /** A record with what its sidecars add. */
    function ReadingOf(id: string): Reading
      requires id in records
      reads this
    {
      Reading(id, records[id], id in deprecated, if id in superseded then Some(superseded[id]) else None)
    }

    ghost function Readings(ids: seq<string>): seq<Reading>
      requires forall r :: r in ids ==> r in records
      reads this
    {
      seq(|ids|, i requires 0 <= i < |ids| && ids[i] in records reads this => ReadingOf(ids[i]))
    }

    /** Each of the wanted ids once, in some order. */
    ghost predicate Lists(ids: seq<string>, wanted: set<string>)
      reads this
    {
      Distinct(ids) && (forall r :: r in ids <==> r in wanted) && forall r :: r in ids ==> r in records
    }

    ghost function SeenIds(includeDeprecated: bool, includeSuperseded: bool): set<string>
      reads this
      ensures forall r :: r in SeenIds(includeDeprecated, includeSuperseded) ==> r in records
    {
      set r | r in records && Sees(r, includeDeprecated, includeSuperseded)
    }

    ghost function SeenIn(ns: string, includeDeprecated: bool, includeSuperseded: bool): set<string>
      reads this
      ensures forall r :: r in SeenIn(ns, includeDeprecated, includeSuperseded) ==> r in records
    {
      set r | r in records && records[r] == ns && Sees(r, includeDeprecated, includeSuperseded)
    }

    method Get(id: string, includeDeprecated: bool, includeSuperseded: bool) returns (r: Option<Reading>)
      ensures r == if Sees(id, includeDeprecated, includeSuperseded) then Some(ReadingOf(id)) else None
      ensures r.Some? <==> && id in records && (includeDeprecated || id !in deprecated)
                           && (includeSuperseded || id !in superseded)
      ensures r.Some? ==> && r.value.id == id && r.value.namespace == records[id]
                          && (r.value.deprecated <==> id in deprecated)
                          && (r.value.supersededBy.Some? <==> id in superseded)
                          && (id in superseded ==> r.value.supersededBy.value == superseded[id])
    {
      if id !in records {
        return None;
      }
      var reading := Reading(id, records[id], false, None);
      if id in deprecated {
        if !includeDeprecated {
          return None;
        }
        reading := reading.(deprecated := true);
      }
      if id in superseded && !includeSuperseded {
        return None;
      }
      if id in superseded {
        reading := reading.(supersededBy := Some(superseded[id]));
      }
      r := Some(reading);
    }

    lemma ReadOne(ids: seq<string>, i: nat, wanted: set<string>)
      requires i < |ids| && forall r :: r in wanted ==> r in records
      ensures Readings(Shown(ids[..i + 1], wanted))
           == Readings(Shown(ids[..i], wanted)) + if ids[i] in wanted then [ReadingOf(ids[i])] else []
    {
      assert ids[..i + 1] == ids[..i] + [ids[i]];
      ShownAppend(ids[..i], ids[i], wanted);
    }

    /** The end of the supersession chain, unless it is hidden. */
    method GetCurrent(id: string) returns (r: Option<Reading>)
      ensures var head := Versions.Head(superseded, id);
              r == if Sees(head, false, false) then Some(ReadingOf(head)) else None
    {
      var chain := Versions.Chain(superseded, id);
      r := Get(chain[|chain| - 1], false, false);
    }

    method GetMany(ids: seq<string>, includeDeprecated: bool, includeSuperseded: bool) returns (found: seq<Reading>)
      ensures found == Readings(Shown(ids, SeenIds(includeDeprecated, includeSuperseded)))
    {
      found := [];
      var i := 0;
      while i < |ids|
        invariant 0 <= i <= |ids|
        invariant found == Readings(Shown(ids[..i], SeenIds(includeDeprecated, includeSuperseded)))
      {
        var r := Get(ids[i], includeDeprecated, includeSuperseded);
        ReadOne(ids, i, SeenIds(includeDeprecated, includeSuperseded));
        if r.Some? {
          found := found + [r.value];
        }
        i := i + 1;
      }
      assert ids[..i] == ids;
    }

    /** The ids that the index lists for a namespace, each once in some order. */
    ghost predicate IsListing(ids: seq<string>, ns: string, includeDeprecated: bool, includeSuperseded: bool)
      requires index != null
      reads this, index
    {
      && Distinct(ids)
      && forall r :: r in ids <==>
           && ns in index.namespaces && r in index.namespaces[ns]
           && (includeDeprecated || r !in index.deprecated) && (includeSuperseded || r !in index.superseded)
    }

    /** The ids of the index cut to the limit, and of those the visible ones. */
    ghost predicate ReadFromIndex(found: seq<Reading>, ids: seq<string>, ns: string, includeDeprecated: bool,
                                  includeSuperseded: bool, limit: Option<int>)
      requires index != null
      reads this, index
    {
      && IsListing(ids, ns, includeDeprecated, includeSuperseded)
      && found == Readings(Shown(if limit.Some? then Slice(ids, limit.value) else ids,
                                 SeenIds(includeDeprecated, includeSuperseded)))
    }

    /** The visible records of a namespace in directory order, cut as the loop cuts. */
    ghost predicate ReadFromDirectory(found: seq<Reading>, ids: seq<string>, ns: string, includeDeprecated: bool,
                                      includeSuperseded: bool, limit: Option<int>)
      reads this
    {
      && Lists(ids, records.Keys)
      && found == ScanCut(Readings(Shown(ids, SeenIn(ns, includeDeprecated, includeSuperseded))), limit)
    }

    /** Through the index when there is one: cut to the limit first, then read. */
    method GetIndexed(ns: string, includeDeprecated: bool, includeSuperseded: bool, limit: Option<int>)
      returns (found: seq<Reading>)
      requires index != null
      ensures exists ids :: ReadFromIndex(found, ids, ns, includeDeprecated, includeSuperseded, limit)
    {
      var listed := index.GetNamespaceIds(ns, includeDeprecated, includeSuperseded);
      ghost var ids := listed;
      if limit.Some? {
        listed := Slice(listed, limit.value);
      }
      found := GetMany(listed, includeDeprecated, includeSuperseded);
      assert ReadFromIndex(found, ids, ns, includeDeprecated, includeSuperseded, limit);
    }

    lemma NothingShown(wanted: set<string>)
      ensures Shown([], wanted) == [] && Readings([]) == []
    {
    }

    lemma ShownLength(ids: seq<string>, wanted: set<string>)
      requires forall r :: r in wanted ==> r in records
      ensures |Readings(Shown(ids, wanted))| == |Shown(ids, wanted)|
    {
    }

    lemma UncutShown(found: seq<Reading>, limit: Option<int>)
      requires limit.Some? && limit.value != 0 && |found| > 0 ==> |found| < limit.value
      ensures ScanCut(found, limit) == found
    {
    }

    lemma CutShown(ids: seq<string>, n: nat, wanted: set<string>, limit: Option<int>)
      requires n <= |ids| && forall r :: r in wanted ==> r in records
      requires var kept := |Shown(ids[..n], wanted)|;
               limit.Some? && limit.value != 0 && limit.value <= kept && (kept == 1 || kept == limit.value)
      ensures Readings(Shown(ids[..n], wanted)) == ScanCut(Readings(Shown(ids, wanted)), limit)
    {
      assert ids == ids[..n] + ids[n..];
      ShownConcat(ids[..n], ids[n..], wanted);
    }

    lemma SeenInIff(id: string, ns: string, includeDeprecated: bool, includeSuperseded: bool)
      ensures id in SeenIn(ns, includeDeprecated, includeSuperseded) <==>
                Sees(id, includeDeprecated, includeSuperseded) && id in records && records[id] == ns
    {
    }

    /** What the loop below has after `n` directory entries, when the limit stops it there
        and when the directory ends. */
    lemma ReadUpTo(found: seq<Reading>, ids: seq<string>, n: nat, stopped: bool, ns: string, includeDeprecated: bool,
                   includeSuperseded: bool, limit: Option<int>)
      requires Lists(ids, records.Keys) && n <= |ids|
      requires found == Readings(Shown(ids[..n], SeenIn(ns, includeDeprecated, includeSuperseded)))
      requires stopped ==> limit.Some? && limit.value != 0 && limit.value <= |found|
                           && (|found| == 1 || |found| == limit.value)
      requires !stopped ==> n == |ids| && (limit.Some? && limit.value != 0 && |found| > 0 ==> |found| < limit.value)
      ensures ReadFromDirectory(found, ids, ns, includeDeprecated, includeSuperseded, limit)
    {
      var wanted := SeenIn(ns, includeDeprecated, includeSuperseded);
      hide Shown, Readings, ScanCut, SeenIn;
      ShownLength(ids[..n], wanted);
      if stopped {
        CutShown(ids, n, wanted, limit);
      } else {
        assert ids[..n] == ids;
        UncutShown(found, limit);
      }
    }

    /** Without an index: read every record in the order the directory lists them. */
    method GetScanned(ns: string, includeDeprecated: bool, includeSuperseded: bool, limit: Option<int>)
      returns (found: seq<Reading>)
      ensures exists ids :: ReadFromDirectory(found, ids, ns, includeDeprecated, includeSuperseded, limit)
    {
      var order := ListIds(records.Keys);
      ghost var ids := order;
      assert Lists(ids, records.Keys);
      ghost var wanted := SeenIn(ns, includeDeprecated, includeSuperseded);
      NothingShown(wanted);
      hide Shown, Readings, ScanCut, Lists, ReadFromDirectory, SeenIn, Sees;
      found := [];
      var i := 0;
      while i < |order|
        invariant 0 <= i <= |order|
        invariant found == Readings(Shown(ids[..i], wanted))
        invariant limit.Some? && limit.value != 0 && |found| > 0 ==> |found| < limit.value
      {
        var r := Get(order[i], includeDeprecated, includeSuperseded);
        ReadOne(ids, i, wanted);
        SeenInIff(order[i], ns, includeDeprecated, includeSuperseded);
        if r.Some? && r.value.namespace == ns {
          found := found + [r.value];
          if limit.Some? && limit.value != 0 && |found| >= limit.value {
            ReadUpTo(found, ids, i + 1, true, ns, includeDeprecated, includeSuperseded, limit);
            return;
          }
        }
        i := i + 1;
      }
      ReadUpTo(found, ids, i, false, ns, includeDeprecated, includeSuperseded, limit);
    }

    /** The index, if there is one, lists every record in its namespace and marks
        nothing that has no sidecar. */
    ghost predicate IndexTrue()
      reads this, index
    {
      index != null ==>
        && (forall ns, r ::
              (ns in index.namespaces && r in index.namespaces[ns]) <==> (r in records && records[r] == ns))
        && (forall r :: r in index.superseded ==> r in superseded)
        && index.deprecated <= deprecated
    }

    /** What such a list of readings tells: each record of the namespace that is not deprecated
        or superseded, unless those are asked for, once and with what its sidecars add. */
    lemma ReadingsTell(ids: seq<string>, ns: string, includeDeprecated: bool, includeSuperseded: bool)
      requires Lists(ids, SeenIn(ns, includeDeprecated, includeSuperseded))
      ensures var found := Readings(ids);
              && (forall i, j :: 0 <= i < j < |found| ==> found[i].id != found[j].id)
              && (forall id :: (exists i :: 0 <= i < |found| && found[i].id == id) <==>
                    && id in records && records[id] == ns
                    && (includeDeprecated || id !in deprecated) && (includeSuperseded || id !in superseded))
              && (forall i :: 0 <= i < |found| ==>
                    && found[i].namespace == ns && (found[i].deprecated <==> found[i].id in deprecated)
                    && (found[i].supersededBy.Some? <==> found[i].id in superseded)
                    && (found[i].id in superseded ==> found[i].supersededBy == Some(superseded[found[i].id])))
    {
      var found, wanted := Readings(ids), SeenIn(ns, includeDeprecated, includeSuperseded);
      assert forall i :: 0 <= i < |found| ==> found[i].id == ids[i] && ids[i] in ids;
      forall id
        ensures (exists i :: 0 <= i < |found| && found[i].id == id) <==>
                  && id in records && records[id] == ns
                  && (includeDeprecated || id !in deprecated) && (includeSuperseded || id !in superseded)
      {
        assert id in wanted <==> Sees(id, includeDeprecated, includeSuperseded) && records[id] == ns;
        if id in wanted {
          assert id in ids;
          var i :| 0 <= i < |ids| && ids[i] == id;
          assert found[i].id == id;
        }
      }
    }

    /** Without a limit either way of reading finds each visible record of the namespace
        once. */
    method GetNamespace(ns: string, includeDeprecated: bool, includeSuperseded: bool, limit: Option<int>)
      returns (found: seq<Reading>)
      ensures limit.None? && IndexTrue() ==>
                exists ids :: Lists(ids, SeenIn(ns, includeDeprecated, includeSuperseded)) && found == Readings(ids)
    {
      ghost var wanted := SeenIn(ns, includeDeprecated, includeSuperseded);
      if index != null {
        ghost var visible := SeenIds(includeDeprecated, includeSuperseded);
        found := GetIndexed(ns, includeDeprecated, includeSuperseded, limit);
        ghost var ids :| ReadFromIndex(found, ids, ns, includeDeprecated, includeSuperseded, limit);
        ShownAre(ids, visible);
        if limit.None? && IndexTrue() {
          assert Lists(Shown(ids, visible), wanted);
        }
      } else {
        found := GetScanned(ns, includeDeprecated, includeSuperseded, limit);
        ghost var ids :| ReadFromDirectory(found, ids, ns, includeDeprecated, includeSuperseded, limit);
        ShownAre(ids, wanted);
        assert limit.None? ==> Lists(Shown(ids, wanted), wanted);
      }
    }
  }

  /** One handle as an object: the files with their reader, and the index that every write
      through the handle is told to. */
  class Database {
    const reader: ReadEngine
    const index: Master.MasterIndex

    constructor (index: Master.MasterIndex, reader: ReadEngine)
      ensures this.index == index && this.reader == reader
    {
      this.index, this.reader := index, reader;
    }

    /** The objects hold what the handle says. */
    ghost predicate Mirrors(h: Handle)
      reads this, reader, index
    {
      && reader.index == index && reader.records == h.records
      && reader.superseded.Keys == h.superseded && reader.deprecated == h.deprecated
      && IndexMirrors(h.index)
    }

    ghost predicate IndexMirrors(ix: Index)
      reads this, index
    {
      MembersMirror(ix.members) && index.superseded.Keys == ix.superseded && index.deprecated == ix.deprecated
    }

    ghost predicate MembersMirror(members: map<string, string>)
      reads this, index`namespaces
    {
      forall ns, r :: (ns in index.namespaces && r in index.namespaces[ns]) <==> (r in members && members[r] == ns)
    }

    method Record(ghost members: map<string, string>, id: string, ns: string, supersedes: Option<string>)
      requires MembersMirror(members) && id !in members
      modifies index
      ensures MembersMirror(members[id := ns])
      ensures index.superseded == old(index.superseded) && index.deprecated == old(index.deprecated)
    {
      hide Master.Fits, Master.Forest, Master.Inverse, Master.WithChild, Master.MasterIndex.Valid;
      index.IndexRecord(id, ns, supersedes);
    }

    /** The callback after a write: index the record, and mark what it supersedes. */
    method OnWrite(ghost ix: Index, id: string, ns: string, supersedes: Option<string>)
      requires IndexMirrors(ix) && id !in ix.members
      modifies index
      ensures var indexed := Indexing(ix, id, ns);
              IndexMirrors(match supersedes case None => indexed
                           case Some(prior) => indexed.(superseded := ix.superseded + {prior}))
    {
      hide MembersMirror, Master.Fits, Master.Forest, Master.Inverse, Master.WithChild, Master.MasterIndex.Valid;
      Record(ix.members, id, ns, supersedes);
      if supersedes.Some? {
        index.MarkSuperseded(supersedes.value, id);
      }
    }

    /** A first write, and its record in the index. */
    method Write(ghost h: Handle, id: string, ns: string)
      requires Mirrors(h) && Inv(h) && Enabled(h, Event.Write(id, ns))
      modifies reader, index
      ensures Mirrors(Next(h, Event.Write(id, ns)))
    {
      reader.records := reader.records[id := ns];
      OnWrite(h.index, id, ns, None);
    }

    /** A new version, its sidecar, its record in the index, and the mark on the prior one. */
    method Update(ghost h: Handle, prior: string, id: string, ns: string)
      requires Mirrors(h) && Inv(h) && Enabled(h, Event.Update(prior, id, ns))
      modifies reader, index
      ensures Mirrors(Next(h, Event.Update(prior, id, ns)))
    {
      reader.records := reader.records[id := ns];
      reader.superseded := reader.superseded[prior := id];
      OnWrite(h.index, id, ns, Some(prior));
    }

    /** The mark goes to the index only when the record was not deprecated before. */
    method Deprecate(ghost h: Handle, id: string)
      requires Mirrors(h) && Inv(h) && Enabled(h, Event.Deprecate(id))
      modifies reader, index
      ensures Mirrors(Next(h, Event.Deprecate(id)))
    {
      if id in reader.deprecated {
        return;
      }
      reader.deprecated := reader.deprecated + {id};
      index.MarkDeprecated(id);
    }

    /** Without a limit the read finds each record once that the handle reads through its
        index, which are those of a scan when the index lists every record. */
    method GetNamespace(ghost h: Handle, ns: string, includeDeprecated: bool, includeSuperseded: bool)
      returns (found: seq<Reading>)
      requires Mirrors(h)
      ensures exists ids :: reader.Lists(ids, Indexed(h, ns, includeDeprecated, includeSuperseded))
                            && found == reader.Readings(ids)
      ensures Inv(h) && Complete(h) ==> AgreesOn(h, ns, includeDeprecated, includeSuperseded)
    {
      if Inv(h) && Complete(h) {
        IndexedIsScanIff(h, ns, includeDeprecated, includeSuperseded);
      }
      found := reader.GetIndexed(ns, includeDeprecated, includeSuperseded, None);
      ghost var ids :| reader.ReadFromIndex(found, ids, ns, includeDeprecated, includeSuperseded, None);
      ghost var visible := reader.SeenIds(includeDeprecated, includeSuperseded);
      ShownAre(ids, visible);
      assert reader.Lists(Shown(ids, visible), Indexed(h, ns, includeDeprecated, includeSuperseded));
    }
  }

  /** While every sidecar joins neighbouring versions, the end of a chain is not superseded,
      so reading the current version fails only when it is deprecated. */
  lemma CurrentIsReadableIff(e: ReadEngine, versions: Versions.Records, id: string)
    requires versions.Keys == e.records.Keys && Versions.EdgesHold(versions, e.superseded) && id in versions
    ensures e.Sees(Versions.Head(e.superseded, id), false, false) <==> Versions.Head(e.superseded, id) !in e.deprecated
  {
    Versions.WalkClimbs(versions, e.superseded, id, {});
  }

  lemma {:induction false} ShownAre(ids: seq<string>, wanted: set<string>)
    requires Distinct(ids)
    ensures Distinct(Shown(ids, wanted))
    ensures forall r :: r in Shown(ids, wanted) <==> r in ids && r in wanted
  {
    if |ids| > 0 {
      ShownAre(ids[..|ids| - 1], wanted);
      assert forall r :: r in ids <==> r in ids[..|ids| - 1] || r == ids[|ids| - 1];
    }
  }

  /** The scan keeps the first results: as many as the limit says, all without one or with zero,
      and one when it is negative. */
  lemma ScanCutIs(found: seq<Reading>, limit: Option<int>)
    ensures ScanCut(found, limit) <= found
    ensures limit in {None, Some(0)} ==> ScanCut(found, limit) == found
    ensures limit.Some? && limit.value > 0 ==>
              |ScanCut(found, limit)| == if limit.value < |found| then limit.value else |found|
    ensures limit.Some? && limit.value < 0 && found != [] ==> |ScanCut(found, limit)| == 1
  {
  }

  /** How many results the scan keeps: no limit or zero keeps all, and it looks at the
      limit only after adding one. */
  function ScanCut(found: seq<Reading>, limit: Option<int>): seq<Reading> {
    if limit.None? || limit.value == 0 then found
    else if limit.value < 1 then Slice(found, 1)
    else Slice(found, limit.value)
  }
}
