/** The write-ahead log: frames, the pending scan in its native and its
    fallback form, and compaction. */
module Wal {
  import opened Prelude

  /** The fields recovery needs from a PENDING line; the record content is opaque. */
  datatype Entry = Entry(operation: string, recordId: string, content: string)

  /** One line of the log as the scan sees it. `Skipped` is a blank line, a line
      that is not one JSON object, or an object with any other status. A PENDING
      line carries no entry when one of the fields recovery needs is missing. */
  datatype Frame =
    | Skipped
    | Pending(walId: string, entry: Option<Entry>)
    | Committed(walId: string)

  // ---- what is pending, by definition

  function CommittedIds(lines: seq<Frame>): set<string> {
    set f | f in lines && f.Committed? :: f.walId
  }

  /** The ids of PENDING frames, each once, in first-seen order. */
  function PendingIds(lines: seq<Frame>): seq<string> {
    if |lines| == 0 then []
    else
      var ids := PendingIds(lines[..|lines| - 1]);
      var f := lines[|lines| - 1];
      if f.Pending? && f.walId !in ids then ids + [f.walId] else ids
  }

  /** The last PENDING frame that carries `id`. */
  function LastFrame(lines: seq<Frame>, id: string): (f: Frame)
    requires id in PendingIds(lines)
    ensures f.Pending? && f.walId == id
  {
    var f := lines[|lines| - 1];
    if f.Pending? && f.walId == id then f else LastFrame(lines[..|lines| - 1], id)
  }

  lemma {:induction false} PendingIdsAre(lines: seq<Frame>)
    ensures forall id :: id in PendingIds(lines) <==> exists f :: f in lines && f.Pending? && f.walId == id
  {
    if |lines| > 0 {
      var init, f := lines[..|lines| - 1], lines[|lines| - 1];
      PendingIdsAre(init);
      assert lines == init + [f];
    }
  }

  lemma {:induction false} PendingIdsDistinct(lines: seq<Frame>)
    ensures Distinct(PendingIds(lines))
  {
    if |lines| > 0 {
      PendingIdsDistinct(lines[..|lines| - 1]);
    }
  }

  /** It is a line of the log, and no PENDING line of the id comes after it. */
  lemma {:induction false} LastFrameIsThere(lines: seq<Frame>, id: string)
    requires id in PendingIds(lines)
    ensures LastFrame(lines, id) in lines
    ensures exists i :: IsLast(lines, id, i) && lines[i] == LastFrame(lines, id)
  {
    var n := |lines| - 1;
    if lines[n].Pending? && lines[n].walId == id {
      assert IsLast(lines, id, n);
    } else {
      LastFrameIsThere(lines[..n], id);
      var i :| IsLast(lines[..n], id, i) && lines[..n][i] == LastFrame(lines[..n], id);
      assert IsLast(lines, id, i);
    }
  }

  ghost predicate IsLast(lines: seq<Frame>, id: string, i: int) {
    && 0 <= i < |lines| && lines[i].Pending? && lines[i].walId == id
    && forall j :: i < j < |lines| ==> !(lines[j].Pending? && lines[j].walId == id)
  }

  /** The line at `i` is the first PENDING one of its id. */
  ghost predicate IsFirst(lines: seq<Frame>, id: string, i: int) {
    && 0 <= i < |lines| && lines[i].Pending? && lines[i].walId == id
    && forall j :: 0 <= j < i ==> !(lines[j].Pending? && lines[j].walId == id)
  }

  /** The ids stand in the order in which the log first saw them. */
  lemma {:induction false} PendingIdsInOrder(lines: seq<Frame>, a: nat, b: nat, i: int, j: int)
    requires a < b < |PendingIds(lines)|
    requires IsFirst(lines, PendingIds(lines)[a], i) && IsFirst(lines, PendingIds(lines)[b], j)
    ensures i < j
  {
    var n, ids := |lines| - 1, PendingIds(lines);
    var init := PendingIds(lines[..n]);
    PendingIdsAre(lines[..n]);
    assert ids[a] == init[a] && init[a] in init;
    var f :| f in lines[..n] && f.Pending? && f.walId == ids[a];
    assert i < n by {
      var k :| 0 <= k < n && lines[..n][k] == f;
      assert lines[k] == f;
    }
    if b < |init| {
      assert init[b] in init;
      var g :| g in lines[..n] && g.Pending? && g.walId == ids[b];
      assert j < n by {
        var k :| 0 <= k < n && lines[..n][k] == g;
        assert lines[k] == g;
      }
      assert IsFirst(lines[..n], init[a], i) && IsFirst(lines[..n], init[b], j);
      PendingIdsInOrder(lines[..n], a, b, i, j);
    } else {
      assert forall k :: 0 <= k < n ==> lines[..n][k] in lines[..n] && lines[..n][k] == lines[k];
      assert ids[b] !in init;
    }
  }

  function LastFrames(lines: seq<Frame>, ids: seq<string>): (frames: seq<Frame>)
    requires forall id :: id in ids ==> id in PendingIds(lines)
    ensures |frames| == |ids|
    ensures forall i :: 0 <= i < |ids| ==> frames[i] == LastFrame(lines, ids[i])
  {
    seq(|ids|, i requires 0 <= i < |ids| => LastFrame(lines, ids[i]))
  }

  function LiveIds(lines: seq<Frame>): seq<string> {
    Without(PendingIds(lines), CommittedIds(lines))
  }

  /** Each uncommitted id once, in first-seen order, with its last PENDING frame. */
  function PendingFrames(lines: seq<Frame>): seq<Frame> {
    LastFrames(lines, LiveIds(lines))
  }

  // ---- the native one-pass scan

  /** What the scan has accumulated after reading `lines`. */
  ghost predicate Scanned(lines: seq<Frame>, entries: seq<(string, Frame)>,
                          indexes: map<string, nat>, committed: set<string>)
  {
    var ids := PendingIds(lines);
    && committed == CommittedIds(lines)
    && |entries| == |ids|
    && (forall i :: 0 <= i < |ids| ==> entries[i] == (ids[i], LastFrame(lines, ids[i])))
    && (forall id :: id in indexes <==> id in ids)
    && (forall id :: id in indexes ==> indexes[id] < |ids| && ids[indexes[id]] == id)
  }

  function Uncommitted(entries: seq<(string, Frame)>, committed: set<string>): seq<Frame> {
    if |entries| == 0 then []
    else
      var e := entries[|entries| - 1];
      Uncommitted(entries[..|entries| - 1], committed) + if e.0 in committed then [] else [e.1]
  }

  lemma ScanAgain(lines: seq<Frame>, f: Frame, entries: seq<(string, Frame)>,
                  indexes: map<string, nat>, committed: set<string>)
    requires Scanned(lines, entries, indexes, committed)
    requires f.Pending? && f.walId in indexes
    ensures Scanned(lines + [f], entries[indexes[f.walId] := (f.walId, f)], indexes, committed)
  {
    StepIds(lines, f);
    PendingIdsDistinct(lines);
    var ids, slot := PendingIds(lines), indexes[f.walId];
    forall i | 0 <= i < |ids| && i != slot ensures ids[i] != f.walId {
    }
  }

  lemma ScanFirst(lines: seq<Frame>, f: Frame, entries: seq<(string, Frame)>,
                  indexes: map<string, nat>, committed: set<string>)
    requires Scanned(lines, entries, indexes, committed)
    requires f.Pending? && f.walId !in indexes
    ensures Scanned(lines + [f], entries + [(f.walId, f)], indexes[f.walId := |entries|], committed)
  {
    StepIds(lines, f);
    var ids := PendingIds(lines);
    forall i | 0 <= i < |ids| ensures ids[i] != f.walId && LastFrame(lines + [f], ids[i]) == LastFrame(lines, ids[i]) {
      assert ids[i] in ids;
    }
  }

  /** The scan of `pending_wal_lines`: one pass with an index from id to slot. */
  method ScanPending(lines: seq<Frame>) returns (pending: seq<Frame>)
    ensures pending == PendingFrames(lines)
  {
    var entries: seq<(string, Frame)> := [];
    var indexes: map<string, nat> := map[];
    var committed: set<string> := {};
    var n := 0;
    while n < |lines|
      invariant n <= |lines|
      invariant Scanned(lines[..n], entries, indexes, committed)
    {
      var f := lines[n];
      assert lines[..n + 1] == lines[..n] + [f];
      StepIds(lines[..n], f);
      match f {
        case Committed(id) =>
          committed := committed + {id};
        case Pending(id, _) =>
          if id in indexes {
            ScanAgain(lines[..n], f, entries, indexes, committed);
            entries := entries[indexes[id] := (id, f)];
          } else {
            ScanFirst(lines[..n], f, entries, indexes, committed);
            indexes := indexes[id := |entries|];
            entries := entries + [(id, f)];
          }
        case Skipped =>
      }
      n := n + 1;
    }
    assert lines[..n] == lines;
    pending := Uncommitted(entries, committed);
    UncommittedIsLive(lines, PendingIds(lines), entries);
  }

  /** The fallback scan: an insertion-ordered dictionary from id to line. */
  method ScanPendingFallback(lines: seq<Frame>) returns (pending: seq<Frame>)
    ensures pending == PendingFrames(lines)
  {
    var order: seq<string> := [];
    var table: map<string, Frame> := map[];
    var committed: set<string> := {};
    for n := 0 to |lines|
      invariant committed == CommittedIds(lines[..n])
      invariant order == PendingIds(lines[..n])
      invariant forall id :: id in table <==> id in order
      invariant forall id :: id in table ==> table[id] == LastFrame(lines[..n], id)
    {
      var f := lines[n];
      assert lines[..n + 1] == lines[..n] + [f];
      StepIds(lines[..n], f);
      if f.Committed? {
        committed := committed + {f.walId};
      } else if f.Pending? {
        if f.walId !in table {
          order := order + [f.walId];
        }
        table := table[f.walId := f];
      }
    }
    assert lines[..|lines|] == lines;
    var live := Without(order, committed);
    pending := seq(|live|, i requires 0 <= i < |live| => table[live[i]]);
  }

  lemma {:induction false} StepIds(lines: seq<Frame>, f: Frame)
    ensures CommittedIds(lines + [f]) == CommittedIds(lines) + if f.Committed? then {f.walId} else {}
    ensures PendingIds(lines + [f])
         == PendingIds(lines) + if f.Pending? && f.walId !in PendingIds(lines) then [f.walId] else []
    ensures forall id :: id in PendingIds(lines + [f]) ==>
              LastFrame(lines + [f], id)
              == if f.Pending? && f.walId == id then f else LastFrame(lines, id)
  {
    assert (lines + [f])[..|lines|] == lines;
  }

  lemma {:induction false} UncommittedIsLive(lines: seq<Frame>, ids: seq<string>, entries: seq<(string, Frame)>)
    requires forall id :: id in ids ==> id in PendingIds(lines)
    requires |entries| == |ids|
    requires forall i :: 0 <= i < |ids| ==> entries[i] == (ids[i], LastFrame(lines, ids[i]))
    ensures Uncommitted(entries, CommittedIds(lines))
         == LastFrames(lines, Without(ids, CommittedIds(lines)))
  {
    if |ids| > 0 {
      UncommittedIsLive(lines, ids[..|ids| - 1], entries[..|ids| - 1]);
    }
  }

  // ---- compaction

  /** The lines `compact_wal` leaves in the file. */
  function Compact(lines: seq<Frame>): seq<Frame> {
    PendingFrames(lines)
  }

  lemma {:induction false} FramesAreTheirOwnIds(lines: seq<Frame>, ids: seq<string>)
    requires Distinct(ids) && forall id :: id in ids ==> id in PendingIds(lines)
    ensures PendingIds(LastFrames(lines, ids)) == ids
    ensures CommittedIds(LastFrames(lines, ids)) == {}
    ensures forall id :: id in ids ==> LastFrame(LastFrames(lines, ids), id) == LastFrame(lines, id)
  {
    if |ids| > 0 {
      var init := ids[..|ids| - 1];
      var f := LastFrame(lines, ids[|ids| - 1]);
      FramesAreTheirOwnIds(lines, init);
      assert ids == init + [f.walId];
      assert LastFrames(lines, ids) == LastFrames(lines, init) + [f];
      StepIds(LastFrames(lines, init), f);
    }
  }

  lemma {:induction false} CompactKeepsLive(lines: seq<Frame>)
    ensures PendingIds(Compact(lines)) == LiveIds(lines)
    ensures CommittedIds(Compact(lines)) == {}
    ensures forall id :: id in LiveIds(lines) ==> LastFrame(Compact(lines), id) == LastFrame(lines, id)
    ensures PendingFrames(Compact(lines)) == PendingFrames(lines)
  {
    PendingIdsDistinct(lines);
    WithoutKeepsDistinct(PendingIds(lines), CommittedIds(lines));
    FramesAreTheirOwnIds(lines, LiveIds(lines));
    WithoutNothingDead(LiveIds(lines), {});
  }

  /** The first lines of a compacted log are pending in it, one for each id. */
  lemma CompactPrefix(lines: seq<Frame>, k: nat)
    requires k <= |Compact(lines)|
    ensures PendingFrames(Compact(lines)[..k]) == Compact(lines)[..k]
    ensures forall i, j :: 0 <= i < j < |Compact(lines)| ==> Compact(lines)[i].walId != Compact(lines)[j].walId
  {
    PendingIdsDistinct(lines);
    WithoutKeepsDistinct(PendingIds(lines), CommittedIds(lines));
    var ids := LiveIds(lines)[..k];
    FramesAreTheirOwnIds(lines, ids);
    assert LastFrames(lines, ids) == Compact(lines)[..k];
    WithoutNothingDead(ids, {});
  }

  /** After any suffix, the compacted log and the original agree on every id
      that is not dead, when everything the original log committed is dead. */
  lemma {:induction false} CompactThenSuffixIds(lines: seq<Frame>, suffix: seq<Frame>, dead: set<string>)
    requires CommittedIds(lines) <= dead
    ensures Without(PendingIds(Compact(lines) + suffix), dead) == Without(PendingIds(lines + suffix), dead)
  {
    if |suffix| == 0 {
      CompactKeepsLive(lines);
      assert lines + suffix == lines && Compact(lines) + suffix == Compact(lines);
      WithoutTwice(PendingIds(lines), CommittedIds(lines), dead);
      assert CommittedIds(lines) + dead == dead;
    } else {
      var init, f := suffix[..|suffix| - 1], suffix[|suffix| - 1];
      CompactThenSuffixIds(lines, init, dead);
      var was, now := lines + init, Compact(lines) + init;
      assert lines + suffix == was + [f] && Compact(lines) + suffix == now + [f];
      StepIds(was, f);
      StepIds(now, f);
      if f.Pending? {
        SameFilteredStep(PendingIds(was), PendingIds(now), f.walId, dead);
      }
    }
  }

  lemma {:induction false} CompactThenSuffixFrame(lines: seq<Frame>, suffix: seq<Frame>, id: string)
    requires id in PendingIds(lines + suffix) && id !in CommittedIds(lines)
    ensures id in PendingIds(Compact(lines) + suffix)
    ensures LastFrame(Compact(lines) + suffix, id) == LastFrame(lines + suffix, id)
  {
    if |suffix| == 0 {
      CompactKeepsLive(lines);
      assert lines + suffix == lines && Compact(lines) + suffix == Compact(lines);
      assert id in LiveIds(lines);
    } else {
      var init, f := suffix[..|suffix| - 1], suffix[|suffix| - 1];
      assert lines + suffix == (lines + init) + [f];
      assert Compact(lines) + suffix == (Compact(lines) + init) + [f];
      StepIds(lines + init, f);
      StepIds(Compact(lines) + init, f);
      if id in PendingIds(lines + init) {
        CompactThenSuffixFrame(lines, init, id);
      }
    }
  }

  lemma {:induction false} SameFilteredStep(a: seq<string>, b: seq<string>, id: string, dead: set<string>)
    requires Without(a, dead) == Without(b, dead)
    ensures Without(a + if id !in a then [id] else [], dead)
         == Without(b + if id !in b then [id] else [], dead)
    ensures id !in dead ==> (id in a <==> id in b)
  {
    assert id !in dead ==> (id in a <==> id in Without(a, dead));
    assert id !in dead ==> (id in b <==> id in Without(b, dead));
    WithoutAppend(a, id, dead);
    WithoutAppend(b, id, dead);
    assert a + [] == a && b + [] == b;
  }

  /** No id that `lines` committed is logged again in `suffix` and left uncommitted. */
  predicate RelogsNoCommittedId(lines: seq<Frame>, suffix: seq<Frame>) {
    forall id :: id in PendingIds(suffix) && id in CommittedIds(lines) ==> id in CommittedIds(suffix)
  }

  /** Compaction is invisible to every later scan exactly when no committed id is
      logged again without being committed again. */
  lemma {:induction false} CompactionIsInvisible(lines: seq<Frame>, suffix: seq<Frame>)
    ensures PendingFrames(Compact(lines) + suffix) == PendingFrames(lines + suffix)
       <==> RelogsNoCommittedId(lines, suffix)
  {
    var now := Compact(lines) + suffix;
    LiveAfterCompaction(lines, suffix);
    if RelogsNoCommittedId(lines, suffix) {
      assert LiveIds(now) == LiveIds(lines + suffix) by {
        forall id | id in LiveIds(now) ensures id !in CommittedIds(lines) {
        }
        WithoutNothingDead(LiveIds(now), CommittedIds(lines));
      }
      forall id | id in LiveIds(now) ensures LastFrame(now, id) == LastFrame(lines + suffix, id) {
        IdsOfConcat(lines, suffix);
        CompactThenSuffixFrame(lines, suffix, id);
      }
    } else {
      var id :| id in PendingIds(suffix) && id in CommittedIds(lines) && id !in CommittedIds(suffix);
      assert id in LiveIds(now) && id !in LiveIds(lines + suffix);
      FramesShowTheirIds(now, lines + suffix);
    }
  }

  lemma FramesShowTheirIds(a: seq<Frame>, b: seq<Frame>)
    ensures PendingFrames(a) == PendingFrames(b) ==> LiveIds(a) == LiveIds(b)
  {
    if PendingFrames(a) == PendingFrames(b) {
      forall i | 0 <= i < |LiveIds(a)| ensures LiveIds(a)[i] == LiveIds(b)[i] {
        assert PendingFrames(a)[i].walId == PendingFrames(b)[i].walId;
      }
    }
  }

  lemma {:induction false} LiveAfterCompaction(lines: seq<Frame>, suffix: seq<Frame>)
    ensures Without(LiveIds(Compact(lines) + suffix), CommittedIds(lines)) == LiveIds(lines + suffix)
    ensures forall id :: id in LiveIds(Compact(lines) + suffix) && id in CommittedIds(lines) <==>
              id in PendingIds(suffix) && id in CommittedIds(lines) && id !in CommittedIds(suffix)
  {
    var now, c, d := Compact(lines) + suffix, CommittedIds(lines), CommittedIds(suffix);
    CompactKeepsLive(lines);
    IdsOfConcat(lines, suffix);
    IdsOfConcat(Compact(lines), suffix);
    assert CommittedIds(now) == d;
    CompactThenSuffixIds(lines, suffix, c + d);
    WithoutTwice(PendingIds(now), d, c);
    assert d + c == c + d;
  }

  lemma {:induction false} IdsOfConcat(a: seq<Frame>, b: seq<Frame>)
    ensures forall id :: id in PendingIds(a + b) <==> id in PendingIds(a) || id in PendingIds(b)
    ensures CommittedIds(a + b) == CommittedIds(a) + CommittedIds(b)
  {
    if |b| == 0 {
      assert a + b == a;
    } else {
      var init, f := b[..|b| - 1], b[|b| - 1];
      IdsOfConcat(a, init);
      assert a + b == (a + init) + [f] && b == init + [f];
      StepIds(a + init, f);
      StepIds(init, f);
    }
  }
}
