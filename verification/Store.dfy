/** The physical store: one file per record plus the write-ahead log, as a
    system of durable steps with a crash allowed between any two of them. */
module Store {
  import opened Prelude
  import opened Wal

  /** Bytes after the last newline. A torn append leaves either a fragment or a
      whole frame whose newline never reached the disk. */
  datatype Tail = Clean | Fragment | Whole(frame: Frame)

  datatype Disk = Disk(log: seq<Frame>, tail: Tail, records: map<string, string>)

  /** The lines a scan reads: the unterminated tail is read as a line too. */
  function Lines(d: Disk): seq<Frame> {
    match d.tail
    case Clean => d.log
    case Fragment => d.log + [Skipped]
    case Whole(f) => d.log + [f]
  }

  function Todo(d: Disk): seq<Frame> {
    PendingFrames(Lines(d))
  }

  /** `durable_append` writes the frame and its newline at the end of the file.
      Behind an unterminated tail both become one line that no longer parses. */
  function Append(d: Disk, f: Frame): Disk {
    d.(log := d.log + [if d.tail.Clean? then f else Skipped], tail := Clean)
  }

  /** The same append, stopped before its newline is durable. */
  function Tear(d: Disk, f: Frame, whole: bool): Disk {
    d.(tail := if d.tail.Clean? && whole then Whole(f) else Fragment)
  }

  /** `atomic_write_new_file`: publish a whole file, never over an existing one. */
  function Publish(records: map<string, string>, id: string, content: string): map<string, string> {
    if id in records then records else records[id := content]
  }

  predicate Replayable(f: Frame) {
    f.Pending? && f.entry.Some? && f.entry.value.operation == "write"
  }

  function PublishFrame(records: map<string, string>, f: Frame): map<string, string> {
    if Replayable(f) then Publish(records, f.entry.value.recordId, f.entry.value.content) else records
  }

  function ReplayFrame(d: Disk, f: Frame): Disk {
    if Replayable(f) then Append(d.(records := PublishFrame(d.records, f)), Committed(f.walId)) else d
  }

  function Replay(d: Disk, todo: seq<Frame>): Disk
    decreases |todo|
  {
    if |todo| == 0 then d else Replay(ReplayFrame(d, todo[0]), todo[1..])
  }

  /** Recovery, uninterrupted. */
  function Recover(d: Disk): Disk {
    Replay(d, Todo(d))
  }

  function CompactDisk(d: Disk): Disk {
    d.(log := Compact(Lines(d)), tail := Clean)
  }

  /** A checkpoint that stopped after `k` lines: it truncates the log before it writes the
      pending lines again, and the next one may be torn. */
  function TornCheckpoint(d: Disk, k: nat, torn: Option<bool>): Disk
    requires k <= |Todo(d)| && (torn.Some? ==> k < |Todo(d)|)
  {
    d.(log := Compact(Lines(d))[..k],
       tail := if torn.None? then Clean else if torn.value then Whole(Compact(Lines(d))[k]) else Fragment)
  }

  function WriteTransaction(d: Disk, walId: string, id: string, content: string): Disk {
    var logged := Append(d, Pending(walId, Some(Entry("write", id, content))));
    Append(logged.(records := Publish(d.records, id, content)), Committed(walId))
  }

  /** The ids recovery reports, one for each replayed frame. */
  function RecoveredIds(todo: seq<Frame>): seq<string> {
    if |todo| == 0 then []
    else
      var last := todo[|todo| - 1];
      RecoveredIds(todo[..|todo| - 1]) + if Replayable(last) then [last.entry.value.recordId] else []
  }

  function FailedCount(todo: seq<Frame>): nat {
    |Failing(todo)|
  }

  function Failing(todo: seq<Frame>): seq<Frame> {
    if |todo| == 0 then []
    else
      var last := todo[|todo| - 1];
      Failing(todo[..|todo| - 1]) + if last.Pending? && last.entry.None? then [last] else []
  }

  /** The store directory as the native code changes it. */
  class StoreDirectory {
    var log: seq<Frame>
    var tail: Tail
    var records: map<string, string>

    ghost function OnDisk(): Disk
      reads this
    {
      Disk(log, tail, records)
    }

    constructor ()
      ensures OnDisk() == Disk([], Clean, map[])
    {
      log, tail, records := [], Clean, map[];
    }

    method DurableAppend(f: Frame)
      modifies this`log, this`tail
      ensures OnDisk() == Append(old(OnDisk()), f)
      ensures tail == Clean && records == old(records)
      ensures log == old(log) + [if old(tail) == Clean then f else Skipped]
    {
      if tail == Clean {
        log := log + [f];
      } else {
        log := log + [Skipped];
      }
      tail := Clean;
    }

    method AtomicWriteNew(id: string, content: string) returns (created: bool)
      modifies this`records
      ensures created <==> id !in old(records)
      ensures id in records && (forall k :: k in old(records) ==> k in records && records[k] == old(records[k]))
      ensures OnDisk() == old(OnDisk()).(records := Publish(old(records), id, content))
    {
      created := id !in records;
      if created {
        records := records[id := content];
      }
    }

    method WriteRecordTransaction(walId: string, id: string, content: string) returns (created: bool)
      modifies this
      ensures created <==> id !in old(records)
      ensures OnDisk() == WriteTransaction(old(OnDisk()), walId, id, content)
      ensures tail == Clean && LiveIds(log) == Without(LiveIds(old(log)), {walId})
      ensures Todo(OnDisk()) == LastFrames(old(log), LiveIds(log))
    {
      WriteSettles(OnDisk(), walId, id, content);
      hide LiveIds, Todo;
      DurableAppend(Pending(walId, Some(Entry("write", id, content))));
      created := AtomicWriteNew(id, content);
      DurableAppend(Committed(walId));
    }

    method RecoverRecordTransactions() returns (recovered: seq<string>, failed: nat)
      modifies this
      ensures OnDisk() == Recover(old(OnDisk()))
      ensures recovered == RecoveredIds(Todo(old(OnDisk())))
      ensures failed == FailedCount(Todo(old(OnDisk())))
      ensures old(tail) == Clean ==>
                tail == Clean && LiveIds(log) == Without(LiveIds(old(log)), AsSet(ReplayedIds(Todo(old(OnDisk())))))
    {
      if tail == Clean {
        ReplaySettles(OnDisk(), Todo(OnDisk()));
      }
      hide LiveIds;
      var lines := match tail case Clean => log case Fragment => log + [Skipped] case Whole(f) => log + [f];
      var pending := ScanPending(lines);
      recovered, failed := [], 0;
      for n := 0 to |pending|
        invariant Replay(OnDisk(), pending[n..]) == Recover(old(OnDisk()))
        invariant recovered == RecoveredIds(pending[..n]) && failed == FailedCount(pending[..n])
      {
        var f := pending[n];
        assert pending[n..][1..] == pending[n + 1..];
        assert pending[..n + 1][..n] == pending[..n];
        if f.Pending? {
          match f.entry {
            case None =>
              failed := failed + 1;
            case Some(entry) =>
              if entry.operation == "write" {
                var _ := AtomicWriteNew(entry.recordId, entry.content);
                DurableAppend(Committed(f.walId));
                recovered := recovered + [entry.recordId];
              }
          }
        }
      }
      assert pending[..|pending|] == pending;
    }

    method CompactWal() returns (kept: nat)
      modifies this`log, this`tail
      ensures OnDisk() == CompactDisk(old(OnDisk())) && kept == |Todo(old(OnDisk()))|
    {
      var lines := match tail case Clean => log case Fragment => log + [Skipped] case Whole(f) => log + [f];
      var pending := ScanPending(lines);
      log, tail := [], Clean;
      for i := 0 to |pending|
        invariant log == pending[..i] && tail == Clean
      {
        log := log + [pending[i]];
      }
      kept := |pending|;
    }
  }

  // ---- the step system

  /** What the one process inside the store lock is doing. */
  datatype Phase =
    | Idle
    | Logged(walId: string, id: string, content: string)
    | Published(walId: string, id: string, content: string, created: bool)
    | Recovering(todo: seq<Frame>)
    | Republished(todo: seq<Frame>)

  datatype Ack = Ack(id: string, content: string, created: bool)

  /** `used` holds every log id ever drawn, `asked` every (id, content) some
      caller asked to write, `acked` every write that returned. */
  datatype State = State(disk: Disk, phase: Phase, used: set<string>,
                         asked: set<(string, string)>, acked: set<Ack>)

  datatype Event =
    | LogPending(walId: string, id: string, content: string)
    | PublishRecord
    | AppendCommit
    | StartRecovery
    | SkipFrame
    | RepublishRecord
    | RecommitFrame
    | FinishRecovery
    | Checkpoint
    | Crash
    | TearPending(walId: string, id: string, content: string, whole: bool)
    | TearCommit(whole: bool)
    | TearCheckpoint(k: nat, torn: Option<bool>)

  const EMPTY_STORE := State(Disk([], Clean, map[]), Idle, {}, {}, {})

  predicate Enabled(s: State, e: Event) {
    match e
    case LogPending(w, _, _) => s.phase.Idle? && w !in s.used
    case TearPending(w, _, _, _) => s.phase.Idle? && w !in s.used
    case PublishRecord => s.phase.Logged?
    case AppendCommit => s.phase.Published?
    case StartRecovery => s.phase.Idle?
    case SkipFrame => s.phase.Recovering? && |s.phase.todo| > 0 && !Replayable(s.phase.todo[0])
    case RepublishRecord => s.phase.Recovering? && |s.phase.todo| > 0 && Replayable(s.phase.todo[0])
    case RecommitFrame => s.phase.Republished? && |s.phase.todo| > 0 && s.phase.todo[0].Pending?
    case FinishRecovery => s.phase.Recovering? && |s.phase.todo| == 0
    case Checkpoint => true
    case Crash => true
    case TearCheckpoint(k, torn) => k <= |Todo(s.disk)| && (torn.Some? ==> k < |Todo(s.disk)|)
    case TearCommit(_) => s.phase.Published? || (s.phase.Republished? && |s.phase.todo| > 0 && s.phase.todo[0].Pending?)
  }

  function WriteFrame(walId: string, id: string, content: string): Frame {
    Pending(walId, Some(Entry("write", id, content)))
  }

  function Next(s: State, e: Event): State
    requires Enabled(s, e)
  {
    var d := s.disk;
    match e
    case LogPending(w, id, c) =>
      s.(disk := Append(d, WriteFrame(w, id, c)), phase := Logged(w, id, c), used := s.used + {w},
         asked := s.asked + {(id, c)})
    case TearPending(w, id, c, whole) =>
      s.(disk := Tear(d, WriteFrame(w, id, c), whole), phase := Idle, used := s.used + {w},
         asked := s.asked + {(id, c)})
    case PublishRecord =>
      var p := s.phase;
      s.(disk := d.(records := Publish(d.records, p.id, p.content)),
         phase := Published(p.walId, p.id, p.content, p.id !in d.records))
    case AppendCommit =>
      var p := s.phase;
      s.(disk := Append(d, Committed(p.walId)), phase := Idle,
         acked := s.acked + {Ack(p.id, p.content, p.created)})
    case StartRecovery => s.(phase := Recovering(Todo(d)))
    case SkipFrame => s.(phase := Recovering(s.phase.todo[1..]))
    case RepublishRecord =>
      s.(disk := d.(records := PublishFrame(d.records, s.phase.todo[0])), phase := Republished(s.phase.todo))
    case RecommitFrame =>
      s.(disk := Append(d, Committed(s.phase.todo[0].walId)), phase := Recovering(s.phase.todo[1..]))
    case FinishRecovery => s.(phase := Idle)
    case Checkpoint => s.(disk := CompactDisk(d))
    case Crash => s.(phase := Idle)
    case TearCheckpoint(k, torn) => s.(disk := TornCheckpoint(d, k, torn), phase := Idle)
    case TearCommit(whole) =>
      var w := if s.phase.Published? then s.phase.walId else s.phase.todo[0].walId;
      s.(disk := Tear(d, Committed(w), whole), phase := Idle)
  }

  predicate Legal(s: State, run: seq<Event>)
    decreases |run|
  {
    |run| == 0 || (Enabled(s, run[0]) && Legal(Next(s, run[0]), run[1..]))
  }

  function Exec(s: State, run: seq<Event>): State
    requires Legal(s, run)
    decreases |run|
  {
    if |run| == 0 then s else Exec(Next(s, run[0]), run[1..])
  }

  // ---- the invariant of every reachable state

  /** Every PENDING frame is a whole write request with a drawn id, a log id
      names one request only, and a committed request has its record. */
  ghost predicate LogSound(lines: seq<Frame>, s: State) {
    && (forall f :: f in lines && f.Pending? ==>
          Replayable(f) && f.walId in s.used && (f.entry.value.recordId, f.entry.value.content) in s.asked)
    && (forall f :: f in lines && f.Committed? ==> f.walId in s.used)
    && (forall f, g :: f in lines && g in lines && f.Pending? && g.Pending? && f.walId == g.walId ==> f == g)
    && (forall f, g :: f in lines && g in lines && f.Pending? && g.Committed? && f.walId == g.walId ==>
          f.entry.value.recordId in s.disk.records)
  }

  /** An unterminated PENDING frame carries an id no other line mentions. */
  ghost predicate TailFresh(d: Disk) {
    d.tail.Whole? && d.tail.frame.Pending? ==>
      forall f :: f in d.log ==> f.Skipped? || f.walId != d.tail.frame.walId
  }

  /** What `lines` says of the request `w`: nothing, or this one frame. */
  ghost predicate OnlyRequest(lines: seq<Frame>, w: string, id: string, content: string) {
    forall f :: f in lines && f.Pending? && f.walId == w ==> f == WriteFrame(w, id, content)
  }

  ghost predicate PhaseSound(s: State) {
    match s.phase
    case Idle => true
    case Logged(w, id, c) =>
      w in s.used && (id, c) in s.asked && OnlyRequest(Lines(s.disk), w, id, c)
    case Published(w, id, c, created) =>
      && w in s.used && OnlyRequest(Lines(s.disk), w, id, c)
      && id in s.disk.records && (created ==> s.disk.records[id] == c)
    case Recovering(todo) => TodoSound(s, todo)
    case Republished(todo) =>
      TodoSound(s, todo) && |todo| > 0 && PublishedIn(todo[0], s.disk.records)
  }

  ghost predicate PublishedIn(f: Frame, records: map<string, string>) {
    Replayable(f) && f.entry.value.recordId in records
  }

  ghost predicate TodoSound(s: State, todo: seq<Frame>) {
    && (forall f :: f in todo ==>
          && Replayable(f) && f.walId in s.used
          && (f.entry.value.recordId, f.entry.value.content) in s.asked
          && OnlyRequest(Lines(s.disk), f.walId, f.entry.value.recordId, f.entry.value.content))
    && (s.disk.tail.Whole? && s.disk.tail.frame.Pending? ==> todo == Todo(s.disk))
  }

  ghost predicate Inv(s: State) {
    && LogSound(Lines(s.disk), s)
    && TailFresh(s.disk)
    && PhaseSound(s)
    && (forall id :: id in s.disk.records ==> (id, s.disk.records[id]) in s.asked)
    && (forall a :: a in s.acked ==>
          a.id in s.disk.records && (a.created ==> s.disk.records[a.id] == a.content))
  }

  lemma {:induction false} TodoIsFromLines(lines: seq<Frame>)
    ensures forall f :: f in PendingFrames(lines) ==> f in lines && f.Pending? && f.walId in LiveIds(lines)
  {
    forall id | id in LiveIds(lines) ensures LastFrame(lines, id) in lines {
      LastFrameIsThere(lines, id);
    }
  }

  /** Nothing but `f` and unparseable lines can join the log in one append. */
  lemma LinesAfterAppend(d: Disk, f: Frame, whole: bool)
    ensures forall g :: g in Lines(Append(d, f)) ==> g.Skipped? || g in d.log || (g == f && d.tail.Clean?)
    ensures forall g :: g in Lines(Tear(d, f, whole)) ==> g.Skipped? || g in d.log || (g == f && d.tail.Clean?)
    ensures forall g :: g in d.log ==> g in Lines(d)
  {
  }

  lemma LogSoundGrows(s: State, t: State, f: Frame)
    requires LogSound(Lines(s.disk), s)
    requires s.used <= t.used && s.asked <= t.asked && s.disk.records.Keys <= t.disk.records.Keys
    requires forall g :: g in Lines(t.disk) ==> g.Skipped? || g in Lines(s.disk) || g == f
    requires f.Pending? ==> && Replayable(f) && f.walId !in s.used && f.walId in t.used
                            && (f.entry.value.recordId, f.entry.value.content) in t.asked
    requires f.Committed? ==> && f.walId in t.used
                              && forall g :: g in Lines(s.disk) && g.Pending? && g.walId == f.walId ==>
                                   g.entry.Some? && g.entry.value.recordId in t.disk.records
    ensures LogSound(Lines(t.disk), t)
  {
  }

  lemma NextKeepsLogSound(s: State, e: Event)
    requires Inv(s) && Enabled(s, e)
    ensures LogSound(Lines(Next(s, e).disk), Next(s, e))
  {
    var t := Next(s, e);
    var w := match s.phase case Published(w, _, _, _) => w case Republished(todo) => todo[0].walId case _ => "";
    match e {
      case LogPending(w, id, c) =>
        LinesAfterAppend(s.disk, WriteFrame(w, id, c), false);
        LogSoundGrows(s, t, WriteFrame(w, id, c));
      case TearPending(w, id, c, whole) =>
        LinesAfterAppend(s.disk, WriteFrame(w, id, c), whole);
        LogSoundGrows(s, t, WriteFrame(w, id, c));
      case AppendCommit =>
        LinesAfterAppend(s.disk, Committed(w), false);
        LogSoundGrows(s, t, Committed(w));
      case RecommitFrame =>
        LinesAfterAppend(s.disk, Committed(w), false);
        LogSoundGrows(s, t, Committed(w));
      case TearCommit(whole) =>
        LinesAfterAppend(s.disk, Committed(w), whole);
        LogSoundGrows(s, t, Committed(w));
      case _ =>
        TodoIsFromLines(Lines(s.disk));
        LogSoundGrows(s, t, Skipped);
    }
  }

  lemma NextKeepsPhaseSound(s: State, e: Event)
    requires Inv(s) && Enabled(s, e)
    ensures PhaseSound(Next(s, e)) && TailFresh(Next(s, e).disk)
  {
    TodoIsFromLines(Lines(s.disk));
    hide PendingFrames, LiveIds;
    match e {
      case LogPending(w, id, c) => LinesAfterAppend(s.disk, WriteFrame(w, id, c), false);
      case TearPending(w, id, c, whole) => LinesAfterAppend(s.disk, WriteFrame(w, id, c), whole);
      case RecommitFrame => LinesAfterAppend(s.disk, Committed(s.phase.todo[0].walId), false);
      case TearCheckpoint(k, torn) => CompactPrefix(Lines(s.disk), k);
      case _ =>
    }
  }

  lemma NextKeepsInv(s: State, e: Event)
    requires Inv(s) && Enabled(s, e)
    ensures Inv(Next(s, e))
  {
    NextKeepsLogSound(s, e);
    NextKeepsPhaseSound(s, e);
  }

  lemma {:induction false} RunKeepsInv(s: State, run: seq<Event>)
    requires Inv(s) && Legal(s, run)
    ensures Inv(Exec(s, run))
    ensures forall id :: id in s.disk.records ==>
              id in Exec(s, run).disk.records && Exec(s, run).disk.records[id] == s.disk.records[id]
    ensures s.acked <= Exec(s, run).acked
    decreases |run|
  {
    if |run| > 0 {
      NextKeepsInv(s, run[0]);
      RunKeepsInv(Next(s, run[0]), run[1..]);
    }
  }

  lemma TwoSteps(s: State, run: seq<Event>)
    requires |run| == 2 && Enabled(s, run[0]) && Enabled(Next(s, run[0]), run[1])
    ensures Legal(s, run) && Exec(s, run) == Next(Next(s, run[0]), run[1])
  {
    var r1 := run[1..];
    var s1 := Next(s, run[0]);
    assert r1 == [run[1]] && r1[1..] == [];
    assert Exec(s1, r1) == Exec(Next(s1, r1[0]), r1[1..]);
  }

  lemma ThreeSteps(s: State, run: seq<Event>)
    requires |run| == 3 && Enabled(s, run[0]) && Enabled(Next(s, run[0]), run[1])
    requires Enabled(Next(Next(s, run[0]), run[1]), run[2])
    ensures Legal(s, run) && Exec(s, run) == Next(Next(Next(s, run[0]), run[1]), run[2])
  {
    var r1 := run[1..];
    assert r1 == [run[1], run[2]];
    TwoSteps(Next(s, run[0]), r1);
  }

  lemma {:induction false} ExecConcat(s: State, a: seq<Event>, b: seq<Event>)
    requires Legal(s, a) && Legal(Exec(s, a), b)
    ensures Legal(s, a + b) && Exec(s, a + b) == Exec(Exec(s, a), b)
    decreases |a|
  {
    if |a| == 0 {
      assert a + b == b;
    } else {
      assert (a + b)[1..] == a[1..] + b;
      ExecConcat(Next(s, a[0]), a[1..], b);
    }
  }

  /** Safety over every run from an empty store, whatever crashes in it: records
      never change, every acknowledged write is present with its content, and no
      record holds anything nobody asked to write. */
  lemma {:induction false} StoreSafety(before: seq<Event>, after: seq<Event>)
    requires Legal(EMPTY_STORE, before) && Legal(Exec(EMPTY_STORE, before), after)
    ensures Legal(EMPTY_STORE, before + after)
    ensures var s, t := Exec(EMPTY_STORE, before), Exec(EMPTY_STORE, before + after);
            && (forall id :: id in s.disk.records ==> id in t.disk.records && t.disk.records[id] == s.disk.records[id])
            && (forall a :: a in s.acked ==>
                  a.id in t.disk.records && (a.created ==> t.disk.records[a.id] == a.content))
            && (forall id :: id in t.disk.records ==> (id, t.disk.records[id]) in t.asked)
  {
    RunKeepsInv(EMPTY_STORE, before);
    RunKeepsInv(Exec(EMPTY_STORE, before), after);
    ExecConcat(EMPTY_STORE, before, after);
  }

  // ---- what recovery publishes

  function PublishAll(records: map<string, string>, todo: seq<Frame>): map<string, string> {
    if |todo| == 0 then records
    else PublishFrame(PublishAll(records, todo[..|todo| - 1]), todo[|todo| - 1])
  }

  ghost predicate SubMap(a: map<string, string>, b: map<string, string>) {
    forall id :: id in a ==> id in b && b[id] == a[id]
  }

  lemma {:induction false} PublishAllFront(records: map<string, string>, todo: seq<Frame>)
    requires |todo| > 0
    ensures PublishAll(records, todo) == PublishAll(PublishFrame(records, todo[0]), todo[1..])
  {
    var init := todo[..|todo| - 1];
    if |init| > 0 {
      PublishAllFront(records, init);
      assert todo[1..][..|todo| - 2] == init[1..];
    }
  }

  lemma PublishAllAppend(records: map<string, string>, todo: seq<Frame>, f: Frame)
    ensures PublishAll(records, todo + [f]) == PublishFrame(PublishAll(records, todo), f)
  {
    assert (todo + [f])[..|todo|] == todo;
  }

  lemma {:induction false} PublishAllGrows(records: map<string, string>, todo: seq<Frame>)
    ensures SubMap(records, PublishAll(records, todo))
    ensures forall f :: f in todo && Replayable(f) ==> f.entry.value.recordId in PublishAll(records, todo)
    ensures forall id :: id in PublishAll(records, todo) ==>
              id in records || exists f :: f in todo && Replayable(f) && f.entry.value.recordId == id
  {
    if |todo| > 0 {
      PublishAllGrows(records, todo[..|todo| - 1]);
    }
  }

  /** Publishing part of the result early does not change the result. */
  lemma {:induction false} PublishAllSandwich(a: map<string, string>, b: map<string, string>, todo: seq<Frame>)
    requires SubMap(a, b) && SubMap(b, PublishAll(a, todo))
    ensures PublishAll(b, todo) == PublishAll(a, todo)
    decreases |todo|
  {
    if |todo| == 0 {
      assert a == b;
    } else {
      PublishAllFront(a, todo);
      PublishAllFront(b, todo);
      PublishAllGrows(PublishFrame(a, todo[0]), todo[1..]);
      PublishAllSandwich(PublishFrame(a, todo[0]), PublishFrame(b, todo[0]), todo[1..]);
    }
  }

  lemma {:induction false} ReplayPublishes(d: Disk, todo: seq<Frame>)
    ensures Replay(d, todo).records == PublishAll(d.records, todo)
    decreases |todo|
  {
    if |todo| > 0 {
      ReplayPublishes(ReplayFrame(d, todo[0]), todo[1..]);
      PublishAllFront(d.records, todo);
    }
  }

  /** The records an uninterrupted recovery from `d` ends with. */
  function Goal(d: Disk): map<string, string> {
    Recover(d).records
  }

  /** What the first of the frames that ask for a record asks to put into it. */
  function FirstAsked(todo: seq<Frame>, id: string): Option<string>
    decreases |todo|
  {
    if |todo| == 0 then None
    else if Replayable(todo[0]) && todo[0].entry.value.recordId == id then Some(todo[0].entry.value.content)
    else FirstAsked(todo[1..], id)
  }

  /** What a record holds once all frames are published: what it held, or what the first
      frame that asks for it asked. */
  lemma {:induction false} PublishAllGives(records: map<string, string>, todo: seq<Frame>, id: string)
    ensures var all := PublishAll(records, todo);
            (if id in all then Some(all[id]) else None)
            == if id in records then Some(records[id]) else FirstAsked(todo, id)
    decreases |todo|
  {
    if |todo| > 0 {
      PublishAllFront(records, todo);
      PublishAllGives(PublishFrame(records, todo[0]), todo[1..], id);
      hide PublishAll;
    }
  }

  /** Every request whose PENDING frame is intact on disk has its record after recovery. A
      record holds what it held before, or else what the first pending frame that asks for
      it asked, in the order the log first saw their ids. */
  lemma RecoveryPublishesEveryIntactFrame(s: State)
    requires Inv(s)
    ensures forall f :: f in Lines(s.disk) && f.Pending? ==> f.entry.value.recordId in Goal(s.disk)
    ensures forall id :: id in s.disk.records ==> id in Goal(s.disk) && Goal(s.disk)[id] == s.disk.records[id]
    ensures forall id :: id !in s.disk.records ==>
              FirstAsked(Todo(s.disk), id) == if id in Goal(s.disk) then Some(Goal(s.disk)[id]) else None
  {
    forall id ensures (if id in Goal(s.disk) then Some(Goal(s.disk)[id]) else None)
                   == if id in s.disk.records then Some(s.disk.records[id]) else FirstAsked(Todo(s.disk), id) {
      ReplayPublishes(s.disk, Todo(s.disk));
      PublishAllGives(s.disk.records, Todo(s.disk), id);
    }
    EveryIntactFrameIsPublished(s);
    hide Goal, Todo, FirstAsked, Inv;
  }

  lemma EveryIntactFrameIsPublished(s: State)
    requires Inv(s)
    ensures forall f :: f in Lines(s.disk) && f.Pending? ==> f.entry.value.recordId in Goal(s.disk)
  {
    var lines := Lines(s.disk);
    ReplayPublishes(s.disk, Todo(s.disk));
    PublishAllGrows(s.disk.records, Todo(s.disk));
    forall f | f in lines && f.Pending? ensures f.entry.value.recordId in Goal(s.disk) {
      PendingIdsAre(lines);
      TodoIsFromLines(lines);
      if f.walId !in CommittedIds(lines) {
        assert f.walId in LiveIds(lines);
        var i :| 0 <= i < |LiveIds(lines)| && LiveIds(lines)[i] == f.walId;
        assert Todo(s.disk)[i] in Todo(s.disk);
      }
    }
  }

  /** The steps of one uninterrupted recovery. */
  function ReplaySteps(todo: seq<Frame>): seq<Event> {
    if |todo| == 0 then [FinishRecovery]
    else (if Replayable(todo[0]) then [RepublishRecord, RecommitFrame] else [SkipFrame]) + ReplaySteps(todo[1..])
  }

  lemma {:induction false} ReplayStepsReplay(s: State, todo: seq<Frame>)
    requires s.phase == Recovering(todo)
    ensures Legal(s, ReplaySteps(todo))
    ensures Exec(s, ReplaySteps(todo)) == s.(disk := Replay(s.disk, todo), phase := Idle)
    decreases |todo|
  {
    var steps := ReplaySteps(todo);
    if |todo| > 0 {
      var s1 := Next(s, steps[0]);
      if Replayable(todo[0]) {
        assert steps[1..][1..] == ReplaySteps(todo[1..]);
        var s2 := Next(s1, steps[1..][0]);
        ReplayStepsReplay(s2, todo[1..]);
      } else {
        assert steps[1..] == ReplaySteps(todo[1..]);
        ReplayStepsReplay(s1, todo[1..]);
      }
    }
  }

  lemma RecoveryRunIsRecover(s: State)
    requires s.phase.Idle?
    ensures var run := [StartRecovery] + ReplaySteps(Todo(s.disk));
            Legal(s, run) && Exec(s, run) == s.(disk := Recover(s.disk))
  {
    var run := [StartRecovery] + ReplaySteps(Todo(s.disk));
    assert run[1..] == ReplaySteps(Todo(s.disk));
    ReplayStepsReplay(Next(s, StartRecovery), Todo(s.disk));
  }

  // ---- recovery interrupted and run again

  /** A run without new writes: recoveries, crashes inside them, checkpoints. */
  predicate RecoveryOnly(run: seq<Event>) {
    forall e :: e in run ==> !e.LogPending? && !e.TearPending? && !e.TearCheckpoint?
  }

  /** An unterminated PENDING frame is in no danger when its record is present,
      when it is the only pending frame, or when another pending frame writes
      the same record. */
  ghost predicate SafeTail(d: Disk) {
    d.tail.Whole? && Replayable(d.tail.frame) ==>
      var id := d.tail.frame.entry.value.recordId;
      || id in d.records
      || PendingFrames(d.log) == []
      || exists f :: f in PendingFrames(d.log) && Replayable(f) && f.entry.value.recordId == id
  }

  lemma {:induction false} DropSettled(records: map<string, string>, lines: seq<Frame>, ids: seq<string>, w: string)
    requires forall id :: id in ids ==> id in PendingIds(lines)
    requires w in ids ==> PublishedIn(LastFrame(lines, w), records)
    ensures PublishAll(records, LastFrames(lines, Without(ids, {w}))) == PublishAll(records, LastFrames(lines, ids))
  {
    if |ids| > 0 {
      var init, last := ids[..|ids| - 1], ids[|ids| - 1];
      assert ids == init + [last];
      DropSettled(records, lines, init, w);
      PublishLast(records, lines, init, last);
      if last == w {
        PublishAllGrows(records, LastFrames(lines, init));
      } else {
        PublishLast(records, lines, Without(init, {w}), last);
      }
    }
  }

  lemma PublishLast(records: map<string, string>, lines: seq<Frame>, ids: seq<string>, id: string)
    requires id in PendingIds(lines) && forall x :: x in ids ==> x in PendingIds(lines)
    ensures PublishAll(records, LastFrames(lines, ids + [id]))
         == PublishFrame(PublishAll(records, LastFrames(lines, ids)), LastFrame(lines, id))
  {
    assert LastFrames(lines, ids + [id]) == LastFrames(lines, ids) + [LastFrame(lines, id)];
    PublishAllAppend(records, LastFrames(lines, ids), LastFrame(lines, id));
  }

  /** Committing a request whose record is present leaves the goal alone. */
  lemma CommitKeepsGoal(records: map<string, string>, lines: seq<Frame>, w: string)
    requires forall f :: f in lines && f.Pending? && f.walId == w ==> PublishedIn(f, records)
    ensures PublishAll(records, PendingFrames(lines + [Committed(w)])) == PublishAll(records, PendingFrames(lines))
  {
    var now, ids := lines + [Committed(w)], LiveIds(lines);
    StepIds(lines, Committed(w));
    WithoutTwice(PendingIds(lines), CommittedIds(lines), {w});
    assert LiveIds(now) == Without(ids, {w});
    assert LastFrames(now, LiveIds(now)) == LastFrames(lines, LiveIds(now));
    if w in ids {
      assert LastFrame(lines, w) in lines by { LastFrameIsThere(lines, w); }
    }
    DropSettled(records, lines, ids, w);
  }

  lemma SkippedKeepsPending(lines: seq<Frame>)
    ensures PendingFrames(lines + [Skipped]) == PendingFrames(lines)
  {
    StepIds(lines, Skipped);
    assert PendingIds(lines) + [] == PendingIds(lines) && CommittedIds(lines) + {} == CommittedIds(lines);
    assert LiveIds(lines + [Skipped]) == LiveIds(lines);
    assert forall id :: id in LiveIds(lines) ==> id in PendingIds(lines);
  }

  /** A fresh PENDING line joins the end of the pending frames. */
  lemma FreshPendingIsLast(lines: seq<Frame>, f: Frame)
    requires f.Pending? && forall g :: g in lines ==> g.Skipped? || g.walId != f.walId
    ensures PendingFrames(lines + [f]) == PendingFrames(lines) + [f]
  {
    var now := lines + [f];
    StepIds(lines, f);
    PendingIdsAre(lines);
    assert f.walId !in CommittedIds(lines) && CommittedIds(now) == CommittedIds(lines);
    WithoutAppend(PendingIds(lines), f.walId, CommittedIds(lines));
    assert LiveIds(now) == LiveIds(lines) + [f.walId];
    forall i | 0 <= i < |LiveIds(lines)| ensures PendingFrames(now)[i] == PendingFrames(lines)[i] {
      assert LiveIds(lines)[i] in PendingIds(lines);
    }
  }

  lemma TailInTodo(s: State)
    requires Inv(s) && s.disk.tail.Whole? && s.disk.tail.frame.Pending?
    ensures Replayable(s.disk.tail.frame)
    ensures forall g :: g in s.disk.log ==> g.Skipped? || g.walId != s.disk.tail.frame.walId
    ensures s.phase.Republished? ==> s.phase.todo == Todo(s.disk) && PublishedIn(s.phase.todo[0], s.disk.records)
  {
    hide Todo;
    assert s.disk.tail.frame in Lines(s.disk);
  }

  /** Losing an unterminated PENDING tail that is safe, once the first replay
      of the recovery is done. */
  lemma LosingSafeTail(s: State)
    requires Inv(s) && SafeTail(s.disk) && s.phase.Republished?
    requires s.disk.tail.Whole? && s.disk.tail.frame.Pending?
    ensures PublishAll(s.disk.records, PendingFrames(s.disk.log)) == PublishAll(s.disk.records, Todo(s.disk))
  {
    var d, f, rest := s.disk, s.disk.tail.frame, PendingFrames(s.disk.log);
    TailInTodo(s);
    hide Inv, LogSound, PhaseSound, LastFrames, LiveIds;
    FreshPendingIsLast(d.log, f);
    PublishAllAppend(d.records, rest, f);
    PublishAllGrows(d.records, rest);
    if rest == [] {
      assert s.phase.todo == [f];
    }
  }

  lemma GluingKeepsGoal(s: State)
    requires Inv(s) && SafeTail(s.disk) && s.phase.Republished?
    ensures PublishAll(s.disk.records, PendingFrames(s.disk.log + [Skipped]))
         == PublishAll(s.disk.records, Todo(s.disk))
  {
    var d := s.disk;
    SkippedKeepsPending(d.log);
    if d.tail.Whole? {
      var f := d.tail.frame;
      if f.Pending? {
        LosingSafeTail(s);
      } else if f.Committed? {
        assert f in Lines(d) && forall g :: g in d.log ==> g in Lines(d);
        CommitKeepsGoal(d.records, d.log, f.walId);
      }
    }
  }

  ghost predicate Aims(s: State, goal: map<string, string>) {
    && Inv(s)
    && SafeTail(s.disk)
    && Goal(s.disk) == goal
    && match s.phase {
         case Idle => true
         case Recovering(todo) => PublishAll(s.disk.records, todo) == goal
         case Republished(todo) => PublishAll(s.disk.records, todo) == goal
         case _ => false
       }
  }

  /** The line a COMMITTED append leaves does not change what recovery ends with. */
  lemma CommitAfterReplayKeepsGoal(s: State, e: Event)
    requires Inv(s) && SafeTail(s.disk) && Enabled(s, e) && s.phase.Republished? && (e.RecommitFrame? || e.TearCommit?)
    ensures PublishAll(s.disk.records, Todo(Next(s, e).disk)) == PublishAll(s.disk.records, Todo(s.disk))
    ensures Next(s, e).disk.records == s.disk.records
  {
    var d := s.disk;
    if d.tail.Clean? && !(e.TearCommit? && !e.whole) {
      CommitKeepsGoal(d.records, d.log, s.phase.todo[0].walId);
    } else {
      GluingKeepsGoal(s);
    }
  }

  lemma CommitAfterReplayKeepsAim(s: State, e: Event, goal: map<string, string>)
    requires Aims(s, goal) && Enabled(s, e) && (e.RecommitFrame? || e.TearCommit?)
    ensures Aims(Next(s, e), goal)
  {
    NextKeepsInv(s, e);
    CommitAfterReplayKeepsGoal(s, e);
    ReplayPublishes(s.disk, Todo(s.disk));
    ReplayPublishes(Next(s, e).disk, Todo(Next(s, e).disk));
    PublishAllFront(s.disk.records, s.phase.todo);
    CommitTailIsSafe(s, e);
    hide Inv, PendingFrames, Todo, SafeTail;
  }

  lemma CommitTailIsSafe(s: State, e: Event)
    requires Inv(s) && Enabled(s, e) && s.phase.Republished? && (e.RecommitFrame? || e.TearCommit?)
    ensures SafeTail(Next(s, e).disk)
  {
  }

  lemma RepublishKeepsAim(s: State, goal: map<string, string>)
    requires Aims(s, goal) && Enabled(s, RepublishRecord)
    ensures Aims(Next(s, RepublishRecord), goal)
  {
    NextKeepsInv(s, RepublishRecord);
    var d, t, todo := s.disk, Next(s, RepublishRecord), s.phase.todo;
    ReplayPublishes(d, Todo(d));
    ReplayPublishes(t.disk, Todo(t.disk));
    PublishAllFront(d.records, todo);
    PublishAllGrows(t.disk.records, todo[1..]);
    PublishAllSandwich(d.records, t.disk.records, todo);
    PublishAllSandwich(d.records, t.disk.records, Todo(d));
    hide Inv, PendingFrames, Replay, PublishAll;
  }

  lemma NextKeepsAim(s: State, e: Event, goal: map<string, string>)
    requires Aims(s, goal) && Enabled(s, e) && RecoveryOnly([e])
    ensures Aims(Next(s, e), goal)
  {
    assert e in [e];
    if e.RecommitFrame? || e.TearCommit? {
      CommitAfterReplayKeepsAim(s, e, goal);
    } else if e.RepublishRecord? {
      RepublishKeepsAim(s, goal);
    } else if e.Checkpoint? {
      CheckpointKeepsAim(s, goal);
    } else {
      NextKeepsInv(s, e);
      hide Inv, PendingFrames, Replay, Compact, PublishAll;
      ReplayPublishes(s.disk, Todo(s.disk));
    }
  }

  lemma CheckpointKeepsAim(s: State, goal: map<string, string>)
    requires Aims(s, goal)
    ensures Aims(Next(s, Checkpoint), goal)
  {
    NextKeepsInv(s, Checkpoint);
    hide Inv, PendingFrames, Replay, PublishAll;
    ReplayPublishes(s.disk, Todo(s.disk));
    ReplayPublishes(Next(s, Checkpoint).disk, Todo(Next(s, Checkpoint).disk));
    CompactKeepsLive(Lines(s.disk));
  }

  lemma {:induction false} RunKeepsAim(s: State, run: seq<Event>, goal: map<string, string>)
    requires Aims(s, goal) && Legal(s, run) && RecoveryOnly(run)
    ensures Aims(Exec(s, run), goal)
    decreases |run|
  {
    if |run| > 0 {
      assert run[0] in run && forall e :: e in run[1..] ==> e in run;
      NextKeepsAim(s, run[0], goal);
      RunKeepsAim(Next(s, run[0]), run[1..], goal);
    }
  }

  lemma SafeRerun(s: State, run: seq<Event>)
    requires Inv(s) && s.phase.Idle? && SafeTail(s.disk) && Legal(s, run) && RecoveryOnly(run)
    ensures Goal(Exec(s, run).disk) == Goal(s.disk)
  {
    RunKeepsAim(s, run, Goal(s.disk));
    hide Inv, Exec, Legal, Goal;
  }

  ghost predicate RerunsAlike(s: State) {
    forall run :: Legal(s, run) && RecoveryOnly(run) ==> Goal(Exec(s, run).disk) == Goal(s.disk)
  }

  /** A recovery that is interrupted anywhere, any number of times, and run again
      ends with the records of an uninterrupted one exactly when the tail is safe. */
  lemma InterruptedRecoveryIsRecovery(s: State)
    requires Inv(s) && s.phase.Idle?
    ensures RerunsAlike(s) <==> SafeTail(s.disk)
  {
    hide Inv, Goal, SafeTail, Exec, Legal, Todo;
    if SafeTail(s.disk) {
      forall run | Legal(s, run) && RecoveryOnly(run) ensures Goal(Exec(s, run).disk) == Goal(s.disk) {
        SafeRerun(s, run);
      }
    } else {
      var run := [StartRecovery, RepublishRecord, RecommitFrame];
      UnsafeTailIsLost(s);
      assert !(Legal(s, run) && RecoveryOnly(run) ==> Goal(Exec(s, run).disk) == Goal(s.disk));
    }
  }

  /** What a recovery finds over an unsafe tail. */
  lemma UnsafeTodo(s: State)
    requires Inv(s) && !SafeTail(s.disk)
    ensures var rest := PendingFrames(s.disk.log);
            rest != [] && Todo(s.disk) == rest + [s.disk.tail.frame] && Replayable(rest[0])
  {
    var d, f := s.disk, s.disk.tail.frame;
    assert f in Lines(d);
    FreshPendingIsLast(d.log, f);
    TodoIsFromLines(d.log);
    var h := PendingFrames(d.log)[0];
    hide PendingFrames;
    assert h in PendingFrames(d.log) && h in d.log && h in Lines(d);
  }

  /** Its first three steps publish the oldest line and join its COMMITTED line to the
      tail. */
  lemma RecoveryStarts(s: State)
    requires s.phase.Idle? && s.disk.tail.Whole? && Todo(s.disk) != [] && Replayable(Todo(s.disk)[0])
    ensures var run := [StartRecovery, RepublishRecord, RecommitFrame];
            && Legal(s, run)
            && Exec(s, run).disk
            == Disk(s.disk.log + [Skipped], Clean, PublishFrame(s.disk.records, Todo(s.disk)[0]))
  {
    hide Todo, Replayable, PublishFrame;
    assert Todo(s.disk)[0].Pending? by { ReplayableIsPending(Todo(s.disk)[0]); }
    ThreeSteps(s, [StartRecovery, RepublishRecord, RecommitFrame]);
  }

  lemma ReplayableIsPending(f: Frame)
    requires Replayable(f)
    ensures f.Pending?
  {
  }

  /** Crashing after the first COMMITTED append of a recovery loses an unsafe tail. */
  lemma UnsafeTailIsLost(s: State)
    requires Inv(s) && s.phase.Idle? && !SafeTail(s.disk)
    ensures var run := [StartRecovery, RepublishRecord, RecommitFrame];
            && Legal(s, run)
            && s.disk.tail.frame.entry.value.recordId in Goal(s.disk)
            && s.disk.tail.frame.entry.value.recordId !in Goal(Exec(s, run).disk)
  {
    var run, rest := [StartRecovery, RepublishRecord, RecommitFrame], PendingFrames(s.disk.log);
    UnsafeTodo(s);
    RecoveryStarts(s);
    assert s.disk.tail.frame in Lines(s.disk);
    RecoveryPublishesEveryIntactFrame(s);
    SkippedKeepsPending(s.disk.log);
    var lost := Exec(s, run).disk;
    hide Exec, Legal, Inv, PublishAll, PendingFrames;
    assert rest[0] in rest && Todo(lost) == rest;
    ReplayPublishes(lost, rest);
    PublishAllGrows(lost.records, rest);
  }

  /** The danger is real: a write stopped after its PENDING frame, then another
      stopped one byte before the end of its own, with no recovery in between. */
  lemma UnsafeTailIsReachable()
    ensures var run := [LogPending("w1", "a", "x"), Crash, TearPending("w2", "b", "y", true)];
            && Legal(EMPTY_STORE, run) && Exec(EMPTY_STORE, run).phase.Idle?
            && !SafeTail(Exec(EMPTY_STORE, run).disk)
  {
    var run := [LogPending("w1", "a", "x"), Crash, TearPending("w2", "b", "y", true)];
    ThreeSteps(EMPTY_STORE, run);
    var s3 := Exec(EMPTY_STORE, run);
    var f := WriteFrame("w1", "a", "x");
    assert s3.disk.log == [] + [f];
    FreshPendingIsLast([], f);
    assert PendingFrames([f]) == [f];
  }

  /** A write whose PENDING append returned survives a crash right after it
      exactly when the log ended with a newline before that append. */
  lemma LoggedWriteSurvives(s: State, walId: string, id: string, content: string)
    requires Inv(s) && s.phase.Idle? && walId !in s.used
    requires id !in Goal(s.disk)
    ensures var run := [LogPending(walId, id, content), Crash];
            && Legal(s, run) && (id in Goal(Exec(s, run).disk) <==> s.disk.tail.Clean?)
            && (s.disk.tail.Clean? ==> Goal(Exec(s, run).disk)[id] == content)
  {
    var run := [LogPending(walId, id, content), Crash];
    var t := Next(s, run[0]);
    TwoSteps(s, run);
    NextKeepsInv(s, run[0]);
    RecoveryPublishesEveryIntactFrame(s);
    if s.disk.tail.Clean? {
      var f := WriteFrame(walId, id, content);
      EveryIntactFrameIsPublished(t);
      assert f in Lines(t.disk);
      FreshPendingIsLast(s.disk.log, f);
      ReplayPublishes(s.disk, Todo(s.disk));
      ReplayPublishes(t.disk, Todo(t.disk));
      PublishAllAppend(s.disk.records, Todo(s.disk), f);
    } else {
      LinesAfterAppend(s.disk, WriteFrame(walId, id, content), false);
      ReplayPublishes(t.disk, Todo(t.disk));
      PublishAllGrows(t.disk.records, Todo(t.disk));
      TodoIsFromLines(Lines(t.disk));
    }
  }

  /** The three steps of an undisturbed write are the native write transaction. */
  lemma WriteRunIsTransaction(s: State, walId: string, id: string, content: string)
    requires s.phase.Idle? && walId !in s.used
    ensures var run := [LogPending(walId, id, content), PublishRecord, AppendCommit];
            && Legal(s, run)
            && Exec(s, run).disk == WriteTransaction(s.disk, walId, id, content)
            && Exec(s, run).acked == s.acked + {Ack(id, content, id !in s.disk.records)}
  {
    var run := [LogPending(walId, id, content), PublishRecord, AppendCommit];
    ThreeSteps(s, run);
  }

  // ---- what stays pending

  /** A COMMITTED line takes its id off the pending ones and leaves the others as they are. */
  lemma CommitSettles(lines: seq<Frame>, w: string)
    ensures LiveIds(lines + [Committed(w)]) == Without(LiveIds(lines), {w})
    ensures forall id :: id in LiveIds(lines + [Committed(w)]) ==>
              LastFrame(lines + [Committed(w)], id) == LastFrame(lines, id)
  {
    StepIds(lines, Committed(w));
    WithoutTwice(PendingIds(lines), CommittedIds(lines), {w});
  }

  /** A PENDING line of its own changes nothing for the ids other than its own. */
  lemma PendingElsewhere(lines: seq<Frame>, f: Frame)
    requires f.Pending?
    ensures Without(LiveIds(lines + [f]), {f.walId}) == Without(LiveIds(lines), {f.walId})
    ensures forall id :: id in LiveIds(lines) && id != f.walId ==> LastFrame(lines + [f], id) == LastFrame(lines, id)
  {
    StepIds(lines, f);
    var ids, w, dead := PendingIds(lines), f.walId, CommittedIds(lines);
    assert CommittedIds(lines + [f]) == dead;
    WithoutTwice(PendingIds(lines + [f]), dead, {w});
    WithoutTwice(ids, dead, {w});
    WithoutAppend(ids, w, dead + {w});
    assert Without(ids, dead + {w}) + [] == Without(ids, dead + {w});
    hide Without, PendingIds, CommittedIds;
  }

  /** After a finished write its log id is not pending, and what else was pending in the
      log is pending still, line for line and in order. */
  lemma WriteSettles(d: Disk, w: string, id: string, content: string)
    ensures var after := WriteTransaction(d, w, id, content);
            && LiveIds(Lines(after)) == Without(LiveIds(d.log), {w})
            && Todo(after) == LastFrames(d.log, Without(LiveIds(d.log), {w}))
            && after.tail.Clean?
            && id in after.records && after.records[id] == if id in d.records then d.records[id] else content
  {
    var f, after := WriteFrame(w, id, content), WriteTransaction(d, w, id, content);
    var first := if d.tail.Clean? then f else Skipped;
    var logged := d.log + [first];
    assert after.log == logged + [Committed(w)];
    CommitSettles(logged, w);
    hide LiveIds;
    if d.tail.Clean? {
      PendingElsewhere(d.log, f);
    } else {
      SkippedKeepsLive(d.log);
    }
  }

  lemma SkippedKeepsLive(lines: seq<Frame>)
    ensures LiveIds(lines + [Skipped]) == LiveIds(lines)
    ensures forall id :: id in LiveIds(lines) ==> LastFrame(lines + [Skipped], id) == LastFrame(lines, id)
  {
    StepIds(lines, Skipped);
    assert PendingIds(lines) + [] == PendingIds(lines) && CommittedIds(lines) + {} == CommittedIds(lines);
  }

  lemma FreshIsNotLive(s: State, w: string)
    requires Inv(s) && w !in s.used
    ensures w !in LiveIds(s.disk.log) && w !in LiveIds(Lines(s.disk))
  {
    PendingIdsAre(s.disk.log);
    PendingIdsAre(Lines(s.disk));
    assert forall f :: f in s.disk.log ==> f in Lines(s.disk);
  }

  /** From a log that ends in a newline an undisturbed write leaves pending just what was. */
  lemma FinishedWriteLeavesNothing(s: State, w: string, id: string, content: string)
    requires Inv(s) && s.phase.Idle? && w !in s.used
    ensures var run := [LogPending(w, id, content), PublishRecord, AppendCommit];
            && Legal(s, run)
            && w !in LiveIds(Lines(Exec(s, run).disk))
            && Todo(Exec(s, run).disk) == PendingFrames(s.disk.log)
            && (s.disk.tail.Clean? ==> Todo(Exec(s, run).disk) == Todo(s.disk))
  {
    WriteRunIsTransaction(s, w, id, content);
    WriteSettles(s.disk, w, id, content);
    FreshIsNotLive(s, w);
    WithoutNothingDead(LiveIds(s.disk.log), {w});
    hide WriteTransaction, Exec, Inv;
  }

  /** The log says that `w` was drawn and is done, and no append can bring it back. */
  ghost predicate Settled(s: State, w: string) {
    w in s.used && w !in LiveIds(s.disk.log) && !(s.disk.tail.Whole? && s.disk.tail.frame.Pending?
                                                  && s.disk.tail.frame.walId == w)
  }

  lemma SettledLines(s: State, w: string, f: Frame)
    requires w !in LiveIds(s.disk.log) && (f.Pending? ==> f.walId != w)
    ensures w !in LiveIds(s.disk.log + [f])
  {
    StepIds(s.disk.log, f);
  }

  lemma SettledIsNotLive(s: State, w: string)
    requires Settled(s, w)
    ensures w !in LiveIds(Lines(s.disk))
  {
    match s.disk.tail {
      case Clean =>
      case Fragment => SettledLines(s, w, Skipped);
      case Whole(f) => SettledLines(s, w, f);
    }
  }

  lemma SettledCompacts(s: State, w: string, k: nat)
    requires Settled(s, w) && k <= |Todo(s.disk)|
    ensures w !in LiveIds(Compact(Lines(s.disk))[..k])
    ensures k < |Todo(s.disk)| ==> Compact(Lines(s.disk))[k].walId != w
  {
    SettledIsNotLive(s, w);
    var lines := Lines(s.disk);
    CompactKeepsLive(lines);
    var kept := Compact(lines)[..k];
    PendingIdsAre(kept);
    forall f | f in Compact(lines) ensures f.Pending? && f.walId != w {
      TodoIsFromLines(lines);
    }
  }

  lemma NextKeepsSettled(s: State, e: Event, w: string)
    requires Inv(s) && Enabled(s, e) && Settled(s, w)
    ensures Settled(Next(s, e), w)
  {
    hide LiveIds, LogSound, PhaseSound;
    SettledLines(s, w, Skipped);
    match e {
      case LogPending(x, id, c) => SettledLines(s, w, WriteFrame(x, id, c));
      case AppendCommit => SettledLines(s, w, Committed(s.phase.walId));
      case RecommitFrame => SettledLines(s, w, Committed(s.phase.todo[0].walId));
      case Checkpoint =>
        SettledCompacts(s, w, |Todo(s.disk)|);
        assert Compact(Lines(s.disk))[..|Todo(s.disk)|] == Compact(Lines(s.disk));
      case TearCheckpoint(k, torn) => SettledCompacts(s, w, k);
      case _ =>
    }
  }

  lemma {:induction false} RunKeepsSettled(s: State, run: seq<Event>, w: string)
    requires Inv(s) && Legal(s, run) && Settled(s, w)
    ensures Settled(Exec(s, run), w) && w !in LiveIds(Lines(Exec(s, run).disk))
    decreases |run|
  {
    if |run| > 0 {
      NextKeepsInv(s, run[0]);
      NextKeepsSettled(s, run[0], w);
      RunKeepsSettled(Next(s, run[0]), run[1..], w);
    } else {
      SettledIsNotLive(s, w);
    }
  }

  /** A finished write is done for good: whatever runs after it, torn appends and crashes
      included, no recovery replays it again. */
  lemma FinishedWriteIsNeverReplayed(s: State, w: string, id: string, content: string, later: seq<Event>)
    requires Inv(s) && s.phase.Idle? && w !in s.used
    requires var run := [LogPending(w, id, content), PublishRecord, AppendCommit];
             Legal(s, run) && Legal(Exec(s, run), later)
    ensures var run := [LogPending(w, id, content), PublishRecord, AppendCommit];
            w !in LiveIds(Lines(Exec(Exec(s, run), later).disk))
  {
    var run := [LogPending(w, id, content), PublishRecord, AppendCommit];
    FinishedWriteLeavesNothing(s, w, id, content);
    ThreeSteps(s, run);
    RunKeepsInv(s, run);
    RunKeepsSettled(Exec(s, run), later, w);
  }

  /** The log ids of the lines that a recovery replays, in order. */
  function ReplayedIds(todo: seq<Frame>): seq<string> {
    if |todo| == 0 then []
    else (if Replayable(todo[0]) then [todo[0].walId] else []) + ReplayedIds(todo[1..])
  }

  function AsSet(ids: seq<string>): set<string> {
    set id | id in ids
  }

  /** What of a clean log is pending after replaying `todo`: all but the replayed ids. */
  lemma {:induction false} ReplaySettles(d: Disk, todo: seq<Frame>)
    requires d.tail.Clean?
    ensures Replay(d, todo).tail.Clean?
    ensures LiveIds(Replay(d, todo).log) == Without(LiveIds(d.log), AsSet(ReplayedIds(todo)))
    ensures forall id :: id in LiveIds(Replay(d, todo).log) ==>
              LastFrame(Replay(d, todo).log, id) == LastFrame(d.log, id)
    decreases |todo|
  {
    hide LiveIds, Without, LastFrame, PendingIds, CommittedIds;
    if |todo| == 0 {
      assert AsSet(ReplayedIds(todo)) == {};
      WithoutNothingDead(LiveIds(d.log), {});
    } else {
      var next := ReplayFrame(d, todo[0]);
      ReplaySettles(next, todo[1..]);
      if Replayable(todo[0]) {
        var w, rest := todo[0].walId, AsSet(ReplayedIds(todo[1..]));
        CommitSettles(d.log, w);
        WithoutTwice(LiveIds(d.log), {w}, rest);
        assert next.log == d.log + [Committed(w)];
        assert AsSet(ReplayedIds(todo)) == {w} + rest;
      } else {
        assert ReplayedIds(todo) == ReplayedIds(todo[1..]);
      }
    }
  }

  /** Exactly what an uninterrupted recovery leaves pending. From a log that ends in a newline
      it leaves what it cannot replay. Otherwise its first COMMITTED line is lost with the
      unterminated line, and what is then pending in the log stays, less what it replays after
      that. */
  lemma RecoveryLeaves(d: Disk)
    ensures var replayed := ReplayedIds(Todo(d));
            var left := if replayed == [] then LiveIds(Lines(d))
                        else if d.tail.Clean? then Without(LiveIds(d.log), AsSet(replayed))
                        else Without(LiveIds(d.log), AsSet(replayed[1..]));
            && LiveIds(Lines(Recover(d))) == left
            && Todo(Recover(d)) == LastFrames(if replayed == [] then Lines(d) else d.log, left)
  {
    ReplayFrom(d, Todo(d));
    var after := Recover(d);
    assert ReplayedIds(Todo(d)) != [] ==>
        Todo(after) == LastFrames(after.log, LiveIds(after.log)) == LastFrames(d.log, LiveIds(after.log));
    hide Without, ReplayedIds, PendingIds, Replay;
  }

  lemma {:induction false} ReplayFrom(d: Disk, todo: seq<Frame>)
    ensures var replayed, after := ReplayedIds(todo), Replay(d, todo);
            && (replayed == [] ==> after == d)
            && (replayed != [] ==>
                  && after.tail.Clean?
                  && LiveIds(after.log) == Without(LiveIds(d.log),
                                                   AsSet(if d.tail.Clean? then replayed else replayed[1..]))
                  && forall id :: id in LiveIds(after.log) ==> LastFrame(after.log, id) == LastFrame(d.log, id))
    decreases |todo|
  {
    hide LiveIds, Without, LastFrame, PendingIds, CommittedIds;
    if ReplayedIds(todo) == [] {
      NothingReplayed(d, todo);
    } else if d.tail.Clean? {
      ReplaySettles(d, todo);
    } else if Replayable(todo[0]) {
      var next := ReplayFrame(d, todo[0]);
      assert next.log == d.log + [Skipped];
      SkippedKeepsLive(d.log);
      ReplaySettles(next, todo[1..]);
      assert ReplayedIds(todo)[1..] == ReplayedIds(todo[1..]);
    } else {
      assert ReplayedIds(todo) == ReplayedIds(todo[1..]);
      ReplayFrom(d, todo[1..]);
    }
  }

  lemma {:induction false} NothingReplayed(d: Disk, todo: seq<Frame>)
    requires ReplayedIds(todo) == []
    ensures Replay(d, todo) == d
    decreases |todo|
  {
    if |todo| > 0 {
      NothingReplayed(d, todo[1..]);
    }
  }

  lemma {:induction false} AllReplayed(todo: seq<Frame>)
    requires forall f :: f in todo ==> f.Pending? && Replayable(f)
    ensures |ReplayedIds(todo)| == |todo|
    ensures forall i :: 0 <= i < |todo| ==> ReplayedIds(todo)[i] == todo[i].walId
  {
    if |todo| > 0 {
      AllReplayed(todo[1..]);
    }
  }

  lemma TodoReplays(s: State)
    requires Inv(s)
    ensures |Todo(s.disk)| == |LiveIds(Lines(s.disk))| && ReplayedIds(Todo(s.disk)) == LiveIds(Lines(s.disk))
  {
    TodoIsFromLines(Lines(s.disk));
    assert forall f :: f in Todo(s.disk) ==> f.Pending? && Replayable(f);
    AllReplayed(Todo(s.disk));
    hide LogSound, LiveIds;
  }

  /** What recovery reports: a record id for each pending line that asks for a write, in order,
      and the number of the lines whose fields are missing. */
  lemma {:induction false} RecoveryReports(todo: seq<Frame>)
    ensures forall id :: id in RecoveredIds(todo) <==>
              exists f :: f in todo && Replayable(f) && f.entry.value.recordId == id
    ensures |RecoveredIds(todo)| == |Filter(todo, IsReplayable())|
    ensures forall i :: 0 <= i < |RecoveredIds(todo)| ==>
              var f := Filter(todo, IsReplayable())[i];
              f.Pending? && f.entry.Some? && RecoveredIds(todo)[i] == f.entry.value.recordId
    ensures FailedCount(todo) == |Filter(todo, LacksFields())|
  {
    if |todo| > 0 {
      var init, f := todo[..|todo| - 1], todo[|todo| - 1];
      RecoveryReports(init);
      assert todo == init + [f];
      FilterAppend(init, f, IsReplayable());
      FilterAppend(init, f, LacksFields());
      hide Filter;
    }
  }

  function IsReplayable(): Frame -> bool {
    (f: Frame) => f.Pending? && f.entry.Some? && f.entry.value.operation == "write"
  }

  function LacksFields(): Frame -> bool {
    (f: Frame) => f.Pending? && f.entry.None?
  }

  /** In a reachable state it reports a record for every pending line and no failure. */
  lemma RecoveryReportsAll(s: State)
    requires Inv(s)
    ensures var todo := Todo(s.disk);
            && |RecoveredIds(todo)| == |todo| && FailedCount(todo) == 0
            && forall i :: 0 <= i < |todo| ==>
                 todo[i].Pending? && todo[i].entry.Some? && RecoveredIds(todo)[i] == todo[i].entry.value.recordId
  {
    TodoIsFromLines(Lines(s.disk));
    assert forall f :: f in Todo(s.disk) ==> f.Pending? && Replayable(f);
    AllReported(Todo(s.disk));
    hide LogSound;
  }

  lemma {:induction false} AllReported(todo: seq<Frame>)
    requires forall f :: f in todo ==> f.Pending? && Replayable(f)
    ensures |RecoveredIds(todo)| == |todo| && FailedCount(todo) == 0
    ensures forall i :: 0 <= i < |todo| ==>
              Replayable(todo[i]) && RecoveredIds(todo)[i] == todo[i].entry.value.recordId
  {
    if |todo| > 0 {
      AllReported(todo[..|todo| - 1]);
    }
  }

  /** In every reachable state an uninterrupted recovery leaves nothing pending, and a
      compaction after it keeps no line, exactly when the log ended in a newline, or nothing
      was pending, or no whole line but the unterminated one was. */
  lemma RecoverySettlesIff(s: State)
    requires Inv(s)
    ensures var after := Recover(s.disk);
            && (LiveIds(Lines(after)) == [] <==>
                  s.disk.tail.Clean? || LiveIds(Lines(s.disk)) == [] || LiveIds(s.disk.log) == [])
            && (LiveIds(Lines(after)) == [] <==> Todo(after) == [])
            && (LiveIds(Lines(after)) == [] <==> CompactDisk(after).log == [])
  {
    var d, live := s.disk, LiveIds(Lines(s.disk));
    TodoReplays(s);
    RecoveryLeaves(d);
    if live != [] {
      if d.tail.Clean? {
        assert Without(live, AsSet(live)) == [] by {
          assert forall id :: id in live ==> id in AsSet(live);
          AllDead(live, AsSet(live));
        }
      } else if LiveIds(d.log) != [] {
        FirstStays(s);
      }
    }
  }

  lemma AllDead(ids: seq<string>, dead: set<string>)
    requires forall id :: id in ids ==> id in dead
    ensures Without(ids, dead) == []
  {
    var left := Without(ids, dead);
    assert forall i :: 0 <= i < |left| ==> left[i] in left;
  }

  /** The oldest pending id of a log with an unterminated line is pending without that line
      too, and no second time. */
  lemma FirstStays(s: State)
    requires Inv(s) && !s.disk.tail.Clean? && LiveIds(Lines(s.disk)) != [] && LiveIds(s.disk.log) != []
    ensures Without(LiveIds(s.disk.log), AsSet(LiveIds(Lines(s.disk))[1..])) != []
  {
    var d, live := s.disk, LiveIds(Lines(s.disk));
    PendingIdsDistinct(Lines(d));
    WithoutKeepsDistinct(PendingIds(Lines(d)), CommittedIds(Lines(d)));
    assert live[0] !in live[1..];
    match d.tail {
      case Fragment => SkippedKeepsLive(d.log);
      case Whole(f) =>
        match f {
          case Skipped => SkippedKeepsLive(d.log);
          case Committed(w) => CommitSettles(d.log, w);
          case Pending(_, _) =>
            assert f in Lines(d);
            FreshPendingIsLast(d.log, f);
            assert LiveIds(Lines(d)) == LiveIds(d.log) + [f.walId] by { FreshLiveIsLast(d.log, f); }
        }
    }
    assert live[0] in LiveIds(d.log);
  }

  lemma FreshLiveIsLast(lines: seq<Frame>, f: Frame)
    requires f.Pending? && forall g :: g in lines ==> g.Skipped? || g.walId != f.walId
    ensures LiveIds(lines + [f]) == LiveIds(lines) + [f.walId]
  {
    StepIds(lines, f);
    PendingIdsAre(lines);
    assert f.walId !in CommittedIds(lines) && CommittedIds(lines + [f]) == CommittedIds(lines);
    WithoutAppend(PendingIds(lines), f.walId, CommittedIds(lines));
  }

  /** A second recovery replays nothing that is left over, whatever the first one met. */
  lemma SecondRecoverySettles(s: State)
    requires Inv(s)
    ensures LiveIds(Lines(Recover(Recover(s.disk)))) == []
  {
    var run := [StartRecovery] + ReplaySteps(Todo(s.disk));
    var idle := s.(phase := Idle);
    RecoveryRunIsRecover(idle);
    RunKeepsInv(idle, run);
    RecoverySettlesIff(s);
    RecoverySettlesIff(s.(disk := Recover(s.disk), phase := Idle));
    TodoReplays(s);
    RecoveryIsClean(s.disk);
  }

  lemma RecoveryIsClean(d: Disk)
    ensures ReplayedIds(Todo(d)) != [] ==> Recover(d).tail.Clean?
  {
    ReplayFrom(d, Todo(d));
  }

  // ---- a checkpoint that is cut short

  /** How many of the pending lines are whole in the log again. */
  function Rewritten(k: nat, torn: Option<bool>): nat {
    if torn == Some(true) then k + 1 else k
  }

  lemma TornTodo(d: Disk, k: nat, torn: Option<bool>)
    requires k <= |Todo(d)| && (torn.Some? ==> k < |Todo(d)|)
    ensures Todo(TornCheckpoint(d, k, torn)) == Todo(d)[..Rewritten(k, torn)]
  {
    var n, t := Rewritten(k, torn), TornCheckpoint(d, k, torn);
    CompactPrefix(Lines(d), n);
    if torn.None? {
      assert Lines(t) == Compact(Lines(d))[..n];
    } else if torn.value {
      assert Lines(t) == Compact(Lines(d))[..n];
    } else {
      SkippedKeepsPending(t.log);
    }
  }

  lemma {:induction false} PublishAllSame(records: map<string, string>, todo: seq<Frame>)
    ensures PublishAll(records, todo) == records <==>
              forall f :: f in todo && Replayable(f) ==> f.entry.value.recordId in records
  {
    PublishAllGrows(records, todo);
    if |todo| > 0 {
      var init, f := todo[..|todo| - 1], todo[|todo| - 1];
      PublishAllSame(records, init);
      assert todo == init + [f];
    }
  }

  lemma {:induction false} PublishAllConcat(records: map<string, string>, a: seq<Frame>, b: seq<Frame>)
    ensures PublishAll(records, a + b) == PublishAll(PublishAll(records, a), b)
  {
    if |b| == 0 {
      assert a + b == a;
    } else {
      var init, f := b[..|b| - 1], b[|b| - 1];
      PublishAllConcat(records, a, init);
      PublishAllAppend(records, a + init, f);
      assert a + b == a + init + [f];
    }
  }

  /** Cut short, a checkpoint changes what recovery ends with exactly unless every line it
      did not write again is of a record that is present or that a line it wrote asks for. */
  lemma TornCheckpointIff(d: Disk, k: nat, torn: Option<bool>)
    requires k <= |Todo(d)| && (torn.Some? ==> k < |Todo(d)|)
    ensures var kept, lost := Todo(d)[..Rewritten(k, torn)], Todo(d)[Rewritten(k, torn)..];
            Goal(TornCheckpoint(d, k, torn)) == Goal(d) <==>
              forall f :: f in lost && Replayable(f) ==>
                || f.entry.value.recordId in d.records
                || exists g :: g in kept && Replayable(g) && g.entry.value.recordId == f.entry.value.recordId
  {
    var t, n := TornCheckpoint(d, k, torn), Rewritten(k, torn);
    var kept, lost := Todo(d)[..n], Todo(d)[n..];
    assert t.records == d.records && Todo(d) == kept + lost;
    TornTodo(d, k, torn);
    hide Todo, TornCheckpoint, PublishAll, Replayable;
    ReplayPublishes(d, Todo(d));
    ReplayPublishes(t, Todo(t));
    PublishAllConcat(d.records, kept, lost);
    PublishAllSame(PublishAll(d.records, kept), lost);
    PublishAllGrows(d.records, kept);
  }

  /** A logged write that stopped before publishing is lost when the next checkpoint stops
      after it truncated the log. */
  lemma TornCheckpointLoses()
    ensures var run := [LogPending("w", "a", "x"), Crash];
            && Legal(EMPTY_STORE, run) && Enabled(Exec(EMPTY_STORE, run), TearCheckpoint(0, None))
            && "a" in Goal(Exec(EMPTY_STORE, run).disk)
            && Goal(Next(Exec(EMPTY_STORE, run), TearCheckpoint(0, None)).disk) == map[]
  {
    var run := [LogPending("w", "a", "x"), Crash];
    TwoSteps(EMPTY_STORE, run);
    var s, f := Exec(EMPTY_STORE, run), WriteFrame("w", "a", "x");
    assert s.disk.log == [] + [f];
    FreshPendingIsLast([], f);
    assert Todo(s.disk) == [f];
    var t := TornCheckpoint(s.disk, 0, None);
    TornTodo(s.disk, 0, None);
    ReplayPublishes(s.disk, [f]);
    ReplayPublishes(t, []);
    PublishAllGrows(map[], [f]);
    assert f in [f];
  }
}
