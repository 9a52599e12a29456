/** Threads and processes that write at once: each runs a first write or a compare-and-set
    update step by step inside the store lock, and the steps interleave with the lock's. */
module Writers {
  import opened Prelude
  import L = Lock
  import V = Versions

  /** How far a write has come: nothing read yet, the head of the lineage resolved, the
      update judged and found good, its record written and the sidecar still missing. */
  datatype Job =
    | Started(op: V.Op)
    | Resolved(op: V.Op, base: string)
    | Judged(op: V.Op, base: string)
    | Written(op: V.Op, base: string)

  /** `done` lists the writes that have ended, taken or refused, in the order they ended. */
  datatype System = System(lock: L.LockState, disk: V.Disk, jobs: map<L.Thread, Job>, done: seq<V.Op>)

  datatype Step =
    | Locking(e: L.Event)
    | Start(t: L.Thread, op: V.Op)
    | Put(t: L.Thread)
    | Resolve(t: L.Thread)
    | Judge(t: L.Thread)
    | Publish(t: L.Thread)
    | Mark(t: L.Thread)

  function Beginning(native: bool, d: V.Disk): System {
    System(L.Unlocked(native), d, map[], [])
  }

  predicate DrawsFresh(op: V.Op, d: V.Disk) {
    op.Cas? ==> op.newId !in d.records
  }

  predicate Working(s: System, t: L.Thread) {
    t in s.jobs && L.Inside(s.lock, t)
  }

  /** A thread does not leave the lock in the middle of a write, and no process dies in
      one. */
  predicate Leaves(s: System, e: L.Event) {
    match e
    case Exit(t) => t in s.jobs && L.At(s.lock, t).depth == 1
    case Die(p) => exists t :: t in s.jobs && t.pid == p
    case _ => false
  }

  predicate Enabled(s: System, step: Step) {
    match step
    case Locking(e) => L.Enabled(s.lock, e) && !Leaves(s, e)
    case Start(t, op) => L.Inside(s.lock, t) && t !in s.jobs && DrawsFresh(op, s.disk)
    case Put(t) => Working(s, t) && s.jobs[t].Started? && s.jobs[t].op.First?
    case Resolve(t) => Working(s, t) && s.jobs[t].Started? && s.jobs[t].op.Cas?
    case Judge(t) => Working(s, t) && s.jobs[t].Resolved? && s.jobs[t].op.Cas?
    case Publish(t) => Working(s, t) && s.jobs[t].Judged? && s.jobs[t].op.Cas? && s.jobs[t].base in s.disk.records
    case Mark(t) => Working(s, t) && s.jobs[t].Written? && s.jobs[t].op.Cas?
  }

  function Ended(s: System, t: L.Thread, d: V.Disk): System
    requires t in s.jobs
  {
    s.(disk := d, jobs := s.jobs - {t}, done := s.done + [s.jobs[t].op])
  }

  function Next(s: System, step: Step): System
    requires Enabled(s, step)
  {
    match step
    case Locking(e) => s.(lock := L.Next(s.lock, e))
    case Start(t, op) => s.(jobs := s.jobs[t := Started(op)])
    case Put(t) => Ended(s, t, V.ApplyOp(s.disk, s.jobs[t].op))
    case Resolve(t) =>
      var op := s.jobs[t].op;
      s.(jobs := s.jobs[t := Resolved(op, V.Head(s.disk.sidecars, op.target))])
    case Judge(t) =>
      var op, base := s.jobs[t].op, s.jobs[t].base;
      if V.DecideAt(s.lock.native, s.disk.records, base, op.newId, Some(op.expected), op.fits).Updated?
      then s.(jobs := s.jobs[t := Judged(op, base)])
      else Ended(s, t, s.disk)
    case Publish(t) =>
      var op, base := s.jobs[t].op, s.jobs[t].base;
      var r := V.NewVersion(s.disk.records[base], op.newId, op.content);
      s.(disk := s.disk.(records := s.disk.records[op.newId := r]), jobs := s.jobs[t := Written(op, base)])
    case Mark(t) =>
      Ended(s, t, s.disk.(sidecars := s.disk.sidecars[s.jobs[t].base := s.jobs[t].op.newId]))
  }

  predicate Legal(s: System, run: seq<Step>)
    decreases |run|
  {
    |run| == 0 || (Enabled(s, run[0]) && Legal(Next(s, run[0]), run[1..]))
  }

  function Exec(s: System, run: seq<Step>): System
    requires Legal(s, run)
    decreases |run|
  {
    if |run| == 0 then s else Exec(Next(s, run[0]), run[1..])
  }

  // ---- one writer at a time

  /** The disk that the writes which have ended leave when they run one after the other. */
  function Settled(start: V.Disk, s: System): V.Disk {
    V.ApplyAll(start, s.done)
  }

  /** What a job has read is still so, and what it has written is its part of the write. */
  ghost predicate OnTrack(job: Job, disk: V.Disk, settled: V.Disk) {
    && DrawsFresh(job.op, settled)
    && match job
       case Started(_) => disk == settled
       case Resolved(op, base) => disk == settled && op.Cas? && base == V.Head(settled.sidecars, op.target)
       case Judged(op, base) => disk == settled && op.Cas? && V.CasOutcome(settled, op) == V.Updated(op.newId, base)
       case Written(op, base) =>
         && op.Cas? && V.CasOutcome(settled, op) == V.Updated(op.newId, base)
         && disk == V.Disk(V.ApplyOp(settled, op).records, settled.sidecars)
  }

  /** All threads that write are of process `p`, unless the lock keeps processes apart. */
  ghost predicate Apart(s: System, p: nat) {
    s.lock.native || forall t :: t in s.jobs ==> t.pid == p
  }

  ghost predicate Inv(start: V.Disk, s: System, p: nat) {
    && L.Inv(s.lock) && Apart(s, p)
    && (forall t :: t in s.jobs ==> L.Inside(s.lock, t) && OnTrack(s.jobs[t], s.disk, Settled(start, s)))
    && (s.jobs == map[] ==> s.disk == Settled(start, s))
    && V.DrawsFreshIds(start, s.done)
  }

  /** Whoever is inside the lock is the only one at work. */
  lemma OnlyWriter(start: V.Disk, s: System, p: nat, t: L.Thread)
    requires Inv(start, s, p) && L.Inside(s.lock, t) && (s.lock.native || t.pid == p)
    ensures forall o :: o in s.jobs ==> o == t
  {
    forall o | o in s.jobs ensures o == t {
      L.OneInside(s.lock, t, o);
    }
  }

  lemma {:induction false} OneMoreDone(d: V.Disk, ops: seq<V.Op>, op: V.Op)
    requires V.DrawsFreshIds(d, ops) && DrawsFresh(op, V.ApplyAll(d, ops))
    ensures V.DrawsFreshIds(d, ops + [op]) && V.ApplyAll(d, ops + [op]) == V.ApplyOp(V.ApplyAll(d, ops), op)
    decreases |ops|
  {
    if |ops| == 0 {
      assert ops + [op] == [op];
    } else {
      assert (ops + [op])[1..] == ops[1..] + [op];
      OneMoreDone(V.ApplyOp(d, ops[0]), ops[1..], op);
    }
  }

  /** A write that ends as it would have alone. */
  lemma EndingKeepsInv(start: V.Disk, s: System, p: nat, t: L.Thread, d: V.Disk)
    requires Inv(start, s, p) && Working(s, t)
    requires d == V.ApplyOp(Settled(start, s), s.jobs[t].op)
    ensures Inv(start, Ended(s, t, d), p)
  {
    OnlyWriter(start, s, p, t);
    OneMoreDone(start, s.done, s.jobs[t].op);
    assert Ended(s, t, d).jobs == map[];
  }

  lemma MovingKeepsInv(start: V.Disk, s: System, p: nat, t: L.Thread, job: Job, d: V.Disk)
    requires Inv(start, s, p) && Working(s, t)
    requires OnTrack(job, d, Settled(start, s))
    ensures Inv(start, s.(disk := d, jobs := s.jobs[t := job]), p)
  {
    OnlyWriter(start, s, p, t);
    assert t in s.jobs[t := job];
  }

  /** On a sound disk it does not matter who resolves the head. */
  lemma JudgedAsAlone(native: bool, d: V.Disk, op: V.Op)
    requires V.Linear(d) && op.Cas?
    ensures V.DecideAt(native, d.records, V.Head(d.sidecars, op.target), op.newId, Some(op.expected), op.fits)
         == V.CasOutcome(d, op)
  {
    var head := V.Head(d.sidecars, op.target);
    assert head in d.records ==> V.Rooted(d.records, d.records[head]);
  }

  lemma JudgeKeepsInv(start: V.Disk, s: System, p: nat, t: L.Thread)
    requires V.Linear(start) && Inv(start, s, p) && Enabled(s, Judge(t))
    ensures Inv(start, Next(s, Judge(t)), p)
  {
    var op, base, d := s.jobs[t].op, s.jobs[t].base, Settled(start, s);
    V.ApplyAllKeepsLinear(start, s.done);
    JudgedAsAlone(s.lock.native, d, op);
    V.DecidedHead(d, op);
    hide Inv, V.Linear, V.DecideAt;
    assert OnTrack(s.jobs[t], s.disk, d) by { JobIsOnTrack(start, s, p, t); }
    if V.CasOutcome(d, op).Updated? {
      MovingKeepsInv(start, s, p, t, Judged(op, base), s.disk);
    } else {
      EndingKeepsInv(start, s, p, t, s.disk);
    }
  }

  lemma JobIsOnTrack(start: V.Disk, s: System, p: nat, t: L.Thread)
    requires Inv(start, s, p) && t in s.jobs
    ensures OnTrack(s.jobs[t], s.disk, Settled(start, s))
  {
  }

  lemma WorkKeepsInv(start: V.Disk, s: System, p: nat, step: Step)
    requires V.Linear(start) && Inv(start, s, p) && Enabled(s, step)
    requires step.Put? || step.Resolve? || step.Publish? || step.Mark?
    ensures Inv(start, Next(s, step), p)
  {
    var t, d := step.t, Settled(start, s);
    JobIsOnTrack(start, s, p, t);
    var op := s.jobs[t].op;
    hide Inv, V.Linear, V.DecideAt, V.Head;
    match step {
      case Put(_) => EndingKeepsInv(start, s, p, t, V.ApplyOp(d, op));
      case Resolve(_) => MovingKeepsInv(start, s, p, t, Resolved(op, V.Head(d.sidecars, op.target)), s.disk);
      case Publish(_) => MovingKeepsInv(start, s, p, t, Written(op, s.jobs[t].base), Next(s, step).disk);
      case Mark(_) => EndingKeepsInv(start, s, p, t, Next(s, step).disk);
    }
  }

  lemma StartKeepsInv(start: V.Disk, s: System, p: nat, t: L.Thread, op: V.Op)
    requires Inv(start, s, p) && Enabled(s, Start(t, op)) && (s.lock.native || t.pid == p)
    ensures Inv(start, Next(s, Start(t, op)), p)
  {
    OnlyWriter(start, s, p, t);
    assert s.jobs == map[];
  }

  lemma LockingKeepsInv(start: V.Disk, s: System, p: nat, e: L.Event)
    requires Inv(start, s, p) && Enabled(s, Locking(e))
    ensures Inv(start, Next(s, Locking(e)), p)
  {
    L.NextKeepsInv(s.lock, e);
    BackendStays(s.lock, e);
    forall t | t in s.jobs ensures L.Inside(L.Next(s.lock, e), t) {
      InsideStays(s.lock, e, t);
    }
    hide L.Inv, L.Inside, L.Enabled, L.Next, L.At, Inv;
    OnlyTheLock(start, s, L.Next(s.lock, e), p);
  }

  /** Whoever is at work stays inside, so nothing else changes. */
  lemma OnlyTheLock(start: V.Disk, s: System, lock: L.LockState, p: nat)
    requires Inv(start, s, p) && L.Inv(lock) && lock.native == s.lock.native
    requires forall t :: t in s.jobs ==> L.Inside(lock, t)
    ensures Inv(start, s.(lock := lock), p)
  {
    hide L.Inv, L.Inside, OnTrack, V.DrawsFreshIds, V.ApplyAll;
    assert Settled(start, s.(lock := lock)) == Settled(start, s);
  }

  lemma BackendStays(lock: L.LockState, e: L.Event)
    requires L.Enabled(lock, e)
    ensures L.Next(lock, e).native == lock.native
  {
  }

  lemma InsideStays(lock: L.LockState, e: L.Event, t: L.Thread)
    requires L.Inv(lock) && L.Enabled(lock, e) && L.Inside(lock, t)
    requires e != L.Die(t.pid) && !(e == L.Exit(t) && L.At(lock, t).depth == 1)
    ensures L.Inside(L.Next(lock, e), t)
  {
  }

  /** The process a step belongs to. */
  function ProcessOf(step: Step): nat {
    match step
    case Locking(e) => if e.Die? then e.pid else L.Mover(e).pid
    case Start(t, _) => t.pid
    case Put(t) => t.pid
    case Resolve(t) => t.pid
    case Judge(t) => t.pid
    case Publish(t) => t.pid
    case Mark(t) => t.pid
  }

  /** The native lock, or one process. */
  predicate Serializes(native: bool, run: seq<Step>, p: nat) {
    native || forall i :: 0 <= i < |run| ==> ProcessOf(run[i]) == p
  }

  lemma NextKeepsInv(start: V.Disk, s: System, p: nat, step: Step)
    requires V.Linear(start) && Inv(start, s, p) && Enabled(s, step) && (s.lock.native || ProcessOf(step) == p)
    ensures Inv(start, Next(s, step), p) && Next(s, step).lock.native == s.lock.native
  {
    hide Inv, V.Linear;
    match step {
      case Locking(e) => LockingKeepsInv(start, s, p, e);
      case Start(t, op) => StartKeepsInv(start, s, p, t, op);
      case Judge(t) => JudgeKeepsInv(start, s, p, t);
      case _ => WorkKeepsInv(start, s, p, step);
    }
  }

  lemma {:induction false} RunKeepsInv(start: V.Disk, s: System, p: nat, run: seq<Step>)
    requires V.Linear(start) && Inv(start, s, p) && Legal(s, run) && Serializes(s.lock.native, run, p)
    ensures Inv(start, Exec(s, run), p)
    decreases |run|
  {
    hide Inv, V.Linear, Enabled, Next;
    if |run| > 0 {
      NextKeepsInv(start, s, p, run[0]);
      assert forall i :: 0 <= i < |run| - 1 ==> run[1..][i] == run[i + 1];
      RunKeepsInv(start, Next(s, run[0]), p, run[1..]);
    }
  }

  /** However threads and processes interleave their writes inside the native lock, the disk
      is the one their writes leave when they run one after the other, in the order they
      ended. Without the native module this holds of the threads of one process. */
  lemma InterleavedIsSequential(native: bool, d: V.Disk, run: seq<Step>, p: nat)
    requires V.Linear(d) && Legal(Beginning(native, d), run) && Serializes(native, run, p)
    ensures var s := Exec(Beginning(native, d), run);
            V.DrawsFreshIds(d, s.done) && (s.jobs == map[] ==> s.disk == V.ApplyAll(d, s.done))
  {
    L.NothingHeld(native);
    RunKeepsInv(d, Beginning(native, d), p, run);
  }

  /** Every interleaving leaves each lineage one chain, and of the updates that expect one
      hash at most one is accepted. */
  lemma InterleavedStaysLinear(native: bool, run: seq<Step>, p: nat, h: V.Hash)
    requires Legal(Beginning(native, V.Disk(map[], map[])), run) && Serializes(native, run, p)
    ensures var s := Exec(Beginning(native, V.Disk(map[], map[])), run);
            && V.WinCount(V.Disk(map[], map[]), s.done, h) <= 1
            && (s.jobs == map[] ==>
                  V.AllRooted(s.disk.records, s.disk.records)
                  && forall id :: id in s.disk.records ==> V.OneChain(s.disk, id))
  {
    var empty := V.Disk(map[], map[]);
    assert V.Linear(empty);
    InterleavedIsSequential(native, empty, run, p);
    V.LineagesStayLinear(Exec(Beginning(native, empty), run).done);
    V.AtMostOneWins(empty, Exec(Beginning(native, empty), run).done, h);
  }

  /** When some ended update that fits expected the hash of a head through its lineage,
      exactly one of those with that hash was accepted, in every interleaving. */
  lemma InterleavedHasOneWinner(native: bool, d: V.Disk, run: seq<Step>, p: nat, x: string, i: nat)
    requires V.Linear(d) && x in d.records && x !in d.sidecars && !d.records[x].deprecated
    requires Legal(Beginning(native, d), run) && Serializes(native, run, p)
    requires i < |Exec(Beginning(native, d), run).done| && V.Contends(d, Exec(Beginning(native, d), run).done[i], x)
    ensures V.WinCount(d, Exec(Beginning(native, d), run).done, V.ComputeHash(d.records[x])) == 1
  {
    InterleavedIsSequential(native, d, run, p);
    V.ExactlyOneWins(d, Exec(Beginning(native, d), run).done, x, i);
  }

  /** In every interleaving each record that was not there holds the content of the one write
      that made it, and the history of a record that was ends with the last accepted update of
      its lineage. */
  lemma InterleavedContents(native: bool, d: V.Disk, run: seq<Step>, p: nat, id: string)
    requires V.Linear(d) && Legal(Beginning(native, d), run) && Serializes(native, run, p)
    requires Exec(Beginning(native, d), run).jobs == map[]
    ensures var s := Exec(Beginning(native, d), run);
            var maker, last := V.Maker(d, s.done, id), V.LastAdvance(d, s.done, id);
            && (id in s.disk.records <==> id in d.records || maker.Some?)
            && (id in d.records ==> s.disk.records[id] == d.records[id])
            && (maker.Some? ==> V.HoldsWhat(s.disk.records[id], maker.value))
            && (id in d.records ==>
                  var history := V.Existing(s.disk.records, V.Chain(s.disk.sidecars, id));
                  && |history| > 0
                  && (last.Some? ==> history[|history| - 1].content == last.value.content))
  {
    hide V.Linear, Legal, Exec, V.HoldsWhat, V.Maker, V.LastAdvance, V.Existing, V.Chain, V.Head;
    var done := Exec(Beginning(native, d), run).done;
    InterleavedIsSequential(native, d, run, p);
    V.RecordsHoldWhatWasWritten(d, done, id);
    if id in d.records {
      V.HistoryEndsWithLastUpdate(d, done, id);
    }
  }

  // ---- without the native lock

  const SHARED := V.FirstVersion("x", "", false)
  const ONE_RECORD := V.Disk(map["x" := SHARED], map[])

  function Attempt(newId: string): V.Op {
    V.Cas("x", newId, "", V.ComputeHash(SHARED), true)
  }

  lemma Prepend(s: System, step: Step, run: seq<Step>) returns (all: seq<Step>)
    requires Enabled(s, step) && Legal(Next(s, step), run)
    ensures Legal(s, all) && Exec(s, all) == Exec(Next(s, step), run)
  {
    all := [step] + run;
    assert all[1..] == run;
  }

  /** From the start of an update of the one record to its verdict. */
  lemma BothJudge(lock: L.LockState, t: L.Thread, jobs: map<L.Thread, Job>, newId: string, run: seq<Step>)
    returns (all: seq<Step>)
    requires L.Inside(lock, t) && t !in jobs && newId != "x"
    requires Legal(System(lock, ONE_RECORD, jobs[t := Judged(Attempt(newId), "x")], []), run)
    ensures var s := System(lock, ONE_RECORD, jobs, []);
            Legal(s, all)
            && Exec(s, all) == Exec(System(lock, ONE_RECORD, jobs[t := Judged(Attempt(newId), "x")], []), run)
  {
    var op := Attempt(newId);
    var s0 := System(lock, ONE_RECORD, jobs, []);
    var s1 := s0.(jobs := jobs[t := Started(op)]);
    var s2 := s0.(jobs := jobs[t := Resolved(op, "x")]);
    var s3 := s0.(jobs := jobs[t := Judged(op, "x")]);
    assert V.Head(map[], "x") == "x";
    assert jobs[t := Started(op)][t := Resolved(op, "x")] == s2.jobs;
    assert jobs[t := Resolved(op, "x")][t := Judged(op, "x")] == s3.jobs;
    assert Next(s2, Judge(t)) == s3;
    all := Prepend(s2, Judge(t), run);
    assert Next(s1, Resolve(t)) == s2;
    all := Prepend(s1, Resolve(t), all);
    assert Next(s0, Start(t, op)) == s1;
    all := Prepend(s0, Start(t, op), all);
  }

  /** The disk after two accepted updates of one record: the first has no sidecar left. */
  function Forked(): V.Disk {
    V.Disk(map["x" := SHARED, "a" := V.NewVersion(SHARED, "a", ""), "b" := V.NewVersion(SHARED, "b", "")],
           map["x" := "b"])
  }

  /** From the verdict to the end of the update. */
  lemma Finishes(lock: L.LockState, d: V.Disk, jobs: map<L.Thread, Job>, done: seq<V.Op>, t: L.Thread, newId: string,
                 run: seq<Step>)
    returns (all: seq<Step>)
    requires L.Inside(lock, t) && t !in jobs && "x" in d.records
    requires Legal(System(lock, V.AfterUpdate(d, "x", newId, "", true), jobs, done + [Attempt(newId)]), run)
    ensures var s := System(lock, d, jobs[t := Judged(Attempt(newId), "x")], done);
            Legal(s, all)
            && Exec(s, all)
            == Exec(System(lock, V.AfterUpdate(d, "x", newId, "", true), jobs, done + [Attempt(newId)]), run)
  {
    var op, r := Attempt(newId), V.NewVersion(d.records["x"], newId, "");
    var s0 := System(lock, d, jobs[t := Judged(op, "x")], done);
    var s1 := System(lock, d.(records := d.records[newId := r]), jobs[t := Written(op, "x")], done);
    hide V.NewVersion, V.FirstVersion, L.Inside;
    assert jobs[t := Judged(op, "x")][t := Written(op, "x")] == s1.jobs && s1.jobs - {t} == jobs;
    assert Next(s1, Mark(t)) == System(lock, V.AfterUpdate(d, "x", newId, "", true), jobs, done + [op]);
    all := Prepend(s1, Mark(t), run);
    assert Next(s0, Publish(t)) == s1;
    all := Prepend(s0, Publish(t), all);
  }

  /** Both threads found their update good: both go through. */
  lemma BothFinish(lock: L.LockState, t: L.Thread, o: L.Thread) returns (all: seq<Step>)
    requires t != o && L.Inside(lock, t) && L.Inside(lock, o)
    ensures var s := System(lock, ONE_RECORD, map[t := Judged(Attempt("a"), "x"), o := Judged(Attempt("b"), "x")], []);
            Legal(s, all) && Exec(s, all) == System(lock, Forked(), map[], [Attempt("a"), Attempt("b")])
  {
    var one := V.AfterUpdate(ONE_RECORD, "x", "a", "", true);
    var late: map<L.Thread, Job> := map[o := Judged(Attempt("b"), "x")];
    assert V.AfterUpdate(one, "x", "b", "", true) == Forked();
    hide V.AfterUpdate, Forked, L.Inside;
    assert [] + [Attempt("a")] == [Attempt("a")] && [Attempt("a")] + [Attempt("b")] == [Attempt("a"), Attempt("b")];
    all := Finishes(lock, one, map[], [Attempt("a")], o, "b", []);
    assert map[][o := Judged(Attempt("b"), "x")] == late;
    assert late[t := Judged(Attempt("a"), "x")] == map[t := Judged(Attempt("a"), "x"), o := Judged(Attempt("b"), "x")];
    all := Finishes(lock, ONE_RECORD, late, [], t, "a", all);
  }

  lemma ForkedIsNotLinear()
    ensures V.Linear(ONE_RECORD) && !V.Linear(Forked())
  {
    assert Forked().records["a"].supersedes == Some("x") && Forked().sidecars["x"] == "b";
  }

  lemma {:induction false} LockFirst(s: System, events: seq<L.Event>, run: seq<Step>) returns (all: seq<Step>)
    requires s.jobs == map[] && L.Legal(s.lock, events)
    requires Legal(s.(lock := L.Exec(s.lock, events)), run)
    ensures Legal(s, all) && Exec(s, all) == Exec(s.(lock := L.Exec(s.lock, events)), run)
    decreases |events|
  {
    if |events| == 0 {
      all := run;
    } else {
      all := LockFirst(s.(lock := L.Next(s.lock, events[0])), events[1..], run);
      all := Prepend(s, Locking(events[0]), all);
    }
  }

  /** Without the native module two processes update one record at once, both are accepted,
      and the first update is on no chain. */
  lemma FallbackForks(t: L.Thread, o: L.Thread) returns (run: seq<Step>)
    requires t.pid != o.pid
    ensures Legal(Beginning(false, ONE_RECORD), run)
    ensures Exec(Beginning(false, ONE_RECORD), run).jobs == map[]
    ensures Exec(Beginning(false, ONE_RECORD), run).done == [Attempt("a"), Attempt("b")]
    ensures Exec(Beginning(false, ONE_RECORD), run).disk == Forked()
  {
    L.FallbackLetsProcessesIn(t, o);
    var events := [L.AcquireThread(t), L.AcquireFile(t), L.AcquireThread(o), L.AcquireFile(o)];
    var lock := L.Exec(L.Unlocked(false), events);
    hide L.Legal, L.Exec, Legal, Exec, L.Inside, Forked;
    var first := map[t := Judged(Attempt("a"), "x")];
    run := BothFinish(lock, t, o);
    assert first[o := Judged(Attempt("b"), "x")] == map[t := Judged(Attempt("a"), "x"), o := Judged(Attempt("b"), "x")];
    run := BothJudge(lock, o, first, "b", run);
    assert map[][t := Judged(Attempt("a"), "x")] == first;
    run := BothJudge(lock, t, map[], "a", run);
    run := LockFirst(Beginning(false, ONE_RECORD), events, run);
  }

  /** Every run that leaves nobody at work leaves the lineages linear. */
  ghost predicate AlwaysLinear(native: bool) {
    forall d, run ::
      V.Linear(d) && Legal(Beginning(native, d), run) && Exec(Beginning(native, d), run).jobs == map[] ==>
        V.Linear(Exec(Beginning(native, d), run).disk)
  }

  /** Compare-and-set keeps lineages linear in all interleavings of threads and processes
      exactly when the native lock is there. */
  lemma AlwaysLinearIff(native: bool)
    ensures AlwaysLinear(native) <==> native
  {
    if native {
      forall d, run | V.Linear(d) && Legal(Beginning(native, d), run) && Exec(Beginning(native, d), run).jobs == map[]
        ensures V.Linear(Exec(Beginning(native, d), run).disk)
      {
        InterleavedIsSequential(native, d, run, 0);
        V.ApplyAllKeepsLinear(d, Exec(Beginning(native, d), run).done);
      }
    } else {
      var run := FallbackForks(L.Thread(0, 0), L.Thread(1, 0));
      ForkedIsNotLinear();
    }
  }
}
