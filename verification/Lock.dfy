/** The store transaction lock: a reentrant thread lock shared by the handles of
    one process, around one file lock between processes. */
module Lock {
  import opened Prelude

  /** A thread of a process. */
  datatype Thread = Thread(pid: nat, tid: nat)

  /** Where a thread stands between two lines of `__enter__` and `__exit__`:
      `Entering` holds the thread lock and has not yet raised its depth,
      `Leaving` has lowered its depth to zero and still holds the file lock,
      `Dropping` has only the thread lock left to release. */
  datatype Stage = Resting | Entering | Leaving | Dropping

  datatype Progress = Local(stage: Stage, depth: nat)

  /** Without the native module (`native` is false) acquiring the file lock never waits and
      locks nothing. `rlocks` maps a process to the holder of its thread lock and how often that
      thread holds it, and has no entry for a free lock; `guards` are the processes whose
      `_native_guard` is set; `file` is the process that holds the file lock. */
  datatype LockState = LockState(native: bool, rlocks: map<nat, (Thread, nat)>, guards: set<nat>, file: Option<nat>,
                                 locals: map<Thread, Progress>)

  datatype Event =
    | AcquireThread(t: Thread)
    | AcquireFile(t: Thread)
    | FailFile(t: Thread)
    | Deepen(t: Thread)
    | Exit(t: Thread)
    | ReleaseFile(t: Thread)
    | ReleaseThread(t: Thread)
    | Die(pid: nat)

  function Unlocked(native: bool): LockState {
    LockState(native, map[], {}, None, map[])
  }

  function At(s: LockState, t: Thread): Progress {
    if t in s.locals then s.locals[t] else Local(Resting, 0)
  }

  /** The calling thread is inside a `with` block of the lock. */
  predicate Inside(s: LockState, t: Thread) {
    At(s, t).depth > 0
  }

  predicate Enabled(s: LockState, e: Event) {
    match e
    case AcquireThread(t) => At(s, t).stage.Resting? && (t.pid in s.rlocks ==> s.rlocks[t.pid].0 == t)
    case AcquireFile(t) => At(s, t) == Local(Entering, 0) && (s.native ==> s.file.None?)
    case FailFile(t) => s.native && At(s, t) == Local(Entering, 0)
    case Deepen(t) => At(s, t).stage.Entering? && At(s, t).depth > 0
    case Exit(t) => At(s, t).stage.Resting? && At(s, t).depth > 0
    case ReleaseFile(t) => At(s, t).stage.Leaving?
    case ReleaseThread(t) => At(s, t).stage.Dropping?
    case Die(_) => true
  }

  function Take(rlocks: map<nat, (Thread, nat)>, t: Thread): map<nat, (Thread, nat)> {
    rlocks[t.pid := (t, if t.pid in rlocks then rlocks[t.pid].1 + 1 else 1)]
  }

  function Drop(rlocks: map<nat, (Thread, nat)>, t: Thread): map<nat, (Thread, nat)> {
    if t.pid !in rlocks then rlocks
    else if rlocks[t.pid].1 <= 1 then rlocks - {t.pid}
    else rlocks[t.pid := (rlocks[t.pid].0, rlocks[t.pid].1 - 1)]
  }

  function Put(s: LockState, t: Thread, stage: Stage, depth: nat): map<Thread, Progress> {
    s.locals[t := Local(stage, depth)]
  }

  function Next(s: LockState, e: Event): LockState
    requires Enabled(s, e)
  {
    match e
    case AcquireThread(t) => s.(rlocks := Take(s.rlocks, t), locals := Put(s, t, Entering, At(s, t).depth))
    case AcquireFile(t) =>
      s.(file := if s.native then Some(t.pid) else None, guards := s.guards + {t.pid}, locals := Put(s, t, Resting, 1))
    case FailFile(t) => s.(rlocks := Drop(s.rlocks, t), locals := Put(s, t, Resting, 0))
    case Deepen(t) => s.(locals := Put(s, t, Resting, At(s, t).depth + 1))
    case Exit(t) =>
      var depth := At(s, t).depth - 1;
      if depth == 0
      then s.(guards := s.guards - {t.pid}, locals := Put(s, t, Leaving, 0))
      else s.(locals := Put(s, t, Dropping, depth))
    case ReleaseFile(t) => s.(file := None, locals := Put(s, t, Dropping, 0))
    case ReleaseThread(t) => s.(rlocks := Drop(s.rlocks, t), locals := Put(s, t, Resting, At(s, t).depth))
    case Die(p) =>
      LockState(s.native, s.rlocks - {p}, s.guards - {p}, if s.file == Some(p) then None else s.file,
                map t | t in s.locals && t.pid != p :: s.locals[t])
  }

  predicate Legal(s: LockState, run: seq<Event>)
    decreases |run|
  {
    |run| == 0 || (Enabled(s, run[0]) && Legal(Next(s, run[0]), run[1..]))
  }

  function Exec(s: LockState, run: seq<Event>): LockState
    requires Legal(s, run)
    decreases |run|
  {
    if |run| == 0 then s else Exec(Next(s, run[0]), run[1..])
  }

  /** How often a thread holds its process's lock, read off where it stands. */
  function Holds(l: Progress): nat {
    l.depth + if l.stage.Resting? then 0 else 1
  }

  /** Does the thread hold the file lock? */
  predicate HoldsFile(l: Progress) {
    l.depth > 0 || l.stage.Leaving?
  }

  /** The thread lock is held by the one thread of the process that is at work,
      as often as its place in the code says. */
  ghost predicate ThreadLocksMatch(s: LockState) {
    && (forall t :: t in s.locals && Holds(At(s, t)) > 0 ==>
          t.pid in s.rlocks && s.rlocks[t.pid] == (t, Holds(At(s, t))))
    && (forall p :: p in s.rlocks ==>
          s.rlocks[p].0.pid == p && s.rlocks[p].0 in s.locals && Holds(At(s, s.rlocks[p].0)) > 0)
  }

  /** The native file lock is held by the one process with a thread past acquiring it. */
  ghost predicate FileLockMatches(s: LockState) {
    && (s.native ==> forall t :: t in s.locals && HoldsFile(At(s, t)) ==> s.file == Some(t.pid))
    && (forall t :: t in s.locals && At(s, t).stage.Leaving? ==> At(s, t).depth == 0)
    && (s.file.Some? ==> s.native && exists t :: t in s.locals && t.pid == s.file.value && HoldsFile(At(s, t)))
  }

  ghost predicate GuardsMatch(s: LockState) {
    forall p :: p in s.guards <==> exists t :: t in s.locals && t.pid == p && At(s, t).depth > 0
  }

  ghost predicate Inv(s: LockState) {
    ThreadLocksMatch(s) && FileLockMatches(s) && GuardsMatch(s)
  }

  /** `u` is `s` after thread `t` alone moved to `l`, with the locks following it. */
  ghost predicate Moves(s: LockState, t: Thread, l: Progress, u: LockState) {
    && (t.pid in s.rlocks ==> s.rlocks[t.pid].0 == t)
    && u.locals == s.locals[t := l]
    && (l.stage.Leaving? ==> l.depth == 0)
    && u.rlocks == (if Holds(l) > 0 then s.rlocks[t.pid := (t, Holds(l))] else s.rlocks - {t.pid})
    && u.native == s.native
    && (s.native && HoldsFile(l) ==> u.file == Some(t.pid) && (HoldsFile(At(s, t)) || s.file.None?))
    && (s.native && !HoldsFile(l) ==> u.file == if HoldsFile(At(s, t)) then None else s.file)
    && (!s.native ==> u.file.None?)
    && u.guards == if l.depth > 0 then s.guards + {t.pid} else s.guards - {t.pid}
  }

  lemma OnlyHolderWorks(s: LockState, t: Thread)
    requires ThreadLocksMatch(s) && (t.pid in s.rlocks ==> s.rlocks[t.pid].0 == t)
    ensures forall o :: o in s.locals && o != t && o.pid == t.pid ==> Holds(At(s, o)) == 0
  {
  }

  lemma MoveKeepsThreadLocks(s: LockState, t: Thread, l: Progress, u: LockState)
    requires Inv(s) && Moves(s, t, l, u)
    ensures ThreadLocksMatch(u)
  {
    OnlyHolderWorks(s, t);
    hide FileLockMatches, GuardsMatch, HoldsFile, Holds;
    assert At(u, t) == l && forall o :: o != t ==> At(u, o) == At(s, o);
    RestLocksStay(s, t, u);
    hide Moves;
    forall o | o in u.locals && Holds(At(u, o)) > 0
      ensures o.pid in u.rlocks && u.rlocks[o.pid] == (o, Holds(At(u, o)))
    {
      if o != t {
        assert o in s.locals && At(u, o) == At(s, o) && o.pid != t.pid;
      }
    }
    forall p | p in u.rlocks
      ensures u.rlocks[p].0.pid == p && u.rlocks[p].0 in u.locals && Holds(At(u, u.rlocks[p].0)) > 0
    {
      if p != t.pid {
        assert p in s.rlocks && u.rlocks[p] == s.rlocks[p];
      }
    }
  }

  lemma RestLocksStay(s: LockState, t: Thread, u: LockState)
    requires exists l :: Moves(s, t, l, u)
    ensures forall p :: p != t.pid ==>
              (p in u.rlocks <==> p in s.rlocks) && (p in s.rlocks ==> u.rlocks[p] == s.rlocks[p])
    ensures forall o :: o in u.locals && o != t ==> o in s.locals
    ensures forall o :: o in s.locals || o == t ==> o in u.locals
    ensures t.pid in u.rlocks <==> Holds(At(u, t)) > 0
    ensures t.pid in u.rlocks ==> u.rlocks[t.pid] == (t, Holds(At(u, t)))
  {
    hide HoldsFile;
  }

  lemma MoveKeepsFileLock(s: LockState, t: Thread, l: Progress, u: LockState)
    requires Inv(s) && Moves(s, t, l, u)
    ensures FileLockMatches(u)
  {
    OnlyHolderWorks(s, t);
    forall o | o in u.locals ensures o != t ==> o in s.locals && At(u, o) == At(s, o) {
    }
    assert At(u, t) == l;
    if u.file.Some? && !HoldsFile(l) {
      var o :| o in s.locals && o.pid == s.file.value && HoldsFile(At(s, o));
      assert o in u.locals && At(u, o) == At(s, o);
    }
  }

  lemma MoveKeepsGuards(s: LockState, t: Thread, l: Progress, u: LockState)
    requires Inv(s) && Moves(s, t, l, u)
    ensures GuardsMatch(u)
  {
    OnlyHolderWorks(s, t);
    forall p ensures p in u.guards <==> exists o :: o in u.locals && o.pid == p && At(u, o).depth > 0 {
      if p == t.pid {
        assert At(u, t) == l;
      } else {
        assert p in u.guards <==> p in s.guards;
        assert forall o :: o != t ==> (o in u.locals <==> o in s.locals) && At(u, o) == At(s, o);
      }
    }
  }

  /** A process that dies takes its threads, and the system releases its locks. */
  lemma DeathKeepsInv(s: LockState, p: nat)
    requires Inv(s)
    ensures Inv(Next(s, Die(p)))
  {
    var u := Next(s, Die(p));
    assert forall o :: o in u.locals ==> o in s.locals && o.pid != p && At(u, o) == At(s, o);
    assert forall o :: o in s.locals && o.pid != p ==> o in u.locals;
    if u.file.Some? {
      var o :| o in s.locals && o.pid == s.file.value && HoldsFile(At(s, o));
      assert o in u.locals;
    }
    forall q ensures q in u.guards <==> exists o :: o in u.locals && o.pid == q && At(u, o).depth > 0 {
      if q in s.guards && q != p {
        var o :| o in s.locals && o.pid == q && At(s, o).depth > 0;
        assert o in u.locals && At(u, o).depth > 0;
      }
    }
  }

  function Mover(e: Event): Thread
    requires !e.Die?
  {
    match e case AcquireThread(t) => t case AcquireFile(t) => t case FailFile(t) => t case Deepen(t) => t
    case Exit(t) => t case ReleaseFile(t) => t case ReleaseThread(t) => t
  }

  /** What the thread lock of a process looks like to a thread that may use it. */
  lemma ThreadLockIs(s: LockState, t: Thread)
    requires ThreadLocksMatch(s)
    ensures Holds(At(s, t)) > 0 ==> t.pid in s.rlocks && s.rlocks[t.pid] == (t, Holds(At(s, t)))
    ensures t.pid in s.rlocks && s.rlocks[t.pid].0 == t ==> Holds(At(s, t)) > 0
    ensures Holds(At(s, t)) > 0 ==> s.rlocks == s.rlocks[t.pid := (t, Holds(At(s, t)))]
  {
    if Holds(At(s, t)) > 0 {
      assert t in s.locals;
    }
  }

  lemma GuardAndFileAre(s: LockState, t: Thread)
    requires Inv(s) && (t.pid in s.rlocks ==> s.rlocks[t.pid].0 == t)
    ensures t.pid in s.guards <==> At(s, t).depth > 0
    ensures At(s, t).stage.Leaving? ==> At(s, t).depth == 0
    ensures s.native && HoldsFile(At(s, t)) ==> s.file == Some(t.pid)
    ensures s.file == Some(t.pid) ==> HoldsFile(At(s, t))
    ensures s.file.Some? ==> s.native
  {
    OnlyHolderWorks(s, t);
    assert At(s, t).depth > 0 ==> t in s.locals;
  }

  lemma EntryMoves(s: LockState, e: Event)
    requires Inv(s) && Enabled(s, e) && (e.AcquireThread? || e.AcquireFile? || e.FailFile? || e.Deepen?)
    ensures Moves(s, Mover(e), At(Next(s, e), Mover(e)), Next(s, e))
  {
    ThreadLockIs(s, Mover(e));
    GuardAndFileAre(s, Mover(e));
    hide Inv;
    if e.FailFile? {
      assert Next(s, e).rlocks == s.rlocks - {e.t.pid};
    }
  }

  lemma ExitMoves(s: LockState, e: Event)
    requires Inv(s) && Enabled(s, e) && (e.Exit? || e.ReleaseFile? || e.ReleaseThread?)
    ensures Moves(s, Mover(e), At(Next(s, e), Mover(e)), Next(s, e))
  {
    ThreadLockIs(s, Mover(e));
    GuardAndFileAre(s, Mover(e));
    hide Inv;
  }

  lemma NextKeepsInv(s: LockState, e: Event)
    requires Inv(s) && Enabled(s, e)
    ensures Inv(Next(s, e))
  {
    if e.Die? {
      DeathKeepsInv(s, e.pid);
    } else {
      var t, l := Mover(e), At(Next(s, e), Mover(e));
      if e.Exit? || e.ReleaseFile? || e.ReleaseThread? {
        ExitMoves(s, e);
      } else {
        EntryMoves(s, e);
      }
      hide Inv, Moves, Next, Enabled;
      MoveKeepsThreadLocks(s, t, l, Next(s, e));
      MoveKeepsFileLock(s, t, l, Next(s, e));
      MoveKeepsGuards(s, t, l, Next(s, e));
    }
  }

  lemma {:induction false} RunKeepsInv(s: LockState, run: seq<Event>)
    requires Inv(s) && Legal(s, run)
    ensures Inv(Exec(s, run))
    decreases |run|
  {
    if |run| > 0 {
      NextKeepsInv(s, run[0]);
      RunKeepsInv(Next(s, run[0]), run[1..]);
    }
  }

  lemma NothingHeld(native: bool)
    ensures Inv(Unlocked(native))
  {
  }

  lemma {:induction false} BackendStays(s: LockState, run: seq<Event>)
    requires Legal(s, run)
    ensures Exec(s, run).native == s.native
    decreases |run|
  {
    if |run| > 0 {
      BackendStays(Next(s, run[0]), run[1..]);
    }
  }

  lemma OneInside(s: LockState, t: Thread, o: Thread)
    requires Inv(s) && Inside(s, t) && Inside(s, o)
    ensures s.native || t.pid == o.pid ==> t == o
  {
  }

  /** In every interleaving of threads and processes, deaths included, at most one
      thread is inside the native lock, however deep it has re-entered it. Without the
      native module this holds of the threads of each process. */
  lemma MutualExclusion(native: bool, run: seq<Event>, t: Thread, o: Thread)
    requires Legal(Unlocked(native), run)
    requires Inside(Exec(Unlocked(native), run), t) && Inside(Exec(Unlocked(native), run), o)
    ensures native || t.pid == o.pid ==> t == o
  {
    NothingHeld(native);
    RunKeepsInv(Unlocked(native), run);
    BackendStays(Unlocked(native), run);
    OneInside(Exec(Unlocked(native), run), t, o);
  }

  /** Without the native module two processes are inside at once. */
  lemma FallbackLetsProcessesIn(t: Thread, o: Thread)
    requires t.pid != o.pid
    ensures var run := [AcquireThread(t), AcquireFile(t), AcquireThread(o), AcquireFile(o)];
            && Legal(Unlocked(false), run)
            && Inside(Exec(Unlocked(false), run), t) && Inside(Exec(Unlocked(false), run), o)
  {
    var run := [AcquireThread(t), AcquireFile(t), AcquireThread(o), AcquireFile(o)];
    var s0 := Unlocked(false);
    var s1 := Next(s0, run[0]);
    var s2 := Next(s1, run[1]);
    var s3 := Next(s2, run[2]);
    assert run[1..][1..] == [AcquireThread(o), AcquireFile(o)] && run[1..][1..][1..] == [AcquireFile(o)];
    assert [AcquireFile(o)][1..] == [];
    assert Legal(s3, [AcquireFile(o)]) && Exec(s3, [AcquireFile(o)]) == Next(s3, AcquireFile(o));
    assert Legal(s2, run[1..][1..]) && Exec(s2, run[1..][1..]) == Next(s3, AcquireFile(o));
    assert Legal(s1, run[1..]) && Exec(s1, run[1..]) == Next(s3, AcquireFile(o));
  }

  /** No lock leaks: with every thread at rest outside, the file lock is free,
      no guard is kept, and any thread can enter at once. */
  lemma NothingLeaks(native: bool, run: seq<Event>, t: Thread)
    requires Legal(Unlocked(native), run)
    requires var s := Exec(Unlocked(native), run); forall o :: o in s.locals ==> At(s, o) == Local(Resting, 0)
    ensures var s := Exec(Unlocked(native), run);
            && s.file == None && s.guards == {} && s.rlocks == map[]
            && Enabled(s, AcquireThread(t))
            && Enabled(Next(s, AcquireThread(t)), AcquireFile(t))
            && Inside(Next(Next(s, AcquireThread(t)), AcquireFile(t)), t)
  {
    NothingHeld(native);
    RunKeepsInv(Unlocked(native), run);
  }

  /** A thread that is inside can always enter again: it waits for nobody, is one deeper inside,
      and leaving brings back the state it came from. */
  lemma ReentryComesBack(s: LockState, t: Thread)
    requires Inv(s) && Inside(s, t) && At(s, t).stage.Resting?
    ensures Enabled(s, AcquireThread(t)) && Enabled(Next(s, AcquireThread(t)), Deepen(t))
    ensures var deeper := Next(Next(s, AcquireThread(t)), Deepen(t));
            && At(deeper, t).depth == At(s, t).depth + 1 && deeper.file == s.file && deeper.guards == s.guards
            && Enabled(deeper, Exit(t)) && Enabled(Next(deeper, Exit(t)), ReleaseThread(t))
            && Next(Next(deeper, Exit(t)), ReleaseThread(t)) == s
  {
    var d := At(s, t).depth;
    assert t in s.locals && s.rlocks[t.pid] == (t, d);
    hide Inv;
    var one := Next(s, AcquireThread(t));
    var deeper := Next(one, Deepen(t));
    var out := Next(deeper, Exit(t));
    assert deeper.rlocks == s.rlocks[t.pid := (t, d + 1)] && out.rlocks == deeper.rlocks;
    assert Drop(out.rlocks, t) == s.rlocks;
    assert out.locals == s.locals[t := Local(Dropping, d)];
    assert Put(out, t, Resting, d) == s.locals;
  }
}
