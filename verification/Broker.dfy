/** Event fan-out: sequence numbers per board, and bounded queues that drop the
    oldest event and flag the next one. */
module Broker {
  datatype Event = Event(sequence: nat, kind: string, data: string, resyncRequired: bool)

  /** Everything that happened to one subscription. `joined` is the board's
      sequence number when it subscribed and `latest` the newest one published;
      `scheduled` are published events its event loop has not run yet. */
  datatype Stream = Stream(capacity: nat, joined: nat, latest: nat, scheduled: seq<Event>,
                           queue: seq<Event>, received: seq<Event>, dropped: seq<Event>)

  function NewStream(capacity: nat, joined: nat): Stream {
    Stream(capacity, joined, joined, [], [], [], [])
  }

  /** `asyncio.Queue.full`: a queue of capacity zero is never full. */
  predicate Full(s: Stream) {
    s.capacity > 0 && |s.queue| >= s.capacity
  }

  function Schedule(s: Stream, kind: string, data: string): Stream {
    s.(latest := s.latest + 1, scheduled := s.scheduled + [Event(s.latest + 1, kind, data, false)])
  }

  /** The oldest scheduled callback puts its event into the queue. */
  function Enqueue(s: Stream): Stream
    requires s.scheduled != []
  {
    var e := s.scheduled[0];
    if Full(s)
    then s.(scheduled := s.scheduled[1..], dropped := s.dropped + [s.queue[0]],
            queue := s.queue[1..] + [e.(resyncRequired := true)])
    else s.(scheduled := s.scheduled[1..], queue := s.queue + [e])
  }

  function Get(s: Stream): Stream
    requires s.queue != []
  {
    s.(received := s.received + [s.queue[0]], queue := s.queue[1..])
  }

  // ---- the invariant of every stream

  ghost predicate Increasing(events: seq<Event>) {
    forall i, j :: 0 <= i < j < |events| ==> events[i].sequence < events[j].sequence
  }

  ghost predicate Has(events: seq<Event>, n: nat) {
    exists i :: 0 <= i < |events| && events[i].sequence == n
  }

  /** Queue and scheduled events are one run of numbers that ends at the latest. */
  ghost predicate Contiguous(s: Stream) {
    var waiting := s.queue + s.scheduled;
    && s.latest - |waiting| >= s.joined
    && forall i :: 0 <= i < |waiting| ==> waiting[i].sequence == s.latest - |waiting| + 1 + i
  }

  /** Every number up to `gone` was received or dropped, never both. */
  ghost predicate Conserved(joined: nat, gone: int, received: seq<Event>, dropped: seq<Event>) {
    && (forall e :: e in received ==> joined < e.sequence <= gone)
    && (forall e :: e in dropped ==> joined < e.sequence <= gone)
    && (forall n: nat :: joined < n <= gone ==> (Has(received, n) <==> !Has(dropped, n)))
  }

  function Gone(s: Stream): int {
    s.latest - |s.queue| - |s.scheduled|
  }

  ghost predicate FlagAfter(events: seq<Event>, n: nat) {
    exists e :: e in events && e.resyncRequired && e.sequence > n
  }

  /** A later flagged event, received or still queued, follows each dropped one. */
  ghost predicate DropsFlagged(received: seq<Event>, queue: seq<Event>, dropped: seq<Event>) {
    forall d :: d in dropped ==> FlagAfter(received, d.sequence) || FlagAfter(queue, d.sequence)
  }

  /** A flag is never raised without a drop before it. */
  ghost predicate FlagsEarned(events: seq<Event>, dropped: seq<Event>) {
    forall e :: e in events && e.resyncRequired ==> exists d :: d in dropped && d.sequence < e.sequence
  }

  ghost predicate Inv(s: Stream) {
    && Increasing(s.received)
    && Contiguous(s)
    && Conserved(s.joined, Gone(s), s.received, s.dropped)
    && DropsFlagged(s.received, s.queue, s.dropped)
    && FlagsEarned(s.received, s.dropped) && FlagsEarned(s.queue, s.dropped) && FlagsEarned(s.dropped, s.dropped)
    && (forall e :: e in s.scheduled ==> !e.resyncRequired)
    && (s.capacity > 0 ==> |s.queue| <= s.capacity)
  }

  lemma ScheduleKeepsInv(s: Stream, kind: string, data: string)
    requires Inv(s)
    ensures Inv(Schedule(s, kind, data))
  {
    hide Increasing, Conserved, DropsFlagged, FlagsEarned;
    var t := Schedule(s, kind, data);
    assert Gone(t) == Gone(s);
    assert t.queue + t.scheduled == s.queue + s.scheduled + [Event(s.latest + 1, kind, data, false)];
  }

  /** The next number may leave on either side. */
  lemma OneMoreGone(joined: nat, gone: nat, a: seq<Event>, b: seq<Event>, e: Event)
    requires Conserved(joined, gone, a, b) && e.sequence == gone + 1 > joined
    ensures Conserved(joined, gone + 1, a + [e], b)
    ensures forall x :: x in a ==> x.sequence < e.sequence
  {
    assert forall i :: 0 <= i < |b| ==> b[i].sequence <= gone;
    forall n: nat | joined < n <= gone + 1 ensures Has(a + [e], n) <==> !Has(b, n) {
      assert (a + [e])[|a|] == e;
      if n <= gone {
        assert Has(a + [e], n) <==> Has(a, n) by {
          if i :| 0 <= i < |a| && a[i].sequence == n {
            assert (a + [e])[i].sequence == n;
          }
        }
      }
    }
  }

  lemma ConservedSwaps(joined: nat, gone: int, a: seq<Event>, b: seq<Event>)
    requires Conserved(joined, gone, a, b)
    ensures Conserved(joined, gone, b, a)
  {
  }

  lemma GetKeepsFlags(received: seq<Event>, queue: seq<Event>, dropped: seq<Event>)
    requires queue != [] && DropsFlagged(received, queue, dropped)
    ensures DropsFlagged(received + [queue[0]], queue[1..], dropped)
  {
    var e, r := queue[0], received + [queue[0]];
    assert queue == [e] + queue[1..];
    forall d | d in dropped ensures FlagAfter(r, d.sequence) || FlagAfter(queue[1..], d.sequence) {
      if FlagAfter(received, d.sequence) {
        var x :| x in received && x.resyncRequired && x.sequence > d.sequence;
        assert x in r;
      } else {
        var x :| x in queue && x.resyncRequired && x.sequence > d.sequence;
        assert x in r || x in queue[1..];
      }
    }
  }

  lemma GetKeepsInv(s: Stream)
    requires Inv(s) && s.queue != []
    ensures Inv(Get(s))
  {
    var t, e := Get(s), s.queue[0];
    var waiting, rest := s.queue + s.scheduled, t.queue + t.scheduled;
    assert waiting == [e] + rest;
    assert forall i :: 0 <= i < |rest| ==> rest[i] == waiting[i + 1];
    assert waiting[0] == e;
    OneMoreGone(s.joined, Gone(s), s.received, s.dropped, e);
    GetKeepsFlags(s.received, s.queue, s.dropped);
  }

  lemma ArrivalKeepsFlags(received: seq<Event>, queue: seq<Event>, dropped: seq<Event>, e: Event)
    requires DropsFlagged(received, queue, dropped)
    ensures DropsFlagged(received, queue + [e], dropped)
  {
    forall d | d in dropped ensures FlagAfter(received, d.sequence) || FlagAfter(queue + [e], d.sequence) {
      if x :| x in queue && x.resyncRequired && x.sequence > d.sequence {
        assert x in queue + [e];
      }
    }
  }

  /** The flagged event that takes the place of a dropped one is later than every
      event dropped so far, so it answers for all of them. */
  lemma DropKeepsFlags(received: seq<Event>, queue: seq<Event>, dropped: seq<Event>, e: Event)
    requires queue != [] && e.resyncRequired && queue[0].sequence < e.sequence
    requires forall d :: d in dropped ==> d.sequence < queue[0].sequence
    requires FlagsEarned(queue, dropped) && FlagsEarned(received, dropped) && FlagsEarned(dropped, dropped)
    ensures var q, d := queue[1..] + [e], dropped + [queue[0]];
            DropsFlagged(received, q, d) && FlagsEarned(q, d) && FlagsEarned(received, d) && FlagsEarned(d, d)
  {
    var q, d := queue[1..] + [e], dropped + [queue[0]];
    assert e in q && queue[0] in d && queue[0] in queue;
    assert forall x :: x in dropped ==> x in d;
    assert forall x :: x in q ==> x in queue || x == e;
  }

  lemma EnqueueKeepsRun(s: Stream)
    requires Inv(s) && s.scheduled != []
    ensures Contiguous(Enqueue(s))
    ensures s.queue != [] ==> s.queue[0].sequence == Gone(s) + 1 && s.queue[0].sequence < s.scheduled[0].sequence
  {
    var t, waiting := Enqueue(s), s.queue + s.scheduled;
    var rest := t.queue + t.scheduled;
    assert s.scheduled == [s.scheduled[0]] + t.scheduled;
    assert waiting[|s.queue|] == s.scheduled[0];
    if s.queue != [] {
      assert waiting[0] == s.queue[0];
    }
    if Full(s) {
      assert forall i :: 0 <= i < |rest| ==> rest[i].sequence == waiting[i + 1].sequence;
    } else {
      assert rest == waiting;
    }
  }

  lemma EnqueueKeepsInv(s: Stream)
    requires Inv(s) && s.scheduled != []
    ensures Inv(Enqueue(s))
  {
    var t, e := Enqueue(s), s.scheduled[0];
    EnqueueKeepsRun(s);
    if Full(s) {
      ConservedSwaps(s.joined, Gone(s), s.received, s.dropped);
      OneMoreGone(s.joined, Gone(s), s.dropped, s.received, s.queue[0]);
      ConservedSwaps(s.joined, Gone(t), t.dropped, t.received);
      DropKeepsFlags(s.received, s.queue, s.dropped, e.(resyncRequired := true));
    } else {
      ArrivalKeepsFlags(s.received, s.queue, s.dropped, e);
    }
  }

  // ---- whole runs of one subscription

  datatype Act = Publish(kind: string, data: string) | Deliver | Read

  /** A callback or a read with nothing to do waits: it changes nothing. */
  function Apply(s: Stream, a: Act): Stream {
    match a
    case Publish(kind, data) => Schedule(s, kind, data)
    case Deliver => if s.scheduled == [] then s else Enqueue(s)
    case Read => if s.queue == [] then s else Get(s)
  }

  function ApplyAll(s: Stream, acts: seq<Act>): Stream {
    if |acts| == 0 then s else Apply(ApplyAll(s, acts[..|acts| - 1]), acts[|acts| - 1])
  }

  lemma {:induction false} RunKeepsInv(capacity: nat, joined: nat, acts: seq<Act>)
    ensures Inv(ApplyAll(NewStream(capacity, joined), acts))
    ensures ApplyAll(NewStream(capacity, joined), acts).joined == joined
    ensures ApplyAll(NewStream(capacity, joined), acts).capacity == capacity
  {
    if |acts| > 0 {
      RunKeepsInv(capacity, joined, acts[..|acts| - 1]);
      var s := ApplyAll(NewStream(capacity, joined), acts[..|acts| - 1]);
      match acts[|acts| - 1] {
        case Publish(kind, data) => ScheduleKeepsInv(s, kind, data);
        case Deliver => if s.scheduled != [] { EnqueueKeepsInv(s); }
        case Read => if s.queue != [] { GetKeepsInv(s); }
      }
    }
  }

  /** In every mix of publishes, deliveries and reads: received numbers strictly
      increase; the queue is a contiguous run that ends at the latest delivered
      event; and every event is received, dropped, queued or scheduled, with a
      later flagged event received or queued for each dropped one. */
  lemma SubscriberSafety(capacity: nat, joined: nat, acts: seq<Act>)
    ensures var s := ApplyAll(NewStream(capacity, joined), acts);
            && (forall i, j :: 0 <= i < j < |s.received| ==> s.received[i].sequence < s.received[j].sequence)
            && (forall i :: 0 <= i < |s.queue| ==>
                  s.queue[i].sequence == s.latest - |s.scheduled| - (|s.queue| - 1 - i))
            && (capacity > 0 ==> |s.queue| <= capacity)
            && (forall n: nat :: joined < n <= Gone(s) ==> (Has(s.received, n) <==> !Has(s.dropped, n)))
            && (forall d :: d in s.dropped ==> FlagAfter(s.received, d.sequence) || FlagAfter(s.queue, d.sequence))
  {
    RunKeepsInv(capacity, joined, acts);
    var s := ApplyAll(NewStream(capacity, joined), acts);
    forall i | 0 <= i < |s.queue|
      ensures s.queue[i].sequence == s.latest - |s.scheduled| - (|s.queue| - 1 - i)
    {
      assert (s.queue + s.scheduled)[i] == s.queue[i];
    }
  }

  /** A subscriber that has seen no flag, with none queued, has missed nothing;
      and one that has missed nothing sees no flag. */
  lemma NoFlagMeansNothingMissed(capacity: nat, joined: nat, acts: seq<Act>)
    ensures var s := ApplyAll(NewStream(capacity, joined), acts);
            (forall e :: e in s.received || e in s.queue ==> !e.resyncRequired) <==> s.dropped == []
    ensures var s := ApplyAll(NewStream(capacity, joined), acts);
            s.dropped == [] ==> forall n: nat :: joined < n <= Gone(s) ==> Has(s.received, n)
  {
    RunKeepsInv(capacity, joined, acts);
    var s := ApplyAll(NewStream(capacity, joined), acts);
    if s.dropped != [] {
      assert s.dropped[0] in s.dropped;
    }
  }

  // ---- what the events carry, and when one is dropped

  /** What was published, in order. */
  function Posted(acts: seq<Act>): seq<(string, string)> {
    if |acts| == 0 then []
    else
      var last := acts[|acts| - 1];
      Posted(acts[..|acts| - 1]) + if last.Publish? then [(last.kind, last.data)] else []
  }

  /** The event has the kind and the data that were published under its number. */
  ghost predicate Carries(e: Event, joined: nat, posted: seq<(string, string)>) {
    joined < e.sequence <= joined + |posted| && posted[e.sequence - joined - 1] == (e.kind, e.data)
  }

  ghost predicate AllCarry(events: seq<Event>, joined: nat, posted: seq<(string, string)>) {
    forall e :: e in events ==> Carries(e, joined, posted)
  }

  /** Every event that is received, queued, dropped or still scheduled carries what was
      published under its number, flagged or not. */
  lemma {:induction false} EventsCarryWhatWasPublished(capacity: nat, joined: nat, acts: seq<Act>)
    ensures var s := ApplyAll(NewStream(capacity, joined), acts);
            && s.latest == joined + |Posted(acts)|
            && AllCarry(s.received, joined, Posted(acts)) && AllCarry(s.queue, joined, Posted(acts))
            && AllCarry(s.dropped, joined, Posted(acts)) && AllCarry(s.scheduled, joined, Posted(acts))
  {
    if |acts| > 0 {
      var init, a := acts[..|acts| - 1], acts[|acts| - 1];
      EventsCarryWhatWasPublished(capacity, joined, init);
      ApplyCarries(ApplyAll(NewStream(capacity, joined), init), a, joined, Posted(init));
    }
  }

  lemma ApplyCarries(s: Stream, a: Act, joined: nat, posted: seq<(string, string)>)
    requires s.latest == joined + |posted|
    requires AllCarry(s.received, joined, posted) && AllCarry(s.queue, joined, posted)
    requires AllCarry(s.dropped, joined, posted) && AllCarry(s.scheduled, joined, posted)
    ensures var t, more := Apply(s, a), posted + if a.Publish? then [(a.kind, a.data)] else [];
            && t.latest == joined + |more|
            && AllCarry(t.received, joined, more) && AllCarry(t.queue, joined, more)
            && AllCarry(t.dropped, joined, more) && AllCarry(t.scheduled, joined, more)
  {
    var t, more := Apply(s, a), posted + if a.Publish? then [(a.kind, a.data)] else [];
    assert forall e :: Carries(e, joined, posted) ==> Carries(e, joined, more);
    if a.Publish? {
      assert Carries(Event(s.latest + 1, a.kind, a.data, false), joined, more);
    } else if a.Deliver? && s.scheduled != [] {
      var e := s.scheduled[0];
      assert Carries(e, joined, posted) && Carries(e.(resyncRequired := true), joined, posted);
    }
  }

  /** An event is dropped only to make room in a queue that holds as many as it may. */
  lemma DropsIff(s: Stream)
    requires s.scheduled != []
    ensures var t := Enqueue(s);
            && (t.dropped != s.dropped <==> s.capacity > 0 && |s.queue| >= s.capacity)
            && (t.dropped == s.dropped ==> t.queue == s.queue + [s.scheduled[0]])
            && (t.dropped != s.dropped && s.queue != [] ==>
                  && t.dropped == s.dropped + [s.queue[0]] && t.queue[..|s.queue| - 1] == s.queue[1..]
                  && var e := s.scheduled[0]; t.queue[|s.queue| - 1] == Event(e.sequence, e.kind, e.data, true))
  {
  }

  /** Without a bound, or with no more publishes than the queue holds, nothing is dropped. */
  lemma {:induction false} WithinCapacityNothingIsLost(capacity: nat, joined: nat, acts: seq<Act>)
    requires capacity == 0 || |Posted(acts)| <= capacity
    ensures var s := ApplyAll(NewStream(capacity, joined), acts);
            && s.dropped == [] && |s.queue| + |s.scheduled| <= |Posted(acts)|
            && s.capacity == capacity
  {
    if |acts| > 0 {
      WithinCapacityNothingIsLost(capacity, joined, acts[..|acts| - 1]);
    }
  }

  // ---- the broker object

  class LobbySubscription {
    const boardId: string
    const capacity: nat
    var scheduled: seq<Event>
    var queue: seq<Event>
    /** The whole history of this subscription. */
    ghost var stream: Stream

    ghost predicate Valid()
      reads this
    {
      Inv(stream) && stream.capacity == capacity && stream.scheduled == scheduled && stream.queue == queue
    }

    constructor (boardId: string, capacity: nat, ghost sequence: nat)
      ensures Valid() && this.boardId == boardId && stream == NewStream(capacity, sequence)
    {
      this.boardId, this.capacity := boardId, capacity;
      scheduled, queue := [], [];
      stream := NewStream(capacity, sequence);
    }

    /** `call_soon_threadsafe`: the event loop will run the callback later, in order. */
    method CallSoon(e: Event)
      requires Valid() && e.sequence == stream.latest + 1 && !e.resyncRequired
      modifies this
      ensures Valid() && stream == Schedule(old(stream), e.kind, e.data)
      ensures scheduled == old(scheduled) + [e] && queue == old(queue)
    {
      ScheduleKeepsInv(stream, e.kind, e.data);
      hide Inv;
      scheduled := scheduled + [e];
      stream := Schedule(stream, e.kind, e.data);
    }

    /** Run the oldest callback: make room in a full queue, flag, and put. */
    method RunEnqueue()
      requires Valid() && scheduled != []
      modifies this
      ensures Valid() && stream == Enqueue(old(stream)) && scheduled == old(scheduled)[1..]
      ensures queue == if capacity > 0 && |old(queue)| >= capacity
                       then old(queue)[1..] + [Event(old(scheduled)[0].sequence, old(scheduled)[0].kind,
                                                     old(scheduled)[0].data, true)]
                       else old(queue) + [old(scheduled)[0]]
    {
      hide Inv;
      EnqueueKeepsInv(stream);
      ghost var next := Enqueue(stream);
      var outgoing := scheduled[0];
      scheduled := scheduled[1..];
      if capacity > 0 && |queue| >= capacity {
        queue := queue[1..];
        outgoing := outgoing.(resyncRequired := true);
      }
      queue := queue + [outgoing];
      stream := next;
    }

    method Take() returns (e: Event)
      requires Valid() && queue != []
      modifies this
      ensures Valid() && e == old(queue[0]) && queue == old(queue)[1..] && stream == Get(old(stream))
    {
      GetKeepsInv(stream);
      stream := Get(stream);
      e := queue[0];
      queue := queue[1..];
    }
  }

  /** The subscriptions of a board are sets: each has its own loop and queue, and
      nothing depends on the order in which they are served. */
  class LobbyEventBroker {
    const queueSize: nat
    var sequences: map<string, nat>
    var subscribers: map<string, set<LobbySubscription>>
    ghost var repr: set<LobbySubscription>

    ghost predicate Valid()
      reads this, repr
    {
      && (forall b, s :: b in subscribers && s in subscribers[b] ==> s in repr)
      && (forall b, s :: b in subscribers && s in subscribers[b] ==>
            s.Valid() && s.boardId == b && s.stream.latest == Sequence(b))
    }

    function Sequence(boardId: string): nat
      reads this
    {
      if boardId in sequences then sequences[boardId] else 0
    }

    function Audience(boardId: string): set<LobbySubscription>
      reads this
    {
      if boardId in subscribers then subscribers[boardId] else {}
    }

    constructor (queueSize: nat)
      ensures Valid() && fresh(repr) && sequences == map[] && subscribers == map[] && this.queueSize == queueSize
    {
      this.queueSize := queueSize;
      sequences, subscribers, repr := map[], map[], {};
    }

    method Subscribe(boardId: string) returns (s: LobbySubscription)
      requires Valid()
      modifies this`subscribers, this`repr
      ensures Valid() && fresh(s) && repr == old(repr) + {s}
      ensures s.boardId == boardId && s.stream == NewStream(queueSize, Sequence(boardId))
      ensures subscribers == old(subscribers)[boardId := old(Audience(boardId)) + {s}]
    {
      hide Inv;
      s := new LobbySubscription(boardId, queueSize, Sequence(boardId));
      RunKeepsInv(queueSize, Sequence(boardId), []);
      subscribers := subscribers[boardId := Audience(boardId) + {s}];
      repr := repr + {s};
    }

    /** The next number of the board, scheduled for each of its subscribers. */
    method Publish(boardId: string, kind: string, data: string) returns (e: Event)
      requires Valid()
      modifies this`sequences, repr
      ensures Valid()
      ensures e == Event(old(Sequence(boardId)) + 1, kind, data, false)
      ensures sequences == old(sequences)[boardId := e.sequence]
      ensures forall s :: s in Audience(boardId) ==>
                && s.stream == Schedule(old(s.stream), kind, data)
                && s.scheduled == old(s.scheduled) + [e] && s.queue == old(s.queue)
      ensures forall s :: s in repr && s !in Audience(boardId) ==> unchanged(s)
    {
      hide Inv;
      e := Event(Sequence(boardId) + 1, kind, data, false);
      var waiting := Audience(boardId);
      sequences := sequences[boardId := e.sequence];
      while waiting != {}
        invariant sequences == old(sequences)[boardId := e.sequence] && waiting <= Audience(boardId)
        invariant forall s :: s in repr && (s in waiting || s !in Audience(boardId)) ==> unchanged(s)
        invariant forall s :: s in Audience(boardId) && s !in waiting ==>
                    && s.Valid() && s.stream == Schedule(old(s.stream), kind, data)
                    && s.scheduled == old(s.scheduled) + [e] && s.queue == old(s.queue)
        decreases waiting
      {
        var s :| s in waiting;
        waiting := waiting - {s};
        assert s.stream == old(s.stream);
        s.CallSoon(e);
      }
    }

    method Unsubscribe(s: LobbySubscription)
      requires Valid()
      modifies this`subscribers
      ensures Valid()
      ensures forall b :: Audience(b) == if b == s.boardId then old(Audience(b)) - {s} else old(Audience(b))
    {
      hide Inv, LobbySubscription.Valid;
      if s.boardId in subscribers {
        var rest := subscribers[s.boardId] - {s};
        subscribers := if rest == {} then subscribers - {s.boardId} else subscribers[s.boardId := rest];
      }
    }
  }
}
