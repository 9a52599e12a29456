/** Conflicts between two memories: mapping a pair, and the append-only triage of a
    mapped conflict. Namespace permissions are not modelled. */
module Conflict {
  import opened Prelude

  datatype Status = Open | Investigating | Resolved | AcceptedBoth | Superseded

  predicate Terminal(status: Status) {
    status.Resolved? || status.AcceptedBoth? || status.Superseded?
  }

  /** One version of a conflict record. An empty winner is none. */
  datatype Version = Version(id: string, status: Status, resolution: string, winner: string)

  /** A conflict with all its versions, oldest first. */
  datatype Thread = Thread(namespace: string, a: string, b: string, versions: seq<Version>)

  /** `durable` holds for nodes and documents. */
  datatype Memory = Memory(namespace: string, durable: bool, content: string)

  /** `home` leads from the id of any version to its conflict, as following the
      supersession chain does; `hidden` are the deprecated versions. Each handle, by its
      number, has an index of its own, which lists the versions it knows of. */
  datatype Book = Book(memories: map<string, Memory>, threads: map<string, Thread>, home: map<string, string>,
                       hidden: set<string>, indexes: map<nat, set<string>>)

  const NO_BOOK := Book(map[], map[], map[], {}, map[])

  datatype Refusal =
    | SameMemory
    | Missing(id: string)
    | CrossNamespace
    | NotDurable(id: string)
    | StorageConflict
  datatype Mapped = Existing(id: string) | Created(id: string) | NotMapped(why: Refusal)

  datatype Objection = NotFound | AlreadyClosed | NoSuchTarget | NeedsResolution | WinnerNotAllowed | WinnerNotInPair
  datatype Updated = Advanced(prior: string) | NotUpdated(why: Objection)

  // ---- the canonical pair

  /** Order of strings by their first differing character, a prefix being less. */
  function Less(a: string, b: string): bool {
    if |b| == 0 then false
    else if |a| == 0 then true
    else a[0] < b[0] || (a[0] == b[0] && Less(a[1..], b[1..]))
  }

  lemma {:induction false} LessIsTotal(a: string, b: string)
    ensures a != b ==> Less(a, b) != Less(b, a)
    ensures a == b ==> !Less(a, b)
  {
    if |a| > 0 && |b| > 0 && a[0] == b[0] {
      LessIsTotal(a[1..], b[1..]);
      assert a == [a[0]] + a[1..] && b == [b[0]] + b[1..];
    }
  }

  function First(a: string, b: string): string {
    if Less(b, a) then b else a
  }

  function Second(a: string, b: string): string {
    if Less(b, a) then a else b
  }

  lemma PairHasNoDirection(a: string, b: string)
    ensures First(a, b) == First(b, a) && Second(a, b) == Second(b, a)
    ensures {First(a, b), Second(a, b)} == {a, b}
  {
    LessIsTotal(a, b);
  }

  // ---- operations on values

  function Last(t: Thread): Version
    requires |t.versions| > 0
  {
    t.versions[|t.versions| - 1]
  }

  predicate IsLive(t: Thread) {
    |t.versions| > 0 && !Terminal(Last(t).status)
  }

  /** The fingerprint covers the namespace and the ordered pair. */
  predicate Concerns(t: Thread, namespace: string, a: string, b: string) {
    t.namespace == namespace && t.a == First(a, b) && t.b == Second(a, b)
  }

  predicate Lists(s: Book, h: nat, id: string) {
    h in s.indexes && id in s.indexes[h]
  }

  /** A live conflict with this fingerprint whose newest version the index of `h` lists. */
  predicate Finds(s: Book, h: nat, namespace: string, first: string, second: string, t: string) {
    && t in s.threads && IsLive(s.threads[t])
    && s.threads[t].namespace == namespace && s.threads[t].a == first && s.threads[t].b == second
    && Lists(s, h, Last(s.threads[t]).id)
  }

  ghost function LiveThread(s: Book, h: nat, namespace: string, first: string, second: string): Option<string> {
    if t :| Finds(s, h, namespace, first, second, t) then Some(t) else None
  }

  /** What keeps two memories from being mapped as a conflict. */
  function Obstacle(s: Book, a: string, b: string, semantic: bool): Option<Refusal> {
    if a == b then Some(SameMemory)
    else if a !in s.memories then Some(Missing(a))
    else if b !in s.memories then Some(Missing(b))
    else if s.memories[a].namespace != s.memories[b].namespace then Some(CrossNamespace)
    else if !s.memories[a].durable then Some(NotDurable(a))
    else if !s.memories[b].durable then Some(NotDurable(b))
    else if !semantic then Some(StorageConflict)
    else None
  }

  function Listing(s: Book, h: nat, id: string): map<nat, set<string>> {
    s.indexes[h := (if h in s.indexes then s.indexes[h] else {}) + {id}]
  }

  /** Mapping through the handle `h`. */
  ghost function MapConflict(s: Book, h: nat, a: string, b: string, semantic: bool, newId: string): (Book, Mapped) {
    var obstacle := Obstacle(s, a, b, semantic);
    if obstacle.Some? then (s, NotMapped(obstacle.value))
    else
      var namespace := s.memories[a].namespace;
      match LiveThread(s, h, namespace, First(a, b), Second(a, b))
      case Some(t) => (s, Existing(t))
      case None =>
        var thread := Thread(namespace, First(a, b), Second(a, b), [Version(newId, Open, "", "")]);
        (s.(threads := s.threads[newId := thread], home := s.home[newId := newId], indexes := Listing(s, h, newId)),
         Created(newId))
  }

  predicate Blank(space: char -> bool, text: string) {
    forall i :: 0 <= i < |text| ==> space(text[i])
  }

  /** The checks of a transition, in their order. A given winner is checked even when
      it is empty. */
  function Objects(space: char -> bool, t: Thread, target: Status, resolution: string, winner: Option<string>)
    : Option<Objection>
    requires |t.versions| > 0
  {
    if Terminal(Last(t).status) then Some(AlreadyClosed)
    else if target.Open? then Some(NoSuchTarget)
    else if Terminal(target) && Blank(space, resolution) then Some(NeedsResolution)
    else if winner.Some? && !target.Resolved? then Some(WinnerNotAllowed)
    else if winner.Some? && winner.value != t.a && winner.value != t.b then Some(WinnerNotInPair)
    else None
  }

  /** A conflict whose newest version is deprecated has no current record to advance. */
  predicate HasCurrent(s: Book, id: string) {
    && id in s.home && s.home[id] in s.threads && |s.threads[s.home[id]].versions| > 0
    && Last(s.threads[s.home[id]]).id !in s.hidden
  }

  function UpdateStatus(space: char -> bool, s: Book, h: nat, id: string, target: Status, resolution: string,
                        winner: Option<string>, newId: string): (Book, Updated)
  {
    if !HasCurrent(s, id) then (s, NotUpdated(NotFound))
    else
      var t := s.threads[s.home[id]];
      match Objects(space, t, target, resolution, winner)
      case Some(why) => (s, NotUpdated(why))
      case None =>
        var next := Version(newId, target, if resolution != "" then resolution else Last(t).resolution,
                            if winner.Some? then winner.value else "");
        (s.(threads := s.threads[s.home[id] := t.(versions := t.versions + [next])],
            home := s.home[newId := s.home[id]], indexes := Listing(s, h, newId)), Advanced(Last(t).id))
  }

  // ---- what a call answers, told without the functions that compute it

  /** A pair is mapped or found exactly when it is two durable memories of one namespace, there
      both, and the contradiction is a semantic one. */
  lemma MapsIff(s: Book, h: nat, a: string, b: string, semantic: bool, newId: string)
    ensures !MapConflict(s, h, a, b, semantic, newId).1.NotMapped? <==>
              && a != b && semantic && a in s.memories && b in s.memories
              && s.memories[a].namespace == s.memories[b].namespace
              && s.memories[a].durable && s.memories[b].durable
  {
  }

  /** The first obstacle that applies is the one that is told. */
  lemma ObstaclesInOrder(s: Book, a: string, b: string, semantic: bool)
    ensures var why := Obstacle(s, a, b, semantic);
            && (why == Some(SameMemory) <==> a == b)
            && (why == Some(Missing(a)) <==> a != b && a !in s.memories)
            && (why == Some(Missing(b)) <==> a != b && a in s.memories && b !in s.memories)
            && (a != b && a in s.memories && b in s.memories ==>
                  var m, n := s.memories[a], s.memories[b];
                  && (why == Some(CrossNamespace) <==> m.namespace != n.namespace)
                  && (why == Some(NotDurable(a)) <==> m.namespace == n.namespace && !m.durable)
                  && (why == Some(NotDurable(b)) <==> m.namespace == n.namespace && m.durable && !n.durable)
                  && (why == Some(StorageConflict) <==>
                        m.namespace == n.namespace && m.durable && n.durable && !semantic))
  {
  }

  /** A pair without a live conflict that the handle lists gets a new one: open, without a
      resolution or a winner, about these two memories, and listed by the handle. */
  lemma MappingCreates(s: Book, h: nat, a: string, b: string, newId: string)
    requires Obstacle(s, a, b, true).None? && newId !in s.threads
    requires forall t :: t in s.threads && IsLive(s.threads[t]) && Lists(s, h, Last(s.threads[t]).id) ==>
               !(s.threads[t].namespace == s.memories[a].namespace && {s.threads[t].a, s.threads[t].b} == {a, b})
    ensures var (u, outcome) := MapConflict(s, h, a, b, true, newId);
            && outcome == Created(newId) && newId in u.threads
            && u.threads == s.threads[newId := u.threads[newId]] && u.memories == s.memories && u.hidden == s.hidden
            && u.home == s.home[newId := newId] && h in u.indexes && newId in u.indexes[h]
            && var t := u.threads[newId];
               && t.namespace == s.memories[a].namespace && {t.a, t.b} == {a, b}
               && t.versions == [Version(newId, Open, "", "")]
  {
    PairHasNoDirection(a, b);
    forall t ensures !Finds(s, h, s.memories[a].namespace, First(a, b), Second(a, b), t) {
      if t in s.threads && s.threads[t].a == First(a, b) && s.threads[t].b == Second(a, b) {
        assert {s.threads[t].a, s.threads[t].b} == {a, b};
      }
    }
  }

  /** A conflict is advanced exactly when its newest version can be read and is open or under
      investigation, the new status is any but open, a closing one says how, and a winner is
      named only when resolving and is one of the two. The new version has that status and
      winner, and the resolution that was given or else the last one; nothing else changes. */
  lemma AdvancesIff(space: char -> bool, s: Book, h: nat, id: string, target: Status, resolution: string,
                    winner: Option<string>, newId: string)
    requires id in s.home && s.home[id] in s.threads && |s.threads[s.home[id]].versions| > 0
    ensures var (u, outcome) := UpdateStatus(space, s, h, id, target, resolution, winner, newId);
            var t := s.threads[s.home[id]];
            var last := t.versions[|t.versions| - 1];
            && (outcome.Advanced? <==>
                  && last.id !in s.hidden && last.status in {Open, Investigating} && target != Open
                  && (target in {Resolved, AcceptedBoth, Status.Superseded} ==>
                        exists i :: 0 <= i < |resolution| && !space(resolution[i]))
                  && (winner.Some? ==> target == Resolved && winner.value in {t.a, t.b}))
            && (outcome.Advanced? ==>
                  && outcome == Advanced(last.id) && s.home[id] in u.threads
                  && u.threads == s.threads[s.home[id] := u.threads[s.home[id]]]
                  && u.memories == s.memories && u.hidden == s.hidden && u.home == s.home[newId := s.home[id]]
                  && var after := u.threads[s.home[id]];
                     && after.namespace == t.namespace && after.a == t.a && after.b == t.b
                     && |after.versions| == |t.versions| + 1 && after.versions[..|t.versions|] == t.versions
                     && var now := after.versions[|t.versions|];
                        && now.id == newId && now.status == target
                        && now.resolution == (if resolution == "" then last.resolution else resolution)
                        && now.winner == (if winner.Some? then winner.value else ""))
            && (outcome.NotUpdated? ==> u == s)
  {
    var t := s.threads[s.home[id]];
    assert Blank(space, resolution) <==> !exists i :: 0 <= i < |resolution| && !space(resolution[i]);
    hide Blank;
    assert Terminal(Last(t).status) <==> Last(t).status !in {Open, Investigating};
  }

  // ---- what every state keeps

  /** Opened, then investigated any number of times, then at most one final decision. */
  ghost predicate WellTriaged(t: Thread) {
    && |t.versions| > 0
    && t.versions[0].status == Open
    && (forall i :: 0 < i < |t.versions| ==> t.versions[i].status != Open)
    && (forall i :: 0 <= i < |t.versions| - 1 ==> !Terminal(t.versions[i].status))
  }

  /** A closed conflict says how it was reconciled, and a winner is one of the two
      memories of a resolved one. */
  ghost predicate Accounted(space: char -> bool, t: Thread) {
    && (forall i :: 0 <= i < |t.versions| && Terminal(t.versions[i].status) ==> !Blank(space, t.versions[i].resolution))
    && (forall i :: 0 <= i < |t.versions| && t.versions[i].winner != "" ==>
          t.versions[i].status == Resolved && t.versions[i].winner in {t.a, t.b})
  }

  ghost predicate Grounded(s: Book, t: Thread) {
    && t.a in s.memories && t.b in s.memories && t.a != t.b
    && s.memories[t.a].namespace == t.namespace == s.memories[t.b].namespace
    && s.memories[t.a].durable && s.memories[t.b].durable
  }

  ghost predicate ThreadsSound(space: char -> bool, s: Book) {
    forall t :: t in s.threads ==>
      WellTriaged(s.threads[t]) && Accounted(space, s.threads[t]) && Grounded(s, s.threads[t])
  }

  /** Two live conflicts about the same two memories. */
  ghost predicate BothLive(t: Thread, u: Thread) {
    IsLive(t) && IsLive(u) && t.namespace == u.namespace && {t.a, t.b} == {u.a, u.b}
  }

  /** At most one live conflict for two memories, in whatever order they are named. */
  ghost predicate OneLiveEach(s: Book) {
    forall t, u :: t in s.threads && u in s.threads && BothLive(s.threads[t], s.threads[u]) ==> t == u
  }

  ghost predicate Ordered(s: Book) {
    forall t :: t in s.threads ==> s.threads[t].a == First(s.threads[t].a, s.threads[t].b)
  }

  ghost predicate HomesMatch(s: Book) {
    && (forall id :: id in s.home ==> s.home[id] in s.threads)
    && (forall t, i :: t in s.threads && 0 <= i < |s.threads[t].versions| ==>
          s.threads[t].versions[i].id in s.home && s.home[s.threads[t].versions[i].id] == t)
  }

  ghost predicate Inv(space: char -> bool, s: Book) {
    ThreadsSound(space, s) && Ordered(s) && HomesMatch(s)
  }

  lemma ConcernsIsPair(t: Thread, namespace: string, a: string, b: string)
    requires t.a == First(t.a, t.b)
    ensures Concerns(t, namespace, a, b) <==> t.namespace == namespace && {t.a, t.b} == {a, b}
  {
    PairHasNoDirection(a, b);
    PairHasNoDirection(t.a, t.b);
    if {t.a, t.b} == {a, b} {
      assert t.a in {a, b} && t.b in {a, b} && a in {t.a, t.b} && b in {t.a, t.b};
    }
  }

  lemma OpenThreadIsSound(space: char -> bool, t: Thread, id: string)
    requires t.versions == [Version(id, Open, "", "")]
    ensures WellTriaged(t) && Accounted(space, t) && IsLive(t)
  {
  }

  lemma AddKeepsHomes(s: Book, u: Book, newId: string, thread: Thread)
    requires HomesMatch(s) && newId !in s.threads && newId !in s.home
    requires u.threads == s.threads[newId := thread] && u.home == s.home[newId := newId]
    requires |thread.versions| == 1 && thread.versions[0].id == newId
    ensures HomesMatch(u)
  {
  }

  lemma AddKeepsThreads(space: char -> bool, s: Book, u: Book, newId: string, thread: Thread)
    requires ThreadsSound(space, s) && Ordered(s) && u.memories == s.memories && u.threads == s.threads[newId := thread]
    requires WellTriaged(thread) && Accounted(space, thread) && Grounded(s, thread)
    requires thread.a == First(thread.a, thread.b)
    ensures ThreadsSound(space, u) && Ordered(u)
  {
    hide WellTriaged, Accounted, First;
  }

  lemma MapKeepsInv(space: char -> bool, s: Book, h: nat, a: string, b: string, semantic: bool, newId: string)
    requires Inv(space, s) && newId !in s.home && newId !in s.threads
    ensures Inv(space, MapConflict(s, h, a, b, semantic, newId).0)
  {
    var (after, outcome) := MapConflict(s, h, a, b, semantic, newId);
    if outcome.Created? {
      var thread := Thread(s.memories[a].namespace, First(a, b), Second(a, b), [Version(newId, Open, "", "")]);
      PairHasNoDirection(a, b);
      PairHasNoDirection(First(a, b), Second(a, b));
      LessIsTotal(a, b);
      OpenThreadIsSound(space, thread, newId);
      AddKeepsHomes(s, after, newId, thread);
      AddKeepsThreads(space, s, after, newId, thread);
    }
  }

  lemma AdvanceKeepsSound(space: char -> bool, t: Thread, target: Status, resolution: string, winner: Option<string>,
                          newId: string)
    requires WellTriaged(t) && Accounted(space, t) && Objects(space, t, target, resolution, winner).None?
    ensures var next := Version(newId, target, if resolution != "" then resolution else Last(t).resolution,
                                if winner.Some? then winner.value else "");
            var after := t.(versions := t.versions + [next]);
            WellTriaged(after) && Accounted(space, after)
  {
  }

  lemma UpdateKeepsInv(space: char -> bool, s: Book, h: nat, id: string, target: Status, resolution: string,
                       winner: Option<string>, newId: string)
    requires Inv(space, s) && newId !in s.home
    ensures Inv(space, UpdateStatus(space, s, h, id, target, resolution, winner, newId).0)
    ensures OneLiveEach(s) ==> OneLiveEach(UpdateStatus(space, s, h, id, target, resolution, winner, newId).0)
  {
    var (after, done) := UpdateStatus(space, s, h, id, target, resolution, winner, newId);
    if done.Advanced? {
      var t := s.home[id];
      AdvanceKeepsSound(space, s.threads[t], target, resolution, winner, newId);
      AdvanceKeepsHomes(s, after, t, newId, after.threads[t]);
      AddKeepsThreads(space, s, after, t, after.threads[t]);
      if OneLiveEach(s) {
        AdvanceKeepsOneLive(s, after, t, after.threads[t]);
      }
    }
  }

  lemma AdvanceKeepsOneLive(s: Book, u: Book, t: string, longer: Thread)
    requires OneLiveEach(s) && t in s.threads && IsLive(s.threads[t]) && u.threads == s.threads[t := longer]
    requires longer.(versions := s.threads[t].versions) == s.threads[t]
    ensures OneLiveEach(u)
  {
    forall v, w | v in u.threads && w in u.threads && BothLive(u.threads[v], u.threads[w]) ensures v == w {
      assert BothLive(s.threads[v], s.threads[w]);
    }
  }

  lemma AdvanceKeepsHomes(s: Book, u: Book, t: string, newId: string, longer: Thread)
    requires HomesMatch(s) && newId !in s.home && t in s.threads
    requires |longer.versions| == |s.threads[t].versions| + 1
    requires longer.versions[..|longer.versions| - 1] == s.threads[t].versions
    requires Last(longer).id == newId
    requires u.threads == s.threads[t := longer] && u.home == s.home[newId := t]
    ensures HomesMatch(u)
  {
    forall v, i | v in u.threads && 0 <= i < |u.threads[v].versions|
      ensures u.threads[v].versions[i].id in u.home && u.home[u.threads[v].versions[i].id] == v
    {
      if v == t && i < |longer.versions| - 1 {
        assert longer.versions[i] == longer.versions[..|longer.versions| - 1][i];
      }
    }
  }

  // ---- runs of any number of handles

  /** `Connect` opens a handle with whatever its index file lists. */
  datatype Call =
    | AddMemory(id: string, memory: Memory)
    | Connect(h: nat, listed: set<string>)
    | Map(h: nat, a: string, b: string, semantic: bool, newId: string)
    | Update(h: nat, id: string, target: Status, resolution: string, winner: Option<string>, newId: string)
    | Deprecate(id: string)

  ghost function Next(space: char -> bool, s: Book, c: Call): Book {
    match c
    case AddMemory(id, memory) => s.(memories := s.memories[id := memory])
    case Connect(h, listed) => s.(indexes := s.indexes[h := listed])
    case Map(h, a, b, semantic, newId) => MapConflict(s, h, a, b, semantic, newId).0
    case Update(h, id, target, resolution, winner, newId) =>
      UpdateStatus(space, s, h, id, target, resolution, winner, newId).0
    case Deprecate(id) => s.(hidden := s.hidden + {id})
  }

  /** Every record gets a new id, and an index lists nothing that is not stored. */
  ghost predicate Enabled(s: Book, c: Call) {
    match c
    case AddMemory(id, _) => id !in s.memories
    case Connect(_, listed) => listed <= s.home.Keys
    case Map(h, _, _, _, newId) => h in s.indexes && newId !in s.home && newId !in s.threads
    case Update(h, _, _, _, _, newId) => h in s.indexes && newId !in s.home
    case Deprecate(id) => id in s.home
  }

  ghost predicate Legal(space: char -> bool, s: Book, run: seq<Call>)
    decreases |run|
  {
    |run| > 0 ==> Enabled(s, run[0]) && Legal(space, Next(space, s, run[0]), run[1..])
  }

  ghost function Exec(space: char -> bool, s: Book, run: seq<Call>): Book
    decreases |run|
  {
    if |run| == 0 then s else Exec(space, Next(space, s, run[0]), run[1..])
  }

  lemma SameThreadsKeepInv(space: char -> bool, s: Book, u: Book)
    requires Inv(space, s) && u.threads == s.threads && u.home == s.home
    requires forall id :: id in s.memories ==> id in u.memories && u.memories[id] == s.memories[id]
    ensures Inv(space, u)
  {
    hide WellTriaged, Accounted, First;
    forall t | t in u.threads ensures Grounded(u, u.threads[t]) {
      assert Grounded(s, s.threads[t]);
    }
  }

  lemma NextKeepsInv(space: char -> bool, s: Book, c: Call)
    requires Inv(space, s) && Enabled(s, c)
    ensures Inv(space, Next(space, s, c))
  {
    hide Inv;
    match c {
      case Map(h, a, b, semantic, newId) => MapKeepsInv(space, s, h, a, b, semantic, newId);
      case Update(h, id, target, resolution, winner, newId) =>
        UpdateKeepsInv(space, s, h, id, target, resolution, winner, newId);
      case AddMemory(_, _) => SameThreadsKeepInv(space, s, Next(space, s, c));
      case Connect(_, _) => SameThreadsKeepInv(space, s, Next(space, s, c));
      case Deprecate(_) => SameThreadsKeepInv(space, s, Next(space, s, c));
    }
  }

  lemma {:induction false} ConflictSafety(space: char -> bool, s: Book, run: seq<Call>)
    requires Inv(space, s) && Legal(space, s, run)
    ensures Inv(space, Exec(space, s, run))
    decreases |run|
  {
    if |run| > 0 {
      NextKeepsInv(space, s, run[0]);
      ConflictSafety(space, Next(space, s, run[0]), run[1..]);
    }
  }

  /** What every run leaves: each history opened, investigated and at most once closed, and
      closed with a reason. */
  lemma EveryRunIsSafe(space: char -> bool, run: seq<Call>)
    requires Legal(space, NO_BOOK, run)
    ensures Inv(space, Exec(space, NO_BOOK, run))
  {
    ConflictSafety(space, NO_BOOK, run);
  }

  // ---- at most one live conflict for each pair

  /** A pair that can be mapped has a live conflict that the index of the handle does not
      list. */
  predicate MapsBlind(s: Book, c: Call) {
    && c.Map? && Obstacle(s, c.a, c.b, c.semantic).None?
    && exists t :: t in s.threads && IsLive(s.threads[t])
                   && Concerns(s.threads[t], s.memories[c.a].namespace, c.a, c.b)
                   && !Lists(s, c.h, Last(s.threads[t]).id)
  }

  /** The index misses a live conflict, and the pair gets a second one. */
  lemma BlindMapsTwice(s: Book, h: nat, a: string, b: string, newId: string, t: string)
    requires OneLiveEach(s) && Obstacle(s, a, b, true).None? && newId !in s.threads
    requires t in s.threads && IsLive(s.threads[t]) && Concerns(s.threads[t], s.memories[a].namespace, a, b)
    ensures LiveThread(s, h, s.memories[a].namespace, First(a, b), Second(a, b))
         == if Lists(s, h, Last(s.threads[t]).id) then Some(t) else None
    ensures !Lists(s, h, Last(s.threads[t]).id) ==> !OneLiveEach(MapConflict(s, h, a, b, true, newId).0)
  {
    LiveIsFound(s, h, s.memories[a].namespace, a, b, t);
    hide LiveThread, First, Second;
    if !Lists(s, h, Last(s.threads[t]).id) {
      var after := MapConflict(s, h, a, b, true, newId).0;
      assert BothLive(after.threads[t], after.threads[newId]);
    }
  }

  /** A mapping leaves at most one live conflict for each pair exactly when the index of its
      handle lists the live conflict of the pair, if there is one. */
  lemma MapKeepsOneLiveIff(space: char -> bool, s: Book, h: nat, a: string, b: string, semantic: bool, newId: string)
    requires Inv(space, s) && OneLiveEach(s) && newId !in s.home && newId !in s.threads
    ensures OneLiveEach(MapConflict(s, h, a, b, semantic, newId).0) <==> !MapsBlind(s, Map(h, a, b, semantic, newId))
  {
    hide LiveThread, OneLiveEach, IsLive, First, Second, ThreadsSound, HomesMatch;
    if Obstacle(s, a, b, semantic).None? {
      var namespace := s.memories[a].namespace;
      OnlySemantic(s, a, b, semantic);
      if t :| t in s.threads && IsLive(s.threads[t]) && Concerns(s.threads[t], namespace, a, b) {
        BlindMapsTwice(s, h, a, b, newId, t);
        OnlyLive(s, namespace, a, b, t);
      } else {
        NoneIsFound(s, h, namespace, a, b);
        NewIsOnlyLive(s, MapConflict(s, h, a, b, semantic, newId).0, namespace, a, b, newId);
      }
    }
  }

  lemma OnlySemantic(s: Book, a: string, b: string, semantic: bool)
    requires Obstacle(s, a, b, semantic).None?
    ensures semantic
  {
  }

  lemma NoneIsFound(s: Book, h: nat, namespace: string, a: string, b: string)
    requires forall t :: t in s.threads && IsLive(s.threads[t]) ==> !Concerns(s.threads[t], namespace, a, b)
    ensures LiveThread(s, h, namespace, First(a, b), Second(a, b)).None?
  {
  }

  lemma OnlyLive(s: Book, namespace: string, a: string, b: string, t: string)
    requires OneLiveEach(s) && t in s.threads && IsLive(s.threads[t]) && Concerns(s.threads[t], namespace, a, b)
    ensures forall u :: u in s.threads && IsLive(s.threads[u]) && Concerns(s.threads[u], namespace, a, b) ==> u == t
  {
    forall u | u in s.threads && IsLive(s.threads[u]) && Concerns(s.threads[u], namespace, a, b) ensures u == t {
      assert BothLive(s.threads[u], s.threads[t]);
    }
  }

  lemma NewIsOnlyLive(s: Book, u: Book, namespace: string, a: string, b: string, newId: string)
    requires OneLiveEach(s) && Ordered(s) && newId !in s.threads
    requires u.threads
          == s.threads[newId := Thread(namespace, First(a, b), Second(a, b), [Version(newId, Open, "", "")])]
    requires forall t :: t in s.threads && IsLive(s.threads[t]) ==> !Concerns(s.threads[t], namespace, a, b)
    ensures OneLiveEach(u)
  {
    PairHasNoDirection(a, b);
    forall t, v | t in u.threads && v in u.threads && BothLive(u.threads[t], u.threads[v]) ensures t == v {
      if t != newId && v != newId {
        assert BothLive(s.threads[t], s.threads[v]);
      } else if t != newId {
        ConcernsIsPair(s.threads[t], namespace, a, b);
      } else if v != newId {
        ConcernsIsPair(s.threads[v], namespace, a, b);
      }
    }
  }

  lemma NextKeepsOneLiveIff(space: char -> bool, s: Book, c: Call)
    requires Inv(space, s) && OneLiveEach(s) && Enabled(s, c)
    ensures OneLiveEach(Next(space, s, c)) <==> !MapsBlind(s, c)
  {
    match c {
      case Map(h, a, b, semantic, newId) => MapKeepsOneLiveIff(space, s, h, a, b, semantic, newId);
      case Update(h, id, target, resolution, winner, newId) =>
        UpdateKeepsInv(space, s, h, id, target, resolution, winner, newId);
      case _ =>
        assert Next(space, s, c).threads == s.threads;
    }
  }

  /** No state of the run has two live conflicts for one pair. */
  ghost predicate OneLiveThroughout(space: char -> bool, s: Book, run: seq<Call>)
    decreases |run|
  {
    OneLiveEach(s) && (|run| > 0 ==> OneLiveThroughout(space, Next(space, s, run[0]), run[1..]))
  }

  ghost predicate EverMapsBlind(space: char -> bool, s: Book, run: seq<Call>)
    decreases |run|
  {
    |run| > 0 && (MapsBlind(s, run[0]) || EverMapsBlind(space, Next(space, s, run[0]), run[1..]))
  }

  lemma {:induction false} RunKeepsOneLiveIff(space: char -> bool, s: Book, run: seq<Call>)
    requires Inv(space, s) && OneLiveEach(s) && Legal(space, s, run)
    ensures OneLiveThroughout(space, s, run) <==> !EverMapsBlind(space, s, run)
    decreases |run|
  {
    if |run| > 0 {
      var next := Next(space, s, run[0]);
      NextKeepsInv(space, s, run[0]);
      NextKeepsOneLiveIff(space, s, run[0]);
      hide Next, Inv, OneLiveEach, MapsBlind, Enabled;
      if OneLiveEach(next) {
        RunKeepsOneLiveIff(space, next, run[1..]);
      }
    }
  }

  /** A run of any handles never has two live conflicts for one pair exactly when no mapping
      in it missed a live conflict for want of its index. */
  lemma OneLiveIff(space: char -> bool, run: seq<Call>)
    requires Legal(space, NO_BOOK, run)
    ensures OneLiveThroughout(space, NO_BOOK, run) <==> !EverMapsBlind(space, NO_BOOK, run)
  {
    RunKeepsOneLiveIff(space, NO_BOOK, run);
  }

  predicate ListsAll(s: Book, h: nat) {
    h in s.indexes && s.home.Keys <= s.indexes[h]
  }

  /** While one handle that lists everything does all mapping and updating, no mapping is
      blind. */
  lemma {:induction false} OneHandleIsNeverBlind(space: char -> bool, s: Book, run: seq<Call>, h: nat)
    requires Inv(space, s) && Legal(space, s, run) && ListsAll(s, h)
    requires forall i :: 0 <= i < |run| ==>
               && (run[i].Map? || run[i].Update? ==> run[i].h == h) && (run[i].Connect? ==> run[i].h != h)
    ensures !EverMapsBlind(space, s, run)
    decreases |run|
  {
    if |run| > 0 {
      NextKeepsInv(space, s, run[0]);
      NewestIsListed(s, h);
      ListsAllStays(space, s, run[0], h);
      assert !MapsBlind(s, run[0]) by {
        hide Inv, Next, ListsAll, Lists, Obstacle;
      }
      hide Next, Inv, MapsBlind, Enabled, ListsAll;
      assert forall i :: 0 <= i < |run| - 1 ==> run[1..][i] == run[i + 1];
      OneHandleIsNeverBlind(space, Next(space, s, run[0]), run[1..], h);
    }
  }

  lemma ListsAllStays(space: char -> bool, s: Book, c: Call, h: nat)
    requires ListsAll(s, h) && (c.Map? || c.Update? ==> c.h == h) && (c.Connect? ==> c.h != h)
    ensures ListsAll(Next(space, s, c), h)
  {
    hide LiveThread, Obstacle, Objects, First, Second;
  }

  lemma NewestIsListed(s: Book, h: nat)
    requires HomesMatch(s) && ListsAll(s, h)
    ensures forall t :: t in s.threads && |s.threads[t].versions| > 0 ==> Lists(s, h, Last(s.threads[t]).id)
  {
  }

  /** Two handles, neither of which sees the other's writes, map one pair: it has two live
      conflicts. */
  lemma TwoHandlesMapTwice(space: char -> bool, memory: Memory)
    requires memory.durable
    ensures var run := [AddMemory("a", memory), AddMemory("b", memory), Connect(0, {}), Connect(1, {}),
                        Map(0, "a", "b", true, "x"), Map(1, "a", "b", true, "y")];
            && Legal(space, NO_BOOK, run)
            && var end := Exec(space, NO_BOOK, run);
               && end.threads.Keys == {"x", "y"} && BothLive(end.threads["x"], end.threads["y"])
               && !OneLiveEach(end) && EverMapsBlind(space, NO_BOOK, run)
  {
    var x, y := Map(0, "a", "b", true, "x"), Map(1, "a", "b", true, "y");
    var s2 := NO_BOOK.(memories := map["a" := memory, "b" := memory]);
    var s4 := s2.(indexes := map[0 := {}, 1 := {}]);
    var s6 := MapsInTurn(space, s4, memory);
    TwoCallsFirst(space, s4, x, y, []);
    assert Next(space, Next(space, s2, Connect(0, {})), Connect(1, {})) == s4;
    var late := [Connect(0, {}), Connect(1, {})] + ([x, y] + []);
    TwoCallsFirst(space, s2, Connect(0, {}), Connect(1, {}), [x, y] + []);
    assert Next(space, Next(space, NO_BOOK, AddMemory("a", memory)), AddMemory("b", memory)) == s2;
    TwoCallsFirst(space, NO_BOOK, AddMemory("a", memory), AddMemory("b", memory), late);
    var run := [AddMemory("a", memory), AddMemory("b", memory)] + late;
    assert run == [AddMemory("a", memory), AddMemory("b", memory), Connect(0, {}), Connect(1, {}), x, y];
    hide Next, Exec, Legal, OneLiveEach, BothLive, EverMapsBlind;
    if OneLiveThroughout(space, NO_BOOK, run) {
      ThroughoutEnds(space, NO_BOOK, run);
    }
    OneLiveIff(space, run);
  }

  lemma MapsInTurn(space: char -> bool, s: Book, memory: Memory) returns (u: Book)
    requires s == NO_BOOK.(memories := map["a" := memory, "b" := memory], indexes := map[0 := {}, 1 := {}])
    requires memory.durable
    ensures var x, y := Map(0, "a", "b", true, "x"), Map(1, "a", "b", true, "y");
            && Enabled(s, x) && Enabled(Next(space, s, x), y)
            && u == Next(space, Next(space, s, x), y)
    ensures u.threads.Keys == {"x", "y"} && BothLive(u.threads["x"], u.threads["y"]) && !OneLiveEach(u)
  {
    var first, second := First("a", "b"), Second("a", "b");
    assert LiveThread(s, 0, memory.namespace, first, second).None?;
    var t := MapConflict(s, 0, "a", "b", true, "x").0;
    assert !Lists(t, 1, "x");
    assert LiveThread(t, 1, memory.namespace, first, second).None?;
    u := MapConflict(t, 1, "a", "b", true, "y").0;
    assert BothLive(u.threads["x"], u.threads["y"]);
  }

  lemma TwoCallsFirst(space: char -> bool, s: Book, a: Call, b: Call, rest: seq<Call>)
    requires Enabled(s, a) && Enabled(Next(space, s, a), b) && Legal(space, Next(space, Next(space, s, a), b), rest)
    ensures Legal(space, s, [a, b] + rest)
    ensures Exec(space, s, [a, b] + rest) == Exec(space, Next(space, Next(space, s, a), b), rest)
  {
    var run, one := [a, b] + rest, [b] + rest;
    assert run[1..] == one && one[1..] == rest;
    hide Next, Enabled;
    assert Legal(space, Next(space, s, a), one);
  }

  lemma {:induction false} ThroughoutEnds(space: char -> bool, s: Book, run: seq<Call>)
    requires OneLiveThroughout(space, s, run)
    ensures OneLiveEach(Exec(space, s, run))
    decreases |run|
  {
    if |run| > 0 {
      ThroughoutEnds(space, Next(space, s, run[0]), run[1..]);
    }
  }

  /** Nothing is rewritten: memories stay as they are, versions are only added, and a
      closed conflict stays as it was closed. */
  ghost predicate Extends(s: Book, u: Book) {
    && (forall id :: id in s.memories ==> id in u.memories && u.memories[id] == s.memories[id])
    && (forall t :: t in s.threads ==> t in u.threads && Continues(s.threads[t], u.threads[t]))
  }

  ghost predicate Continues(t: Thread, u: Thread) {
    && u.(versions := t.versions) == t
    && t.versions <= u.versions
    && (|t.versions| > 0 && !IsLive(t) ==> u == t)
  }

  lemma NextExtends(space: char -> bool, s: Book, c: Call)
    requires Enabled(s, c)
    ensures Extends(s, Next(space, s, c))
  {
  }

  lemma {:induction false} RunExtends(space: char -> bool, s: Book, run: seq<Call>)
    requires Legal(space, s, run)
    ensures Extends(s, Exec(space, s, run))
    decreases |run|
  {
    if |run| > 0 {
      NextExtends(space, s, run[0]);
      RunExtends(space, Next(space, s, run[0]), run[1..]);
      ExtendsTransitive(s, Next(space, s, run[0]), Exec(space, s, run));
    }
  }

  lemma ExtendsTransitive(s: Book, u: Book, v: Book)
    requires Extends(s, u) && Extends(u, v)
    ensures Extends(s, v)
  {
    forall t | t in s.threads ensures Continues(s.threads[t], v.threads[t]) {
      assert Continues(s.threads[t], u.threads[t]) && Continues(u.threads[t], v.threads[t]);
    }
  }

  // ---- mapping is symmetric and idempotent

  lemma LiveIsFound(s: Book, h: nat, namespace: string, a: string, b: string, t: string)
    requires OneLiveEach(s) && t in s.threads && IsLive(s.threads[t]) && Concerns(s.threads[t], namespace, a, b)
    ensures LiveThread(s, h, namespace, First(a, b), Second(a, b))
         == if Lists(s, h, Last(s.threads[t]).id) then Some(t) else None
  {
    OnlyLive(s, namespace, a, b, t);
    assert Lists(s, h, Last(s.threads[t]).id) ==> Finds(s, h, namespace, First(a, b), Second(a, b), t);
  }

  /** Naming the memories the other way round maps the same conflict, or is refused
      just the same. */
  lemma MappingIsSymmetric(s: Book, h: nat, a: string, b: string, semantic: bool, newId: string)
    ensures MapConflict(s, h, a, b, semantic, newId).0 == MapConflict(s, h, b, a, semantic, newId).0
    ensures var there, back := MapConflict(s, h, a, b, semantic, newId).1, MapConflict(s, h, b, a, semantic, newId).1;
            there == back || (there.NotMapped? && back.NotMapped?)
  {
    PairHasNoDirection(a, b);
  }

  /** Two memories that can be mapped get the id of their live conflict when there is one
      and the index of the handle lists it. */
  lemma MapsOnceIff(space: char -> bool, s: Book, h: nat, a: string, b: string, newId: string, t: string)
    requires Inv(space, s) && OneLiveEach(s) && Obstacle(s, a, b, true).None?
    ensures MapConflict(s, h, a, b, true, newId).1 == Existing(t)
       <==> t in s.threads && IsLive(s.threads[t]) && s.threads[t].namespace == s.memories[a].namespace
            && {s.threads[t].a, s.threads[t].b} == {a, b} && Lists(s, h, Last(s.threads[t]).id)
  {
    hide OneLiveEach, IsLive, First, Second, ThreadsSound, HomesMatch;
    var namespace := s.memories[a].namespace;
    FoundAreLive(s, h, namespace, First(a, b), Second(a, b));
    hide LiveThread;
    if t in s.threads {
      ConcernsIsPair(s.threads[t], namespace, a, b);
      if IsLive(s.threads[t]) && Concerns(s.threads[t], namespace, a, b) {
        LiveIsFound(s, h, namespace, a, b, t);
      }
    }
  }

  /** Once mapped, a pair keeps its conflict through any run after which it has no other:
      mapping it again, through any handle and either way round, changes nothing and
      returns the same id exactly when the conflict is live and the handle lists it. */
  lemma MappingIsIdempotent(space: char -> bool, s: Book, h: nat, a: string, b: string, newId: string, run: seq<Call>,
                            later: nat, other: string)
    requires Inv(space, s) && Obstacle(s, a, b, true).None? && newId !in s.home && newId !in s.threads
    requires Legal(space, MapConflict(s, h, a, b, true, newId).0, run)
    requires OneLiveEach(Exec(space, MapConflict(s, h, a, b, true, newId).0, run))
    ensures var (mapped, outcome) := MapConflict(s, h, a, b, true, newId);
            var u := Exec(space, mapped, run);
            && outcome.id in u.threads && |u.threads[outcome.id].versions| > 0
            && (MapConflict(u, later, a, b, true, other) == (u, Existing(outcome.id))
                <==> IsLive(u.threads[outcome.id]) && Lists(u, later, Last(u.threads[outcome.id]).id))
            && MapConflict(u, later, b, a, true, other) == MapConflict(u, later, a, b, true, other)
  {
    hide Obstacle, First, Second, WellTriaged, Accounted, Grounded, HomesMatch, Ordered, Exec, Extends, LiveThread;
    hide OneLiveEach;
    var (mapped, outcome) := MapConflict(s, h, a, b, true, newId);
    var u, t := Exec(space, mapped, run), outcome.id;
    MappedConcerns(s, h, a, b, newId);
    MapKeepsInv(space, s, h, a, b, true, newId);
    ConflictSafety(space, mapped, run);
    RunExtends(space, mapped, run);
    ThreadContinues(mapped, u, t);
    MappedStays(space, s, u, a, b);
    MappingIsSymmetric(u, later, a, b, true, other);
    if IsLive(u.threads[t]) {
      LiveIsFound(u, later, s.memories[a].namespace, a, b, t);
    } else {
      FoundAreLive(u, later, s.memories[a].namespace, First(a, b), Second(a, b));
    }
  }

  lemma MappedConcerns(s: Book, h: nat, a: string, b: string, newId: string)
    requires Obstacle(s, a, b, true).None?
    ensures var (mapped, outcome) := MapConflict(s, h, a, b, true, newId);
            && a in s.memories && !outcome.NotMapped? && outcome.id in mapped.threads && mapped.memories == s.memories
            && |mapped.threads[outcome.id].versions| > 0
            && Concerns(mapped.threads[outcome.id], s.memories[a].namespace, a, b)
  {
  }

  lemma ThreadContinues(s: Book, u: Book, t: string)
    requires Extends(s, u) && t in s.threads
    ensures t in u.threads && u.threads[t].(versions := s.threads[t].versions) == s.threads[t]
    ensures s.threads[t].versions <= u.threads[t].versions
    ensures forall id :: id in s.memories ==> id in u.memories && u.memories[id] == s.memories[id]
  {
    assert Continues(s.threads[t], u.threads[t]);
  }

  lemma FoundAreLive(s: Book, h: nat, namespace: string, first: string, second: string)
    ensures var found := LiveThread(s, h, namespace, first, second);
            found.Some? ==> Finds(s, h, namespace, first, second, found.value)
  {
  }

  lemma MappedStays(space: char -> bool, s: Book, u: Book, a: string, b: string)
    requires Obstacle(s, a, b, true).None?
    requires forall id :: id in s.memories ==> id in u.memories && u.memories[id] == s.memories[id]
    ensures Obstacle(u, a, b, true).None? && Obstacle(u, b, a, true).None?
    ensures u.memories[a].namespace == s.memories[a].namespace
  {
  }

  // ---- the database side, as an object

  /** One handle, number zero here, over the shared store. */
  class EmberDB {
    var memories: map<string, Memory>
    var threads: map<string, Thread>
    var home: map<string, string>
    var hidden: set<string>
    /** The versions its index lists. */
    var listed: set<string>

    function State(): Book
      reads this
    {
      Book(memories, threads, home, hidden, map[0 := listed])
    }

    ghost predicate Valid(space: char -> bool)
      reads this
    {
      Inv(space, State())
    }

    constructor (ghost space: char -> bool)
      ensures Valid(space) && State() == NO_BOOK.(indexes := map[0 := {}])
    {
      memories, threads, home, hidden, listed := map[], map[], map[], {}, {};
    }

    /** Go through the listed versions that nothing supersedes. */
    method FindLiveConflict(ghost space: char -> bool, namespace: string, first: string, second: string)
      returns (found: Option<string>)
      requires Valid(space)
      ensures found.Some? ==> Finds(State(), 0, namespace, first, second, found.value)
      ensures found.None? ==> forall t :: !Finds(State(), 0, namespace, first, second, t)
    {
      hide ThreadsSound, Ordered, Terminal;
      var left := listed;
      while left != {}
        invariant left <= listed
        invariant forall t :: Finds(State(), 0, namespace, first, second, t) ==> Last(threads[t]).id in left
        decreases left
      {
        var r :| r in left;
        left := left - {r};
        if r in home && home[r] in threads && |threads[home[r]].versions| > 0 && Last(threads[home[r]]).id == r {
          var t := threads[home[r]];
          if IsLive(t) && t.namespace == namespace && t.a == first && t.b == second {
            return Some(home[r]);
          }
        }
        assert forall t :: Finds(State(), 0, namespace, first, second, t) ==> home[Last(threads[t]).id] == t;
      }
      found := None;
    }

    method Map(ghost space: char -> bool, a: string, b: string, semantic: bool, newId: string) returns (outcome: Mapped)
      requires Valid(space) && newId !in home && newId !in threads
      modifies this`threads, this`home, this`listed
      ensures Valid(space)
      ensures State() == MapConflict(old(State()), 0, a, b, semantic, newId).0
      ensures var specified := MapConflict(old(State()), 0, a, b, semantic, newId).1;
              if specified.Existing? then
                && outcome.Existing?
                && Finds(old(State()), 0, old(memories)[a].namespace, First(a, b), Second(a, b), outcome.id)
              else outcome == specified
      ensures OneLiveEach(old(State())) ==> outcome == MapConflict(old(State()), 0, a, b, semantic, newId).1
    {
      hide First, Second, LiveThread, OneLiveEach, HomesMatch, ThreadsSound, Ordered, IsLive;
      MapKeepsInv(space, State(), 0, a, b, semantic, newId);
      assert Listing(State(), 0, newId) == map[0 := listed + {newId}];
      if a == b {
        return NotMapped(SameMemory);
      } else if a !in memories {
        return NotMapped(Missing(a));
      } else if b !in memories {
        return NotMapped(Missing(b));
      } else if memories[a].namespace != memories[b].namespace {
        return NotMapped(CrossNamespace);
      } else if !memories[a].durable {
        return NotMapped(NotDurable(a));
      } else if !memories[b].durable {
        return NotMapped(NotDurable(b));
      } else if !semantic {
        return NotMapped(StorageConflict);
      }
      var existing := FindLiveConflict(space, memories[a].namespace, First(a, b), Second(a, b));
      if existing.Some? {
        FoundIsLive(State(), memories[a].namespace, a, b, existing.value);
        return Existing(existing.value);
      }
      assert LiveThread(State(), 0, memories[a].namespace, First(a, b), Second(a, b)).None? by {
        NothingIsFound(State(), memories[a].namespace, First(a, b), Second(a, b));
      }
      var thread := Thread(memories[a].namespace, First(a, b), Second(a, b), [Version(newId, Open, "", "")]);
      threads, home, listed := threads[newId := thread], home[newId := newId], listed + {newId};
      outcome := Created(newId);
    }

    method Update(space: char -> bool, id: string, target: Status, resolution: string, winner: Option<string>,
                  newId: string)
      returns (outcome: Updated)
      requires Valid(space) && newId !in home
      modifies this`threads, this`home, this`listed
      ensures Valid(space)
      ensures (State(), outcome) == UpdateStatus(space, old(State()), 0, id, target, resolution, winner, newId)
    {
      hide Inv, OneLiveEach, Objects, IsLive;
      UpdateKeepsInv(space, State(), 0, id, target, resolution, winner, newId);
      assert Listing(State(), 0, newId) == map[0 := listed + {newId}];
      if id !in home || home[id] !in threads || |threads[home[id]].versions| == 0 {
        return NotUpdated(NotFound);
      }
      var t := threads[home[id]];
      if Last(t).id in hidden {
        return NotUpdated(NotFound);
      }
      var objection := Objects(space, t, target, resolution, winner);
      if objection.Some? {
        return NotUpdated(objection.value);
      }
      var text := Last(t).resolution;
      if resolution != "" {
        text := resolution;
      }
      var next := Version(newId, target, text, if winner.Some? then winner.value else "");
      threads := threads[home[id] := t.(versions := t.versions + [next])];
      home := home[newId := home[id]];
      listed := listed + {newId};
      outcome := Advanced(Last(t).id);
    }
  }

  lemma NothingIsFound(s: Book, namespace: string, first: string, second: string)
    requires forall t :: !Finds(s, 0, namespace, first, second, t)
    ensures LiveThread(s, 0, namespace, first, second).None?
  {
  }

  lemma FoundIsLive(s: Book, namespace: string, a: string, b: string, t: string)
    requires Finds(s, 0, namespace, First(a, b), Second(a, b), t)
    ensures LiveThread(s, 0, namespace, First(a, b), Second(a, b)).Some?
    ensures OneLiveEach(s) ==> LiveThread(s, 0, namespace, First(a, b), Second(a, b)) == Some(t)
  {
    if OneLiveEach(s) {
      LiveIsFound(s, 0, namespace, a, b, t);
    }
  }
}
