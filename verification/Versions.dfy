/** Record versions: immutable records, supersession sidecars, compare-and-set. */
module Versions {
  import opened Prelude

  /** SHA-256 over the canonical payload, as a free constructor: two payloads
      have one hash only when they are equal. */
  datatype Hash = Sha(payload: Payload)

  datatype Payload = Payload(id: string, version: nat, parentHash: Option<Hash>,
                             supersedes: Option<string>, content: string)

  /** How much of a record file can be read: all of it, its stored hash and version, or
      nothing. */
  datatype Encoding = Whole | HeaderOnly | Garbled

  /** A record file. `contentHash` is absent on records written before sealing. */
  datatype Record = Record(id: string, version: nat, parentHash: Option<Hash>, supersedes: Option<string>,
                           content: string, deprecated: bool, contentHash: Option<Hash>, encoding: Encoding)

  type Records = map<string, Record>
  type Sidecars = map<string, string>

  function ComputeHash(r: Record): Hash {
    Sha(Payload(r.id, r.version, r.parentHash, r.supersedes, r.content))
  }

  function Seal(r: Record): Record {
    r.(contentHash := Some(ComputeHash(r)), encoding := Whole)
  }

  /** `content_hash or compute_content_hash()` */
  function EffectiveHash(r: Record): Hash {
    if r.contentHash.Some? then r.contentHash.value else ComputeHash(r)
  }

  function FirstVersion(id: string, content: string, deprecated: bool): Record {
    Seal(Record(id, 1, None, None, content, deprecated, None, Whole))
  }

  /** The next version of the record stored under `base`. */
  function NewVersionOf(base: string, prior: Record, newId: string, content: string): Record {
    Seal(Record(newId, prior.version + 1, Some(EffectiveHash(prior)), Some(base), content, false, None, Whole))
  }

  function NewVersion(prior: Record, newId: string, content: string): Record {
    NewVersionOf(prior.id, prior, newId, content)
  }

  /** Reading such a record raises: its stored hash is not the hash of its content. */
  predicate IsCorrupt(r: Record) {
    r.contentHash.Some? && r.contentHash.value != ComputeHash(r)
  }

  // ---- the chain walk

  /** The ids the walk lists from `current` on, when it has already been at `seen`. */
  function Walk(sidecars: Sidecars, current: string, seen: set<string>): (chain: seq<string>)
    ensures |chain| > 0 && chain[0] == current
    decreases |sidecars.Keys - seen|
  {
    if current in seen || current !in sidecars then [current]
    else
      SeenGrows(sidecars, seen, current);
      [current] + Walk(sidecars, sidecars[current], seen + {current})
  }

  lemma SeenGrows(sidecars: Sidecars, seen: set<string>, current: string)
    requires current in sidecars && current !in seen
    ensures |sidecars.Keys - (seen + {current})| < |sidecars.Keys - seen|
  {
    assert current in sidecars.Keys - seen;
    SmallerSet(sidecars.Keys - (seen + {current}), sidecars.Keys - seen);
  }

  lemma SmallerSet(a: set<string>, b: set<string>)
    requires a < b
    ensures |a| < |b|
  {
    var x :| x in b && x !in a;
    assert a <= b - {x};
    SubsetIsSmaller(a, b - {x});
  }

  function Chain(sidecars: Sidecars, id: string): seq<string> {
    Walk(sidecars, id, {})
  }

  function Head(sidecars: Sidecars, id: string): string {
    var chain := Chain(sidecars, id);
    chain[|chain| - 1]
  }

  // ---- compare-and-set

  datatype Outcome =
    | Updated(newId: string, oldId: string)
    | ConcurrentModification(actual: Hash, currentVersion: nat, currentId: string)
    | NotFound
    | Unreadable
    | IntegrityError
    | DeprecatedRecord
    | StorageLimit

  /** Whether the record `base` is superseded, or why not. The native resolver compares the
      stored hash before the record is read, the fallback reads first. `fits` is the answer
      of the storage limits to the new version. */
  function DecideAt(native: bool, records: Records, base: string, newId: string, expected: Option<Hash>,
                    fits: bool): Outcome
  {
    if base !in records then NotFound
    else
      var prior := records[base];
      var differs := expected.Some? && EffectiveHash(prior) != expected.value;
      if native && expected.Some? && prior.encoding.Garbled? then Unreadable
      else if !prior.encoding.Whole? && !(native && differs && prior.contentHash.Some?) then NotFound
      else if IsCorrupt(prior) && !(native && differs) then IntegrityError
      else if differs then ConcurrentModification(EffectiveHash(prior), prior.version, base)
      else if prior.deprecated then DeprecatedRecord
      else if !fits then StorageLimit
      else Updated(newId, base)
  }

  /** With an expected hash an update supersedes the head, else the record it names. */
  function Decide(native: bool, records: Records, sidecars: Sidecars, id: string, newId: string, expected: Option<Hash>,
                  fits: bool): Outcome
  {
    DecideAt(native, records, if expected.Some? then Head(sidecars, id) else id, newId, expected, fits)
  }

  /** The backends decide alike except on a head that cannot be read at all, where one reports
      the file and the other no record, and on a damaged head that also lost its race, where
      one reports the race and the other the damage. Either way nothing is written. */
  lemma BackendsDecideAlikeIff(records: Records, sidecars: Sidecars, id: string, newId: string, expected: Option<Hash>,
                               fits: bool)
    ensures Decide(true, records, sidecars, id, newId, expected, fits)
         == Decide(false, records, sidecars, id, newId, expected, fits)
       <==> !(expected.Some? && Head(sidecars, id) in records
              && var head := records[Head(sidecars, id)];
                 || head.encoding.Garbled?
                 || ((head.encoding.HeaderOnly? || IsCorrupt(head))
                     && head.contentHash.Some? && head.contentHash != expected))
    ensures Decide(true, records, sidecars, id, newId, expected, fits).Updated?
       <==> Decide(false, records, sidecars, id, newId, expected, fits).Updated?
  {
  }

  /** An update is accepted exactly when the record it supersedes is there and readable, has
      the hash it was sealed with and the expected one, is not deprecated, and the new version
      fits. */
  lemma AcceptedIff(native: bool, records: Records, sidecars: Sidecars, id: string, newId: string,
                    expected: Option<Hash>, fits: bool)
    ensures var base := if expected.Some? then Head(sidecars, id) else id;
            var r := Decide(native, records, sidecars, id, newId, expected, fits);
            && (r.Updated? ==> r == Updated(newId, base))
            && (r.Updated? <==>
                  && base in records && records[base].encoding.Whole? && !records[base].deprecated && fits
                  && var sealed := Sha(Payload(records[base].id, records[base].version, records[base].parentHash,
                                               records[base].supersedes, records[base].content));
                     && records[base].contentHash in {None, Some(sealed)}
                     && (expected.Some? ==> expected.value == sealed))
  {
  }

  /** Of a record that is sealed and can be read, either backend reports a lost race exactly
      when the hash is another one, with that hash and the version and id that have it. */
  lemma LostRaceIff(native: bool, records: Records, sidecars: Sidecars, id: string, newId: string, expected: Hash,
                    fits: bool)
    requires var head := Head(sidecars, id);
             head in records ==> records[head].contentHash == Some(ComputeHash(records[head]))
                                 && records[head].encoding.Whole?
    ensures var head := Head(sidecars, id);
            var r := Decide(native, records, sidecars, id, newId, Some(expected), fits);
            && (r.NotFound? <==> head !in records)
            && (r.ConcurrentModification? <==> head in records && records[head].contentHash != Some(expected))
            && (r.ConcurrentModification? ==>
                  && Some(r.actual) == records[head].contentHash
                  && r.currentVersion == records[head].version && r.currentId == head)
  {
  }

  class WriteEngine {
    var records: Records
    var sidecars: Sidecars
    const native: bool

    constructor (native: bool)
      ensures records == map[] && sidecars == map[] && this.native == native
    {
      records, sidecars := map[], map[];
      this.native := native;
    }

    /** A first write; refused when the id is taken or the record does not fit. */
    method Write(r: Record, fits: bool) returns (ok: bool)
      modifies this`records
      ensures ok <==> r.id !in old(records) && fits
      ensures records == if ok then old(records)[r.id := Seal(r)] else old(records)
      ensures ok ==>
                && records[r.id].(contentHash := r.contentHash, encoding := r.encoding) == r
                && records[r.id].contentHash
                   == Some(Sha(Payload(r.id, r.version, r.parentHash, r.supersedes, r.content)))
                && records[r.id].encoding.Whole?
    {
      if r.id in records || !fits {
        return false;
      }
      records := records[r.id := Seal(r)];
      return true;
    }

    method GetSupersessionChain(id: string) returns (chain: seq<string>)
      ensures chain == Chain(sidecars, id)
    {
      chain := [id];
      var current := id;
      var seen: set<string> := {};
      while current !in seen && current in sidecars
        invariant |chain| > 0 && chain[|chain| - 1] == current
        invariant chain[..|chain| - 1] + Walk(sidecars, current, seen) == Chain(sidecars, id)
        decreases |sidecars.Keys - seen|
      {
        SeenGrows(sidecars, seen, current);
        var nextId := sidecars[current];
        ghost var rest := Walk(sidecars, nextId, seen + {current});
        assert Walk(sidecars, current, seen) == [current] + rest;
        hide Walk, Chain;
        assert (chain + [nextId])[..|chain|] == chain == chain[..|chain| - 1] + [current];
        ConcatAssociates(chain[..|chain| - 1], [current], rest);
        seen := seen + {current};
        chain := chain + [nextId];
        current := nextId;
      }
      assert chain == chain[..|chain| - 1] + [current];
    }

    /** The native resolver: head id, stored hash, version and whether it matches. */
    method ResolveCasHead(id: string, expected: Hash)
      returns (found: bool, garbled: bool, headId: string, actual: Option<Hash>, version: nat, matches: bool)
      ensures headId == Head(sidecars, id) && (found || garbled <==> headId in records)
      ensures garbled <==> headId in records && records[headId].encoding.Garbled?
      ensures found ==> !garbled && actual == records[headId].contentHash && version == records[headId].version
      ensures matches <==> found && actual == Some(expected)
    {
      var chain := GetSupersessionChain(id);
      headId := chain[|chain| - 1];
      if headId !in records {
        return false, false, headId, None, 0, false;
      }
      var r := records[headId];
      if r.encoding.Garbled? {
        return false, true, headId, None, 0, false;
      }
      return true, false, headId, r.contentHash, r.version, r.contentHash == Some(expected);
    }

    method MarkSuperseded(oldId: string, newId: string)
      modifies this`sidecars
      ensures sidecars == old(sidecars)[oldId := newId]
    {
      sidecars := sidecars[oldId := newId];
    }

    /** One update under the store lock. With the native resolver and without it,
        the outcome is the one decided from the head of the chain. */
    method Update(id: string, content: string, newId: string, expected: Option<Hash>, fits: bool) returns (r: Outcome)
      requires newId !in records
      modifies this
      ensures r == Decide(native, old(records), old(sidecars), id, newId, expected, fits)
      ensures r.Updated? ==>
                && records == old(records)[newId := NewVersionOf(r.oldId, old(records)[r.oldId], newId, content)]
                && sidecars == old(sidecars)[r.oldId := newId]
      ensures r.Updated? ==>
                && r.oldId in old(records) && newId in records
                && var prior, now := old(records)[r.oldId], records[newId];
                   && now.content == content && !now.deprecated && now.encoding.Whole?
                   && now.id == newId && now.version == prior.version + 1 && now.supersedes == Some(r.oldId)
                   && now.parentHash == Some(Sha(Payload(prior.id, prior.version, prior.parentHash, prior.supersedes,
                                                         prior.content)))
                   && now.contentHash == Some(Sha(Payload(newId, now.version, now.parentHash, Some(r.oldId), content)))
      ensures forall k :: k in old(records) ==> k in records && records[k] == old(records)[k]
      ensures !r.Updated? ==> records == old(records) && sidecars == old(sidecars)
    {
      var base := id;
      if expected.Some? {
        var settled := false;
        if native {
          var found, garbled, headId, actual, version, matches := ResolveCasHead(id, expected.value);
          if garbled {
            return Unreadable;
          }
          if !found {
            return NotFound;
          }
          if actual.Some? && !matches {
            return ConcurrentModification(actual.value, version, headId);
          }
          if actual.Some? {
            base := headId;
            settled := true;
          }
        }
        if !settled {
          var chain := GetSupersessionChain(id);
          var headId := chain[|chain| - 1];
          if headId !in records || !records[headId].encoding.Whole? {
            return NotFound;
          }
          var head := records[headId];
          if IsCorrupt(head) {
            return IntegrityError;
          }
          var actual := if head.contentHash.Some? then head.contentHash.value else ComputeHash(head);
          if actual != expected.value {
            return ConcurrentModification(actual, head.version, headId);
          }
          base := headId;
        }
      }
      if base !in records || !records[base].encoding.Whole? {
        return NotFound;
      }
      var prior := records[base];
      if IsCorrupt(prior) {
        return IntegrityError;
      }
      if prior.deprecated {
        return DeprecatedRecord;
      }
      if !fits {
        return StorageLimit;
      }
      var parentHash := if prior.contentHash.Some? then prior.contentHash.value else ComputeHash(prior);
      var newRecord := Record(newId, prior.version + 1, Some(parentHash), Some(base), content, false, None, Whole);
      records := records[newId := Seal(newRecord)];
      MarkSuperseded(base, newId);
      return Updated(newId, base);
    }

    /** The whole chain as records, oldest first; ids without a record are skipped. */
    method GetHistory(id: string) returns (history: seq<Record>)
      ensures history == Existing(records, Chain(sidecars, id))
    {
      var chain := GetSupersessionChain(id);
      history := [];
      for n := 0 to |chain|
        invariant history == Existing(records, chain[..n])
      {
        assert chain[..n + 1][..n] == chain[..n];
        if chain[n] in records && records[chain[n]].encoding.Whole? {
          history := history + [records[chain[n]]];
        }
      }
      assert chain[..|chain|] == chain;
    }
  }

  function Existing(records: Records, ids: seq<string>): seq<Record> {
    if |ids| == 0 then []
    else
      var last := ids[|ids| - 1];
      Existing(records, ids[..|ids| - 1])
      + if last in records && records[last].encoding.Whole? then [records[last]] else []
  }

  // ---- every reachable state, with branching updates and crashes

  /** What the process inside the store lock still owes. */
  datatype Phase = Idle | Superseding(oldId: string, newId: string)

  /** `limbo` holds records whose write stopped after its log frame: a later
      recovery publishes them. */
  datatype VersionState = VersionState(records: Records, sidecars: Sidecars,
                                       limbo: Records, phase: Phase)

  datatype Event =
    | WriteFirst(id: string, content: string, deprecated: bool)
    | CrashInWrite(id: string, content: string, deprecated: bool)
    | UpdateRecord(oldId: string, newId: string, content: string)
    | CrashInUpdate(oldId: string, newId: string, content: string)
    | PublishSidecar
    | Crash
    | RecoverRecord(id: string)

  const EMPTY_VERSIONS := VersionState(map[], map[], map[], Idle)

  predicate FreshId(s: VersionState, id: string) {
    id !in s.records && id !in s.limbo && id !in s.sidecars
  }

  predicate Enabled(s: VersionState, e: Event) {
    match e
    case WriteFirst(id, _, _) => s.phase.Idle? && id !in s.records
    case CrashInWrite(id, _, _) => s.phase.Idle? && FreshId(s, id)
    case UpdateRecord(o, n, _) => s.phase.Idle? && o in s.records && !s.records[o].deprecated && FreshId(s, n)
    case CrashInUpdate(o, n, _) => s.phase.Idle? && o in s.records && !s.records[o].deprecated && FreshId(s, n)
    case PublishSidecar => s.phase.Superseding?
    case Crash => true
    case RecoverRecord(id) => s.phase.Idle? && id in s.limbo
  }

  function Next(s: VersionState, e: Event): VersionState
    requires Enabled(s, e)
  {
    match e
    case WriteFirst(id, c, dep) => s.(records := s.records[id := FirstVersion(id, c, dep)])
    case CrashInWrite(id, c, dep) => s.(limbo := s.limbo[id := FirstVersion(id, c, dep)])
    case UpdateRecord(o, n, c) =>
      s.(records := s.records[n := NewVersion(s.records[o], n, c)], phase := Superseding(o, n))
    case CrashInUpdate(o, n, c) => s.(limbo := s.limbo[n := NewVersion(s.records[o], n, c)])
    case PublishSidecar => s.(sidecars := s.sidecars[s.phase.oldId := s.phase.newId], phase := Idle)
    case Crash => s.(phase := Idle)
    case RecoverRecord(id) =>
      s.(records := if id in s.records then s.records else s.records[id := s.limbo[id]], limbo := s.limbo - {id})
  }

  predicate Legal(s: VersionState, run: seq<Event>)
    decreases |run|
  {
    |run| == 0 || (Enabled(s, run[0]) && Legal(Next(s, run[0]), run[1..]))
  }

  function Exec(s: VersionState, run: seq<Event>): VersionState
    requires Legal(s, run)
    decreases |run|
  {
    if |run| == 0 then s else Exec(Next(s, run[0]), run[1..])
  }

  /** `r` can be read and is a sealed first version, or the sealed next version of a stored record. */
  ghost predicate Rooted(records: Records, r: Record) {
    && r.contentHash == Some(ComputeHash(r)) && r.encoding.Whole?
    && match r.supersedes {
         case None => r.version == 1 && r.parentHash == None
         case Some(p) =>
           && p in records
           && r.version == records[p].version + 1
           && r.parentHash == Some(ComputeHash(records[p]))
       }
  }

  /** One sidecar edge, as the source promises it. */
  ghost predicate EdgeHolds(records: Records, oldId: string, newId: string) {
    && oldId in records && newId in records
    && records[newId].supersedes == Some(oldId)
    && records[newId].version == records[oldId].version + 1
    && records[newId].parentHash == Some(ComputeHash(records[oldId]))
  }

  ghost predicate AllRooted(records: Records, some: Records) {
    forall id :: id in some ==> some[id].id == id && Rooted(records, some[id])
  }

  ghost predicate EdgesHold(records: Records, sidecars: Sidecars) {
    forall o :: o in sidecars ==> EdgeHolds(records, o, sidecars[o])
  }

  ghost predicate Inv(s: VersionState) {
    && AllRooted(s.records, s.records)
    && AllRooted(s.records, s.limbo)
    && EdgesHold(s.records, s.sidecars)
    && (s.phase.Superseding? ==> EdgeHolds(s.records, s.phase.oldId, s.phase.newId))
  }

  /** Adding a record under a free id keeps everything rooted and linked. */
  lemma AddingKeepsAll(records: Records, id: string, r: Record, limbo: Records, sidecars: Sidecars)
    requires id !in records && r.id == id && Rooted(records, r)
    requires AllRooted(records, records) && AllRooted(records, limbo) && EdgesHold(records, sidecars)
    ensures var now := records[id := r];
            AllRooted(now, now) && AllRooted(now, limbo) && EdgesHold(now, sidecars)
  {
    var now := records[id := r];
    forall x: Record | Rooted(records, x) ensures Rooted(now, x) {
    }
    forall o | o in sidecars ensures EdgeHolds(now, o, sidecars[o]) {
      assert EdgeHolds(records, o, sidecars[o]);
    }
  }

  lemma NewEdgeHolds(records: Records, base: string, newId: string, content: string)
    requires AllRooted(records, records) && base in records && newId !in records
    ensures EdgeHolds(records[newId := NewVersion(records[base], newId, content)], base, newId)
  {
    assert records[base].id == base;
  }

  lemma NewVersionsAreRooted(records: Records, id: string, prior: string, content: string, deprecated: bool)
    ensures Rooted(records, FirstVersion(id, content, deprecated))
    ensures AllRooted(records, records) && prior in records ==> Rooted(records, NewVersion(records[prior], id, content))
  {
  }

  lemma NextKeepsInv(s: VersionState, e: Event)
    requires Inv(s) && Enabled(s, e)
    ensures Inv(Next(s, e))
  {
    hide Rooted, EdgeHolds;
    match e {
      case UpdateRecord(o, n, c) => UpdateKeepsInv(s, o, n, c);
      case RecoverRecord(id) => RecoverKeepsInv(s, id);
      case PublishSidecar => PublishKeepsEdges(s.records, s.sidecars, s.phase.oldId, s.phase.newId);
      case WriteFirst(id, c, dep) =>
        NewVersionsAreRooted(s.records, id, "", c, dep);
        AddingKeepsAll(s.records, id, FirstVersion(id, c, dep), s.limbo, s.sidecars);
      case CrashInWrite(id, c, dep) =>
        NewVersionsAreRooted(s.records, id, "", c, dep);
      case CrashInUpdate(o, n, c) =>
        NewVersionsAreRooted(s.records, n, o, c, false);
      case Crash =>
    }
  }

  lemma UpdateKeepsInv(s: VersionState, o: string, n: string, c: string)
    requires Inv(s) && Enabled(s, UpdateRecord(o, n, c))
    ensures Inv(Next(s, UpdateRecord(o, n, c)))
  {
    NewVersionsAreRooted(s.records, n, o, c, false);
    NewEdgeHolds(s.records, o, n, c);
    hide Rooted, EdgeHolds;
    AddingKeepsAll(s.records, n, NewVersion(s.records[o], n, c), s.limbo, s.sidecars);
  }

  lemma RecoverKeepsInv(s: VersionState, id: string)
    requires Inv(s) && Enabled(s, RecoverRecord(id))
    ensures Inv(Next(s, RecoverRecord(id)))
  {
    hide Rooted, EdgeHolds;
    if id !in s.records {
      AddingKeepsAll(s.records, id, s.limbo[id], s.limbo, s.sidecars);
    }
  }

  lemma PublishKeepsEdges(records: Records, sidecars: Sidecars, oldId: string, newId: string)
    requires EdgesHold(records, sidecars) && EdgeHolds(records, oldId, newId)
    ensures EdgesHold(records, sidecars[oldId := newId])
  {
    hide EdgeHolds;
  }

  /** In every run, whatever crashes and branches in it: each sidecar edge leads
      from a record to a next version of it that names it and carries its hash. */
  lemma {:induction false} EdgesHoldInEveryRun(s: VersionState, run: seq<Event>)
    requires Inv(s) && Legal(s, run)
    ensures Inv(Exec(s, run))
    ensures forall o :: o in Exec(s, run).sidecars ==>
              EdgeHolds(Exec(s, run).records, o, Exec(s, run).sidecars[o])
    ensures forall id :: id in s.records ==>
              id in Exec(s, run).records && Exec(s, run).records[id] == s.records[id]
    decreases |run|
  {
    if |run| > 0 {
      NextKeepsInv(s, run[0]);
      EdgesHoldInEveryRun(Next(s, run[0]), run[1..]);
      NextKeepsRecords(s, run[0]);
      hide Inv, Enabled, Next, EdgeHolds;
    }
  }

  lemma NextKeepsRecords(s: VersionState, e: Event)
    requires Enabled(s, e)
    ensures forall id :: id in s.records ==> id in Next(s, e).records && Next(s, e).records[id] == s.records[id]
  {
  }

  /** The content a record gets, from the call that writes it. */
  function Brought(e: Event): Option<(string, string)> {
    match e
    case WriteFirst(id, content, _) => Some((id, content))
    case CrashInWrite(id, content, _) => Some((id, content))
    case UpdateRecord(_, newId, content) => Some((newId, content))
    case CrashInUpdate(_, newId, content) => Some((newId, content))
    case _ => None
  }

  /** A finished write or update. */
  predicate Finishes(e: Event) {
    e.WriteFirst? || e.UpdateRecord?
  }

  lemma NextBrings(s: VersionState, e: Event)
    requires Enabled(s, e)
    ensures Finishes(e) ==>
              var (id, content) := Brought(e).value;
              id !in s.records && id in Next(s, e).records && Next(s, e).records[id].content == content
    ensures forall id :: id in Next(s, e).records && id !in s.records ==>
              || Brought(e) == Some((id, Next(s, e).records[id].content))
              || (id in s.limbo && s.limbo[id] == Next(s, e).records[id])
    ensures forall id :: id in Next(s, e).limbo ==>
              || Brought(e) == Some((id, Next(s, e).limbo[id].content))
              || (id in s.limbo && s.limbo[id] == Next(s, e).limbo[id])
  {
  }

  /** In every run, branching updates and crashes included, a finished write or update leaves
      its content under its id for good. */
  lemma {:induction false} FinishedContentStays(s: VersionState, run: seq<Event>, i: nat)
    requires Legal(s, run) && i < |run| && Finishes(run[i])
    ensures var (id, content) := Brought(run[i]).value;
            id in Exec(s, run).records && Exec(s, run).records[id].content == content
    decreases |run|
  {
    if i > 0 {
      FinishedContentStays(Next(s, run[0]), run[1..], i - 1);
    } else {
      NextBrings(s, run[0]);
      RunKeepsRecords(Next(s, run[0]), run[1..]);
    }
    hide Enabled, Next;
  }

  lemma {:induction false} RunKeepsRecords(s: VersionState, run: seq<Event>)
    requires Legal(s, run)
    ensures forall id :: id in s.records ==> id in Exec(s, run).records && Exec(s, run).records[id] == s.records[id]
    decreases |run|
  {
    if |run| > 0 {
      NextKeepsRecords(s, run[0]);
      RunKeepsRecords(Next(s, run[0]), run[1..]);
    }
    hide Enabled, Next;
  }

  ghost predicate BroughtBy(run: seq<Event>, id: string, content: string) {
    exists i :: 0 <= i < |run| && Brought(run[i]) == Some((id, content))
  }

  /** No record holds anything but what some write or update under its id brought. */
  lemma {:induction false} ContentsAreBrought(s: VersionState, run: seq<Event>)
    requires Legal(s, run)
    ensures var t := Exec(s, run);
            && (forall id :: id in t.records ==>
                  || BroughtBy(run, id, t.records[id].content)
                  || (id in s.records && s.records[id] == t.records[id])
                  || (id in s.limbo && s.limbo[id] == t.records[id]))
            && (forall id :: id in t.limbo ==>
                  BroughtBy(run, id, t.limbo[id].content) || (id in s.limbo && s.limbo[id] == t.limbo[id]))
    decreases |run|
  {
    if |run| > 0 {
      var next, rest := Next(s, run[0]), run[1..];
      NextBrings(s, run[0]);
      NextKeepsRecords(s, run[0]);
      ContentsAreBrought(next, rest);
      hide Next, Enabled, Brought;
      forall id, content | BroughtBy(rest, id, content) || Brought(run[0]) == Some((id, content))
        ensures BroughtBy(run, id, content)
      {
        if BroughtBy(rest, id, content) {
          var i :| 0 <= i < |rest| && Brought(rest[i]) == Some((id, content));
          assert Brought(run[i + 1]) == Some((id, content));
        } else {
          assert Brought(run[0]) == Some((id, content));
        }
      }
      hide BroughtBy;
    }
  }

  // ---- chains under the invariant

  /** The walk from a record climbs one version a step, is never stopped by its
      `seen` guard, and ends at an id nothing supersedes. */
  lemma {:induction false} WalkClimbs(records: Records, sidecars: Sidecars, current: string, seen: set<string>)
    requires EdgesHold(records, sidecars) && current in records
    requires forall id :: id in seen ==> id in records && records[id].version < records[current].version
    ensures var chain := Walk(sidecars, current, seen);
            && (forall i :: 0 <= i < |chain| ==>
                  chain[i] in records && records[chain[i]].version == records[current].version + i)
            && (forall i :: 0 <= i < |chain| - 1 ==> chain[i] in sidecars && sidecars[chain[i]] == chain[i + 1])
            && chain[|chain| - 1] !in sidecars
    decreases |sidecars.Keys - seen|
  {
    if current in sidecars {
      var up := sidecars[current];
      assert EdgeHolds(records, current, up);
      SeenGrows(sidecars, seen, current);
      WalkClimbs(records, sidecars, up, seen + {current});
      var rest := Walk(sidecars, up, seen + {current});
      assert Walk(sidecars, current, seen) == [current] + rest;
      hide Walk, EdgesHold;
      StepDown(records, sidecars, current, rest);
    }
  }

  /** Putting the record below in front of a climbing chain. */
  lemma StepDown(records: Records, sidecars: Sidecars, current: string, rest: seq<string>)
    requires |rest| > 0 && current in records && current in sidecars && sidecars[current] == rest[0]
    requires rest[0] in records && records[rest[0]].version == records[current].version + 1
    requires forall i :: 0 <= i < |rest| ==>
               rest[i] in records && records[rest[i]].version == records[rest[0]].version + i
    requires forall i :: 0 <= i < |rest| - 1 ==> rest[i] in sidecars && sidecars[rest[i]] == rest[i + 1]
    ensures var chain := [current] + rest;
            && (forall i :: 0 <= i < |chain| ==>
                  chain[i] in records && records[chain[i]].version == records[current].version + i)
            && (forall i :: 0 <= i < |chain| - 1 ==> chain[i] in sidecars && sidecars[chain[i]] == chain[i + 1])
            && chain[|chain| - 1] == rest[|rest| - 1]
  {
    var chain := [current] + rest;
    forall i | 0 <= i < |chain|
      ensures chain[i] in records && records[chain[i]].version == records[current].version + i
      ensures i < |chain| - 1 ==> chain[i] in sidecars && sidecars[chain[i]] == chain[i + 1]
    {
      assert chain[i] == if i == 0 then current else rest[i - 1];
    }
  }

  /** In every reachable state a chain has no repetition, follows the sidecars to
      an unsuperseded record, and the history of a first version lists the
      versions 1, 2, .. n without a hole. */
  lemma HistoryHasNoHoles(run: seq<Event>, id: string)
    requires Legal(EMPTY_VERSIONS, run) && id in Exec(EMPTY_VERSIONS, run).records
    ensures var s := Exec(EMPTY_VERSIONS, run);
            var chain, history := Chain(s.sidecars, id), Existing(s.records, Chain(s.sidecars, id));
            && Distinct(chain)
            && chain[|chain| - 1] !in s.sidecars
            && (forall i :: 0 <= i < |chain| - 1 ==> chain[i] in s.sidecars && s.sidecars[chain[i]] == chain[i + 1])
            && |history| == |chain|
            && (forall i :: 0 <= i < |history| ==> chain[i] in s.records && history[i] == s.records[chain[i]])
            && (forall i :: 0 <= i < |history| ==> history[i].version == s.records[id].version + i)
            && (s.records[id].supersedes == None ==> history[0].version == 1)
  {
    EdgesHoldInEveryRun(EMPTY_VERSIONS, run);
    var s := Exec(EMPTY_VERSIONS, run);
    WalkClimbs(s.records, s.sidecars, id, {});
    AllExist(s.records, Chain(s.sidecars, id));
  }

  lemma {:induction false} AllExist(records: Records, ids: seq<string>)
    requires forall i :: 0 <= i < |ids| ==> ids[i] in records && records[ids[i]].encoding.Whole?
    ensures |Existing(records, ids)| == |ids|
    ensures forall i :: 0 <= i < |ids| ==> Existing(records, ids)[i] == records[ids[i]]
  {
    if |ids| > 0 {
      AllExist(records, ids[..|ids| - 1]);
    }
  }

  // ---- crash-free runs in which every update is a compare-and-set

  datatype Disk = Disk(records: Records, sidecars: Sidecars)

  /** `fits` is the answer of the storage limits to the record. */
  datatype Op =
    | First(id: string, content: string, deprecated: bool, fits: bool)
    | Cas(target: string, newId: string, content: string, expected: Hash, fits: bool)

  function CasOutcome(d: Disk, op: Op): Outcome
    requires op.Cas?
  {
    Decide(true, d.records, d.sidecars, op.target, op.newId, Some(op.expected), op.fits)
  }

  function ApplyOp(d: Disk, op: Op): Disk {
    match op
    case First(id, c, dep, fits) =>
      if id in d.records || !fits then d else d.(records := d.records[id := FirstVersion(id, c, dep)])
    case Cas(_, n, c, _, _) =>
      var r := CasOutcome(d, op);
      if !r.Updated? || r.oldId !in d.records then d
      else Disk(d.records[n := NewVersion(d.records[r.oldId], n, c)], d.sidecars[r.oldId := n])
  }

  /** Ids drawn for new versions are new. */
  predicate DrawsFreshIds(d: Disk, ops: seq<Op>)
    decreases |ops|
  {
    |ops| == 0 ||
    ((ops[0].Cas? ==> ops[0].newId !in d.records) && DrawsFreshIds(ApplyOp(d, ops[0]), ops[1..]))
  }

  function ApplyAll(d: Disk, ops: seq<Op>): Disk
    decreases |ops|
  {
    if |ops| == 0 then d else ApplyAll(ApplyOp(d, ops[0]), ops[1..])
  }

  /** Sidecars and `supersedes` fields describe the same links. */
  ghost predicate Linear(d: Disk) {
    && AllRooted(d.records, d.records)
    && EdgesHold(d.records, d.sidecars)
    && AllLinked(d.records, d.sidecars)
  }

  /** Every record is the one its predecessor's sidecar names. */
  ghost predicate AllLinked(records: Records, sidecars: Sidecars) {
    forall c :: c in records && records[c].supersedes.Some? ==>
      records[c].supersedes.value in sidecars && sidecars[records[c].supersedes.value] == c
  }

  lemma ApplyKeepsLinear(d: Disk, op: Op)
    requires Linear(d) && DrawsFreshIds(d, [op])
    ensures Linear(ApplyOp(d, op))
  {
    hide Linear, Decide, NewVersion;
    assert [op][0] == op;
    match op {
      case First(id, c, dep, fits) =>
        if id !in d.records && fits {
          FirstKeepsLinear(d, id, c, dep);
        }
      case Cas(target, n, c, _, _) =>
        var r := CasOutcome(d, op);
        DecidedHead(d, op);
        if r.Updated? {
          HeadIsUnsuperseded(d, target);
          LinkingHeadKeepsLinear(d, r.oldId, n, c);
        }
    }
  }

  lemma DecidedHead(d: Disk, op: Op)
    requires op.Cas?
    ensures CasOutcome(d, op).Updated? ==>
              && CasOutcome(d, op) == Updated(op.newId, Head(d.sidecars, op.target))
              && CasOutcome(d, op).oldId in d.records
  {
  }

  lemma FirstKeepsLinear(d: Disk, id: string, c: string, dep: bool)
    requires Linear(d) && id !in d.records
    ensures Linear(d.(records := d.records[id := FirstVersion(id, c, dep)]))
  {
    NewVersionsAreRooted(d.records, id, "", c, dep);
    AddingKeepsAll(d.records, id, FirstVersion(id, c, dep), map[], d.sidecars);
    hide Rooted, EdgeHolds;
  }

  lemma HeadIsUnsuperseded(d: Disk, id: string)
    requires Linear(d)
    ensures Head(d.sidecars, id) !in d.sidecars
    ensures id in d.records ==> Head(d.sidecars, id) in d.records
  {
    forall o | o in d.sidecars ensures o in d.records {
      assert EdgeHolds(d.records, o, d.sidecars[o]);
    }
    if id in d.records {
      WalkClimbs(d.records, d.sidecars, id, {});
    }
  }

  lemma {:induction false} ApplyAllKeepsLinear(d: Disk, ops: seq<Op>)
    requires Linear(d) && DrawsFreshIds(d, ops)
    ensures Linear(ApplyAll(d, ops))
    decreases |ops|
  {
    if |ops| > 0 {
      ApplyKeepsLinear(d, ops[0]);
      ApplyAllKeepsLinear(ApplyOp(d, ops[0]), ops[1..]);
    }
  }

  /** The first version of the lineage of `id`. */
  ghost function RootOf(records: Records, id: string): string
    requires AllRooted(records, records) && id in records
    decreases records[id].version
  {
    match records[id].supersedes
    case None => id
    case Some(p) => RootOf(records, p)
  }

  lemma ChainFromParent(d: Disk, p: string, id: string)
    requires Linear(d) && id in d.records && p in d.sidecars && d.sidecars[p] == id && EdgeHolds(d.records, p, id)
    ensures Chain(d.sidecars, p) == [p] + Chain(d.sidecars, id)
    ensures Head(d.sidecars, p) == Head(d.sidecars, id)
  {
    WalkIgnoresPast(d, id, {p}, {});
    assert {} + {p} == {p};
  }

  /** A lineage is one chain: each of its records stands at the place its version
      number says in the chain of the root, and all its records share one head. */
  lemma {:induction false} LineageIsOneChain(d: Disk, id: string)
    requires Linear(d) && id in d.records
    ensures var root := RootOf(d.records, id);
            var chain := Chain(d.sidecars, root);
            && root in d.records
            && 1 <= d.records[id].version <= |chain| && chain[d.records[id].version - 1] == id
            && Head(d.sidecars, id) == Head(d.sidecars, root)
    decreases d.records[id].version
  {
    match d.records[id].supersedes {
      case None =>
      case Some(p) =>
        LineageIsOneChain(d, p);
        var root := RootOf(d.records, p);
        WalkClimbs(d.records, d.sidecars, root, {});
        WalkClimbs(d.records, d.sidecars, p, {});
        assert EdgeHolds(d.records, p, id);
        ChainFromParent(d, p, id);
    }
  }

  ghost predicate Below(records: Records, seen: set<string>, current: string) {
    current in records && forall id :: id in seen ==> id in records && records[id].version < records[current].version
  }

  lemma BelowNext(records: Records, seen: set<string>, current: string, up: string)
    requires Below(records, seen, current) && EdgeHolds(records, current, up)
    ensures Below(records, seen + {current}, up)
  {
  }

  /** What a climbing walk has left behind does not matter to it. */
  lemma {:induction false} WalkIgnoresPast(d: Disk, current: string, a: set<string>, b: set<string>)
    requires Linear(d) && Below(d.records, a, current) && Below(d.records, b, current)
    ensures Walk(d.sidecars, current, a) == Walk(d.sidecars, current, b)
    decreases |d.sidecars.Keys - a|
  {
    if current in d.sidecars {
      SeenGrows(d.sidecars, a, current);
      assert EdgeHolds(d.records, current, d.sidecars[current]);
      hide Linear, AllRooted, EdgesHold;
      BelowNext(d.records, a, current, d.sidecars[current]);
      BelowNext(d.records, b, current, d.sidecars[current]);
      WalkIgnoresPast(d, d.sidecars[current], a + {current}, b + {current});
      hide EdgeHolds;
      assert current !in a && current !in b;
    }
  }

  // ---- what the records of a run hold

  /** The operation goes through and makes the record `id`. */
  predicate Makes(d: Disk, op: Op, id: string) {
    match op
    case First(first, _, _, fits) => first == id && id !in d.records && fits
    case Cas(_, newId, _, _, _) => newId == id && CasOutcome(d, op).Updated?
  }

  function Maker(d: Disk, ops: seq<Op>, id: string): Option<Op>
    decreases |ops|
  {
    if |ops| == 0 then None
    else if Makes(d, ops[0], id) then Some(ops[0])
    else Maker(ApplyOp(d, ops[0]), ops[1..], id)
  }

  ghost predicate HoldsWhat(r: Record, op: Op) {
    && r.content == op.content && r.deprecated == (op.First? && op.deprecated)
    && r.contentHash == Some(Sha(Payload(r.id, r.version, r.parentHash, r.supersedes, op.content)))
  }

  lemma ApplyMakes(d: Disk, op: Op)
    requires DrawsFreshIds(d, [op])
    ensures var e := ApplyOp(d, op);
            && (forall id :: id in e.records <==> id in d.records || Makes(d, op, id))
            && (forall id :: id in d.records ==> e.records[id] == d.records[id] && !Makes(d, op, id))
            && (forall id :: Makes(d, op, id) ==> HoldsWhat(e.records[id], op))
  {
    assert [op][0] == op;
    if op.Cas? {
      DecidedHead(d, op);
    }
    hide Decide, Head;
  }

  /** After any run of first writes and compare-and-set updates, exactly the records are
      there that were there or that an operation made, and each that was made holds the
      content of the one operation that made it, under the hash of that content. */
  lemma {:induction false} RecordsHoldWhatWasWritten(d: Disk, ops: seq<Op>, id: string)
    requires DrawsFreshIds(d, ops)
    ensures var e, maker := ApplyAll(d, ops), Maker(d, ops, id);
            && (id in e.records <==> id in d.records || maker.Some?)
            && (id in d.records ==> maker.None? && e.records[id] == d.records[id])
            && (maker.Some? ==> HoldsWhat(e.records[id], maker.value))
    decreases |ops|
  {
    if |ops| > 0 {
      ApplyMakes(d, ops[0]);
      RecordsHoldWhatWasWritten(ApplyOp(d, ops[0]), ops[1..], id);
      hide ApplyOp, Makes, HoldsWhat;
    }
  }

  /** The operation is accepted and supersedes the head of the lineage of `x`. */
  predicate Advances(d: Disk, op: Op, x: string) {
    op.Cas? && CasOutcome(d, op).Updated? && CasOutcome(d, op).oldId == Head(d.sidecars, x)
  }

  /** The last accepted update of the lineage of `x` in the run. */
  function LastAdvance(d: Disk, ops: seq<Op>, x: string): (last: Option<Op>)
    ensures last.Some? ==> last.value.Cas?
    decreases |ops|
  {
    if |ops| == 0 then None
    else
      var later := LastAdvance(ApplyOp(d, ops[0]), ops[1..], x);
      if later.Some? then later
      else if Advances(d, ops[0], x) then Some(ops[0]) else None
  }

  /** Linking a new id to the head of a chain puts it at the end of the chain. */
  lemma {:induction false} WalkGetsLonger(d: Disk, current: string, seen: set<string>, n: string)
    requires Linear(d) && Below(d.records, seen, current) && n !in d.records && n !in d.sidecars
    ensures var chain := Walk(d.sidecars, current, seen);
            && chain[|chain| - 1] !in d.sidecars
            && Walk(d.sidecars[chain[|chain| - 1] := n], current, seen) == chain + [n]
    decreases |d.sidecars.Keys - seen|
  {
    WalkUnfolds(d.sidecars, current, seen);
    if current in d.sidecars {
      SeenGrows(d.sidecars, seen, current);
      var up := d.sidecars[current];
      assert EdgeHolds(d.records, current, up);
      hide Linear, Walk, EdgeHolds;
      BelowNext(d.records, seen, current, up);
      WalkGetsLonger(d, up, seen + {current}, n);
      LongerStep(d.sidecars, current, seen, n);
    } else {
      var longer := d.sidecars[current := n];
      hide Linear, Walk;
      WalkUnfolds(longer, current, seen);
      WalkUnfolds(longer, n, seen + {current});
    }
  }

  lemma LongerStep(sidecars: Sidecars, current: string, seen: set<string>, n: string)
    requires current in sidecars && current !in seen
    requires var rest := Walk(sidecars, sidecars[current], seen + {current});
             && rest[|rest| - 1] !in sidecars
             && Walk(sidecars[rest[|rest| - 1] := n], sidecars[current], seen + {current}) == rest + [n]
    ensures var chain := Walk(sidecars, current, seen);
            && chain[|chain| - 1] !in sidecars
            && Walk(sidecars[chain[|chain| - 1] := n], current, seen) == chain + [n]
  {
    hide Walk;
    var rest := Walk(sidecars, sidecars[current], seen + {current});
    WalkUnfolds(sidecars, current, seen);
    WalkUnfolds(sidecars[rest[|rest| - 1] := n], current, seen);
    assert ([current] + rest)[|rest|] == rest[|rest| - 1];
    assert [current] + (rest + [n]) == ([current] + rest) + [n];
  }

  lemma WalkUnfolds(sidecars: Sidecars, current: string, seen: set<string>)
    ensures Walk(sidecars, current, seen)
         == if current in seen || current !in sidecars then [current]
            else [current] + Walk(sidecars, sidecars[current], seen + {current})
  {
  }

  lemma OnlyRecordsAreSuperseded(d: Disk, n: string)
    requires Linear(d) && n !in d.records
    ensures n !in d.sidecars
  {
    forall o | o in d.sidecars ensures o in d.records {
      assert EdgeHolds(d.records, o, d.sidecars[o]);
    }
  }

  /** An accepted update of a lineage is its new head; no other operation moves the head. */
  lemma HeadAfter(d: Disk, op: Op, x: string)
    requires Linear(d) && DrawsFreshIds(d, [op]) && x in d.records
    ensures Head(ApplyOp(d, op).sidecars, x) == if Advances(d, op, x) then op.newId else Head(d.sidecars, x)
  {
    assert [op][0] == op;
    if op.Cas? && CasOutcome(d, op).Updated? {
      hide Linear, Decide, Walk, Chain, Head, NewVersion;
      DecidedHead(d, op);
      HeadIsUnsuperseded(d, op.target);
      LinkedHead(d, CasOutcome(d, op).oldId, op.newId, x);
    }
  }

  /** A new id at the head of one chain moves the head of the records of that chain. */
  lemma LinkedHead(d: Disk, base: string, n: string, x: string)
    requires Linear(d) && x in d.records && base !in d.sidecars && n !in d.records
    ensures Head(d.sidecars[base := n], x) == if base == Head(d.sidecars, x) then n else Head(d.sidecars, x)
  {
    if base == Head(d.sidecars, x) {
      OnlyRecordsAreSuperseded(d, n);
      hide Walk, Linear;
      WalkGetsLonger(d, x, {}, n);
    } else {
      hide Walk, Linear;
      OtherHeadsAreOffChain(d, x, base);
      WalkFrame(d.sidecars, base, n, x, {});
    }
  }

  lemma AdvanceMakes(d: Disk, op: Op, x: string)
    requires DrawsFreshIds(d, [op])
    ensures Advances(d, op, x) ==>
              var e := ApplyOp(d, op); op.newId in e.records && e.records[op.newId].content == op.content
  {
    ApplyMakes(d, op);
    hide ApplyOp, Head;
  }

  /** The newest version of a lineage: after any run its record holds the content of the last
      accepted update of the lineage, or what it held when there was none. */
  lemma {:induction false} HeadHoldsLastUpdate(d: Disk, ops: seq<Op>, x: string)
    requires Linear(d) && DrawsFreshIds(d, ops) && x in d.records
    ensures var e, last, was := ApplyAll(d, ops), LastAdvance(d, ops, x), Head(d.sidecars, x);
            && x in e.records && was in d.records
            && Head(e.sidecars, x) == (if last.Some? then last.value.newId else was)
            && Head(e.sidecars, x) in e.records
            && e.records[Head(e.sidecars, x)].content
               == if last.Some? then last.value.content else d.records[was].content
    decreases |ops|
  {
    HeadIsUnsuperseded(d, x);
    if |ops| > 0 {
      var op, next := ops[0], ApplyOp(d, ops[0]);
      assert DrawsFreshIds(d, [op]);
      ApplyKeepsLinear(d, op);
      HeadAfter(d, op, x);
      ApplyMakes(d, op);
      hide Linear, ApplyOp, Head, HoldsWhat;
      AdvanceMakes(d, op, x);
      hide Makes, Advances;
      HeadHoldsLastUpdate(next, ops[1..], x);
    }
  }

  /** So does the last entry of the history of any record of the lineage. */
  lemma HistoryEndsWithLastUpdate(d: Disk, ops: seq<Op>, x: string)
    requires Linear(d) && DrawsFreshIds(d, ops) && x in d.records
    ensures var e, last := ApplyAll(d, ops), LastAdvance(d, ops, x);
            var history := Existing(e.records, Chain(e.sidecars, x));
            && |history| > 0 && Head(d.sidecars, x) in d.records
            && (last.Some? ==> history[|history| - 1].id == last.value.newId
                               && history[|history| - 1].content == last.value.content)
            && (last.None? ==> history[|history| - 1] == d.records[Head(d.sidecars, x)])
  {
    var e := ApplyAll(d, ops);
    ApplyAllKeepsLinear(d, ops);
    HeadHoldsLastUpdate(d, ops, x);
    RecordsHoldWhatWasWritten(d, ops, Head(d.sidecars, x));
    WalkClimbs(e.records, e.sidecars, x, {});
    AllExist(e.records, Chain(e.sidecars, x));
    hide Walk, EdgesHold, LastAdvance;
  }

  // ---- who wins

  predicate Wins(d: Disk, op: Op, h: Hash) {
    op.Cas? && op.expected == h && CasOutcome(d, op).Updated?
  }

  /** How many of the attempts that expect `h` succeed in the run. */
  function WinCount(d: Disk, ops: seq<Op>, h: Hash): nat
    decreases |ops|
  {
    if |ops| == 0 then 0
    else (if Wins(d, ops[0], h) then 1 else 0) + WinCount(ApplyOp(d, ops[0]), ops[1..], h)
  }

  /** A winning attempt supersedes the one record with the expected hash. */
  lemma WinnerSupersedes(d: Disk, op: Op)
    requires Linear(d) && op.Cas? && CasOutcome(d, op).Updated?
    ensures var x := CasOutcome(d, op).oldId;
            && x in d.records && x !in d.sidecars && ComputeHash(d.records[x]) == op.expected
            && x in ApplyOp(d, op).sidecars
            && forall y :: y in d.records && ComputeHash(d.records[y]) == op.expected ==> y == x
  {
    HeadIsUnsuperseded(d, op.target);
  }

  lemma {:induction false} NoWinAfterSupersession(d: Disk, ops: seq<Op>, x: string)
    requires Linear(d) && DrawsFreshIds(d, ops)
    requires x in d.records && x in d.sidecars
    ensures WinCount(d, ops, ComputeHash(d.records[x])) == 0
    decreases |ops|
  {
    if |ops| > 0 {
      ApplyKeepsLinear(d, ops[0]);
      SupersededLoses(d, ops[0], x);
      hide Linear, ApplyOp, Wins;
      NoWinAfterSupersession(ApplyOp(d, ops[0]), ops[1..], x);
    }
  }

  lemma SupersededLoses(d: Disk, op: Op, x: string)
    requires Linear(d) && (op.Cas? ==> op.newId !in d.records)
    requires x in d.records && x in d.sidecars
    ensures !Wins(d, op, ComputeHash(d.records[x]))
    ensures x in ApplyOp(d, op).records && ApplyOp(d, op).records[x] == d.records[x] && x in ApplyOp(d, op).sidecars
  {
    if op.Cas? && CasOutcome(d, op).Updated? {
      WinnerSupersedes(d, op);
    }
    hide Linear;
  }

  /** Of any number of attempts that expect one hash, at most one ever wins. */
  lemma {:induction false} AtMostOneWins(d: Disk, ops: seq<Op>, h: Hash)
    requires Linear(d) && DrawsFreshIds(d, ops)
    ensures WinCount(d, ops, h) <= 1
    decreases |ops|
  {
    if |ops| > 0 {
      ApplyKeepsLinear(d, ops[0]);
      if Wins(d, ops[0], h) {
        WinnerSupersedes(d, ops[0]);
        NoWinAfterSupersession(ApplyOp(d, ops[0]), ops[1..], CasOutcome(d, ops[0]).oldId);
      } else {
        AtMostOneWins(ApplyOp(d, ops[0]), ops[1..], h);
      }
    }
  }

  /** A new edge at an id off the walk does not change the walk. */
  lemma {:induction false} WalkFrame(sidecars: Sidecars, y: string, n: string, current: string, seen: set<string>)
    requires y !in Walk(sidecars, current, seen)
    ensures Walk(sidecars[y := n], current, seen) == Walk(sidecars, current, seen)
    decreases |sidecars.Keys - seen|
  {
    if current !in seen && current in sidecars {
      SeenGrows(sidecars, seen, current);
      WalkFrame(sidecars, y, n, sidecars[current], seen + {current});
    }
  }

  /** An attempt that expects the hash of the head `x` through any record of its lineage. */
  predicate Contends(d: Disk, op: Op, x: string)
    requires x in d.records
  {
    && op.Cas? && op.fits && op.expected == ComputeHash(d.records[x])
    && op.target in d.records && Head(d.sidecars, op.target) == x
  }

  /** A chain holds no unsuperseded record but its own head. */
  lemma OtherHeadsAreOffChain(d: Disk, id: string, y: string)
    requires Linear(d) && id in d.records && y !in d.sidecars && y != Head(d.sidecars, id)
    ensures y !in Chain(d.sidecars, id)
  {
    WalkClimbs(d.records, d.sidecars, id, {});
  }

  /** As long as nobody wins with its hash, the contest for a head stays open. */
  lemma ContestStaysOpen(d: Disk, op: Op, contender: Op, x: string)
    requires Linear(d) && x in d.records && x !in d.sidecars
    requires Contends(d, contender, x) && !Wins(d, op, ComputeHash(d.records[x]))
    requires op.Cas? ==> op.newId !in d.records
    ensures var d' := ApplyOp(d, op);
            x in d'.records && x !in d'.sidecars && d'.records[x] == d.records[x] && Contends(d', contender, x)
  {
    if op.Cas? && CasOutcome(d, op).Updated? {
      WinnerSupersedes(d, op);
      OtherHeadsAreOffChain(d, contender.target, CasOutcome(d, op).oldId);
      hide Walk, Linear;
      WalkFrame(d.sidecars, CasOutcome(d, op).oldId, op.newId, contender.target, {});
    }
  }

  lemma ContenderWins(d: Disk, op: Op, x: string)
    requires Linear(d) && x in d.records && !d.records[x].deprecated && Contends(d, op, x)
    ensures Wins(d, op, ComputeHash(d.records[x]))
  {
  }

  /** If some attempt that fits expects the hash of a head through a record of its lineage,
      exactly one attempt with that hash wins, whatever else the run does. */
  lemma {:induction false} ExactlyOneWins(d: Disk, ops: seq<Op>, x: string, i: nat)
    requires Linear(d) && DrawsFreshIds(d, ops)
    requires x in d.records && x !in d.sidecars && !d.records[x].deprecated
    requires i < |ops| && Contends(d, ops[i], x)
    ensures WinCount(d, ops, ComputeHash(d.records[x])) == 1
    decreases |ops|
  {
    var op := ops[0];
    ApplyKeepsLinear(d, op);
    if Wins(d, op, ComputeHash(d.records[x])) {
      WinnerSupersedes(d, op);
      NoWinAfterSupersession(ApplyOp(d, op), ops[1..], x);
    } else {
      if i == 0 {
        ContenderWins(d, op, x);
      }
      ContestStaysOpen(d, op, ops[i], x);
      ExactlyOneWins(ApplyOp(d, op), ops[1..], x, i - 1);
    }
  }

  /** `id` stands in its lineage's only chain at the place of its version number. */
  ghost predicate OneChain(d: Disk, id: string)
    requires AllRooted(d.records, d.records) && id in d.records
  {
    var chain := Chain(d.sidecars, RootOf(d.records, id));
    && 1 <= d.records[id].version <= |chain| && chain[d.records[id].version - 1] == id
    && Head(d.sidecars, id) == chain[|chain| - 1]
    && chain[|chain| - 1] !in d.sidecars
  }

  /** Over every crash-free run of first writes and compare-and-set updates from
      the empty store each lineage is one chain with one head. */
  lemma LineagesStayLinear(ops: seq<Op>)
    requires DrawsFreshIds(Disk(map[], map[]), ops)
    ensures var d := ApplyAll(Disk(map[], map[]), ops);
            && AllRooted(d.records, d.records)
            && forall id :: id in d.records ==> OneChain(d, id)
  {
    assert Linear(Disk(map[], map[]));
    ApplyAllKeepsLinear(Disk(map[], map[]), ops);
    var d := ApplyAll(Disk(map[], map[]), ops);
    hide ApplyAll, DrawsFreshIds, Walk, OneChain;
    forall id | id in d.records ensures OneChain(d, id) {
      LinearIsOneChain(d, id);
    }
  }

  lemma LinearIsOneChain(d: Disk, id: string)
    requires Linear(d) && id in d.records
    ensures OneChain(d, id)
  {
    LineageIsOneChain(d, id);
    HeadIsUnsuperseded(d, id);
    hide Walk, EdgesHold, AllRooted;
  }

  /** What one update of `base` leaves on disk, with its sidecar or without it. */
  function AfterUpdate(d: Disk, base: string, newId: string, content: string, published: bool): Disk
    requires base in d.records
  {
    Disk(d.records[newId := NewVersion(d.records[base], newId, content)],
         if published then d.sidecars[base := newId] else d.sidecars)
  }

  /** An update keeps lineages linear exactly when it supersedes a head and is not
      stopped before its sidecar: a crash there leaves an unlinked child, and an
      update of an older version without a hash forks the lineage. */
  lemma UpdateKeepsLinearIff(d: Disk, base: string, newId: string, content: string, published: bool)
    requires Linear(d) && base in d.records && newId !in d.records
    ensures Linear(AfterUpdate(d, base, newId, content, published)) <==> published && base !in d.sidecars
  {
    var now := AfterUpdate(d, base, newId, content, published);
    assert now.records[newId].supersedes == Some(base);
    if base in d.sidecars {
      assert EdgeHolds(d.records, base, d.sidecars[base]);
      assert now.records[d.sidecars[base]].supersedes == Some(base);
    } else if published {
      LinkingHeadKeepsLinear(d, base, newId, content);
    }
  }

  lemma LinkingHeadKeepsLinear(d: Disk, base: string, newId: string, content: string)
    requires Linear(d) && base in d.records && base !in d.sidecars && newId !in d.records
    ensures Linear(AfterUpdate(d, base, newId, content, true))
  {
    var now := AfterUpdate(d, base, newId, content, true);
    AddingKeepsAll(d.records, newId, NewVersion(d.records[base], newId, content), map[], d.sidecars);
    NewEdgeHolds(d.records, base, newId, content);
    LinkKeepsLinked(d.records, d.sidecars, base, newId, NewVersion(d.records[base], newId, content));
    hide EdgeHolds, AllRooted, AllLinked;
    forall o | o in now.sidecars ensures EdgeHolds(now.records, o, now.sidecars[o]) {
      if o != base {
        assert o in d.sidecars;
      }
    }
  }

  lemma LinkKeepsLinked(records: Records, sidecars: Sidecars, base: string, newId: string, r: Record)
    requires AllLinked(records, sidecars) && base !in sidecars && newId !in records && r.supersedes == Some(base)
    ensures AllLinked(records[newId := r], sidecars[base := newId])
  {
  }
}
