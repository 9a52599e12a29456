/** Proposals: how the promotion engine routes them, how they become memories, and what
    a lobby post brings along. Reals stand for floats. */
module Promotion {
  import opened Prelude
  import Lobby

  datatype Mode = Automatic | Consensus | Human | Hybrid
  datatype Method = ByAutomatic | ByConsensus | ByHuman
  datatype Standing = Verified | Provisional | Disputed

  /** An evidence item, by its id and the agent it comes from. */
  datatype Evidence = Evidence(id: string, agent: Option<string>)

  datatype Proposal = Proposal(namespace: string, discovery: string, evidence: seq<Evidence>, confidence: real,
                               agent: Option<string>, derivation: seq<string>)

  datatype Policy = Policy(minConfidence: real, verifiedConfidence: real, requireEvidence: bool, minimumItems: int,
                           threshold: int, trusted: Option<set<string>>, riskConfidence: real)

  datatype Decision = Promote(how: Method, standing: Standing) | Hold

  // ---- routing

  /** An allow-list names agents; someone without a name is on none. */
  predicate Trusts(p: Policy, agent: Option<string>) {
    p.trusted.None? || (agent.Some? && agent.value in p.trusted.value)
  }

  function StandingFor(p: Policy, confidence: real): Standing {
    if confidence >= p.verifiedConfidence then Verified else Provisional
  }

  predicate Grounded(p: Policy, items: nat) {
    !p.requireEvidence || items >= p.minimumItems
  }

  function RouteAutomatic(p: Policy, x: Proposal, conflicting: bool): Decision {
    if Grounded(p, |x.evidence|) && x.confidence >= p.minConfidence && Trusts(p, x.agent) && !conflicting
    then Promote(ByAutomatic, StandingFor(p, x.confidence)) else Hold
  }

  function Authors(evidence: seq<Evidence>): set<Option<string>> {
    set i | 0 <= i < |evidence| :: evidence[i].agent
  }

  function RouteConsensus(p: Policy, x: Proposal, conflicting: bool): Decision {
    if !Grounded(p, |x.evidence|) then Hold
    else if conflicting then Hold
    else if |Authors(x.evidence)| >= p.threshold then Promote(ByConsensus, StandingFor(p, x.confidence))
    else Hold
  }

  function RouteHybrid(p: Policy, x: Proposal, conflicting: bool): Decision {
    if x.confidence <= p.riskConfidence || conflicting || !Trusts(p, x.agent) then Hold
    else RouteAutomatic(p, x, conflicting)
  }

  function Route(mode: Mode, p: Policy, x: Proposal, conflicting: bool): Decision {
    match mode
    case Human => Hold
    case Consensus => RouteConsensus(p, x, conflicting)
    case Hybrid => RouteHybrid(p, x, conflicting)
    case Automatic => RouteAutomatic(p, x, conflicting)
  }

  /** Hybrid admits what automatic admits, in the same way and with the same standing,
      less what is at or below the risk line. */
  lemma HybridIsAutomaticAboveRisk(p: Policy, x: Proposal, conflicting: bool, how: Method, standing: Standing)
    ensures Route(Hybrid, p, x, conflicting) == Promote(how, standing)
       <==> Route(Automatic, p, x, conflicting) == Promote(how, standing) && x.confidence > p.riskConfidence
  {
  }

  /** `y` is `x` with more evidence, at least as confident. */
  ghost predicate Strengthens(x: Proposal, y: Proposal) {
    && y.(evidence := x.evidence, confidence := x.confidence) == x
    && x.evidence <= y.evidence && x.confidence <= y.confidence
  }

  /** More evidence and more confidence never turn a promotion into a hold, in any mode,
      nor a verified standing into a provisional one. */
  lemma StrongerNeverHolds(mode: Mode, p: Policy, x: Proposal, y: Proposal, conflicting: bool)
    requires Strengthens(x, y) && Route(mode, p, x, conflicting).Promote?
    ensures Route(mode, p, y, conflicting).Promote?
    ensures Route(mode, p, y, conflicting).how == Route(mode, p, x, conflicting).how
    ensures Route(mode, p, x, conflicting).standing == Verified ==> Route(mode, p, y, conflicting).standing == Verified
  {
    assert forall i :: 0 <= i < |x.evidence| ==> x.evidence[i] == y.evidence[i];
    SubsetIsSmaller(Authors(x.evidence), Authors(y.evidence));
  }

  // ---- from a lobby post

  /** The author's evidence first, then one item for each corroboration; `name` draws their
      ids. */
  function EvidenceFor(post: Lobby.Post, name: nat -> string): seq<Evidence> {
    [Evidence(name(0), Some(post.agent))]
    + seq(|post.corroborations|,
          i requires 0 <= i < |post.corroborations| => Evidence(name(i + 1), Some(post.corroborations[i].agent)))
  }

  function FromPost(post: Lobby.Post, namespace: string, agent: string, name: nat -> string): Proposal {
    var confidence := if |post.corroborations| > 0 then 0.6 else 0.5;
    Proposal(namespace, post.body, EvidenceFor(post, name), confidence, Some(agent), [])
  }

  lemma {:induction false} VoicesAreAll(rows: seq<Lobby.Corroboration>)
    ensures forall a :: a in Lobby.Voices(rows) <==> exists i :: 0 <= i < |rows| && rows[i].agent == a
  {
    if |rows| > 0 {
      VoicesAreAll(rows[..|rows| - 1]);
    }
  }

  lemma {:induction false} NamedCount(names: set<string>)
    ensures |set n | n in names :: Some(n)| == |names|
  {
    if names != {} {
      var n :| n in names;
      NamedCount(names - {n});
      assert (set m | m in names :: Some(m)) == (set m | m in names - {n} :: Some(m)) + {Some(n)};
    }
  }

  lemma AuthorsAreAgents(post: Lobby.Post, evidence: seq<Evidence>)
    requires |evidence| == |post.corroborations| + 1 && evidence[0].agent == Some(post.agent)
    requires forall i :: 0 <= i < |post.corroborations| ==> evidence[i + 1].agent == Some(post.corroborations[i].agent)
    ensures Authors(evidence) == set n | n in Lobby.Agents(post) :: Some(n)
  {
    var rows := post.corroborations;
    VoicesAreAll(rows);
    forall i | 0 <= i < |evidence|
      ensures evidence[i].agent.Some? && evidence[i].agent.value in Lobby.Agents(post)
    {
      if i > 0 {
        assert evidence[(i - 1) + 1].agent == Some(rows[i - 1].agent);
      }
    }
    forall n | n in Lobby.Agents(post) ensures Some(n) in Authors(evidence) {
      if n == post.agent {
        assert evidence[0].agent == Some(n);
      } else {
        var i :| 0 <= i < |rows| && rows[i].agent == n;
        assert evidence[i + 1].agent == Some(n);
      }
    }
  }

  /** A post with k corroborations brings k + 1 evidence items by k + 1 agents. */
  lemma EvidenceOfPost(post: Lobby.Post, name: nat -> string)
    requires Lobby.Honest(post)
    ensures |EvidenceFor(post, name)| == |post.corroborations| + 1
    ensures |Authors(EvidenceFor(post, name))| == |post.corroborations| + 1
  {
    AuthorsAreAgents(post, EvidenceFor(post, name));
    NamedCount(Lobby.Agents(post));
    Lobby.BackersCount(post);
  }

  /** A lobby post with k corroborations promoted by consensus is admitted exactly when
      k + 1 reaches the threshold and, where evidence is required, the minimum number of
      items. It derives from nothing, so nothing can conflict with it. */
  lemma LobbyConsensusIff(p: Policy, post: Lobby.Post, namespace: string, agent: string, name: nat -> string, s: Store)
    requires Lobby.Honest(post)
    ensures var x := FromPost(post, namespace, agent, name);
            Route(Consensus, p, x, Conflicting(s, x)).Promote?
            <==> (|post.corroborations| + 1 >= p.threshold
                  && (p.requireEvidence ==> |post.corroborations| + 1 >= p.minimumItems))
  {
    EvidenceOfPost(post, name);
  }

  /** The same for every post on every board that a run of the lobby can lead to. */
  lemma EveryPostCounts(config: Lobby.Config, run: seq<Lobby.Call>, board: string, i: nat, p: Policy, agent: string,
                        name: nat -> string, s: Store)
    requires Lobby.Legal(Lobby.Lobby(config, map[], map[]), run)
    requires var boards := Lobby.Exec(Lobby.Lobby(config, map[], map[]), run).boards;
             board in boards && i < |boards[board].posts|
    ensures var post := Lobby.Exec(Lobby.Lobby(config, map[], map[]), run).boards[board].posts[i];
            var namespace := Lobby.Exec(Lobby.Lobby(config, map[], map[]), run).boards[board].namespace;
            var x := FromPost(post, namespace, agent, name);
            && |Lobby.Agents(post)| == |post.corroborations| + 1
            && (Route(Consensus, p, x, Conflicting(s, x)).Promote?
                <==> (|post.corroborations| + 1 >= p.threshold
                      && (p.requireEvidence ==> |post.corroborations| + 1 >= p.minimumItems)))
  {
    var start := Lobby.Lobby(config, map[], map[]);
    Lobby.StartIsSafe(config);
    Lobby.LobbySafety(start, run);
    var end := Lobby.Exec(start, run);
    var post := end.boards[board].posts[i];
    assert Lobby.AllHonest(end.boards[board].posts);
    Lobby.BackersCount(post);
    LobbyConsensusIff(p, post, end.boards[board].namespace, agent, name, s);
  }

  // ---- proposals in the store

  datatype State = Pending | Promoted(memory: string) | Rejected(reason: string)

  /** The states a proposal has been through, oldest first, one for each copy of it;
      `hidden` says that the newest copy is deprecated. */
  datatype Entry = Entry(proposal: Proposal, states: seq<State>, hidden: bool)

  /** A first-class session: whether it is active, whether its newest copy is deprecated,
      the failures on its account, and the rest of that account. */
  datatype Session = Session(active: bool, hidden: bool, failures: seq<string>, account: string)

  datatype Memory = Memory(namespace: string, discovery: string, confidence: real, derivedFrom: seq<string>,
                           agent: Option<string>, standing: Standing, how: Method)

  datatype FailureReport = FailureReport(namespace: string, approach: string, failed: string, agent: string,
                                         session: string, evidence: seq<Evidence>)

  /** `others` are the ids of all other records, `supports` holds the edges from evidence to
      memories, `writtenFor` says which proposal a memory was written for, `contradicts`
      holds the contradiction edges, and `used` is the size of all record files. */
  datatype Store = Store(proposals: map<string, Entry>, memories: map<string, Memory>, evidence: map<string, Evidence>,
                         failures: map<string, FailureReport>, sessions: map<string, Session>, others: set<string>,
                         supports: set<(string, string)>, writtenFor: map<string, string>,
                         contradicts: set<(string, string)>, used: nat)

  const NO_STORE := Store(map[], map[], map[], map[], map[], {}, {}, map[], {}, 0)

  // ---- what the storage limits let through

  /** A record as it is written to its file. */
  datatype Document =
    | MemoryDoc(memory: Memory)
    | EvidenceDoc(item: Evidence, supported: string)
    | ProposalDoc(proposal: Proposal, state: State)
    | FailureDoc(report: FailureReport)
    | SessionDoc(id: string, active: bool, failures: seq<string>, account: string)

  /** The most bytes of one record and of all of them, zero for no limit, and how many
      bytes a document takes. */
  datatype Quota = Quota(record: nat, store: nat, size: Document -> nat)

  predicate Fits(q: Quota, used: nat, bytes: nat) {
    (q.record == 0 || bytes <= q.record) && (q.store == 0 || used + bytes <= q.store)
  }

  function Total(sizes: seq<nat>): nat {
    if |sizes| == 0 then 0 else sizes[0] + Total(sizes[1..])
  }

  /** Writing one after the other, no write is refused. */
  predicate AllFit(q: Quota, used: nat, sizes: seq<nat>) {
    && (q.record == 0 || forall i :: 0 <= i < |sizes| ==> sizes[i] <= q.record)
    && (|sizes| > 0 && q.store != 0 ==> used + Total(sizes) <= q.store)
  }

  lemma {:induction false} AllFitUnfolds(q: Quota, used: nat, sizes: seq<nat>)
    requires |sizes| > 0
    ensures AllFit(q, used, sizes) <==> Fits(q, used, sizes[0]) && AllFit(q, used + sizes[0], sizes[1..])
  {
    assert forall i :: 0 < i < |sizes| ==> sizes[i] == sizes[1..][i - 1];
    assert sizes == [sizes[0]] + sizes[1..];
    if |sizes| == 1 {
      assert Total(sizes[1..]) == 0;
    }
  }

  function Current(e: Entry): State
    requires |e.states| > 0
  {
    e.states[|e.states| - 1]
  }

  /** What a reader finds: the newest copy, or the first when the newest is deprecated. */
  function Read(e: Entry): State
    requires |e.states| > 0
  {
    if e.hidden then e.states[0] else Current(e)
  }

  /** A record of any kind has the id. */
  predicate Stored(s: Store, id: string) {
    id in s.memories || id in s.proposals || id in s.evidence || id in s.failures || id in s.sessions || id in s.others
  }

  /** A record conflicts with any other that an edge joins it to, either way. */
  predicate HasConflict(s: Store, id: string) {
    exists e :: e in s.contradicts &&
      ((e.0 == id && e.1 != id && Stored(s, e.1)) || (e.1 == id && e.0 != id && Stored(s, e.0)))
  }

  predicate Conflicting(s: Store, x: Proposal) {
    exists i :: 0 <= i < |x.derivation| && HasConflict(s, x.derivation[i])
  }

  predicate IsPending(s: Store, id: string) {
    id in s.proposals && |s.proposals[id].states| > 0 && Read(s.proposals[id]).Pending?
  }

  function MemoryFor(x: Proposal, how: Method, standing: Standing): Memory {
    Memory(x.namespace, x.discovery, x.confidence, x.derivation, x.agent, standing, how)
  }

  /** `TooLarge` is the storage limit refusing a write; what was written before it stays. */
  datatype Outcome = Done(memory: string) | Held | NotFound | NotPending | TooLarge

  // ---- the writes of a promotion, each of which can be refused

  function PutMemory(q: Quota, s: Store, id: string, memory: Memory, newId: string): Store {
    s.(memories := s.memories[newId := memory], writtenFor := s.writtenFor[newId := id],
       used := s.used + q.size(MemoryDoc(memory)))
  }

  function PutEvidence(q: Quota, s: Store, x: Evidence, memory: string): Store {
    s.(evidence := s.evidence[x.id := x], supports := s.supports + {(x.id, memory)},
       used := s.used + q.size(EvidenceDoc(x, memory)))
  }

  function PutState(q: Quota, s: Store, id: string, state: State): Store
    requires id in s.proposals
  {
    var entry := s.proposals[id];
    s.(proposals := s.proposals[id := entry.(states := entry.states + [state], hidden := false)],
       used := s.used + q.size(ProposalDoc(entry.proposal, state)))
  }

  /** Evidence that is stored already only gets its edge. */
  function WriteEvidence(q: Quota, s: Store, items: seq<Evidence>, memory: string): (Store, bool)
    decreases |items|
  {
    if |items| == 0 then (s, true)
    else
      var x := items[0];
      if x.id in s.evidence then WriteEvidence(q, s.(supports := s.supports + {(x.id, memory)}), items[1..], memory)
      else if !Fits(q, s.used, q.size(EvidenceDoc(x, memory))) then (s, false)
      else WriteEvidence(q, PutEvidence(q, s, x, memory), items[1..], memory)
  }

  function Promoting(q: Quota, s: Store, id: string, how: Method, standing: Standing, newId: string): (Store, Outcome) {
    if id !in s.proposals then (s, NotFound)
    else if !IsPending(s, id) then (s, NotPending)
    else
      var x := s.proposals[id].proposal;
      var memory := MemoryFor(x, how, standing);
      if !Fits(q, s.used, q.size(MemoryDoc(memory))) then (s, TooLarge)
      else
        var (grounded, whole) := WriteEvidence(q, PutMemory(q, s, id, memory, newId), x.evidence, newId);
        if !whole || id !in grounded.proposals || !Fits(q, grounded.used, q.size(ProposalDoc(x, Promoted(newId))))
        then (grounded, TooLarge)
        else (PutState(q, grounded, id, Promoted(newId)), Done(newId))
  }

  /** The process dies in a promotion after the memory and so many of the records that
      follow. A promoted copy that did not get its sidecar only takes room. */
  function Dying(q: Quota, s: Store, id: string, how: Method, standing: Standing, newId: string, items: nat): Store {
    if !IsPending(s, id) then s
    else
      var x := s.proposals[id].proposal;
      var memory := MemoryFor(x, how, standing);
      if !Fits(q, s.used, q.size(MemoryDoc(memory))) then s
      else
        var (t, whole) := WriteEvidence(q, PutMemory(q, s, id, memory, newId), Slice(x.evidence, items), newId);
        var bytes := q.size(ProposalDoc(x, Promoted(newId)));
        if whole && items > |x.evidence| && Fits(q, t.used, bytes) then t.(used := t.used + bytes) else t
  }

  function Rejecting(q: Quota, s: Store, id: string, reason: string): (Store, Outcome) {
    if id !in s.proposals then (s, NotFound)
    else if !IsPending(s, id) then (s, NotPending)
    else if !Fits(q, s.used, q.size(ProposalDoc(s.proposals[id].proposal, Rejected(reason)))) then (s, TooLarge)
    else (PutState(q, s, id, Rejected(reason)), Held)
  }

  function Proposing(q: Quota, s: Store, id: string, x: Proposal): (Store, bool) {
    var bytes := q.size(ProposalDoc(x, Pending));
    if !Fits(q, s.used, bytes) then (s, false)
    else (s.(proposals := s.proposals[id := Entry(x, [Pending], false)], used := s.used + bytes), true)
  }

  /** A failure is stored and, when it names a session that has a record, put on the account
      of that session. `Unlogged` is a failure that is stored all the same. */
  datatype Logging = Unstored | Unlogged | Logged

  predicate HasSession(s: Store, id: string) {
    id != "" && id in s.sessions
  }

  /** An ended session refuses, and one with a deprecated newest copy has no current record. */
  predicate CanLog(session: Session) {
    session.active && !session.hidden
  }

  function WithFailure(session: Session, id: string): Session {
    if id in session.failures then session else session.(failures := session.failures + [id])
  }

  function SessionBytes(q: Quota, id: string, session: Session): nat {
    q.size(SessionDoc(id, session.active, session.failures, session.account))
  }

  function Reporting(q: Quota, s: Store, id: string, report: FailureReport): (Store, Logging) {
    var bytes := q.size(FailureDoc(report));
    if !Fits(q, s.used, bytes) then (s, Unstored)
    else
      var t := s.(failures := s.failures[id := report], used := s.used + bytes);
      if !HasSession(s, report.session) then (t, Logged)
      else
        var fuller := WithFailure(s.sessions[report.session], id);
        var more := SessionBytes(q, report.session, fuller);
        if !CanLog(fuller) || !Fits(q, t.used, more) then (t, Unlogged)
        else (t.(sessions := t.sessions[report.session := fuller], used := t.used + more), Logged)
  }

  /** A taken id is left alone. */
  function Starting(q: Quota, s: Store, id: string, account: string): Store {
    var session := Session(true, false, [], account);
    var bytes := SessionBytes(q, id, session);
    if Stored(s, id) || !Fits(q, s.used, bytes) then s
    else s.(sessions := s.sessions[id := session], used := s.used + bytes)
  }

  /** Log something else on a session's account, or end the session. */
  function Amending(q: Quota, s: Store, id: string, active: bool, account: string): Store {
    if id !in s.sessions || !CanLog(s.sessions[id]) then s
    else
      var now := s.sessions[id].(active := active, account := account);
      var bytes := SessionBytes(q, id, now);
      if Fits(q, s.used, bytes) then s.(sessions := s.sessions[id := now], used := s.used + bytes) else s
  }

  /** Deprecate the newest copy of a proposal or a session. */
  function Hiding(s: Store, id: string): Store {
    s.(proposals := if id in s.proposals then s.proposals[id := s.proposals[id].(hidden := true)] else s.proposals,
       sessions := if id in s.sessions then s.sessions[id := s.sessions[id].(hidden := true)] else s.sessions)
  }

  function Verdict(mode: Mode, p: Policy, s: Store, id: string): Decision
    requires id in s.proposals
  {
    if !IsPending(s, id) then Hold
    else Route(mode, p, s.proposals[id].proposal, Conflicting(s, s.proposals[id].proposal))
  }

  function Submitted(mode: Mode, p: Policy, q: Quota, s: Store, id: string, newId: string): (Store, Outcome) {
    if id !in s.proposals then (s, NotFound)
    else
      match Verdict(mode, p, s, id)
      case Hold => (s, Held)
      case Promote(how, standing) => Promoting(q, s, id, how, standing, newId)
  }

  // ---- when a promotion is cut short, told before it starts

  /** The evidence that is not stored yet, each id once. */
  function Missing(items: seq<Evidence>, known: set<string>): seq<Evidence>
    decreases |items|
  {
    if |items| == 0 then []
    else if items[0].id in known then Missing(items[1..], known)
    else [items[0]] + Missing(items[1..], known + {items[0].id})
  }

  function EvidenceSizes(q: Quota, items: seq<Evidence>, memory: string): seq<nat> {
    if |items| == 0 then [] else [q.size(EvidenceDoc(items[0], memory))] + EvidenceSizes(q, items[1..], memory)
  }

  /** What is left to write once the memory is written. */
  function RestSizes(q: Quota, s: Store, x: Proposal, newId: string): seq<nat> {
    EvidenceSizes(q, Missing(x.evidence, s.evidence.Keys), newId) + [q.size(ProposalDoc(x, Promoted(newId)))]
  }

  /** The memory fits and something after it does not. */
  predicate CutShort(q: Quota, s: Store, id: string, how: Method, standing: Standing, newId: string) {
    && IsPending(s, id)
    && var x := s.proposals[id].proposal;
       var bytes := q.size(MemoryDoc(MemoryFor(x, how, standing)));
       Fits(q, s.used, bytes) && !AllFit(q, s.used + bytes, RestSizes(q, s, x, newId))
  }

  /** The same store but for evidence, its edges and the bytes it took. */
  ghost predicate OnlyGrounds(s: Store, t: Store) {
    t.(evidence := s.evidence, supports := s.supports, used := s.used) == s && s.supports <= t.supports
  }

  lemma EvidenceSizesUnfold(q: Quota, items: seq<Evidence>, memory: string, last: nat)
    requires |items| > 0
    ensures var sizes := EvidenceSizes(q, items, memory) + [last];
            sizes[0] == q.size(EvidenceDoc(items[0], memory))
            && sizes[1..] == EvidenceSizes(q, items[1..], memory) + [last]
  {
  }

  lemma NothingFits(q: Quota, used: nat)
    ensures AllFit(q, used, [])
  {
  }

  lemma {:induction false} EvidenceGrows(q: Quota, s: Store, items: seq<Evidence>, memory: string)
    ensures var (t, whole) := WriteEvidence(q, s, items, memory);
            && OnlyGrounds(s, t) && s.evidence.Keys <= t.evidence.Keys
            && (whole ==> forall i :: 0 <= i < |items| ==>
                  items[i].id in t.evidence && (items[i].id, memory) in t.supports)
    decreases |items|
  {
    hide Fits;
    if |items| > 0 {
      var x := items[0];
      if x.id in s.evidence {
        EvidenceGrows(q, s.(supports := s.supports + {(x.id, memory)}), items[1..], memory);
      } else {
        EvidenceGrows(q, PutEvidence(q, s, x, memory), items[1..], memory);
      }
    }
  }

  lemma {:induction false} EvidenceRoom(q: Quota, s: Store, items: seq<Evidence>, memory: string, last: nat)
    ensures var (t, whole) := WriteEvidence(q, s, items, memory);
            whole && Fits(q, t.used, last)
            <==> AllFit(q, s.used, EvidenceSizes(q, Missing(items, s.evidence.Keys), memory) + [last])
    decreases |items|
  {
    hide Fits, AllFit;
    if |items| == 0 {
      assert EvidenceSizes(q, Missing(items, s.evidence.Keys), memory) + [last] == [last];
      AllFitUnfolds(q, s.used, [last]);
      NothingFits(q, s.used + last);
      assert [last][1..] == [];
    } else {
      var x := items[0];
      if x.id in s.evidence {
        EvidenceRoom(q, s.(supports := s.supports + {(x.id, memory)}), items[1..], memory, last);
      } else {
        var rest := Missing(items[1..], s.evidence.Keys + {x.id});
        EvidenceSizesUnfold(q, [x] + rest, memory, last);
        assert ([x] + rest)[1..] == rest;
        AllFitUnfolds(q, s.used, EvidenceSizes(q, [x] + rest, memory) + [last]);
        assert PutEvidence(q, s, x, memory).evidence.Keys == s.evidence.Keys + {x.id};
        EvidenceRoom(q, PutEvidence(q, s, x, memory), items[1..], memory, last);
      }
    }
  }

  /** The evidence and one more record go through exactly when all their sizes fit, and then
      every item is stored and supports the memory. */
  lemma EvidenceFitsIff(q: Quota, s: Store, items: seq<Evidence>, memory: string, last: nat)
    ensures var (t, whole) := WriteEvidence(q, s, items, memory);
            && OnlyGrounds(s, t)
            && ((whole && Fits(q, t.used, last))
                <==> AllFit(q, s.used, EvidenceSizes(q, Missing(items, s.evidence.Keys), memory) + [last]))
            && (whole ==> forall i :: 0 <= i < |items| ==>
                  items[i].id in t.evidence && (items[i].id, memory) in t.supports)
            && s.evidence.Keys <= t.evidence.Keys
  {
    EvidenceGrows(q, s, items, memory);
    EvidenceRoom(q, s, items, memory, last);
  }

  /** A pending proposal is promoted exactly when every write of the promotion fits. When
      the memory fits and something after it does not, the memory stays and so does the
      proposal. */
  lemma PromotionCompletesIff(q: Quota, s: Store, id: string, how: Method, standing: Standing, newId: string)
    requires IsPending(s, id)
    ensures var (t, outcome) := Promoting(q, s, id, how, standing, newId);
            var memory := MemoryFor(s.proposals[id].proposal, how, standing);
            var fits := Fits(q, s.used, q.size(MemoryDoc(memory)));
            && (outcome == Done(newId) <==> fits && !CutShort(q, s, id, how, standing, newId))
            && (!fits ==> t == s)
            && (fits ==> t.memories == s.memories[newId := memory] && t.writtenFor == s.writtenFor[newId := id])
            && t.proposals == (if outcome.Done? then PutState(q, s, id, Promoted(newId)).proposals else s.proposals)
            && (outcome.Done? ==> forall i :: 0 <= i < |s.proposals[id].proposal.evidence| ==>
                  var x := s.proposals[id].proposal.evidence[i]; x.id in t.evidence && (x.id, newId) in t.supports)
            && s.supports <= t.supports && s.evidence.Keys <= t.evidence.Keys
  {
    var x := s.proposals[id].proposal;
    var first := PutMemory(q, s, id, MemoryFor(x, how, standing), newId);
    EvidenceFitsIff(q, first, x.evidence, newId, q.size(ProposalDoc(x, Promoted(newId))));
    hide Fits, AllFit, WriteEvidence, Missing, EvidenceSizes;
  }

  /** The memory of a promotion is written. */
  predicate Writes(q: Quota, s: Store, id: string, how: Method, standing: Standing) {
    IsPending(s, id) && Fits(q, s.used, q.size(MemoryDoc(MemoryFor(s.proposals[id].proposal, how, standing))))
  }

  /** The promotion goes through. */
  predicate Passes(q: Quota, s: Store, id: string, how: Method, standing: Standing, newId: string) {
    Writes(q, s, id, how, standing) && !CutShort(q, s, id, how, standing, newId)
  }

  /** The rejection goes through. */
  predicate Refuses(q: Quota, s: Store, id: string, reason: string) {
    IsPending(s, id) && Fits(q, s.used, q.size(ProposalDoc(s.proposals[id].proposal, Rejected(reason))))
  }

  /** The same by whether the memory was written and whether the proposal was updated. */
  lemma PromotionParts(q: Quota, s: Store, id: string, how: Method, standing: Standing, newId: string)
    returns (wrote: bool, done: bool)
    requires IsPending(s, id)
    ensures wrote == Writes(q, s, id, how, standing) && done == Passes(q, s, id, how, standing, newId)
    ensures CutShort(q, s, id, how, standing, newId) <==> wrote && !done
    ensures var t := Promoting(q, s, id, how, standing, newId).0;
            var entry := s.proposals[id];
            var decided := entry.(states := entry.states + [Promoted(newId)], hidden := false);
            && t.memories == (if wrote then s.memories[newId := MemoryFor(entry.proposal, how, standing)]
                              else s.memories)
            && t.writtenFor == (if wrote then s.writtenFor[newId := id] else s.writtenFor)
            && t.proposals == (if done then s.proposals[id := decided] else s.proposals)
            && s.supports <= t.supports && s.evidence.Keys <= t.evidence.Keys
  {
    PromotionCompletesIff(q, s, id, how, standing, newId);
    wrote := Fits(q, s.used, q.size(MemoryDoc(MemoryFor(s.proposals[id].proposal, how, standing))));
    done := Promoting(q, s, id, how, standing, newId).1.Done?;
    hide Fits, AllFit, Promoting, RestSizes;
  }

  lemma DyingParts(q: Quota, s: Store, id: string, how: Method, standing: Standing, newId: string, items: nat)
    returns (wrote: bool)
    requires IsPending(s, id)
    ensures var t := Dying(q, s, id, how, standing, newId, items);
            var memory := MemoryFor(s.proposals[id].proposal, how, standing);
            && wrote == Fits(q, s.used, q.size(MemoryDoc(memory)))
            && t.memories == (if wrote then s.memories[newId := memory] else s.memories)
            && t.writtenFor == (if wrote then s.writtenFor[newId := id] else s.writtenFor)
            && t.proposals == s.proposals
            && s.supports <= t.supports && s.evidence.Keys <= t.evidence.Keys
  {
    var x := s.proposals[id].proposal;
    var memory := MemoryFor(x, how, standing);
    wrote := Fits(q, s.used, q.size(MemoryDoc(memory)));
    EvidenceFitsIff(q, PutMemory(q, s, id, memory, newId), Slice(x.evidence, items), newId, 0);
    hide Fits, AllFit, WriteEvidence, Missing, EvidenceSizes, Slice;
  }

  // ---- what every run keeps

  /** Pending first, and decisions after it. */
  ghost predicate WellFormed(e: Entry) {
    && |e.states| > 0 && e.states[0].Pending?
    && forall k :: 0 < k < |e.states| ==> !e.states[k].Pending?
  }

  /** A promoted copy names a memory that was written for the proposal and that all its
      evidence supports. */
  ghost predicate BackedState(s: Store, id: string, items: seq<Evidence>, state: State) {
    match state
    case Promoted(m) =>
      && m in s.writtenFor && s.writtenFor[m] == id
      && forall i :: 0 <= i < |items| ==> items[i].id in s.evidence && (items[i].id, m) in s.supports
    case _ => true
  }

  ghost predicate Backed(s: Store, id: string)
    requires id in s.proposals
  {
    var entry := s.proposals[id];
    forall k :: 0 <= k < |entry.states| ==> BackedState(s, id, entry.proposal.evidence, entry.states[k])
  }

  /** A memory written for a proposal says what the proposal said. */
  ghost predicate IsMemoryFor(memory: Memory, x: Proposal) {
    memory == MemoryFor(x, memory.how, memory.standing)
  }

  ghost predicate Faithful(s: Store) {
    forall m :: m in s.writtenFor ==>
      && m in s.memories && s.writtenFor[m] in s.proposals
      && IsMemoryFor(s.memories[m], s.proposals[s.writtenFor[m]].proposal)
  }

  ghost predicate Sound(s: Store) {
    && (forall id :: id in s.proposals ==> WellFormed(s.proposals[id]) && Backed(s, id))
    && Faithful(s)
  }

  /** The memories written for a proposal are the one it names, if it is promoted, and no
      others. */
  ghost predicate Matched(s: Store, id: string) {
    id in s.proposals && |s.proposals[id].states| > 0 ==>
      forall m :: (m in s.writtenFor && s.writtenFor[m] == id) <==> Current(s.proposals[id]) == Promoted(m)
  }

  datatype Setup = Setup(mode: Mode, policy: Policy, quota: Quota)

  /** `Occupy` is a record of any other kind. */
  datatype Call =
    | Propose(id: string, proposal: Proposal)
    | Submit(id: string, newId: string)
    | Decide(id: string, how: Method, standing: Standing, newId: string)
    | Die(id: string, how: Method, standing: Standing, newId: string, items: nat)
    | Reject(id: string, reason: string)
    | Report(id: string, report: FailureReport)
    | Remember(newId: string, memory: Memory)
    | Contradict(a: string, b: string)
    | StartSession(id: string, account: string)
    | Amend(id: string, active: bool, account: string)
    | Deprecate(id: string)
    | Occupy(id: string, bytes: nat)

  function Remembering(q: Quota, s: Store, newId: string, memory: Memory): Store {
    var bytes := q.size(MemoryDoc(memory));
    if Fits(q, s.used, bytes) then s.(memories := s.memories[newId := memory], used := s.used + bytes) else s
  }

  function Next(e: Setup, s: Store, c: Call): Store {
    match c
    case Propose(id, proposal) => Proposing(e.quota, s, id, proposal).0
    case Submit(id, newId) => Submitted(e.mode, e.policy, e.quota, s, id, newId).0
    case Decide(id, how, standing, newId) => Promoting(e.quota, s, id, how, standing, newId).0
    case Die(id, how, standing, newId, items) => Dying(e.quota, s, id, how, standing, newId, items)
    case Reject(id, reason) => Rejecting(e.quota, s, id, reason).0
    case Report(id, report) => Reporting(e.quota, s, id, report).0
    case Remember(newId, memory) => Remembering(e.quota, s, newId, memory)
    case Contradict(a, b) => s.(contradicts := s.contradicts + {(a, b)})
    case StartSession(id, account) => Starting(e.quota, s, id, account)
    case Amend(id, active, account) => Amending(e.quota, s, id, active, account)
    case Deprecate(id) => Hiding(s, id)
    case Occupy(id, bytes) =>
      if Fits(e.quota, s.used, bytes) then s.(others := s.others + {id}, used := s.used + bytes) else s
  }

  /** Ids are drawn fresh. */
  predicate Enabled(s: Store, c: Call) {
    match c
    case Propose(id, _) => id !in s.proposals
    case Submit(_, newId) => newId !in s.memories
    case Decide(_, _, _, newId) => newId !in s.memories
    case Die(_, _, _, newId, _) => newId !in s.memories
    case Remember(newId, _) => newId !in s.memories
    case _ => true
  }

  predicate Legal(e: Setup, s: Store, run: seq<Call>)
    decreases |run|
  {
    |run| == 0 || (Enabled(s, run[0]) && Legal(e, Next(e, s, run[0]), run[1..]))
  }

  function Exec(e: Setup, s: Store, run: seq<Call>): Store
    decreases |run|
  {
    if |run| == 0 then s else Exec(e, Next(e, s, run[0]), run[1..])
  }

  /** What a call does to a proposal: the memory it writes for it, the state it adds, and
      whether it deprecates the newest copy. */
  datatype Effect = Effect(id: string, wrote: Option<string>, state: Option<State>, hides: bool)

  function PromotionEffect(q: Quota, s: Store, id: string, how: Method, standing: Standing, newId: string): Effect {
    Effect(id, if Writes(q, s, id, how, standing) then Some(newId) else None,
           if Passes(q, s, id, how, standing, newId) then Some(Promoted(newId)) else None, false)
  }

  /** The same before the call, from the state and the sizes. */
  function EffectOf(e: Setup, s: Store, c: Call): Effect {
    match c
    case Submit(id, newId) =>
      if id !in s.proposals then Effect(id, None, None, false)
      else
        (match Verdict(e.mode, e.policy, s, id)
         case Hold => Effect(id, None, None, false)
         case Promote(how, standing) => PromotionEffect(e.quota, s, id, how, standing, newId))
    case Decide(id, how, standing, newId) => PromotionEffect(e.quota, s, id, how, standing, newId)
    case Die(id, how, standing, newId, _) =>
      Effect(id, if Writes(e.quota, s, id, how, standing) then Some(newId) else None, None, false)
    case Reject(id, reason) =>
      Effect(id, None, if Refuses(e.quota, s, id, reason) then Some(Rejected(reason)) else None, false)
    case Deprecate(id) => Effect(id, None, None, true)
    case _ => Effect("", None, None, false)
  }

  /** The proposal is decided, and its decided copy is deprecated. */
  predicate DecidedCopyHidden(s: Store, id: string) {
    id in s.proposals && |s.proposals[id].states| > 1 && s.proposals[id].hidden
  }

  /** The newest copy, deprecated or not, names a memory. */
  predicate NamesOne(s: Store, id: string) {
    id in s.proposals && |s.proposals[id].states| > 0 && Current(s.proposals[id]).Promoted?
  }

  /** A promotion or rejection goes through while the decided copy is deprecated. */
  predicate Redecides(e: Setup, s: Store, c: Call, id: string) {
    DecidedCopyHidden(s, id) && EffectOf(e, s, c).id == id && EffectOf(e, s, c).state.Some?
  }

  predicate EverRedecides(e: Setup, s: Store, run: seq<Call>, id: string)
    decreases |run|
  {
    |run| > 0 && (Redecides(e, s, run[0], id) || EverRedecides(e, Next(e, s, run[0]), run[1..], id))
  }

  /** A promotion does not get to its end once the memory is written: a later write is
      refused, or the process dies. */
  predicate Stops(e: Setup, s: Store, c: Call, id: string) {
    var f := EffectOf(e, s, c);
    f.id == id && f.wrote.Some? && f.state.None?
  }

  /** While the promoted copy is deprecated, another memory is written for the proposal or
      a rejection of it goes through. */
  predicate Strays(e: Setup, s: Store, c: Call, id: string) {
    var f := EffectOf(e, s, c);
    DecidedCopyHidden(s, id) && NamesOne(s, id) && f.id == id && (f.wrote.Some? || f.state.Some?)
  }

  predicate EverStrays(e: Setup, s: Store, run: seq<Call>, id: string)
    decreases |run|
  {
    && |run| > 0
    && (Stops(e, s, run[0], id) || Strays(e, s, run[0], id) || EverStrays(e, Next(e, s, run[0]), run[1..], id))
  }

  /** Records and edges are only ever added, and a proposal only changes its state. */
  ghost predicate Extends(s: Store, t: Store) {
    && (forall m :: m in s.writtenFor ==> m in t.writtenFor && t.writtenFor[m] == s.writtenFor[m])
    && (forall m :: m in s.memories ==> m in t.memories && t.memories[m] == s.memories[m])
    && (forall id :: id in s.proposals ==> id in t.proposals && t.proposals[id].proposal == s.proposals[id].proposal)
    && s.supports <= t.supports && s.evidence.Keys <= t.evidence.Keys
  }

  lemma BackedStateStays(s: Store, t: Store, id: string, items: seq<Evidence>, state: State)
    requires Extends(s, t) && BackedState(s, id, items, state)
    ensures BackedState(t, id, items, state)
  {
  }

  /** `t` is `s` after a call with this effect. */
  ghost predicate Has(s: Store, t: Store, f: Effect) {
    && Extends(s, t)
    && t.writtenFor == (if f.wrote.Some? then s.writtenFor[f.wrote.value := f.id] else s.writtenFor)
    && (f.wrote.Some? ==>
          && IsPending(s, f.id) && f.wrote.value !in s.writtenFor && f.wrote.value in t.memories
          && IsMemoryFor(t.memories[f.wrote.value], s.proposals[f.id].proposal))
    && (f.state.Some? ==>
          && IsPending(s, f.id) && !f.state.value.Pending?
          && BackedState(t, f.id, s.proposals[f.id].proposal.evidence, f.state.value)
          && (f.state.value.Promoted? || f.wrote.Some? ==> f.wrote.Some? && f.state.value == Promoted(f.wrote.value)))
    && forall x :: x in t.proposals ==> StatesGrow(s, t, f, x)
  }

  ghost predicate StatesGrow(s: Store, t: Store, f: Effect, x: string)
    requires x in t.proposals
  {
    && t.proposals[x].states
       == (if x !in s.proposals then [Pending]
           else s.proposals[x].states + if x == f.id && f.state.Some? then [f.state.value] else [])
    && t.proposals[x].hidden
       == (x in s.proposals && if x == f.id && f.hides then true
                               else if x == f.id && f.state.Some? then false
                               else s.proposals[x].hidden)
  }

  /** A memory and at most one state for one pending proposal. */
  lemma PartsHave(s: Store, t: Store, id: string, memory: Memory, newId: string, wrote: bool, done: bool)
    requires IsPending(s, id) && newId !in s.memories && newId !in s.writtenFor && (done ==> wrote)
    requires IsMemoryFor(memory, s.proposals[id].proposal)
    requires t.memories == (if wrote then s.memories[newId := memory] else s.memories)
    requires t.writtenFor == (if wrote then s.writtenFor[newId := id] else s.writtenFor)
    requires var decided := s.proposals[id].(states := s.proposals[id].states + [Promoted(newId)], hidden := false);
             t.proposals == if done then s.proposals[id := decided] else s.proposals
    requires s.supports <= t.supports && s.evidence.Keys <= t.evidence.Keys
    requires done ==> BackedState(t, id, s.proposals[id].proposal.evidence, Promoted(newId))
    ensures Has(s, t, Effect(id, if wrote then Some(newId) else None,
                             if done then Some(Promoted(newId)) else None, false))
  {
    hide BackedState, IsMemoryFor;
  }

  lemma PromotionHas(q: Quota, s: Store, id: string, how: Method, standing: Standing, newId: string)
    requires Faithful(s) && newId !in s.memories
    ensures Has(s, Promoting(q, s, id, how, standing, newId).0, PromotionEffect(q, s, id, how, standing, newId))
  {
    if !IsPending(s, id) {
      NothingHas(s, id);
    } else {
      hide Has, Fits, CutShort, Writes, Passes, BackedState, Promoting;
      var wrote, done := PromotionParts(q, s, id, how, standing, newId);
      if done {
        PromotedIsBacked(q, s, id, how, standing, newId);
      }
      assert newId !in s.writtenFor;
      PartsHave(s, Promoting(q, s, id, how, standing, newId).0, id,
                MemoryFor(s.proposals[id].proposal, how, standing), newId, wrote, done);
    }
  }

  lemma PromotedIsBacked(q: Quota, s: Store, id: string, how: Method, standing: Standing, newId: string)
    requires Passes(q, s, id, how, standing, newId)
    ensures var after := Promoting(q, s, id, how, standing, newId).0;
            BackedState(after, id, s.proposals[id].proposal.evidence, Promoted(newId))
  {
    PromotionCompletesIff(q, s, id, how, standing, newId);
    hide Fits, CutShort, Promoting;
  }

  lemma DyingHas(q: Quota, s: Store, id: string, how: Method, standing: Standing, newId: string, items: nat)
    requires Faithful(s) && newId !in s.memories
    ensures Has(s, Dying(q, s, id, how, standing, newId, items),
                Effect(id, if Writes(q, s, id, how, standing) then Some(newId) else None, None, false))
  {
    if !IsPending(s, id) {
      NothingHas(s, id);
    } else {
      hide Has, Fits, BackedState, Dying;
      var wrote := DyingParts(q, s, id, how, standing, newId, items);
      assert newId !in s.writtenFor;
      PartsHave(s, Dying(q, s, id, how, standing, newId, items), id,
                MemoryFor(s.proposals[id].proposal, how, standing), newId, wrote, false);
    }
  }

  lemma RejectionHas(q: Quota, s: Store, id: string, reason: string)
    ensures Has(s, Rejecting(q, s, id, reason).0,
                Effect(id, None, if Refuses(q, s, id, reason) then Some(Rejected(reason)) else None, false))
  {
    hide Fits;
  }

  /** The proposals, their memories and their evidence are as they were. */
  ghost predicate Quiet(s: Store, t: Store) {
    && t.writtenFor == s.writtenFor && t.supports == s.supports && t.evidence == s.evidence
    && (forall m :: m in s.memories ==> m in t.memories && t.memories[m] == s.memories[m])
    && t.proposals == s.proposals
  }

  lemma QuietHas(s: Store, t: Store)
    requires Quiet(s, t)
    ensures Has(s, t, Effect("", None, None, false))
  {
  }

  lemma ProposalHas(q: Quota, s: Store, id: string, x: Proposal)
    requires id !in s.proposals
    ensures Has(s, Proposing(q, s, id, x).0, Effect("", None, None, false))
  {
    hide Fits;
  }

  lemma ReportingIsQuiet(q: Quota, s: Store, id: string, report: FailureReport)
    ensures var t := Reporting(q, s, id, report).0;
            t.(failures := s.failures, sessions := s.sessions, used := s.used) == s
  {
  }

  lemma AmendingIsQuiet(q: Quota, s: Store, id: string, active: bool, account: string)
    ensures Quiet(s, Amending(q, s, id, active, account))
  {
    hide Fits;
  }

  lemma HidingHas(s: Store, id: string)
    ensures Has(s, Hiding(s, id), Effect(id, None, None, true))
  {
  }

  lemma OthersAreQuiet(e: Setup, s: Store, c: Call)
    requires Enabled(s, c) && !c.Submit? && !c.Decide? && !c.Die? && !c.Reject?
    requires !c.Propose? && !c.Deprecate?
    ensures Quiet(s, Next(e, s, c))
  {
    hide Fits, SessionBytes, HasSession, CanLog, Promoting, Submitted, Dying, Rejecting, Proposing, Hiding, Reporting,
         Amending;
    if c.Report? {
      ReportingIsQuiet(e.quota, s, c.id, c.report);
    } else if c.Amend? {
      AmendingIsQuiet(e.quota, s, c.id, c.active, c.account);
    }
  }

  /** A call that decides nothing and writes no memory for a proposal. */
  lemma OthersHave(e: Setup, s: Store, c: Call)
    requires Enabled(s, c) && !c.Submit? && !c.Decide? && !c.Die? && !c.Reject?
    ensures Has(s, Next(e, s, c), EffectOf(e, s, c))
  {
    hide Has, Quiet, Proposing, Hiding;
    if c.Propose? {
      ProposalHas(e.quota, s, c.id, c.proposal);
    } else if c.Deprecate? {
      HidingHas(s, c.id);
    } else {
      OthersAreQuiet(e, s, c);
      QuietHas(s, Next(e, s, c));
    }
  }

  /** Every call has the effect that is told before it. */
  lemma NextHas(e: Setup, s: Store, c: Call)
    requires Faithful(s) && Enabled(s, c)
    ensures Has(s, Next(e, s, c), EffectOf(e, s, c))
  {
    hide Has, Faithful, Promoting, Dying, Rejecting, PromotionEffect, Writes, Refuses;
    match c {
      case Submit(id, newId) =>
        if id in s.proposals && Verdict(e.mode, e.policy, s, id).Promote? {
          var verdict := Verdict(e.mode, e.policy, s, id);
          PromotionHas(e.quota, s, id, verdict.how, verdict.standing, newId);
        } else {
          NothingHas(s, id);
        }
      case Decide(id, how, standing, newId) => PromotionHas(e.quota, s, id, how, standing, newId);
      case Die(id, how, standing, newId, items) => DyingHas(e.quota, s, id, how, standing, newId, items);
      case Reject(id, reason) => RejectionHas(e.quota, s, id, reason);
      case _ => OthersHave(e, s, c);
    }
  }

  lemma NothingHas(s: Store, id: string)
    ensures Has(s, s, Effect(id, None, None, false))
  {
  }

  lemma EffectKeepsFaithful(s: Store, t: Store, f: Effect)
    requires Faithful(s) && Has(s, t, f)
    ensures Faithful(t)
  {
    hide BackedState, StatesGrow;
  }

  lemma EffectKeepsEntry(s: Store, t: Store, f: Effect, x: string)
    requires Has(s, t, f) && x in t.proposals
    requires x in s.proposals ==> WellFormed(s.proposals[x]) && Backed(s, x)
    ensures WellFormed(t.proposals[x]) && Backed(t, x)
  {
    assert StatesGrow(s, t, f, x);
    var entry := t.proposals[x];
    forall k | 0 <= k < |entry.states| ensures BackedState(t, x, entry.proposal.evidence, entry.states[k]) {
      if x in s.proposals && k < |s.proposals[x].states| {
        BackedStateStays(s, t, x, entry.proposal.evidence, entry.states[k]);
      }
    }
  }

  lemma NextKeepsSound(e: Setup, s: Store, c: Call)
    requires Sound(s) && Enabled(s, c)
    ensures Sound(Next(e, s, c))
  {
    NextHas(e, s, c);
    var t, f := Next(e, s, c), EffectOf(e, s, c);
    EffectKeepsFaithful(s, t, f);
    hide Next, EffectOf, Faithful, Has, WellFormed, Backed;
    forall x | x in t.proposals ensures WellFormed(t.proposals[x]) && Backed(t, x) {
      EffectKeepsEntry(s, t, f, x);
    }
  }

  /** In every run, refused writes, crashes and deprecations included, each proposal is
      pending first and only then decided, and every promoted copy of it names a memory
      that was written for it, that carries its content and that all its evidence
      supports. */
  lemma {:induction false} ProposalSafety(e: Setup, s: Store, run: seq<Call>)
    requires Sound(s) && Legal(e, s, run)
    ensures Sound(Exec(e, s, run))
    decreases |run|
  {
    if |run| > 0 {
      NextKeepsSound(e, s, run[0]);
      ProposalSafety(e, Next(e, s, run[0]), run[1..]);
    }
  }

  // ---- decided at most once

  /** States are only ever added, one at a time, each by a call that decides the proposal. */
  lemma NextDecides(e: Setup, s: Store, c: Call, id: string)
    requires Sound(s) && Enabled(s, c) && id in s.proposals
    ensures var t, past := Next(e, s, c), s.proposals[id].states;
            && id in t.proposals && t.proposals[id].proposal == s.proposals[id].proposal
            && past <= t.proposals[id].states
            && (t.proposals[id].states == past || |t.proposals[id].states| == |past| + 1)
            && (|past| > 1 ==> (t.proposals[id].states != past <==> Redecides(e, s, c, id)))
  {
    NextHas(e, s, c);
    var t, f := Next(e, s, c), EffectOf(e, s, c);
    hide Next, EffectOf, Faithful, Backed, BackedState, IsMemoryFor;
    assert id in t.proposals && StatesGrow(s, t, f, id);
    assert WellFormed(s.proposals[id]);
  }

  /** Whatever happens, a decision is not taken back; and a decided proposal is never
      decided again exactly when no promotion or rejection of it goes through while its
      decided copy is deprecated. */
  lemma {:induction false} DecisionsAreFinalIff(e: Setup, s: Store, run: seq<Call>, id: string)
    requires Sound(s) && Legal(e, s, run) && id in s.proposals
    ensures var t := Exec(e, s, run);
            && id in t.proposals && t.proposals[id].proposal == s.proposals[id].proposal
            && s.proposals[id].states <= t.proposals[id].states
            && (|s.proposals[id].states| > 1 ==>
                  (t.proposals[id].states == s.proposals[id].states <==> !EverRedecides(e, s, run, id)))
    decreases |run|
  {
    if |run| > 0 {
      var next := Next(e, s, run[0]);
      NextKeepsSound(e, s, run[0]);
      NextDecides(e, s, run[0], id);
      DecisionsAreFinalIff(e, next, run[1..], id);
      hide Next, Sound, Enabled, Redecides;
    }
  }

  lemma {:induction false} RunDecidesOnceIff(e: Setup, s: Store, run: seq<Call>, id: string)
    requires Sound(s) && Legal(e, s, run) && (id in s.proposals ==> |s.proposals[id].states| <= 2)
    ensures var t := Exec(e, s, run);
            id in t.proposals ==> (|t.proposals[id].states| <= 2 <==> !EverRedecides(e, s, run, id))
    decreases |run|
  {
    if id in s.proposals && |s.proposals[id].states| == 2 {
      DecisionsAreFinalIff(e, s, run, id);
      hide Next, Sound, Enabled;
    } else if |run| > 0 {
      var next := Next(e, s, run[0]);
      NextKeepsSound(e, s, run[0]);
      if id in s.proposals {
        NextDecides(e, s, run[0], id);
      } else {
        ProposedIsPending(e, s, run[0], id);
      }
      assert !Redecides(e, s, run[0], id);
      hide Next, Sound, Enabled, Redecides;
      RunDecidesOnceIff(e, next, run[1..], id);
    }
  }

  lemma ProposedIsPending(e: Setup, s: Store, c: Call, id: string)
    requires Sound(s) && Enabled(s, c) && id !in s.proposals
    ensures id in Next(e, s, c).proposals ==> |Next(e, s, c).proposals[id].states| == 1
  {
    NextHas(e, s, c);
    hide Next, EffectOf, Faithful, BackedState, IsMemoryFor;
    if id in Next(e, s, c).proposals {
      assert StatesGrow(s, Next(e, s, c), EffectOf(e, s, c), id);
    }
  }

  /** A proposal is decided at most once exactly when no promotion or rejection of it goes
      through while its decided copy is deprecated. */
  lemma DecidedOnceIff(e: Setup, run: seq<Call>, id: string)
    requires Legal(e, NO_STORE, run) && id in Exec(e, NO_STORE, run).proposals
    ensures |Exec(e, NO_STORE, run).proposals[id].states| <= 2 <==> !EverRedecides(e, NO_STORE, run, id)
  {
    RunDecidesOnceIff(e, NO_STORE, run, id);
  }

  // ---- one memory for each promoted proposal

  /** What a call does to the match of any proposal. */
  lemma NextMatchesIff(e: Setup, s: Store, c: Call, id: string)
    requires Sound(s) && Enabled(s, c)
    ensures Matched(Next(e, s, c), id) <==> Matched(s, id) && !Stops(e, s, c, id) && !Strays(e, s, c, id)
  {
    NextHas(e, s, c);
    EffectMatchesIff(s, Next(e, s, c), EffectOf(e, s, c), id);
    hide Next, EffectOf, Matched, Has;
  }

  lemma EffectMatchesIff(s: Store, t: Store, f: Effect, id: string)
    requires Faithful(s) && Has(s, t, f)
    requires id in s.proposals ==> WellFormed(s.proposals[id]) && Backed(s, id)
    ensures Matched(t, id) <==>
              && Matched(s, id)
              && !(f.id == id && f.wrote.Some? && f.state.None?)
              && !(DecidedCopyHidden(s, id) && NamesOne(s, id) && f.id == id && (f.wrote.Some? || f.state.Some?))
  {
    hide IsMemoryFor, StatesGrow, BackedState, WellFormed, Backed, Read;
    assert id in s.proposals ==> id in t.proposals;
    if id in t.proposals {
      LastStateIs(s, t, f, id);
      if id !in s.proposals {
        assert forall m :: m in t.writtenFor ==> t.writtenFor[m] != id;
      } else {
        if NamesOne(s, id) {
          NamedIsWritten(s, id);
        }
        EntryMatchesIff(s, t, f, id);
      }
    }
    hide Extends;
  }

  lemma EntryMatchesIff(s: Store, t: Store, f: Effect, id: string)
    requires id in s.proposals && id in t.proposals && |s.proposals[id].states| > 0 && |t.proposals[id].states| > 0
    requires NamesOne(s, id) ==> var m := Current(s.proposals[id]).memory; m in s.writtenFor && s.writtenFor[m] == id
    requires t.writtenFor == (if f.wrote.Some? then s.writtenFor[f.wrote.value := f.id] else s.writtenFor)
    requires f.wrote.Some? ==> f.wrote.value !in s.writtenFor
    requires f.state.Some? && (f.state.value.Promoted? || f.wrote.Some?) ==>
               f.wrote.Some? && f.state.value == Promoted(f.wrote.value)
    requires Current(t.proposals[id]) == if id == f.id && f.state.Some? then f.state.value else Current(s.proposals[id])
    requires id == f.id && (f.wrote.Some? || f.state.Some?) ==>
               Current(s.proposals[id]).Pending? || DecidedCopyHidden(s, id)
    ensures Matched(t, id) <==>
              && Matched(s, id)
              && !(f.id == id && f.wrote.Some? && f.state.None?)
              && !(DecidedCopyHidden(s, id) && NamesOne(s, id) && f.id == id && (f.wrote.Some? || f.state.Some?))
  {
    if f.wrote.Some? && f.id == id {
      var w := f.wrote.value;
      assert t.writtenFor[w] == id && forall m :: m in s.writtenFor ==> m != w && t.writtenFor[m] == s.writtenFor[m];
    } else {
      assert forall m :: (m in t.writtenFor && t.writtenFor[m] == id) <==> (m in s.writtenFor && s.writtenFor[m] == id);
    }
  }

  lemma NamedIsWritten(s: Store, id: string)
    requires NamesOne(s, id) && Backed(s, id)
    ensures var m := Current(s.proposals[id]).memory; m in s.writtenFor && s.writtenFor[m] == id
  {
    var entry := s.proposals[id];
    assert BackedState(s, id, entry.proposal.evidence, entry.states[|entry.states| - 1]);
  }

  lemma LastStateIs(s: Store, t: Store, f: Effect, id: string)
    requires Has(s, t, f) && id in t.proposals && (id in s.proposals ==> WellFormed(s.proposals[id]))
    ensures id !in s.proposals ==> t.proposals[id].states == [Pending]
    ensures id in s.proposals ==> |s.proposals[id].states| > 0 && |t.proposals[id].states| > 0
    ensures id in s.proposals && id == f.id && f.state.Some? ==> Current(t.proposals[id]) == f.state.value
    ensures id in s.proposals && !(id == f.id && f.state.Some?) ==> Current(t.proposals[id]) == Current(s.proposals[id])
    ensures id == f.id && (f.wrote.Some? || f.state.Some?) ==>
              id in s.proposals && (Current(s.proposals[id]).Pending? || DecidedCopyHidden(s, id))
  {
    assert StatesGrow(s, t, f, id);
    hide BackedState, Extends, IsMemoryFor;
  }

  lemma {:induction false} RunMatchesIff(e: Setup, s: Store, run: seq<Call>, id: string)
    requires Sound(s) && Legal(e, s, run)
    ensures Matched(Exec(e, s, run), id) <==> Matched(s, id) && !EverStrays(e, s, run, id)
    decreases |run|
  {
    if |run| > 0 {
      NextKeepsSound(e, s, run[0]);
      NextMatchesIff(e, s, run[0], id);
      hide Next, Sound, Enabled, Stops, Strays, Matched;
      RunMatchesIff(e, Next(e, s, run[0]), run[1..], id);
    }
  }

  /** A proposal is promoted exactly when one memory was written for it, and pending or
      rejected exactly when none was, if and only if no promotion of it ended between its
      memory and its new state, and none wrote a memory and no rejection went through while
      its promoted copy was deprecated. */
  lemma MatchedIff(e: Setup, run: seq<Call>, id: string)
    requires Legal(e, NO_STORE, run)
    ensures Matched(Exec(e, NO_STORE, run), id) <==> !EverStrays(e, NO_STORE, run, id)
  {
    RunMatchesIff(e, NO_STORE, run, id);
  }

  predicate IsVisible(s: Store, id: string) {
    id in s.proposals ==> !s.proposals[id].hidden
  }

  lemma UnlimitedEffect(e: Setup, s: Store, c: Call)
    requires e.quota.record == 0 && e.quota.store == 0 && !c.Die?
    ensures var f := EffectOf(e, s, c); (f.wrote.Some? ==> f.state.Some?) && (f.hides ==> c == Deprecate(f.id))
  {
    hide Verdict;
  }

  /** Without storage limits only a crash ends a promotion halfway, and only a deprecation
      hides what was decided. */
  lemma UndisturbedNext(e: Setup, s: Store, c: Call, id: string)
    requires e.quota.record == 0 && e.quota.store == 0 && Sound(s) && Enabled(s, c) && IsVisible(s, id)
    requires !c.Die? && c != Deprecate(id)
    ensures !Stops(e, s, c, id) && !Strays(e, s, c, id) && !Redecides(e, s, c, id) && IsVisible(Next(e, s, c), id)
  {
    NextHas(e, s, c);
    UnlimitedEffect(e, s, c);
    hide Next, EffectOf, Sound, Extends;
    if id in Next(e, s, c).proposals {
      assert StatesGrow(s, Next(e, s, c), EffectOf(e, s, c), id);
    }
  }

  /** In a run without storage limits, crashes and deprecations of the proposal it is decided
      at most once, and promoted exactly when one memory was written for it. */
  lemma {:induction false} UndisturbedIsMatched(e: Setup, s: Store, run: seq<Call>, id: string)
    requires e.quota.record == 0 && e.quota.store == 0
    requires Sound(s) && Legal(e, s, run) && IsVisible(s, id)
    requires forall i :: 0 <= i < |run| ==> !run[i].Die? && run[i] != Deprecate(id)
    ensures !EverStrays(e, s, run, id) && !EverRedecides(e, s, run, id)
    decreases |run|
  {
    if |run| > 0 {
      NextKeepsSound(e, s, run[0]);
      UndisturbedNext(e, s, run[0], id);
      hide Next, Sound, Enabled, Stops, Strays, Redecides, IsVisible;
      UndisturbedIsMatched(e, Next(e, s, run[0]), run[1..], id);
    }
  }

  // ---- inputs that break them

  lemma FourSteps(e: Setup, s: Store, run: seq<Call>)
    requires |run| == 4 && Enabled(s, run[0]) && Enabled(Next(e, s, run[0]), run[1])
    requires Enabled(Next(e, Next(e, s, run[0]), run[1]), run[2])
    requires Enabled(Next(e, Next(e, Next(e, s, run[0]), run[1]), run[2]), run[3])
    ensures Legal(e, s, run)
    ensures Exec(e, s, run) == Next(e, Next(e, Next(e, Next(e, s, run[0]), run[1]), run[2]), run[3])
  {
    var a := Next(e, s, run[0]);
    var b := Next(e, a, run[1]);
    var c := Next(e, b, run[2]);
    var d := Next(e, c, run[3]);
    hide Next, Enabled;
    assert run[1..][1..][1..] == [run[3]] && [run[3]][1..] == [];
    assert Legal(e, d, []) && Exec(e, d, []) == d;
    assert Legal(e, c, [run[3]]) && Exec(e, c, [run[3]]) == d;
    assert Legal(e, b, run[1..][1..]) && Exec(e, b, run[1..][1..]) == d;
    assert Legal(e, a, run[1..]) && Exec(e, a, run[1..]) == d;
  }

  lemma UnlimitedPasses(q: Quota, s: Store, id: string, newId: string)
    requires q.record == 0 && q.store == 0 && IsPending(s, id)
    ensures Passes(q, s, id, ByHuman, Verified, newId)
  {
  }

  /** A rejected proposal whose rejected copy is deprecated is promoted. */
  lemma RejectedIsPromoted(e: Setup, x: Proposal, reason: string)
    requires e.quota.record == 0 && e.quota.store == 0
    ensures var run := [Call.Propose("p", x), Reject("p", reason), Deprecate("p"), Decide("p", ByHuman, Verified, "m")];
            && Legal(e, NO_STORE, run)
            && var end := Exec(e, NO_STORE, run);
               && "p" in end.proposals && end.proposals["p"].states == [Pending, Rejected(reason), Promoted("m")]
               && EverRedecides(e, NO_STORE, run, "p")
  {
    var run := [Call.Propose("p", x), Reject("p", reason), Deprecate("p"), Decide("p", ByHuman, Verified, "m")];
    var a := Next(e, NO_STORE, run[0]);
    var b := Next(e, a, run[1]);
    var c := Next(e, b, run[2]);
    assert IsPending(c, "p") && c.proposals["p"].states == [Pending, Rejected(reason)];
    UnlimitedPasses(e.quota, c, "p", "m");
    var wrote, done := PromotionParts(e.quota, c, "p", ByHuman, Verified, "m");
    hide Passes, Writes, Promoting;
    FourSteps(e, NO_STORE, run);
    DecidedOnceIff(e, run, "p");
  }

  /** A promoted proposal whose promoted copy is deprecated is promoted again, and two
      memories were written for it. */
  lemma PromotedTwice(e: Setup, x: Proposal)
    requires e.quota.record == 0 && e.quota.store == 0
    ensures var run := [Call.Propose("p", x), Decide("p", ByHuman, Verified, "m"), Deprecate("p"),
                        Decide("p", ByHuman, Verified, "n")];
            && Legal(e, NO_STORE, run)
            && var end := Exec(e, NO_STORE, run);
               && "p" in end.proposals && end.proposals["p"].states == [Pending, Promoted("m"), Promoted("n")]
               && end.writtenFor == map["m" := "p", "n" := "p"] && !Matched(end, "p")
  {
    var run := [Call.Propose("p", x), Decide("p", ByHuman, Verified, "m"), Deprecate("p"),
                Decide("p", ByHuman, Verified, "n")];
    var a := Next(e, NO_STORE, run[0]);
    UnlimitedPasses(e.quota, a, "p", "m");
    var wrote, done := PromotionParts(e.quota, a, "p", ByHuman, Verified, "m");
    var b := Next(e, a, run[1]);
    var c := Next(e, b, run[2]);
    assert c.proposals["p"].states == [Pending, Promoted("m")] && IsPending(c, "p");
    UnlimitedPasses(e.quota, c, "p", "n");
    wrote, done := PromotionParts(e.quota, c, "p", ByHuman, Verified, "n");
    hide Passes, Writes, Promoting;
    FourSteps(e, NO_STORE, run);
    var end := Exec(e, NO_STORE, run);
    assert "m" in end.writtenFor && Current(end.proposals["p"]) == Promoted("n");
  }

  /** Sizes for which a memory fits a limit of 200 bytes and the promoted copy does not. */
  function SmallMemories(doc: Document): nat {
    match doc
    case MemoryDoc(_) => 100
    case EvidenceDoc(_, _) => 50
    case ProposalDoc(_, state) => if state.Promoted? then 240 else 190
    case FailureDoc(_) => 60
    case SessionDoc(_, _, _, _) => 60
  }

  /** Two retries of a promotion whose last write is refused leave two memories and a
      pending proposal. */
  lemma RetriesLeaveMemories(e: Setup, x: Proposal)
    requires e.quota == Quota(200, 0, SmallMemories)
    ensures var run := [Call.Propose("p", x), Decide("p", ByHuman, Verified, "m"), Decide("p", ByHuman, Verified, "n")];
            && Legal(e, NO_STORE, run)
            && var end := Exec(e, NO_STORE, run);
               && IsPending(end, "p") && end.memories.Keys == {"m", "n"}
               && end.writtenFor == map["m" := "p", "n" := "p"] && !Matched(end, "p")
  {
    var a := Next(e, NO_STORE, Call.Propose("p", x));
    var decide, again := Decide("p", ByHuman, Verified, "m"), Decide("p", ByHuman, Verified, "n");
    var run := [Call.Propose("p", x), decide, again];
    RefusedInTheEnd(e.quota, a, "p", "m");
    PromotionCompletesIff(e.quota, a, "p", ByHuman, Verified, "m");
    var b := Next(e, a, decide);
    RefusedInTheEnd(e.quota, b, "p", "n");
    PromotionCompletesIff(e.quota, b, "p", ByHuman, Verified, "n");
    var c := Next(e, b, again);
    assert run[1..] == [decide, again] && run[1..][1..] == [again] && run[1..][1..][1..] == [];
    assert Exec(e, c, []) == c && Exec(e, b, [again]) == c && Exec(e, a, [decide, again]) == c;
    assert Legal(e, c, []) && Legal(e, b, [again]) && Legal(e, a, [decide, again]);
    assert c.writtenFor["m"] == "p" && Current(c.proposals["p"]) != Promoted("m");
  }

  lemma RefusedInTheEnd(q: Quota, s: Store, id: string, newId: string)
    requires q == Quota(200, 0, SmallMemories) && IsPending(s, id)
    ensures CutShort(q, s, id, ByHuman, Verified, newId)
  {
    var sizes := RestSizes(q, s, s.proposals[id].proposal, newId);
    assert sizes[|sizes| - 1] == 240;
  }

  /** The gates that do not depend on when a proposal is judged. */
  ghost predicate PassedGates(mode: Mode, p: Policy, x: Proposal) {
    && Grounded(p, |x.evidence|)
    && (mode.Automatic? || mode.Hybrid? ==> x.confidence >= p.minConfidence && Trusts(p, x.agent))
    && (mode.Hybrid? ==> x.confidence > p.riskConfidence)
    && (mode.Consensus? ==> |Authors(x.evidence)| >= p.threshold)
    && !mode.Human?
  }

  /** Where nobody promotes by hand, every memory written for a proposal passed the
      gates of the mode, with the standing its confidence earns. */
  ghost predicate AllPassed(e: Setup, s: Store) {
    forall m :: m in s.writtenFor ==>
      && m in s.memories && s.writtenFor[m] in s.proposals
      && PassedGates(e.mode, e.policy, s.proposals[s.writtenFor[m]].proposal)
      && s.memories[m].standing == StandingFor(e.policy, s.memories[m].confidence)
  }

  /** Not what the engine decided. */
  predicate ByHand(e: Setup, s: Store, c: Call) {
    match c
    case Decide(_, _, _, _) => true
    case Die(id, how, standing, _, _) =>
      id in s.proposals ==> Verdict(e.mode, e.policy, s, id) != Promote(how, standing)
    case _ => false
  }

  predicate NeverByHand(e: Setup, s: Store, run: seq<Call>)
    decreases |run|
  {
    |run| == 0 || (!ByHand(e, s, run[0]) && NeverByHand(e, Next(e, s, run[0]), run[1..]))
  }

  lemma SubmitKeepsPassed(e: Setup, s: Store, id: string, newId: string)
    requires AllPassed(e, s) && newId !in s.memories
    ensures AllPassed(e, Submitted(e.mode, e.policy, e.quota, s, id, newId).0)
  {
    if id in s.proposals && Verdict(e.mode, e.policy, s, id).Promote? {
      var verdict := Verdict(e.mode, e.policy, s, id);
      assert PassedGates(e.mode, e.policy, s.proposals[id].proposal);
      assert verdict.standing == StandingFor(e.policy, s.proposals[id].proposal.confidence);
      PromotionCompletesIff(e.quota, s, id, verdict.how, verdict.standing, newId);
      hide Fits, CutShort, Promoting, PassedGates, StandingFor, Verdict;
    }
  }

  lemma DyingKeepsPassed(e: Setup, s: Store, id: string, how: Method, standing: Standing, newId: string, items: nat)
    requires AllPassed(e, s) && newId !in s.memories
    requires id in s.proposals && Verdict(e.mode, e.policy, s, id) == Promote(how, standing)
    ensures AllPassed(e, Dying(e.quota, s, id, how, standing, newId, items))
  {
    assert PassedGates(e.mode, e.policy, s.proposals[id].proposal);
    assert standing == StandingFor(e.policy, s.proposals[id].proposal.confidence);
    var wrote := DyingParts(e.quota, s, id, how, standing, newId, items);
    hide Fits, Dying, PassedGates, StandingFor, Verdict;
  }

  lemma NextKeepsPassed(e: Setup, s: Store, c: Call)
    requires AllPassed(e, s) && Enabled(s, c) && !ByHand(e, s, c)
    ensures AllPassed(e, Next(e, s, c))
  {
    hide PassedGates, StandingFor, Fits, Promoting, WriteEvidence, Submitted, Verdict;
    if c.Submit? {
      SubmitKeepsPassed(e, s, c.id, c.newId);
    } else if c.Die? && c.id in s.proposals {
      DyingKeepsPassed(e, s, c.id, c.how, c.standing, c.newId, c.items);
    }
  }

  lemma {:induction false} AdmittedPassedGates(e: Setup, s: Store, run: seq<Call>)
    requires AllPassed(e, s) && Legal(e, s, run) && NeverByHand(e, s, run)
    ensures AllPassed(e, Exec(e, s, run))
    decreases |run|
  {
    if |run| > 0 {
      NextKeepsPassed(e, s, run[0]);
      AdmittedPassedGates(e, Next(e, s, run[0]), run[1..]);
    }
  }

  lemma OthersAreJoined(s: Store, id: string, others: set<string>)
    requires others == (set e | e in s.contradicts && e.0 == id :: e.1)
                       + (set e | e in s.contradicts && e.1 == id :: e.0) - {id}
    ensures HasConflict(s, id) <==> exists other :: other in others && Stored(s, other)
  {
    hide Stored;
    forall e | e in s.contradicts
      ensures e.0 == id && e.1 != id ==> e.1 in others
      ensures e.1 == id && e.0 != id ==> e.0 in others
    {
    }
  }

  // ---- the engine over the database, as an object

  class PromotionEngine {
    const setup: Setup
    var proposals: map<string, Entry>
    var memories: map<string, Memory>
    var evidence: map<string, Evidence>
    var failures: map<string, FailureReport>
    var sessions: map<string, Session>
    var others: set<string>
    var supports: set<(string, string)>
    var contradicts: set<(string, string)>
    var used: nat
    /** For which proposal each memory was written. */
    ghost var writtenFor: map<string, string>

    ghost function State(): Store
      reads this
    {
      Store(proposals, memories, evidence, failures, sessions, others, supports, writtenFor, contradicts, used)
    }

    constructor (setup: Setup)
      ensures this.setup == setup && State() == NO_STORE
    {
      this.setup := setup;
      proposals, memories, evidence, failures, sessions := map[], map[], map[], map[], map[];
      others, supports, contradicts, used, writtenFor := {}, {}, {}, 0, map[];
    }

    /** Write a record, unless the limits refuse it. */
    method Charge(doc: Document) returns (fits: bool)
      modifies this`used
      ensures fits == Fits(setup.quota, old(used), setup.quota.size(doc))
      ensures used == old(used) + if fits then setup.quota.size(doc) else 0
    {
      var bytes := setup.quota.size(doc);
      if setup.quota.record != 0 && bytes > setup.quota.record {
        return false;
      }
      if setup.quota.store != 0 && used + bytes > setup.quota.store {
        return false;
      }
      used := used + bytes;
      fits := true;
    }

    method Propose(id: string, proposal: Proposal) returns (stored: bool)
      modifies this`proposals, this`used
      ensures (State(), stored) == Proposing(setup.quota, old(State()), id, proposal)
    {
      stored := Charge(ProposalDoc(proposal, Pending));
      if stored {
        proposals := proposals[id := Entry(proposal, [Pending], false)];
      }
    }

    method StartSession(id: string, account: string)
      modifies this`sessions, this`used
      ensures State() == Starting(setup.quota, old(State()), id, account)
    {
      if Exists(id) {
        return;
      }
      var stored := Charge(SessionDoc(id, true, [], account));
      if stored {
        sessions := sessions[id := Session(true, false, [], account)];
      }
    }

    /** A new copy of a session, unless it has ended or lost its current copy. */
    method UpdateSession(id: string, active: bool, account: string)
      modifies this`sessions, this`used
      ensures State() == Amending(setup.quota, old(State()), id, active, account)
    {
      if id !in sessions || !sessions[id].active || sessions[id].hidden {
        return;
      }
      var now := sessions[id].(active := active, account := account);
      var stored := Charge(SessionDoc(id, now.active, now.failures, now.account));
      if stored {
        sessions := sessions[id := now];
      }
    }

    /** Store the failure, then put it on the account of its session, if that has one. */
    method ReportFailure(id: string, report: FailureReport) returns (logging: Logging)
      modifies this`failures, this`sessions, this`used
      ensures (State(), logging) == Reporting(setup.quota, old(State()), id, report)
    {
      hide Fits;
      var stored := Charge(FailureDoc(report));
      if !stored {
        return Unstored;
      }
      failures := failures[id := report];
      if report.session == "" || report.session !in sessions {
        return Logged;
      }
      var session := sessions[report.session];
      if !session.active || session.hidden {
        return Unlogged;
      }
      if id !in session.failures {
        session := session.(failures := session.failures + [id]);
      }
      stored := Charge(SessionDoc(report.session, session.active, session.failures, session.account));
      if !stored {
        return Unlogged;
      }
      sessions := sessions[report.session := session];
      logging := Logged;
    }

    /** Mark the newest copy of a proposal or a session. */
    method Deprecate(id: string)
      modifies this`proposals, this`sessions
      ensures State() == Hiding(old(State()), id)
    {
      if id in proposals {
        proposals := proposals[id := proposals[id].(hidden := true)];
      }
      if id in sessions {
        sessions := sessions[id := sessions[id].(hidden := true)];
      }
    }

    /** The copy that counts, as `get_proposal` finds it: the newest, or the first when the
        newest is deprecated. */
    method GetProposal(id: string) returns (found: Option<State>)
      ensures found.Some? && found.value.Pending? <==> IsPending(State(), id)
      ensures id in proposals && |proposals[id].states| > 0 ==> found == Some(Read(proposals[id]))
    {
      if id !in proposals || |proposals[id].states| == 0 {
        return None;
      }
      var entry := proposals[id];
      if !entry.hidden {
        return Some(entry.states[|entry.states| - 1]);
      }
      found := Some(entry.states[0]);
    }

    predicate Exists(id: string)
      reads this
      ensures Exists(id) <==> Stored(State(), id)
    {
      id in memories || id in proposals || id in evidence || id in failures || id in sessions || id in others
    }

    /** Look at each record the proposal derives from until one is in conflict. */
    method HasConflictingMemory(x: Proposal) returns (conflicting: bool)
      ensures conflicting == Conflicting(State(), x)
    {
      var i := 0;
      while i < |x.derivation|
        invariant 0 <= i <= |x.derivation|
        invariant forall j :: 0 <= j < i ==> !HasConflict(State(), x.derivation[j])
      {
        var id := x.derivation[i];
        var others := set e | e in contradicts && e.0 == id :: e.1;
        others := (others + set e | e in contradicts && e.1 == id :: e.0) - {id};
        OthersAreJoined(State(), id, others);
        if exists other :: other in others && Exists(other) {
          return true;
        }
        i := i + 1;
      }
      conflicting := false;
    }

    method RouteProposal(id: string) returns (decision: Decision)
      requires id in proposals
      ensures decision == Verdict(setup.mode, setup.policy, State(), id)
    {
      var status := GetProposal(id);
      if status != Some(Pending) {
        return Hold;
      }
      if setup.mode.Human? {
        return Hold;
      }
      var conflicting := HasConflictingMemory(proposals[id].proposal);
      decision := Route(setup.mode, setup.policy, proposals[id].proposal, conflicting);
    }

    /** Each piece of evidence becomes a record of its own with its edge to the memory. */
    method Ground(items: seq<Evidence>, memory: string) returns (whole: bool)
      modifies this`evidence, this`supports, this`used
      ensures (State(), whole) == WriteEvidence(setup.quota, old(State()), items, memory)
    {
      var i := 0;
      while i < |items|
        invariant 0 <= i <= |items|
        invariant WriteEvidence(setup.quota, State(), items[i..], memory)
               == WriteEvidence(setup.quota, old(State()), items, memory)
        invariant proposals == old(proposals) && memories == old(memories) && failures == old(failures)
        invariant sessions == old(sessions) && others == old(others)
        invariant contradicts == old(contradicts) && writtenFor == old(writtenFor)
      {
        hide Fits;
        var x := items[i];
        assert items[i..][0] == x && items[i..][1..] == items[i + 1..];
        if x.id !in evidence {
          var fits := Charge(EvidenceDoc(x, memory));
          if !fits {
            return false;
          }
          evidence := evidence[x.id := x];
        }
        supports := supports + {(x.id, memory)};
        i := i + 1;
      }
      whole := true;
    }

    /** The memory, its evidence, and then the new state of the proposal, each written for
        itself. */
    method Decide(id: string, how: Method, standing: Standing, newId: string) returns (outcome: Outcome)
      modifies this
      ensures (State(), outcome) == Promoting(setup.quota, old(State()), id, how, standing, newId)
    {
      hide Fits, WriteEvidence;
      if id !in proposals {
        return NotFound;
      }
      var status := GetProposal(id);
      if status != Some(Pending) {
        return NotPending;
      }
      var entry := proposals[id];
      var memory := MemoryFor(entry.proposal, how, standing);
      var fits := Charge(MemoryDoc(memory));
      if !fits {
        return TooLarge;
      }
      memories := memories[newId := memory];
      writtenFor := writtenFor[newId := id];
      assert State() == PutMemory(setup.quota, old(State()), id, memory, newId);
      fits := Ground(entry.proposal.evidence, newId);
      if !fits {
        return TooLarge;
      }
      fits := Charge(ProposalDoc(entry.proposal, Promoted(newId)));
      if !fits {
        return TooLarge;
      }
      proposals := proposals[id := entry.(states := entry.states + [Promoted(newId)], hidden := false)];
      outcome := Done(newId);
    }

    method Reject(id: string, reason: string) returns (outcome: Outcome)
      modifies this`proposals, this`used
      ensures (State(), outcome) == Rejecting(setup.quota, old(State()), id, reason)
    {
      if id !in proposals {
        return NotFound;
      }
      var status := GetProposal(id);
      if status != Some(Pending) {
        return NotPending;
      }
      var entry := proposals[id];
      var fits := Charge(ProposalDoc(entry.proposal, Rejected(reason)));
      if !fits {
        return TooLarge;
      }
      proposals := proposals[id := entry.(states := entry.states + [Rejected(reason)], hidden := false)];
      outcome := Held;
    }

    /** On a hold nothing at all is written, and a pending proposal that is to be promoted
        is promoted unless a write is refused. */
    method Submit(id: string, newId: string) returns (outcome: Outcome)
      modifies this
      ensures (State(), outcome) == Submitted(setup.mode, setup.policy, setup.quota, old(State()), id, newId)
      ensures outcome.Held? || outcome.NotFound? ==> State() == old(State())
      ensures outcome.Done? || outcome.TooLarge? <==>
                id in old(proposals) && Verdict(setup.mode, setup.policy, old(State()), id).Promote?
    {
      if id !in proposals {
        return NotFound;
      }
      var decision := RouteProposal(id);
      if decision.Hold? {
        return Held;
      }
      outcome := Decide(id, decision.how, decision.standing, newId);
    }
  }

  // ---- where the lobby meets the database

  const SHORT := 120

  /** Without an approach of its own a failure takes the start of the post. */
  function ApproachOf(post: Lobby.Post): string {
    if post.approach.Some? && post.approach.value != "" then post.approach.value
    else if |post.body| <= SHORT then post.body
    else post.body[..SHORT]
  }

  function ReportOf(post: Lobby.Post, namespace: string, evidence: seq<Evidence>): FailureReport {
    FailureReport(namespace, ApproachOf(post), post.body, post.agent, post.session, evidence)
  }

  /** A report without evidence for each post, in order. */
  function Reports(posts: seq<Lobby.Post>, namespace: string): seq<FailureReport> {
    if |posts| == 0 then [] else [ReportOf(posts[0], namespace, [])] + Reports(posts[1..], namespace)
  }

  /** Report in order until a report fails, and count those that did not; `name` draws their
      ids. */
  function Flushing(q: Quota, s: Store, reports: seq<FailureReport>, first: nat, name: nat -> string): (Store, nat)
    decreases |reports|
  {
    if |reports| == 0 then (s, 0)
    else
      var (t, logging) := Reporting(q, s, name(first), reports[0]);
      if !logging.Logged? then (t, 0)
      else
        var (u, n) := Flushing(q, t, reports[1..], first + 1, name);
        (u, n + 1)
  }

  /** The sessions after one more failure, and the sizes of what that writes. */
  function LoggedOn(sessions: map<string, Session>, id: string, report: FailureReport): map<string, Session> {
    if report.session == "" || report.session !in sessions then sessions
    else sessions[report.session := WithFailure(sessions[report.session], id)]
  }

  function ReportSizes(q: Quota, sessions: map<string, Session>, id: string, report: FailureReport): seq<nat> {
    [q.size(FailureDoc(report))]
    + if report.session == "" || report.session !in sessions then []
      else [SessionBytes(q, report.session, WithFailure(sessions[report.session], id))]
  }

  /** The sizes of all records that reporting in order writes: each failure, and the copy of
      its session that has it. */
  function FlushSizes(q: Quota, sessions: map<string, Session>, reports: seq<FailureReport>, first: nat,
                      name: nat -> string): seq<nat>
    decreases |reports|
  {
    if |reports| == 0 then []
    else
      ReportSizes(q, sessions, name(first), reports[0])
      + FlushSizes(q, LoggedOn(sessions, name(first), reports[0]), reports[1..], first + 1, name)
  }

  /** Every session that a report names and that has a record can log it. */
  predicate AuthorsCanLog(sessions: map<string, Session>, reports: seq<FailureReport>) {
    forall i :: 0 <= i < |reports| && reports[i].session != "" && reports[i].session in sessions ==>
      CanLog(sessions[reports[i].session])
  }

  lemma {:induction false} AllFitConcat(q: Quota, used: nat, a: seq<nat>, b: seq<nat>)
    ensures AllFit(q, used, a + b) <==> AllFit(q, used, a) && AllFit(q, used + Total(a), b)
    decreases |a|
  {
    hide AllFit, Fits;
    if |a| == 0 {
      assert a + b == b;
      NothingFits(q, used);
    } else {
      assert (a + b)[1..] == a[1..] + b;
      AllFitUnfolds(q, used, a + b);
      AllFitUnfolds(q, used, a);
      AllFitConcat(q, used + a[0], a[1..], b);
    }
  }

  /** A failure is reported exactly when its session can log it and the failure and the copy
      of the session fit; it is stored exactly when the failure fits. */
  lemma ReportLogsIff(q: Quota, s: Store, id: string, report: FailureReport)
    ensures var (t, logging) := Reporting(q, s, id, report);
            var sizes := ReportSizes(q, s.sessions, id, report);
            && (logging.Logged? <==> AllFit(q, s.used, sizes) && AuthorsCanLog(s.sessions, [report]))
            && (logging.Unstored? <==> !Fits(q, s.used, sizes[0]))
            && (logging.Logged? ==> t.sessions == LoggedOn(s.sessions, id, report) && t.used == s.used + Total(sizes))
            && t.failures == (if logging.Unstored? then s.failures else s.failures[id := report])
            && t.(failures := s.failures, sessions := s.sessions, used := s.used) == s
  {
    var sizes := ReportSizes(q, s.sessions, id, report);
    AllFitUnfolds(q, s.used, sizes);
    assert [report][0] == report;
    if |sizes| == 2 {
      assert sizes[1..] == [sizes[1]];
      AllFitUnfolds(q, s.used + sizes[0], [sizes[1]]);
      assert [sizes[1]][1..] == [];
      assert Total(sizes) == sizes[0] + Total([sizes[1]]) && Total([sizes[1]]) == sizes[1] + Total([]);
    } else {
      assert sizes[1..] == [] && Total(sizes) == sizes[0];
    }
    NothingFits(q, s.used + Total(sizes));
    NothingFits(q, s.used + sizes[0]);
    hide AllFit, Fits, SessionBytes;
  }

  lemma AuthorsStay(sessions: map<string, Session>, id: string, report: FailureReport, rest: seq<FailureReport>)
    ensures AuthorsCanLog(sessions, [report] + rest)
       <==> AuthorsCanLog(sessions, [report]) && AuthorsCanLog(LoggedOn(sessions, id, report), rest)
  {
    var all := [report] + rest;
    assert all[0] == report && [report][0] == report;
    assert forall i :: 0 <= i < |rest| ==> rest[i] == all[i + 1];
    assert forall i :: 0 < i < |all| ==> all[i] == rest[i - 1];
  }

  /** Every report goes through exactly when every author's session can log and all the
      failures fit together with the copies of the sessions. */
  lemma {:induction false} FlushesAllIff(q: Quota, s: Store, reports: seq<FailureReport>, first: nat,
                                         name: nat -> string)
    ensures Flushing(q, s, reports, first, name).1 <= |reports|
    ensures Flushing(q, s, reports, first, name).1 == |reports|
       <==> AllFit(q, s.used, FlushSizes(q, s.sessions, reports, first, name)) && AuthorsCanLog(s.sessions, reports)
    decreases |reports|
  {
    if |reports| == 0 {
      NothingFits(q, s.used);
    } else {
      var rest, id := reports[1..], name(first);
      var (t, logging) := Reporting(q, s, id, reports[0]);
      ReportLogsIff(q, s, id, reports[0]);
      AuthorsStay(s.sessions, id, reports[0], rest);
      assert reports == [reports[0]] + rest;
      AllFitConcat(q, s.used, ReportSizes(q, s.sessions, id, reports[0]),
                   FlushSizes(q, LoggedOn(s.sessions, id, reports[0]), rest, first + 1, name));
      hide Reporting, AllFit, Fits, AuthorsCanLog, LoggedOn, ReportSizes;
      FlushesAllIff(q, t, rest, first + 1, name);
    }
  }

  /** Nothing but failures and the accounts of sessions changes, and no failure that is
      stored gives way to another. */
  lemma {:induction false} FlushKeeps(q: Quota, s: Store, reports: seq<FailureReport>, first: nat, name: nat -> string,
                                      f: string)
    requires forall i :: first <= i ==> name(i) != f
    ensures var t := Flushing(q, s, reports, first, name).0;
            && (f in s.failures ==> f in t.failures && t.failures[f] == s.failures[f])
            && t.(failures := s.failures, sessions := s.sessions, used := s.used) == s
    decreases |reports|
  {
    if |reports| > 0 {
      ReportLogsIff(q, s, name(first), reports[0]);
      hide Reporting, AllFit, Fits, AuthorsCanLog, LoggedOn, ReportSizes;
      FlushKeeps(q, Reporting(q, s, name(first), reports[0]).0, reports[1..], first + 1, name, f);
    }
  }

  /** Each report that was counted is stored under its id, if later ids differ from it. */
  lemma {:induction false} FlushStores(q: Quota, s: Store, reports: seq<FailureReport>, first: nat, name: nat -> string,
                                       i: nat)
    requires first <= i < first + Flushing(q, s, reports, first, name).1
    requires forall j :: i < j ==> name(j) != name(i)
    ensures var (t, n) := Flushing(q, s, reports, first, name);
            n <= |reports| && name(i) in t.failures && t.failures[name(i)] == reports[i - first]
    decreases |reports|
  {
    FlushesAllIff(q, s, reports, first, name);
    ReportLogsIff(q, s, name(first), reports[0]);
    hide Reporting, AllFit, Fits, AuthorsCanLog, LoggedOn, ReportSizes;
    var t := Reporting(q, s, name(first), reports[0]).0;
    if i == first {
      FlushKeeps(q, t, reports[1..], first + 1, name, name(i));
    } else {
      FlushStores(q, t, reports[1..], first + 1, name, i);
    }
  }

  /** Without any limit: the session of both failures has ended, the first is stored and its
      report fails, and the second is lost. */
  lemma EndedSessionLosesReports(q: Quota, s: Store, a: FailureReport, b: FailureReport, name: nat -> string)
    requires q.record == 0 && q.store == 0 && name(0) != name(1) && name(1) !in s.failures
    requires a.session == b.session != "" && a.session in s.sessions && !s.sessions[a.session].active
    ensures var (t, n) := Flushing(q, s, [a, b], 0, name);
            n == 0 && name(0) in t.failures && t.failures[name(0)] == a && name(1) !in t.failures
  {
    ReportLogsIff(q, s, name(0), a);
    assert [a, b][0] == a && [a][0] == a;
    assert !AuthorsCanLog(s.sessions, [a]);
  }

  /** Room for both failures is not enough: the copy of the session takes some of it. */
  lemma RoomForReportsIsNotEnough(q: Quota, s: Store, a: FailureReport, b: FailureReport, name: nat -> string)
    requires q.store == s.used + q.size(FailureDoc(a)) + q.size(FailureDoc(b)) && q.store > 0
    requires a.session == b.session != "" && a.session in s.sessions
    requires SessionBytes(q, a.session, WithFailure(s.sessions[a.session], name(0))) > 0
    ensures Flushing(q, s, [a, b], 0, name).1 < 2
  {
    var both := [a, b];
    FlushesAllIff(q, s, both, 0, name);
    var sizes := FlushSizes(q, s.sessions, both, 0, name);
    assert both[1..] == [b] && [b][1..] == [];
    var later := LoggedOn(s.sessions, name(0), a);
    var one, two := ReportSizes(q, s.sessions, name(0), a), ReportSizes(q, later, name(1), b);
    assert FlushSizes(q, later, [b], 1, name) == two + [] == two;
    assert sizes == one + two && |one| == 2 && |two| == 2;
    AllFitConcat(q, s.used, one, two);
    assert one[1..] == [one[1]] && Total(one) == one[0] + one[1] + Total([]) by {
      assert [one[1]][1..] == [];
    }
    AllFitUnfolds(q, s.used + Total(one), two);
  }

  lemma {:induction false} ReportsAt(posts: seq<Lobby.Post>, namespace: string)
    ensures |Reports(posts, namespace)| == |posts|
    ensures forall i :: 0 <= i < |posts| ==> Reports(posts, namespace)[i] == ReportOf(posts[i], namespace, [])
  {
    if |posts| > 0 {
      ReportsAt(posts[1..], namespace);
    }
  }

  function Counted(flushed: (Store, nat), before: nat): (Store, nat) {
    (flushed.0, flushed.1 + before)
  }

  lemma FlushUnfolds(q: Quota, s: Store, reports: seq<FailureReport>, i: nat, name: nat -> string)
    requires i <= |reports|
    ensures Flushing(q, s, reports[i..], i, name)
         == if i == |reports| then (s, 0)
            else
              var (t, logging) := Reporting(q, s, name(i), reports[i]);
              if logging.Logged? then Counted(Flushing(q, t, reports[i + 1..], i + 1, name), 1) else (t, 0)
  {
    if i < |reports| {
      assert reports[i..][1..] == reports[i + 1..];
    }
  }

  /** A session that closed a board cannot close it again. */
  lemma ClosesOnce(s: Lobby.Lobby, now: int, later: int, session: string)
    requires Lobby.Closed(s, now, session).1.Accepted?
    ensures Lobby.Closed(Lobby.Closed(s, now, session).0, later, session).1 == Lobby.Refused(Lobby.NoBoard)
  {
  }

  /** `NotStored` is the storage limit refusing the record, and `Unmarked` a failure that is
      stored while its report failed. */
  datatype Shared = Proposed(id: string) | Reported(id: string) | NotShared(why: Lobby.Reason) | NotStored
                  | Unmarked(id: string)

  /** The post a session asks for on its board, or why there is none. */
  function PostAt(l: Lobby.Lobby, now: int, session: string, id: string): Option<(Lobby.Board, Lobby.Post)> {
    var seen, here := Lobby.Looked(l, now, session), Lobby.BoardOf(l, session);
    if !l.config.enabled || here.None? || here.value !in seen.boards then None
    else
      var board := seen.boards[here.value];
      var place := Lobby.Locate(board.posts, id);
      if place.None? then None else Some((board, board.posts[place.value]))
  }

  /** A failure becomes a failure report, anything else a pending proposal, with the evidence
      of everyone behind the post; and the post says what it became when that went through. */
  function Sharing(q: Quota, l: Lobby.Lobby, s: Store, now: int, session: string, agent: string, postId: string,
                   newId: string, name: nat -> string): (Lobby.Lobby, Store, Shared)
  {
    var seen, here := Lobby.Looked(l, now, session), Lobby.BoardOf(l, session);
    if !l.config.enabled then (l, s, NotShared(Lobby.Disabled))
    else if here.None? then (seen, s, NotShared(Lobby.NoBoard))
    else
      match PostAt(l, now, session, postId)
      case None => (seen, s, NotShared(Lobby.NoPost))
      case Some((board, post)) =>
        var marked := Lobby.Promoted(seen, here.value, postId, newId);
        if post.kind.Failure? then
          var (t, logging) := Reporting(q, s, newId, ReportOf(post, board.namespace, EvidenceFor(post, name)));
          match logging
          case Logged => (marked, t, Reported(newId))
          case Unlogged => (seen, t, Unmarked(newId))
          case Unstored => (seen, t, NotStored)
        else
          var (t, stored) := Proposing(q, s, newId, FromPost(post, board.namespace, agent, name));
          if stored then (marked, t, Proposed(newId)) else (seen, t, NotStored)
  }

  /** A failure is stored and its post left as it was exactly when the failure fits and the
      session of its author has a record that cannot log it, or whose copy does not fit. */
  lemma UnmarkedIff(q: Quota, l: Lobby.Lobby, s: Store, now: int, session: string, agent: string, postId: string,
                    newId: string, name: nat -> string)
    requires PostAt(l, now, session, postId).Some? && PostAt(l, now, session, postId).value.1.kind.Failure?
    ensures var (board, post) := PostAt(l, now, session, postId).value;
            var report := ReportOf(post, board.namespace, EvidenceFor(post, name));
            var (after, t, outcome) := Sharing(q, l, s, now, session, agent, postId, newId, name);
            && (outcome == Unmarked(newId) <==>
                  && Fits(q, s.used, q.size(FailureDoc(report)))
                  && !(AllFit(q, s.used, ReportSizes(q, s.sessions, newId, report))
                       && AuthorsCanLog(s.sessions, [report])))
            && (outcome == Unmarked(newId) ==>
                  after == Lobby.Looked(l, now, session) && t.failures == s.failures[newId := report])
  {
    var (board, post) := PostAt(l, now, session, postId).value;
    ReportLogsIff(q, s, newId, ReportOf(post, board.namespace, EvidenceFor(post, name)));
    hide Reporting, AllFit, Fits, AuthorsCanLog, LoggedOn, ReportOf, EvidenceFor, FromPost, Proposing;
  }

  /** Without limits: the author's session has ended, so promoting a failure twice stores it
      twice and never marks its post. */
  lemma EndedSessionStoresTwice(q: Quota, l: Lobby.Lobby, s: Store, now: int, session: string, agent: string,
                                postId: string, f: string, g: string, name: nat -> string)
    requires q.record == 0 && q.store == 0 && l.config.ttl == 0 && f != g
    requires PostAt(l, now, session, postId).Some? && PostAt(l, now, session, postId).value.1.kind.Failure?
    requires var author := PostAt(l, now, session, postId).value.1.session;
             author != "" && author in s.sessions && !s.sessions[author].active
    ensures var (once, t, first) := Sharing(q, l, s, now, session, agent, postId, f, name);
            var (twice, u, second) := Sharing(q, once, t, now, session, agent, postId, g, name);
            && first == Unmarked(f) && second == Unmarked(g) && once == twice
            && f in u.failures && g in u.failures && u.failures[f] == u.failures[g]
  {
    var (board, post) := PostAt(l, now, session, postId).value;
    var report := ReportOf(post, board.namespace, EvidenceFor(post, name));
    assert [report][0].session == post.session;
    assert Lobby.Looked(l, now, session) == l;
    UnmarkedIff(q, l, s, now, session, agent, postId, f, name);
    ReportLogsIff(q, s, f, report);
    hide Sharing, AllFit, ReportSizes, Lobby.Looked, EvidenceFor;
    var (once, t, first) := Sharing(q, l, s, now, session, agent, postId, f, name);
    UnmarkedIff(q, once, t, now, session, agent, postId, g, name);
  }

  class LobbySurface {
    const lobby: Lobby.LobbyStore
    const engine: PromotionEngine

    constructor (lobby: Lobby.LobbyStore, engine: PromotionEngine)
      ensures this.lobby == lobby && this.engine == engine
    {
      this.lobby, this.engine := lobby, engine;
    }

    method GatherEvidence(post: Lobby.Post, name: nat -> string) returns (evidence: seq<Evidence>)
      ensures evidence == EvidenceFor(post, name)
    {
      evidence := [Evidence(name(0), Some(post.agent))];
      var i := 0;
      while i < |post.corroborations|
        invariant 0 <= i <= |post.corroborations|
        invariant evidence == EvidenceFor(post, name)[..i + 1]
      {
        evidence := evidence + [Evidence(name(i + 1), Some(post.corroborations[i].agent))];
        i := i + 1;
      }
    }

    method Promote(now: int, session: string, agent: string, postId: string, newId: string, name: nat -> string)
      returns (outcome: Shared)
      requires lobby.Valid()
      modifies lobby, engine
      ensures lobby.Valid()
      ensures (lobby.State(), engine.State(), outcome)
           == Sharing(engine.setup.quota, old(lobby.State()), old(engine.State()), now, session, agent, postId, newId,
                      name)
      ensures outcome.NotShared? || outcome.NotStored? ==> engine.State() == old(engine.State())
    {
      var found, why := lobby.TakePost(now, session, postId);
      if found.None? {
        return NotShared(why);
      }
      var (b, post) := found.value;
      var evidence := GatherEvidence(post, name);
      var namespace := lobby.boards[b].namespace;
      if post.kind.Failure? {
        var logging := engine.ReportFailure(newId, ReportOf(post, namespace, evidence));
        if logging.Unlogged? {
          return Unmarked(newId);
        } else if logging.Unstored? {
          return NotStored;
        }
        outcome := Reported(newId);
      } else {
        var confidence := if |post.corroborations| > 0 then 0.6 else 0.5;
        var stored := engine.Propose(newId, Proposal(namespace, post.body, evidence, confidence, Some(agent), []));
        if !stored {
          return NotStored;
        }
        outcome := Proposed(newId);
      }
      lobby.MarkPromoted(b, postId, newId);
    }

    /** Closing a board reports the failures nobody had promoted, in order. The board is
        closed first, so when a report fails those after it are lost. */
    method Close(now: int, session: string, name: nat -> string)
      returns (reply: Lobby.Reply, flushed: seq<FailureReport>, complete: bool)
      requires lobby.Valid()
      modifies lobby, engine
      ensures lobby.Valid()
      ensures (lobby.State(), reply) == Lobby.Closed(old(lobby.State()), now, session)
      ensures reply.Refused? ==> flushed == [] && !complete && engine.State() == old(engine.State())
      ensures reply.Accepted? ==>
                var s := old(lobby.State());
                var board := Lobby.Looked(s, now, session).boards[Lobby.BoardOf(s, session).value];
                var reports := Reports(Lobby.UnpromotedFailures(board.posts), board.namespace);
                var (after, n) := Flushing(engine.setup.quota, old(engine.State()), reports, 0, name);
                && engine.State() == after
                && n <= |reports| && flushed == reports[..n]
                && (complete <==>
                      && AllFit(engine.setup.quota, old(engine.used),
                                FlushSizes(engine.setup.quota, old(engine.sessions), reports, 0, name))
                      && AuthorsCanLog(old(engine.sessions), reports))
                && (complete <==> n == |reports|)
    {
      var here := Lobby.BoardOf(lobby.State(), session);
      var namespace := if here.Some? then lobby.boards[here.value].namespace else "default";
      var posts;
      reply, posts := lobby.Close(now, session);
      flushed, complete := [], false;
      if reply.Refused? {
        return;
      }
      flushed, complete := Flush(posts, namespace, name);
      FlushesAllIff(engine.setup.quota, old(engine.State()), Reports(posts, namespace), 0, name);
    }

    /** Report each post until a report fails. */
    method Flush(posts: seq<Lobby.Post>, namespace: string, name: nat -> string)
      returns (flushed: seq<FailureReport>, complete: bool)
      modifies engine`failures, engine`sessions, engine`used
      ensures var reports := Reports(posts, namespace);
              var (after, n) := Flushing(engine.setup.quota, old(engine.State()), reports, 0, name);
              && engine.State() == after
              && n <= |reports| && flushed == reports[..n]
              && (complete <==> n == |reports|)
    {
      hide Reports, Flushing, Fits, ReportOf;
      flushed, complete := [], true;
      var i := 0;
      ghost var reports := Reports(posts, namespace);
      ghost var start := engine.State();
      ReportsAt(posts, namespace);
      assert reports[0..] == reports;
      while i < |posts|
        invariant 0 <= i <= |posts|
        invariant flushed == reports[..i]
        invariant Flushing(engine.setup.quota, start, reports, 0, name)
               == Counted(Flushing(engine.setup.quota, engine.State(), reports[i..], i, name), i)
        modifies engine`failures, engine`sessions, engine`used
      {
        FlushUnfolds(engine.setup.quota, engine.State(), reports, i, name);
        var report := ReportOf(posts[i], namespace, []);
        var logging := engine.ReportFailure(name(i), report);
        if !logging.Logged? {
          complete := false;
          return;
        }
        flushed := flushed + [report];
        i := i + 1;
      }
      FlushUnfolds(engine.setup.quota, engine.State(), reports, i, name);
    }
  }
}
