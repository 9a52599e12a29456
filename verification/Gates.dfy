/** Which proposals each mode lets through, and what a promotion, a rejection and a lobby post
    leave in the store, told field by field. */
module Gates {
  import opened Prelude
  import opened Promotion
  import Lobby
  import Boards

  // ---- which proposals pass

  /** Something the proposal derives from has a contradiction edge, either way round, with
      another record of the store. */
  ghost predicate Contradicted(s: Store, x: Proposal) {
    exists i, other :: 0 <= i < |x.derivation| && IsContradiction(s, x.derivation[i], other)
  }

  ghost predicate IsContradiction(s: Store, id: string, other: string) {
    && other != id
    && ((id, other) in s.contradicts || (other, id) in s.contradicts)
    && (other in s.memories || other in s.proposals || other in s.evidence || other in s.failures
        || other in s.sessions || other in s.others)
  }

  lemma ConflictingIff(s: Store, x: Proposal)
    ensures Conflicting(s, x) <==> Contradicted(s, x)
  {
    forall i | 0 <= i < |x.derivation|
      ensures HasConflict(s, x.derivation[i]) <==> exists other :: IsContradiction(s, x.derivation[i], other)
    {
      ConflictIff(s, x.derivation[i]);
    }
  }

  lemma ConflictIff(s: Store, id: string)
    ensures HasConflict(s, id) <==> exists other :: IsContradiction(s, id, other)
  {
    if HasConflict(s, id) {
      var e :| e in s.contradicts &&
        ((e.0 == id && e.1 != id && Stored(s, e.1)) || (e.1 == id && e.0 != id && Stored(s, e.0)));
      assert IsContradiction(s, id, if e.0 == id then e.1 else e.0);
    }
    if other :| IsContradiction(s, id, other) {
      var e := if (id, other) in s.contradicts then (id, other) else (other, id);
      assert e in s.contradicts && Stored(s, other);
    }
  }

  ghost predicate EvidenceGate(p: Policy, x: Proposal) {
    p.requireEvidence ==> |x.evidence| >= p.minimumItems
  }

  ghost predicate TrustGate(p: Policy, x: Proposal) {
    p.trusted.None? || exists name :: name in p.trusted.value && x.agent == Some(name)
  }

  /** Verified from the verified line on, provisional below it. */
  ghost predicate Earns(p: Policy, x: Proposal, standing: Standing) {
    && (standing == Verified <==> x.confidence >= p.verifiedConfidence)
    && (standing == Provisional <==> x.confidence < p.verifiedConfidence)
  }

  /** Automatic mode promotes exactly what has its evidence, its confidence and its trust, and
      no contradiction. */
  lemma AutomaticPromotesIff(p: Policy, s: Store, id: string, how: Method, standing: Standing)
    requires IsPending(s, id)
    ensures var x := s.proposals[id].proposal;
            Verdict(Automatic, p, s, id) == Promote(how, standing) <==>
              && how == ByAutomatic && Earns(p, x, standing)
              && EvidenceGate(p, x) && x.confidence >= p.minConfidence && TrustGate(p, x) && !Contradicted(s, x)
  {
    ConflictingIff(s, s.proposals[id].proposal);
    hide Conflicting, Contradicted;
  }

  /** Hybrid mode promotes the same, if the confidence is above the risk line. */
  lemma HybridPromotesIff(p: Policy, s: Store, id: string, how: Method, standing: Standing)
    requires IsPending(s, id)
    ensures var x := s.proposals[id].proposal;
            Verdict(Hybrid, p, s, id) == Promote(how, standing) <==>
              && how == ByAutomatic && Earns(p, x, standing) && x.confidence > p.riskConfidence
              && EvidenceGate(p, x) && x.confidence >= p.minConfidence && TrustGate(p, x) && !Contradicted(s, x)
  {
    ConflictingIff(s, s.proposals[id].proposal);
    hide Conflicting, Contradicted;
  }

  /** Consensus mode promotes exactly what has its evidence, by enough distinct authors, and no
      contradiction; those without a name count as one. */
  lemma ConsensusPromotesIff(p: Policy, s: Store, id: string, how: Method, standing: Standing)
    requires IsPending(s, id)
    ensures var x := s.proposals[id].proposal;
            Verdict(Consensus, p, s, id) == Promote(how, standing) <==>
              && how == ByConsensus && Earns(p, x, standing)
              && EvidenceGate(p, x) && |set e | e in x.evidence :: e.agent| >= p.threshold && !Contradicted(s, x)
  {
    var x := s.proposals[id].proposal;
    ConflictingIff(s, x);
    hide Conflicting, Contradicted;
    assert Authors(x.evidence) == set e | e in x.evidence :: e.agent;
  }

  /** Human mode promotes nothing, and nobody promotes what is not pending. */
  lemma OtherwiseHeld(mode: Mode, p: Policy, s: Store, id: string)
    requires id in s.proposals && (mode.Human? || !IsPending(s, id))
    ensures Verdict(mode, p, s, id) == Hold
  {
  }

  // ---- what a promotion leaves

  /** The memory of a proposal: what it found, where, how sure, from what and by whom, with the
      standing and the way in that were decided. */
  ghost predicate Says(m: Memory, x: Proposal, how: Method, standing: Standing) {
    && m.namespace == x.namespace && m.discovery == x.discovery && m.confidence == x.confidence
    && m.derivedFrom == x.derivation && m.agent == x.agent && m.how == how && m.standing == standing
  }

  /** Every item of the evidence is a record with an edge to the memory. */
  ghost predicate Supported(s: Store, items: seq<Evidence>, memory: string) {
    forall i :: 0 <= i < |items| ==> items[i].id in s.evidence && (items[i].id, memory) in s.supports
  }

  /** A record of evidence that is new holds one of the items under its id, and one that was
      there stays. */
  ghost predicate Recorded(s: Store, t: Store, items: seq<Evidence>) {
    && (forall k :: k in s.evidence ==> k in t.evidence && t.evidence[k] == s.evidence[k])
    && forall k :: k in t.evidence && k !in s.evidence ==>
         exists i :: 0 <= i < |items| && items[i].id == k && t.evidence[k] == items[i]
  }

  ghost predicate OnlyEdgesTo(s: Store, t: Store, items: seq<Evidence>, memory: string) {
    forall e :: e in t.supports && e !in s.supports ==>
      e.1 == memory && exists i :: 0 <= i < |items| && items[i].id == e.0
  }

  lemma OneMoreItem(s: Store, next: Store, t: Store, items: seq<Evidence>, memory: string)
    requires |items| > 0 && Recorded(next, t, items[1..]) && OnlyEdgesTo(next, t, items[1..], memory)
    requires next.evidence == s.evidence || (items[0].id !in s.evidence
                                             && next.evidence == s.evidence[items[0].id := items[0]])
    requires next.supports == s.supports + {(items[0].id, memory)}
    ensures Recorded(s, t, items) && OnlyEdgesTo(s, t, items, memory)
  {
    assert forall i :: 0 <= i < |items| - 1 ==> items[1..][i] == items[i + 1];
  }

  /** Writing evidence records its items and adds no edge but theirs. */
  lemma {:induction false} EvidenceIsRecorded(q: Quota, s: Store, items: seq<Evidence>, memory: string)
    ensures var t := WriteEvidence(q, s, items, memory).0; Recorded(s, t, items) && OnlyEdgesTo(s, t, items, memory)
    decreases |items|
  {
    if |items| > 0 {
      var x := items[0];
      var next := if x.id in s.evidence then s.(supports := s.supports + {(x.id, memory)})
                  else PutEvidence(q, s, x, memory);
      EvidenceIsRecorded(q, next, items[1..], memory);
      OneMoreItem(s, next, WriteEvidence(q, next, items[1..], memory).0, items, memory);
      hide Recorded, OnlyEdgesTo, Fits;
      NothingRecorded(s, items, memory);
    }
  }

  lemma NothingRecorded(s: Store, items: seq<Evidence>, memory: string)
    ensures Recorded(s, s, items) && OnlyEdgesTo(s, s, items, memory)
  {
  }

  /** Without limits a pending proposal is promoted: a memory that says what it says, supported
      by all its evidence, and the proposal names it. Nothing else about proposals and memories
      changes. */
  lemma PromotionLeaves(q: Quota, s: Store, id: string, how: Method, standing: Standing, newId: string)
    requires q.record == 0 && q.store == 0 && IsPending(s, id) && newId !in s.memories
    ensures var (t, outcome) := Promoting(q, s, id, how, standing, newId);
            var x := s.proposals[id].proposal;
            && outcome == Done(newId)
            && newId in t.memories && Says(t.memories[newId], x, how, standing)
            && t.memories == s.memories[newId := t.memories[newId]]
            && Supported(t, x.evidence, newId) && Recorded(s, t, x.evidence)
            && t.proposals == s.proposals[id := Entry(x, s.proposals[id].states + [Promoted(newId)], false)]
  {
    hide Recorded;
    RecordedFrom(q, s, id, how, standing, newId);
    PromotionCompletesIff(q, s, id, how, standing, newId);
    hide Promoting, WriteEvidence, Missing, EvidenceSizes;
  }

  lemma RecordedFrom(q: Quota, s: Store, id: string, how: Method, standing: Standing, newId: string)
    requires q.record == 0 && q.store == 0 && IsPending(s, id)
    ensures Recorded(s, Promoting(q, s, id, how, standing, newId).0, s.proposals[id].proposal.evidence)
  {
    var x := s.proposals[id].proposal;
    var first := PutMemory(q, s, id, MemoryFor(x, how, standing), newId);
    EvidenceIsRecorded(q, first, x.evidence, newId);
    hide WriteEvidence, IsPending;
  }

  /** So the engine, without limits, ends a submission with a promotion exactly when the gates
      of its mode let the proposal through; the memory has the standing it earns. On a hold the
      store is as it was. */
  lemma SubmissionEnds(mode: Mode, p: Policy, q: Quota, s: Store, id: string, newId: string)
    requires q.record == 0 && q.store == 0 && IsPending(s, id) && newId !in s.memories
    ensures var (t, outcome) := Submitted(mode, p, q, s, id, newId);
            var x := s.proposals[id].proposal;
            var passes := match mode
                          case Automatic =>
                            EvidenceGate(p, x) && x.confidence >= p.minConfidence && TrustGate(p, x)
                            && !Contradicted(s, x)
                          case Hybrid =>
                            x.confidence > p.riskConfidence
                            && EvidenceGate(p, x) && x.confidence >= p.minConfidence && TrustGate(p, x)
                            && !Contradicted(s, x)
                          case Consensus =>
                            EvidenceGate(p, x) && |set e | e in x.evidence :: e.agent| >= p.threshold
                            && !Contradicted(s, x)
                          case Human => false;
            if !passes then outcome == Held && t == s
            else
              var how := if mode.Consensus? then ByConsensus else ByAutomatic;
              var standing := if x.confidence >= p.verifiedConfidence then Verified else Provisional;
              && outcome == Done(newId)
              && newId in t.memories && Says(t.memories[newId], x, how, standing)
              && Supported(t, x.evidence, newId)
              && t.proposals == s.proposals[id := Entry(x, s.proposals[id].states + [Promoted(newId)], false)]
  {
    var x := s.proposals[id].proposal;
    var standing := if x.confidence >= p.verifiedConfidence then Verified else Provisional;
    var how := if mode.Consensus? then ByConsensus else ByAutomatic;
    assert Earns(p, x, standing);
    match mode {
      case Automatic => AutomaticPromotesIff(p, s, id, how, standing);
      case Hybrid => HybridPromotesIff(p, s, id, how, standing);
      case Consensus => ConsensusPromotesIff(p, s, id, how, standing);
      case Human => OtherwiseHeld(mode, p, s, id);
    }
    StandingIsEarned(mode, p, s, id, how, standing);
    PromotionLeaves(q, s, id, how, standing, newId);
    hide Promoting, Says, Supported, Contradicted, EvidenceGate, TrustGate, Earns, Verdict, IsPending;
  }

  lemma StandingIsEarned(mode: Mode, p: Policy, s: Store, id: string, how: Method, standing: Standing)
    requires IsPending(s, id) && Earns(p, s.proposals[id].proposal, standing)
    requires how == if mode.Consensus? then ByConsensus else ByAutomatic
    ensures Verdict(mode, p, s, id).Promote? ==> Verdict(mode, p, s, id) == Promote(how, standing)
  {
    hide Conflicting, Authors;
  }

  /** A rejection that fits adds the rejected state with its reason and no memory. */
  lemma RejectionLeaves(q: Quota, s: Store, id: string, reason: string)
    requires IsPending(s, id)
    ensures var (t, outcome) := Rejecting(q, s, id, reason);
            var e := s.proposals[id];
            var bytes := q.size(ProposalDoc(e.proposal, Rejected(reason)));
            var fits := (q.record == 0 || bytes <= q.record) && (q.store == 0 || s.used + bytes <= q.store);
            && outcome == (if fits then Held else TooLarge)
            && t.memories == s.memories && t.writtenFor == s.writtenFor
            && t.proposals
               == if fits then s.proposals[id := Entry(e.proposal, e.states + [Rejected(reason)], false)]
                  else s.proposals
  {
  }

  // ---- what is put on a session's account

  /** A new session is active and empty, unless the id is taken or the record does not fit. */
  lemma SessionStarts(q: Quota, s: Store, id: string, account: string)
    requires q.record == 0 && q.store == 0 && !Stored(s, id)
    ensures var t := Starting(q, s, id, account);
            t.sessions == s.sessions[id := Session(true, false, [], account)] && t.proposals == s.proposals
  {
  }

  /** An active session with a current copy takes what is written to it and keeps its failures;
      another one stays as it is. */
  lemma SessionIsAmended(q: Quota, s: Store, id: string, active: bool, account: string)
    requires q.record == 0 && q.store == 0 && id in s.sessions
    ensures var t, was := Amending(q, s, id, active, account), s.sessions[id];
            t.sessions == if was.active && !was.hidden
                          then s.sessions[id := Session(active, false, was.failures, account)] else s.sessions
  {
  }

  /** A failure that is reported is listed once on the account of its session, behind the
      failures that were, and no other account changes; one that is not is on no account. */
  lemma FailureIsListed(q: Quota, s: Store, id: string, report: FailureReport)
    ensures var (t, logging) := Reporting(q, s, id, report);
            var own := report.session;
            && (logging.Logged? && own != "" && own in s.sessions ==>
                  && own in t.sessions && t.sessions == s.sessions[own := t.sessions[own]]
                  && t.sessions[own].failures
                     == (if id in s.sessions[own].failures then s.sessions[own].failures
                         else s.sessions[own].failures + [id])
                  && t.sessions[own].active == s.sessions[own].active
                  && t.sessions[own].account == s.sessions[own].account)
            && (!logging.Logged? || own == "" || own !in s.sessions ==> t.sessions == s.sessions)
  {
    hide Fits, SessionBytes;
  }

  // ---- what a lobby post becomes

  /** One item by the author, then one by each corroborator in order, under the drawn ids. */
  ghost predicate Gathers(evidence: seq<Evidence>, post: Lobby.Post, name: nat -> string) {
    && |evidence| == |post.corroborations| + 1
    && evidence[0].agent == Some(post.agent)
    && (forall i :: 0 <= i < |post.corroborations| ==> evidence[i + 1].agent == Some(post.corroborations[i].agent))
    && forall i :: 0 <= i < |evidence| ==> evidence[i].id == name(i)
  }

  /** A discovery or question becomes a pending proposal that says what the post said, in the
      namespace of its board, by whoever promotes it and with everyone's evidence. */
  lemma PostBecomesProposal(q: Quota, l: Lobby.Lobby, s: Store, now: int, session: string, agent: string,
                            postId: string, newId: string, name: nat -> string)
    requires PostAt(l, now, session, postId).Some? && !PostAt(l, now, session, postId).value.1.kind.Failure?
    requires q.record == 0 && q.store == 0
    ensures var (board, post) := PostAt(l, now, session, postId).value;
            var (after, t, outcome) := Sharing(q, l, s, now, session, agent, postId, newId, name);
            && outcome == Proposed(newId)
            && newId in t.proposals && t.proposals == s.proposals[newId := t.proposals[newId]]
            && t.proposals[newId].states == [Pending] && !t.proposals[newId].hidden
            && var x := t.proposals[newId].proposal;
               && x.namespace == board.namespace && x.discovery == post.body && Gathers(x.evidence, post, name)
               && x.confidence == (if post.corroborations == [] then 0.5 else 0.6)
               && x.agent == Some(agent) && x.derivation == []
  {
    var (board, post) := PostAt(l, now, session, postId).value;
    EvidenceGathers(post, name);
    hide EvidenceFor, Gathers, Lobby.Promoted, Lobby.Looked;
  }

  lemma EvidenceGathers(post: Lobby.Post, name: nat -> string)
    ensures Gathers(EvidenceFor(post, name), post, name)
  {
  }

  /** A failure becomes a failure report: what was tried, or the start of the post when it does
      not say, what failed, and by whom in which session. */
  lemma PostBecomesFailure(q: Quota, l: Lobby.Lobby, s: Store, now: int, session: string, agent: string,
                           postId: string, newId: string, name: nat -> string)
    requires PostAt(l, now, session, postId).Some? && PostAt(l, now, session, postId).value.1.kind.Failure?
    requires q.record == 0 && q.store == 0
    ensures var (board, post) := PostAt(l, now, session, postId).value;
            var (after, t, outcome) := Sharing(q, l, s, now, session, agent, postId, newId, name);
            && newId in t.failures && t.failures == s.failures[newId := t.failures[newId]]
            && IsReport(t.failures[newId], post, board.namespace) && Gathers(t.failures[newId].evidence, post, name)
  {
    var (board, post) := PostAt(l, now, session, postId).value;
    EvidenceGathers(post, name);
    ReportSays(post, board.namespace, EvidenceFor(post, name));
    ReportLogsIff(q, s, newId, ReportOf(post, board.namespace, EvidenceFor(post, name)));
    hide EvidenceFor, Gathers, Lobby.Promoted, Lobby.Looked, Reporting, ReportOf, IsReport, ReportSizes, AllFit;
  }

  /** The post that was shared names what it became, and one that was not is as it was; no other
      post and no other board changes, but for what expired. */
  lemma SharedPostIsMarked(q: Quota, l: Lobby.Lobby, s: Store, now: int, session: string, agent: string,
                           postId: string, newId: string, name: nat -> string, b: string)
    returns (posts: seq<Lobby.Post>, i: nat)
    requires l.config.enabled && Boards.On(l, session, b)
    requires exists p :: p in l.boards[b].posts && Boards.InTime(l.config, now, p) && p.id == postId
    ensures Boards.StillThere(l, b, now, posts) && Boards.IsFirst(posts, i, postId)
    ensures var (after, t, outcome) := Sharing(q, l, s, now, session, agent, postId, newId, name);
            && (outcome.Proposed? || outcome.Reported? ==> outcome.id == newId)
            && (outcome.Reported? ==> posts[i].kind.Failure?) && (outcome.Proposed? ==> !posts[i].kind.Failure?)
            && Boards.OnlyBoard(l, after, b) && after.bySession == l.bySession
            && after.boards[b] == l.boards[b].(posts :=
                 if outcome.Proposed? || outcome.Reported? then posts[i := posts[i].(promotedTo := Some(newId))]
                 else posts)
  {
    hide Lobby.Expire, Lobby.BoardOf, Filter, Reporting, Proposing, EvidenceFor, ReportOf, FromPost;
    Boards.OnIsBoardOf(l, session);
    Boards.ExpiryKeeps(l, b, now);
    posts := Lobby.Expire(l.config, l.boards[b], now).posts;
    var p :| p in l.boards[b].posts && Boards.InTime(l.config, now, p) && p.id == postId;
    assert Boards.InTimeAt(l.config, now)(p) && p in posts;
    i := Lobby.Locate(posts, postId).value;
    hide Lobby.Locate, Boards.StillThere, Boards.InTime, Boards.InTimeAt;
  }

  ghost predicate IsReport(r: FailureReport, post: Lobby.Post, namespace: string) {
    && r.namespace == namespace && r.failed == post.body && r.agent == post.agent && r.session == post.session
    && (if post.approach.Some? && post.approach.value != "" then Some(r.approach) == post.approach
        else r.approach <= post.body && |r.approach| == if |post.body| < 120 then |post.body| else 120)
  }

  lemma ReportSays(post: Lobby.Post, namespace: string, evidence: seq<Evidence>)
    ensures IsReport(ReportOf(post, namespace, evidence), post, namespace)
    ensures ReportOf(post, namespace, evidence).evidence == evidence
  {
  }

  /** The reports of a closed board, one for each post it hands over, in order. */
  lemma ReportsSay(posts: seq<Lobby.Post>, namespace: string)
    ensures |Reports(posts, namespace)| == |posts|
    ensures forall i :: 0 <= i < |posts| ==>
              IsReport(Reports(posts, namespace)[i], posts[i], namespace) && Reports(posts, namespace)[i].evidence == []
  {
    ReportsAt(posts, namespace);
    forall i | 0 <= i < |posts|
      ensures IsReport(Reports(posts, namespace)[i], posts[i], namespace) && Reports(posts, namespace)[i].evidence == []
    {
      ReportSays(posts[i], namespace, []);
    }
  }
}
