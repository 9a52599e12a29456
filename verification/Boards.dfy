/** What the operations of the lobby do to its boards, told field by field. */
module Boards {
  import opened Prelude
  import opened L = Lobby

  /** The session is on the open board `b`. */
  predicate On(s: Lobby, session: string, b: string) {
    && session != "" && session in s.bySession && s.bySession[session] == b
    && b != "" && b in s.boards && s.boards[b].open
  }

  predicate IsNowhere(s: Lobby, session: string) {
    session != "" && session in s.bySession ==> !On(s, session, s.bySession[session])
  }

  predicate InTime(config: Config, now: int, post: Post) {
    config.ttl == 0 || now - post.createdAt <= config.ttl
  }

  function InTimeAt(config: Config, now: int): Post -> bool {
    post => InTime(config, now, post)
  }

  /** `posts` are the posts of the board that are still within their time, in order. */
  ghost predicate StillThere(s: Lobby, b: string, now: int, posts: seq<Post>) {
    b in s.boards && posts == Filter(s.boards[b].posts, InTimeAt(s.config, now))
  }

  predicate HasRoom(s: Lobby, b: string, session: string)
    requires b in s.boards
  {
    s.config.maxAgents == 0 || session in s.boards[b].participants || |s.boards[b].participants| < s.config.maxAgents
  }

  /** All boards but `b` are as they were. */
  ghost predicate OnlyBoard(s: Lobby, t: Lobby, b: string) {
    t.config == s.config && b in t.boards && t.boards == s.boards[b := t.boards[b]]
  }

  lemma {:induction false} UnexpiredAre(config: Config, posts: seq<Post>, now: int)
    ensures Filter(posts, InTimeAt(config, now)) == if config.ttl == 0 then posts else Unexpired(posts, now, config.ttl)
  {
    if |posts| > 0 {
      UnexpiredAre(config, posts[..|posts| - 1], now);
      assert posts == posts[..|posts| - 1] + [posts[|posts| - 1]];
    }
  }

  /** Looking a board up keeps exactly the posts within their time. */
  lemma ExpiryKeeps(s: Lobby, b: string, now: int)
    requires b in s.boards
    ensures StillThere(s, b, now, Expire(s.config, s.boards[b], now).posts)
    ensures Expire(s.config, s.boards[b], now).(posts := s.boards[b].posts) == s.boards[b]
  {
    UnexpiredAre(s.config, s.boards[b].posts, now);
  }

  lemma OnIsBoardOf(s: Lobby, session: string)
    ensures forall b :: On(s, session, b) <==> BoardOf(s, session) == Some(b)
    ensures IsNowhere(s, session) <==> BoardOf(s, session).None?
  {
  }

  // ---- corroborating

  predicate IsOwn(post: Post, session: string, agent: string) {
    post.session == session || post.agent == agent
  }

  predicate HasSpoken(post: Post, session: string, agent: string) {
    exists i :: 0 <= i < |post.corroborations|
             && (post.corroborations[i].session == session || post.corroborations[i].agent == agent)
  }

  /** The first post of a list with the id. */
  ghost predicate IsFirst(posts: seq<Post>, i: nat, id: string) {
    i < |posts| && posts[i].id == id && forall j :: 0 <= j < i ==> posts[j].id != id
  }

  /** Of someone who is neither the author nor has spoken, a corroboration adds one row with
      agent and session to the post; of anyone else it adds nothing. Every other field, post
      and board is as it was, but for what expired. */
  lemma CorroborationIsRecorded(s: Lobby, now: int, session: string, agent: string, id: string, b: string)
    returns (posts: seq<Post>, i: nat)
    requires s.config.enabled && On(s, session, b) && HasRoom(s, b, session)
    requires exists p :: p in s.boards[b].posts && InTime(s.config, now, p) && p.id == id
    ensures StillThere(s, b, now, posts) && IsFirst(posts, i, id)
    ensures var (t, reply) := Corroborated(s, now, session, agent, id);
            var p, own := posts[i], IsOwn(posts[i], session, agent);
            && OnlyBoard(s, t, b)
            && reply == (if own then Refused(OwnPost) else Accepted)
            && t.boards[b].posts == (if own || HasSpoken(p, session, agent) then posts
                                     else posts[i := Post(p.id, p.session, p.agent, p.kind, p.body, p.approach,
                                                          p.corroborations + [Corroboration(agent, session)],
                                                          p.promotedTo, p.createdAt)])
            && t.boards[b].participants
               == (if own || HasSpoken(p, session, agent) then s.boards[b].participants
                   else s.boards[b].participants + {session})
            && t.boards[b].(posts := s.boards[b].posts, participants := s.boards[b].participants,
                            presence := s.boards[b].presence) == s.boards[b]
            && t.bySession == s.bySession
  {
    hide Locate, Expire, Unexpired, Filter, BoardOf;
    OnIsBoardOf(s, session);
    ExpiryKeeps(s, b, now);
    posts := Expire(s.config, s.boards[b], now).posts;
    var p :| p in s.boards[b].posts && InTime(s.config, now, p) && p.id == id;
    assert InTimeAt(s.config, now)(p) && p in posts;
    i := Locate(posts, id).value;
    hide StillThere, InTime, InTimeAt;
    assert HasSpoken(posts[i], session, agent) <==> Spoke(posts[i], session, agent);
    hide HasSpoken, Spoke;
    assert session in s.boards[b].participants ==>
        s.boards[b].participants + {session} == s.boards[b].participants;
    assert s.bySession[session := b] == s.bySession;
  }

  /** The first post in time with an id, if it is on the board. */
  ghost predicate Shows(s: Lobby, b: string, id: string, post: Post) {
    b in s.boards && exists i: nat :: IsFirst(s.boards[b].posts, i, id) && s.boards[b].posts[i] == post
  }

  /** What is first stays first when other posts expire. */
  lemma {:induction false} FirstStays(posts: seq<Post>, keep: Post -> bool, i: nat, j: nat, id: string)
    requires IsFirst(posts, i, id) && keep(posts[i]) && IsFirst(Filter(posts, keep), j, id)
    ensures Filter(posts, keep)[j] == posts[i]
  {
    hide Filter;
    var init, n := posts[..|posts| - 1], |posts| - 1;
    var before := Filter(init, keep);
    assert posts == init + [posts[n]];
    FilterAppend(init, posts[n], keep);
    assert forall k :: 0 <= k < |before| ==> before[k] in before;
    if i < n {
      assert IsFirst(init, i, id) && init[i] == posts[i] && posts[i] in before;
      var k :| 0 <= k < |before| && before[k] == posts[i];
      assert Filter(posts, keep)[k] == before[k];
      assert j <= k && before[j] == Filter(posts, keep)[j];
      assert IsFirst(before, j, id) by {
        assert forall k :: 0 <= k < j ==> before[k] == Filter(posts, keep)[k];
      }
      FirstStays(init, keep, i, j, id);
    } else {
      assert forall k :: 0 <= k < |init| ==> init[k].id != id;
      assert j == |before|;
    }
  }

  /** The same post with more corroborations. */
  function WithRows(post: Post, rows: seq<Corroboration>): Post {
    Post(post.id, post.session, post.agent, post.kind, post.body, post.approach, post.corroborations + rows,
         post.promotedTo, post.createdAt)
  }

  lemma WithMoreRows(post: Post, rows: seq<Corroboration>)
    ensures WithRows(post, []) == post
    ensures |rows| > 0 ==> WithRows(WithRows(post, [rows[0]]), rows[1..]) == WithRows(post, rows)
  {
    if |rows| > 0 {
      ConcatAssociates(post.corroborations, [rows[0]], rows[1..]);
      assert rows == [rows[0]] + rows[1..];
    }
  }

  lemma OneMoreRow(s: Lobby, now: int, row: Corroboration, b: string, id: string, post: Post)
    requires s.config.enabled && On(s, row.session, b) && HasRoom(s, b, row.session)
    requires Shows(s, b, id, post) && InTime(s.config, now, post)
    requires !IsOwn(post, row.session, row.agent) && !HasSpoken(post, row.session, row.agent)
    ensures var t := Corroborated(s, now, row.session, row.agent, id).0;
            && Shows(t, b, id, WithRows(post, [row]))
            && OnlyBoard(s, t, b) && t.bySession == s.bySession && t.boards[b].open
            && t.boards[b].participants == s.boards[b].participants + {row.session}
  {
    var k: nat :| IsFirst(s.boards[b].posts, k, id) && s.boards[b].posts[k] == post;
    assert post in s.boards[b].posts;
    var posts, i := CorroborationIsRecorded(s, now, row.session, row.agent, id, b);
    FirstStays(s.boards[b].posts, InTimeAt(s.config, now), k, i, id);
    hide Filter, Corroborated;
    var t := Corroborated(s, now, row.session, row.agent, id).0;
    assert IsFirst(t.boards[b].posts, i, id);
  }

  /** One corroboration after the other. */
  ghost function Backing(s: Lobby, id: string, rows: seq<Corroboration>, times: seq<int>): Lobby
    requires |times| == |rows|
    decreases |rows|
  {
    if |rows| == 0 then s
    else Backing(Corroborated(s, times[0], rows[0].session, rows[0].agent, id).0, id, rows[1..], times[1..])
  }

  ghost predicate AllDiffer(post: Post, rows: seq<Corroboration>) {
    && (forall i, j :: 0 <= i < j < |rows| ==> rows[i].agent != rows[j].agent && rows[i].session != rows[j].session)
    && forall i :: 0 <= i < |rows| ==>
         !IsOwn(post, rows[i].session, rows[i].agent) && !HasSpoken(post, rows[i].session, rows[i].agent)
  }

  /** The sessions are on the board, and the post is in time whenever one of them speaks. */
  ghost predicate Present(s: Lobby, b: string, post: Post, rows: seq<Corroboration>, times: seq<int>) {
    && |times| == |rows|
    && forall i :: 0 <= i < |rows| ==>
         && On(s, rows[i].session, b) && rows[i].session in s.boards[b].participants
         && InTime(s.config, times[i], post)
  }

  lemma PresentRest(s: Lobby, t: Lobby, b: string, post: Post, rows: seq<Corroboration>, times: seq<int>)
    requires Present(s, b, post, rows, times) && |rows| > 0
    requires OnlyBoard(s, t, b) && t.bySession == s.bySession && t.boards[b].open
    requires b in s.boards && s.boards[b].participants <= t.boards[b].participants
    ensures Present(t, b, WithRows(post, [rows[0]]), rows[1..], times[1..])
  {
    forall i | 0 <= i < |rows[1..]|
      ensures On(t, rows[1..][i].session, b) && rows[1..][i].session in t.boards[b].participants
      ensures InTime(t.config, times[1..][i], post)
    {
      assert rows[1..][i] == rows[i + 1] && times[1..][i] == times[i + 1];
    }
  }

  lemma AllDifferRest(post: Post, rows: seq<Corroboration>)
    requires AllDiffer(post, rows) && |rows| > 0
    ensures AllDiffer(WithRows(post, [rows[0]]), rows[1..])
  {
    var longer := WithRows(post, [rows[0]]);
    forall i | 0 <= i < |rows[1..]|
      ensures !IsOwn(longer, rows[1..][i].session, rows[1..][i].agent)
      ensures !HasSpoken(longer, rows[1..][i].session, rows[1..][i].agent)
    {
      assert rows[1..][i] == rows[i + 1];
    }
  }

  lemma FirstSpeaks(s: Lobby, b: string, id: string, post: Post, rows: seq<Corroboration>, times: seq<int>)
    requires AllDiffer(post, rows) && Present(s, b, post, rows, times) && |rows| > 0
    ensures On(s, rows[0].session, b) && HasRoom(s, b, rows[0].session) && InTime(s.config, times[0], post)
    ensures !IsOwn(post, rows[0].session, rows[0].agent) && !HasSpoken(post, rows[0].session, rows[0].agent)
  {
  }

  lemma FirstVoice(s: Lobby, b: string, id: string, post: Post, rows: seq<Corroboration>, times: seq<int>)
    returns (t: Lobby, longer: Post)
    requires AllDiffer(post, rows) && Present(s, b, post, rows, times) && |rows| > 0
    requires s.config.enabled && Shows(s, b, id, post)
    ensures t == Corroborated(s, times[0], rows[0].session, rows[0].agent, id).0
    ensures longer == WithRows(post, [rows[0]])
    ensures t.config.enabled && Shows(t, b, id, longer) && AllDiffer(longer, rows[1..])
    ensures Present(t, b, longer, rows[1..], times[1..])
  {
    FirstSpeaks(s, b, id, post, rows, times);
    OneMoreRow(s, times[0], rows[0], b, id, post);
    AllDifferRest(post, rows);
    longer := WithRows(post, [rows[0]]);
    t := Corroborated(s, times[0], rows[0].session, rows[0].agent, id).0;
    PresentRest(s, t, b, post, rows, times);
    hide Corroborated, AllDiffer, Shows, Present;
  }

  /** Any number of corroborations by distinct agents in distinct sessions of the board, none
      of them the author or someone who had spoken, leave that many more rows on the post. */
  lemma {:induction false} EveryVoiceIsRecorded(s: Lobby, b: string, id: string, post: Post, rows: seq<Corroboration>,
                                                times: seq<int>)
    requires |times| == |rows| && s.config.enabled && Shows(s, b, id, post) && AllDiffer(post, rows)
    requires Present(s, b, post, rows, times)
    ensures Shows(Backing(s, id, rows, times), b, id, WithRows(post, rows))
    decreases |rows|
  {
    hide Corroborated, AllDiffer, Shows, Present, WithRows;
    WithMoreRows(post, rows);
    if |rows| > 0 {
      var t, longer := FirstVoice(s, b, id, post, rows, times);
      EveryVoiceIsRecorded(t, b, id, longer, rows[1..], times[1..]);
    }
  }

  /** So n voices on a post without any leave n rows and n + 1 agents behind it. */
  lemma VoicesAddUp(s: Lobby, b: string, id: string, post: Post, rows: seq<Corroboration>, times: seq<int>)
    returns (after: Post)
    requires |times| == |rows| && s.config.enabled && Shows(s, b, id, post) && AllDiffer(post, rows)
    requires Present(s, b, post, rows, times)
    requires post.corroborations == []
    ensures Shows(Backing(s, id, rows, times), b, id, after)
    ensures after.corroborations == rows && |Agents(after)| == |rows| + 1
  {
    EveryVoiceIsRecorded(s, b, id, post, rows, times);
    after := WithRows(post, rows);
    assert after.corroborations == rows;
    BackersCount(after);
  }

  // ---- opening

  /** An open board for the same task in the same namespace and room. */
  predicate Matches(board: Board, task: string, namespace: string, room: Room) {
    && board.open && board.task == task && board.room == room
    && board.namespace == if namespace == "" then "default" else namespace
  }

  /** A session that has a board stays on it. */
  lemma OpeningStaysOnBoard(s: Lobby, now: int, newId: string, session: string, agent: string, task: string,
                            namespace: string, room: Option<Room>, b: string)
    requires s.config.enabled && room.Some? && task != "" && On(s, session, b)
    ensures var (t, reply) := Opened(s, now, newId, session, agent, task, namespace, room);
            && reply.Accepted? && OnlyBoard(s, t, b) && t.bySession == s.bySession
            && StillThere(s, b, now, t.boards[b].posts)
            && t.boards[b] == s.boards[b].(posts := t.boards[b].posts,
                                           presence := s.boards[b].presence[session := Presence(agent, now)])
  {
    hide StillThere, Expire, BoardOf, Joinable, Joined;
    OnIsBoardOf(s, session);
    ExpiryKeeps(s, b, now);
  }

  /** One without a board joins the one on offer, unless that is full. */
  lemma OpeningJoinsOffer(s: Lobby, now: int, newId: string, session: string, agent: string, task: string,
                          namespace: string, room: Room, b: string)
    requires s.config.enabled && task != "" && IsNowhere(s, session)
    requires b in s.boards && Matches(s.boards[b], task, namespace, room)
    requires forall c :: c in s.boards && Matches(s.boards[c], task, namespace, room) ==> c == b
    ensures var (t, reply) := Opened(s, now, newId, session, agent, task, namespace, Some(room));
            if !HasRoom(s, b, session) then reply == Refused(Full) && t == s
            else
              && reply.Accepted? && OnlyBoard(s, t, b) && t.bySession == s.bySession[session := b]
              && StillThere(s, b, now, t.boards[b].posts)
              && t.boards[b] == s.boards[b].(posts := t.boards[b].posts,
                                             participants := s.boards[b].participants + {session},
                                             presence := s.boards[b].presence[session := Presence(agent, now)])
  {
    OnIsBoardOf(s, session);
    hide Expire, BoardOf;
    assert Offers(s.boards[b], task, namespace, room);
    assert forall c :: c in s.boards && Offers(s.boards[c], task, namespace, room) ==>
        Matches(s.boards[c], task, namespace, room);
    assert Joinable(s, task, namespace, room) == Some(b);
    hide Joinable, Matches;
    if HasRoom(s, b, session) {
      ExpiryKeeps(Joined(s, b, session, agent, now), b, now);
    }
  }

  /** And when none is on offer it gets a new one, empty but for itself. */
  lemma OpeningStartsBoard(s: Lobby, now: int, newId: string, session: string, agent: string, task: string,
                           namespace: string, room: Room)
    requires s.config.enabled && task != "" && IsNowhere(s, session)
    requires forall c :: c in s.boards ==> !Matches(s.boards[c], task, namespace, room)
    ensures var (t, reply) := Opened(s, now, newId, session, agent, task, namespace, Some(room));
            && reply.Accepted? && t.config == s.config && t.bySession == s.bySession[session := newId]
            && t.boards == s.boards[newId := Board(task, if namespace == "" then "default" else namespace, room, true,
                                                   session, {session}, [], map[session := Presence(agent, now)])]
  {
    OnIsBoardOf(s, session);
    hide BoardOf;
    assert forall c :: c in s.boards && Offers(s.boards[c], task, namespace, room) ==>
        Matches(s.boards[c], task, namespace, room);
    assert Joinable(s, task, namespace, room).None?;
    assert {session} + {session} == {session};
  }

  // ---- publishing

  /** A post goes through exactly when it fits its board, says something, is of a known kind,
      is not too large, and there is room for its author; then it stands behind the others with
      what it says and who says it. */
  lemma PublicationStandsLast(s: Lobby, now: int, session: string, agent: string, room: Option<Room>,
                              kind: Option<Kind>, body: string, approach: Option<string>, bytes: nat, newId: string,
                              b: string)
    returns (posts: seq<Post>)
    requires s.config.enabled && On(s, session, b)
    ensures StillThere(s, b, now, posts)
    ensures var (t, reply) := Published(s, now, session, agent, room, kind, body, approach, bytes, newId);
            && (reply.Accepted? <==>
                  && room == Some(s.boards[b].room) && kind.Some? && body != ""
                  && (s.config.maxBytes == 0 || bytes <= s.config.maxBytes) && HasRoom(s, b, session))
            && OnlyBoard(s, t, b) && t.bySession == s.bySession
            && (reply.Accepted? ==>
                  t.boards[b] == s.boards[b].(posts := posts + [Post(newId, session, agent, kind.value, body, approach,
                                                                     [], None, now)],
                                              participants := s.boards[b].participants + {session},
                                              presence := s.boards[b].presence[session := Presence(agent, now)]))
            && (reply.Refused? && reply.why != Full ==> t.boards[b] == s.boards[b].(posts := posts))
  {
    hide Expire, StillThere, BoardOf;
    OnIsBoardOf(s, session);
    ExpiryKeeps(s, b, now);
    posts := Expire(s.config, s.boards[b], now).posts;
    assert s.bySession[session := b] == s.bySession;
  }

  // ---- presence, leaving, closing, promoting

  /** A heartbeat notes that the session was seen, and nothing else. */
  lemma HeartbeatIsNoted(s: Lobby, now: int, session: string, agent: string, b: string)
    requires s.config.enabled && On(s, session, b)
    ensures var (t, reply) := Seen(s, now, session, agent);
            && reply.Accepted? && OnlyBoard(s, t, b) && t.bySession == s.bySession
            && StillThere(s, b, now, t.boards[b].posts)
            && t.boards[b] == s.boards[b].(posts := t.boards[b].posts,
                                           presence := s.boards[b].presence[session := Presence(agent, now)])
  {
    OnIsBoardOf(s, session);
    ExpiryKeeps(s, b, now);
    hide Expire, StillThere;
  }

  /** Whoever leaves is off the board; the board stays open for the others. */
  lemma LeavingFrees(s: Lobby, now: int, session: string, b: string)
    requires s.config.enabled && On(s, session, b)
    ensures var (t, reply) := Left(s, now, session);
            && reply.Accepted? && OnlyBoard(s, t, b) && t.bySession == s.bySession - {session}
            && StillThere(s, b, now, t.boards[b].posts)
            && t.boards[b] == s.boards[b].(posts := t.boards[b].posts,
                                           participants := s.boards[b].participants - {session},
                                           presence := s.boards[b].presence - {session})
  {
    OnIsBoardOf(s, session);
    ExpiryKeeps(s, b, now);
    hide Expire, StillThere;
  }

  function IsUnpromotedFailure(): Post -> bool {
    (post: Post) => post.kind.Failure? && (post.promotedTo.None? || post.promotedTo.value == "")
  }

  /** Closing leaves the posts readable, frees every participant, and hands over exactly the
      failures without a promotion, in order. */
  lemma ClosingFrees(s: Lobby, now: int, session: string, b: string) returns (posts: seq<Post>)
    requires s.config.enabled && On(s, session, b)
    ensures StillThere(s, b, now, posts)
    ensures var (t, reply) := Closed(s, now, session);
            && (reply.Accepted? <==> session in s.boards[b].participants || s.boards[b].opener == session)
            && OnlyBoard(s, t, b) && t.boards[b] == s.boards[b].(posts := posts, open := reply.Refused?)
            && (forall x :: x in t.bySession <==>
                  x in s.bySession && !(reply.Accepted? && x in s.boards[b].participants && s.bySession[x] == b))
            && (forall x :: x in t.bySession ==> t.bySession[x] == s.bySession[x])
    ensures UnpromotedFailures(posts) == Filter(posts, IsUnpromotedFailure())
  {
    OnIsBoardOf(s, session);
    ExpiryKeeps(s, b, now);
    posts := Expire(s.config, s.boards[b], now).posts;
    UnpromotedAre(posts);
    hide Expire, StillThere, Filter;
  }

  lemma {:induction false} UnpromotedAre(posts: seq<Post>)
    ensures UnpromotedFailures(posts) == Filter(posts, IsUnpromotedFailure())
  {
    if |posts| > 0 {
      UnpromotedAre(posts[..|posts| - 1]);
    }
  }

  /** Promoting a post writes on it what it became, and on nothing else. */
  lemma PromotionIsNoted(s: Lobby, b: string, id: string, target: string, i: nat)
    requires b in s.boards && IsFirst(s.boards[b].posts, i, id)
    ensures var t, p := Promoted(s, b, id, target), s.boards[b].posts[i];
            && t.bySession == s.bySession && OnlyBoard(s, t, b)
            && var noted := Post(p.id, p.session, p.agent, p.kind, p.body, p.approach, p.corroborations, Some(target),
                                 p.createdAt);
               t.boards[b] == s.boards[b].(posts := s.boards[b].posts[i := noted])
  {
    var place := Locate(s.boards[b].posts, id);
    assert s.boards[b].posts[i].id == id;
  }
}
