/** The lobby: boards that sessions open, join, post on, corroborate, leave and
    close. Ids and times come from outside. */
module Lobby {
  import opened Prelude

  datatype Room = ProjectRoom | TaskRoom
  datatype Kind = Failure | Discovery | Question

  /** Zero means no limit, as in the configuration. */
  datatype Config = Config(enabled: bool, maxAgents: nat, maxBytes: nat, ttl: nat)

  datatype Corroboration = Corroboration(agent: string, session: string)

  datatype Post = Post(id: string, session: string, agent: string, kind: Kind, body: string, approach: Option<string>,
                       corroborations: seq<Corroboration>, promotedTo: Option<string>, createdAt: int)

  datatype Presence = Presence(agent: string, lastSeen: int)

  datatype Board = Board(task: string, namespace: string, room: Room, open: bool, opener: string,
                         participants: set<string>, posts: seq<Post>, presence: map<string, Presence>)

  datatype Lobby = Lobby(config: Config, boards: map<string, Board>, bySession: map<string, string>)

  datatype Reason =
    | Disabled | BadRoom | NoTask | NoBoard | OtherRoom | BadKind | NoBody | TooLarge | Full | NoPost | OwnPost
    | NotParticipant
  datatype Reply = Accepted | Refused(why: Reason)

  // ---- shared steps

  /** The open board a session is on. The empty session is on none. */
  function BoardOf(s: Lobby, session: string): Option<string> {
    if session == "" || session !in s.bySession then None
    else
      var b := s.bySession[session];
      if b == "" || b !in s.boards || !s.boards[b].open then None else Some(b)
  }

  function Unexpired(posts: seq<Post>, now: int, ttl: nat): seq<Post> {
    if |posts| == 0 then []
    else
      Unexpired(posts[..|posts| - 1], now, ttl)
      + if now - posts[|posts| - 1].createdAt <= ttl then [posts[|posts| - 1]] else []
  }

  function Expire(cfg: Config, board: Board, now: int): Board {
    if cfg.ttl == 0 then board else board.(posts := Unexpired(board.posts, now, cfg.ttl))
  }

  function PutBoard(s: Lobby, b: string, board: Board): Lobby {
    s.(boards := s.boards[b := board])
  }

  /** Looking a session's board up drops its expired posts. */
  function Looked(s: Lobby, now: int, session: string): Lobby {
    match BoardOf(s, session)
    case None => s
    case Some(b) => PutBoard(s, b, Expire(s.config, s.boards[b], now))
  }

  function Touch(board: Board, session: string, agent: string, now: int): Board {
    board.(presence := board.presence[session := Presence(agent, now)])
  }

  predicate IsFull(cfg: Config, board: Board, session: string) {
    cfg.maxAgents != 0 && session !in board.participants && |board.participants| >= cfg.maxAgents
  }

  /** Put a session on a board and note that it was seen. */
  function Joined(s: Lobby, b: string, session: string, agent: string, now: int): Lobby
    requires b in s.boards
  {
    var board := s.boards[b];
    var wider := board.(participants := board.participants + {session});
    PutBoard(s, b, Touch(wider, session, agent, now)).(bySession := s.bySession[session := b])
  }

  // ---- operations on values

  function NamespaceOf(namespace: string): string {
    if namespace == "" then "default" else namespace
  }

  predicate Offers(board: Board, task: string, namespace: string, room: Room) {
    board.open && board.task == task && board.namespace == NamespaceOf(namespace) && board.room == room
  }

  ghost function Joinable(s: Lobby, task: string, namespace: string, room: Room): Option<string> {
    if b :| b in s.boards && Offers(s.boards[b], task, namespace, room) then Some(b) else None
  }

  function NewBoard(session: string, task: string, namespace: string, room: Room): Board {
    Board(task, NamespaceOf(namespace), room, true, session, {session}, [], map[])
  }

  /** `room` is missing when it names no allowed room. */
  ghost function Opened(s: Lobby, now: int, newId: string, session: string, agent: string, task: string,
                        namespace: string, room: Option<Room>): (Lobby, Reply)
  {
    if !s.config.enabled then (s, Refused(Disabled))
    else if room.None? then (s, Refused(BadRoom))
    else if task == "" then (s, Refused(NoTask))
    else
      match BoardOf(s, session)
      case Some(b) =>
        (PutBoard(s, b, Touch(Expire(s.config, s.boards[b], now), session, agent, now)), Accepted)
      case None =>
        match Joinable(s, task, namespace, room.value)
        case Some(b) =>
          if IsFull(s.config, s.boards[b], session) then (s, Refused(Full))
          else
            var joined := Joined(s, b, session, agent, now);
            (PutBoard(joined, b, Expire(s.config, joined.boards[b], now)), Accepted)
        case None =>
          var board := NewBoard(session, task, namespace, room.value);
          (Joined(PutBoard(s, newId, board), newId, session, agent, now), Accepted)
  }

  /** The post is appended before the capacity check. */
  function Published(s: Lobby, now: int, session: string, agent: string, room: Option<Room>, kind: Option<Kind>,
                     body: string, approach: Option<string>, bytes: nat, newId: string): (Lobby, Reply)
  {
    var seen := Looked(s, now, session);
    if !s.config.enabled then (s, Refused(Disabled))
    else
      match BoardOf(s, session)
      case None => (s, Refused(NoBoard))
      case Some(b) =>
        if room.None? then (seen, Refused(BadRoom))
        else if room.value != seen.boards[b].room then (seen, Refused(OtherRoom))
        else if kind.None? then (seen, Refused(BadKind))
        else if body == "" then (seen, Refused(NoBody))
        else if s.config.maxBytes != 0 && bytes > s.config.maxBytes then (seen, Refused(TooLarge))
        else
          var post := Post(newId, session, agent, kind.value, body, approach, [], None, now);
          var posted := PutBoard(seen, b, seen.boards[b].(posts := seen.boards[b].posts + [post]));
          if IsFull(s.config, posted.boards[b], session) then (posted, Refused(Full))
          else (Joined(posted, b, session, agent, now), Accepted)
  }

  /** The place of the first post with an id. */
  function Locate(posts: seq<Post>, id: string): (i: Option<nat>)
    ensures i.Some? ==> i.value < |posts| && posts[i.value].id == id
    ensures i.Some? <==> exists j :: 0 <= j < |posts| && posts[j].id == id
    ensures i.Some? ==> forall j :: 0 <= j < i.value ==> posts[j].id != id
  {
    if |posts| == 0 then None
    else
      var before := Locate(posts[..|posts| - 1], id);
      if before.Some? then before
      else if posts[|posts| - 1].id == id then Some(|posts| - 1)
      else None
  }

  predicate Spoke(post: Post, session: string, agent: string) {
    exists i :: 0 <= i < |post.corroborations|
             && (post.corroborations[i].session == session || post.corroborations[i].agent == agent)
  }

  function Backed(post: Post, session: string, agent: string): Post {
    post.(corroborations := post.corroborations + [Corroboration(agent, session)])
  }

  function Corroborated(s: Lobby, now: int, session: string, agent: string, id: string): (Lobby, Reply) {
    var seen := Looked(s, now, session);
    if !s.config.enabled then (s, Refused(Disabled))
    else
      match BoardOf(s, session)
      case None => (s, Refused(NoBoard))
      case Some(b) =>
        match Locate(seen.boards[b].posts, id)
        case None => (seen, Refused(NoPost))
        case Some(i) =>
          var board := seen.boards[b];
          var post := board.posts[i];
          if post.session == session || post.agent == agent then (seen, Refused(OwnPost))
          else if Spoke(post, session, agent) then (seen, Accepted)
          else if IsFull(s.config, board, session) then (seen, Refused(Full))
          else
            var backed := board.(posts := board.posts[i := Backed(post, session, agent)]);
            (Joined(PutBoard(seen, b, backed), b, session, agent, now), Accepted)
  }

  function Seen(s: Lobby, now: int, session: string, agent: string): (Lobby, Reply) {
    var seen := Looked(s, now, session);
    if !s.config.enabled then (s, Refused(Disabled))
    else
      match BoardOf(s, session)
      case None => (s, Refused(NoBoard))
      case Some(b) => (PutBoard(seen, b, Touch(seen.boards[b], session, agent, now)), Accepted)
  }

  function Left(s: Lobby, now: int, session: string): (Lobby, Reply) {
    var seen := Looked(s, now, session);
    if !s.config.enabled then (s, Refused(Disabled))
    else
      match BoardOf(s, session)
      case None => (s, Accepted)
      case Some(b) =>
        var board := seen.boards[b];
        (PutBoard(seen, b, board.(participants := board.participants - {session},
                                  presence := board.presence - {session}))
           .(bySession := s.bySession - {session}), Accepted)
  }

  /** Sessions that point at the board from outside keep their pointer. */
  function Closed(s: Lobby, now: int, session: string): (Lobby, Reply) {
    var seen := Looked(s, now, session);
    if !s.config.enabled then (s, Refused(Disabled))
    else
      match BoardOf(s, session)
      case None => (s, Refused(NoBoard))
      case Some(b) =>
        var board := seen.boards[b];
        if session !in board.participants && board.opener != session then (seen, Refused(NotParticipant))
        else
          (PutBoard(seen, b, board.(open := false))
             .(bySession := map t | t in s.bySession && !(t in board.participants && s.bySession[t] == b)
                              :: s.bySession[t]),
           Accepted)
  }

  /** The failures on a board that nobody has promoted, in order. */
  function UnpromotedFailures(posts: seq<Post>): seq<Post> {
    if |posts| == 0 then []
    else
      var last := posts[|posts| - 1];
      UnpromotedFailures(posts[..|posts| - 1])
      + if last.kind.Failure? && (last.promotedTo.None? || last.promotedTo.value == "") then [last] else []
  }

  /** None is lost or doubled: a post is handed over as often as it is on the board when
      it is a failure without a promotion, and never otherwise. */
  lemma {:induction false} FailuresAccounted(posts: seq<Post>, x: Post)
    ensures multiset(UnpromotedFailures(posts))[x]
         == if x.kind.Failure? && (x.promotedTo.None? || x.promotedTo.value == "") then multiset(posts)[x] else 0
  {
    if |posts| > 0 {
      FailuresAccounted(posts[..|posts| - 1], x);
      assert posts == posts[..|posts| - 1] + [posts[|posts| - 1]];
    }
  }

  /** Note on a post what it was promoted to. */
  function Promoted(s: Lobby, b: string, id: string, target: string): Lobby {
    if b !in s.boards || Locate(s.boards[b].posts, id).None? then s
    else
      var posts := s.boards[b].posts;
      var i := Locate(posts, id).value;
      PutBoard(s, b, s.boards[b].(posts := posts[i := posts[i].(promotedTo := Some(target))]))
  }

  // ---- invariants

  /** A session points at a board exactly while it is on that open board. */
  ghost predicate Linked(s: Lobby) {
    forall t, b :: (t in s.bySession && s.bySession[t] == b) <==>
                   (b in s.boards && s.boards[b].open && t in s.boards[b].participants)
  }

  ghost predicate PresenceMatches(s: Lobby) {
    forall b :: b in s.boards && s.boards[b].open ==> s.boards[b].presence.Keys == s.boards[b].participants
  }

  ghost predicate SameOffer(x: Board, y: Board) {
    x.open && y.open && x.task == y.task && x.namespace == y.namespace && x.room == y.room
  }

  /** At most one open board per task, namespace and room. */
  ghost predicate OneBoardEach(s: Lobby) {
    && "" !in s.boards
    && forall b, c :: b in s.boards && c in s.boards && SameOffer(s.boards[b], s.boards[c]) ==> b == c
  }

  ghost predicate Honest(post: Post) {
    && (forall i, j :: 0 <= i < j < |post.corroborations| ==>
          post.corroborations[i].agent != post.corroborations[j].agent
          && post.corroborations[i].session != post.corroborations[j].session)
    && (forall i :: 0 <= i < |post.corroborations| ==>
          post.corroborations[i].agent != post.agent && post.corroborations[i].session != post.session)
  }

  ghost predicate AllHonest(posts: seq<Post>) {
    forall i :: 0 <= i < |posts| ==> Honest(posts[i])
  }

  /** Corroborators are distinct people and never the author. */
  ghost predicate PostsHonest(s: Lobby) {
    forall b :: b in s.boards ==> AllHonest(s.boards[b].posts)
  }

  ghost predicate BoardsSound(s: Lobby) {
    PresenceMatches(s) && OneBoardEach(s) && PostsHonest(s)
  }

  ghost predicate Inv(s: Lobby) {
    Linked(s) && BoardsSound(s)
  }

  ghost predicate Within(s: Lobby, cap: nat) {
    forall b :: b in s.boards ==> |s.boards[b].participants| <= cap
  }

  // ---- every step keeps them

  lemma {:induction false} UnexpiredIsPart(posts: seq<Post>, now: int, ttl: nat)
    ensures forall x :: x in Unexpired(posts, now, ttl) ==> x in posts
  {
    if |posts| > 0 {
      UnexpiredIsPart(posts[..|posts| - 1], now, ttl);
    }
  }

  lemma ExpireKeepsHonest(cfg: Config, board: Board, now: int)
    requires AllHonest(board.posts)
    ensures AllHonest(Expire(cfg, board, now).posts)
  {
    UnexpiredIsPart(board.posts, now, cfg.ttl);
    forall i | 0 <= i < |Expire(cfg, board, now).posts| ensures Honest(Expire(cfg, board, now).posts[i]) {
      assert Expire(cfg, board, now).posts[i] in board.posts;
    }
  }

  /** Only posts, and presence of the same sessions, differ. */
  ghost predicate Revises(before: Board, after: Board) {
    && after.(posts := before.posts, presence := before.presence) == before
    && (before.open ==> after.presence.Keys == before.presence.Keys)
    && AllHonest(after.posts)
  }

  /** Changing one board that keeps its offer leaves the boards sound. */
  lemma ChangeKeepsSound(s: Lobby, t: Lobby, b: string, board: Board)
    requires BoardsSound(s) && b in s.boards && t.boards == s.boards[b := board]
    requires board.open ==> SameOffer(s.boards[b], board) && board.presence.Keys == board.participants
    requires AllHonest(board.posts)
    ensures BoardsSound(t)
  {
    hide AllHonest;
    forall c, d | c in t.boards && d in t.boards && SameOffer(t.boards[c], t.boards[d]) ensures c == d {
      assert SameOffer(s.boards[c], s.boards[d]);
    }
  }

  lemma ReviseKeepsInv(s: Lobby, b: string, board: Board)
    requires Inv(s) && b in s.boards && Revises(s.boards[b], board)
    ensures Inv(PutBoard(s, b, board))
  {
    ChangeKeepsSound(s, PutBoard(s, b, board), b, board);
    hide BoardsSound;
  }

  lemma LookKeepsInv(s: Lobby, now: int, session: string)
    requires Inv(s)
    ensures Inv(Looked(s, now, session))
  {
    var b := BoardOf(s, session);
    if b.Some? {
      ExpireKeepsHonest(s.config, s.boards[b.value], now);
      ReviseKeepsInv(s, b.value, Expire(s.config, s.boards[b.value], now));
    }
  }

  /** A session without a board, or already on this one, can be put on it, and no
      other can. */
  lemma JoinKeepsInvIff(s: Lobby, b: string, session: string, agent: string, now: int)
    requires Inv(s) && b in s.boards && s.boards[b].open
    ensures Inv(Joined(s, b, session, agent, now)) <==> session !in s.bySession || s.bySession[session] == b
  {
    var after := Joined(s, b, session, agent, now);
    if session in s.bySession && s.bySession[session] != b {
      var c := s.bySession[session];
      assert session in s.boards[c].participants;
      assert after.boards[c] == s.boards[c];
      assert after.bySession[session] != c;
    } else {
      JoinLinks(s, b, session, agent, now);
      ChangeKeepsSound(s, after, b, after.boards[b]);
    }
  }

  lemma JoinLinks(s: Lobby, b: string, session: string, agent: string, now: int)
    requires Linked(s) && b in s.boards && s.boards[b].open
    requires session !in s.bySession || s.bySession[session] == b
    ensures Linked(Joined(s, b, session, agent, now))
  {
    var after := Joined(s, b, session, agent, now);
    forall t, c
      ensures (t in after.bySession && after.bySession[t] == c) <==>
              (c in after.boards && after.boards[c].open && t in after.boards[c].participants)
    {
      assert (t in s.bySession && s.bySession[t] == c) <==>
             (c in s.boards && s.boards[c].open && t in s.boards[c].participants);
    }
  }

  /** A newly opened board is not offered yet, so it is the only one of its kind. */
  lemma CreateKeepsInvIff(s: Lobby, newId: string, session: string, agent: string, now: int, task: string,
                          namespace: string, room: Room)
    requires Inv(s) && newId !in s.boards && newId != ""
    requires forall b :: b in s.boards ==> !Offers(s.boards[b], task, namespace, room)
    ensures Inv(Joined(PutBoard(s, newId, NewBoard(session, task, namespace, room)), newId, session, agent, now))
       <==> session !in s.bySession
  {
    var after := Joined(PutBoard(s, newId, NewBoard(session, task, namespace, room)), newId, session, agent, now);
    if session in s.bySession {
      var c := s.bySession[session];
      assert session in s.boards[c].participants;
      assert after.boards[c] == s.boards[c] && after.bySession[session] != c;
    } else {
      CreateLinks(s, newId, session, agent, now, after.boards[newId]);
      CreateKeepsSound(s, after, newId, after.boards[newId], task, namespace, room);
      assert after.boards == s.boards[newId := after.boards[newId]];
    }
  }

  lemma CreateLinks(s: Lobby, newId: string, session: string, agent: string, now: int, board: Board)
    requires Linked(s) && newId !in s.boards && session !in s.bySession
    requires board.open && board.participants == {session}
    ensures Linked(PutBoard(s, newId, board).(bySession := s.bySession[session := newId]))
  {
    var after := PutBoard(s, newId, board).(bySession := s.bySession[session := newId]);
    forall t, c
      ensures (t in after.bySession && after.bySession[t] == c) <==>
              (c in after.boards && after.boards[c].open && t in after.boards[c].participants)
    {
      assert (t in s.bySession && s.bySession[t] == c) <==>
             (c in s.boards && s.boards[c].open && t in s.boards[c].participants);
    }
  }

  lemma CreateKeepsSound(s: Lobby, t: Lobby, newId: string, board: Board, task: string, namespace: string, room: Room)
    requires BoardsSound(s) && newId !in s.boards && newId != ""
    requires forall b :: b in s.boards ==> !Offers(s.boards[b], task, namespace, room)
    requires t.boards == s.boards[newId := board] && Offers(board, task, namespace, room)
    requires board.presence.Keys == board.participants && board.posts == []
    ensures BoardsSound(t)
  {
    assert AllHonest([]);
    hide AllHonest;
    forall c, d | c in t.boards && d in t.boards && SameOffer(t.boards[c], t.boards[d]) ensures c == d {
      assert c != newId && d != newId ==> SameOffer(s.boards[c], s.boards[d]);
      assert c != newId ==> !Offers(s.boards[c], task, namespace, room);
      assert d != newId ==> !Offers(s.boards[d], task, namespace, room);
    }
  }

  lemma OnBoard(s: Lobby, session: string)
    requires Inv(s)
    ensures BoardOf(s, session) == if session != "" && session in s.bySession then Some(s.bySession[session]) else None
  {
    if session in s.bySession {
      assert s.bySession[session] in s.boards;
    }
  }

  /** The board on offer is full, or the one the empty session points at already. */
  ghost predicate JoinsSafely(s: Lobby, offer: Option<string>) {
    && offer.Some? && offer.value in s.boards && "" in s.bySession
    && (IsFull(s.config, s.boards[offer.value], "") || offer.value == s.bySession[""])
  }

  /** Opening keeps every invariant but for the empty session, which the lookup never
      finds: opening a second board for it breaks the links. */
  lemma OpenKeepsInvIff(s: Lobby, now: int, newId: string, session: string, agent: string, task: string,
                        namespace: string, room: Option<Room>)
    requires Inv(s) && newId !in s.boards && newId != ""
    ensures Inv(Opened(s, now, newId, session, agent, task, namespace, room).0)
       <==> session != "" || "" !in s.bySession
            || !s.config.enabled || room.None? || task == ""
            || JoinsSafely(s, Joinable(s, task, namespace, room.value))
  {
    OnBoard(s, session);
    var (after, reply) := Opened(s, now, newId, session, agent, task, namespace, room);
    if reply.Accepted? {
      var here := BoardOf(s, session);
      if here.Some? {
        TouchKeepsInv(s, here.value, session, agent, now);
      } else {
        var there := Joinable(s, task, namespace, room.value);
        if there.Some? {
          JoinKeepsInvIff(s, there.value, session, agent, now);
          var joined := Joined(s, there.value, session, agent, now);
          ExpiryKeepsInvIff(joined, there.value, now);
        } else {
          CreateKeepsInvIff(s, newId, session, agent, now, task, namespace, room.value);
        }
      }
    }
  }

  /** The empty session opens two boards for two tasks and is left on both. */
  lemma EmptySessionBreaksLinks(config: Config, b: string, c: string, task: string, other: string, now: int)
    requires config.enabled && b != "" && c != "" && b != c && task != "" && other != "" && task != other
    ensures var one := Opened(Lobby(config, map[], map[]), now, b, "", "a", task, "n", Some(TaskRoom)).0;
            !Inv(Opened(one, now, c, "", "a", other, "n", Some(TaskRoom)).0)
  {
    var one := Opened(Lobby(config, map[], map[]), now, b, "", "a", task, "n", Some(TaskRoom)).0;
    assert one.boards.Keys == {b} && !Offers(one.boards[b], other, "n", TaskRoom);
    var two := Opened(one, now, c, "", "a", other, "n", Some(TaskRoom)).0;
    assert two.boards[b].open && "" in two.boards[b].participants && two.bySession[""] == c;
  }

  lemma TouchKeepsInv(s: Lobby, b: string, session: string, agent: string, now: int)
    requires Inv(s) && b in s.boards && s.boards[b].open && session in s.boards[b].participants
    ensures Inv(PutBoard(s, b, Touch(Expire(s.config, s.boards[b], now), session, agent, now)))
    ensures Inv(PutBoard(s, b, Touch(s.boards[b], session, agent, now)))
  {
    ExpireKeepsHonest(s.config, s.boards[b], now);
    ReviseKeepsInv(s, b, Touch(Expire(s.config, s.boards[b], now), session, agent, now));
    ReviseKeepsInv(s, b, Touch(s.boards[b], session, agent, now));
  }

  lemma ExpiryKeepsInvIff(s: Lobby, b: string, now: int)
    requires b in s.boards && PostsHonest(s)
    ensures Inv(PutBoard(s, b, Expire(s.config, s.boards[b], now))) <==> Inv(s)
  {
    var after := PutBoard(s, b, Expire(s.config, s.boards[b], now));
    ExpireKeepsHonest(s.config, s.boards[b], now);
    if Inv(s) {
      ReviseKeepsInv(s, b, Expire(s.config, s.boards[b], now));
    }
    if Inv(after) {
      ReviseKeepsInv(after, b, s.boards[b]);
      assert PutBoard(after, b, s.boards[b]) == s;
    }
  }

  lemma PublishKeepsInv(s: Lobby, now: int, session: string, agent: string, room: Option<Room>, kind: Option<Kind>,
                        body: string, approach: Option<string>, bytes: nat, newId: string)
    requires Inv(s)
    ensures Inv(Published(s, now, session, agent, room, kind, body, approach, bytes, newId).0)
    ensures Published(s, now, session, agent, room, kind, body, approach, bytes, newId).1 != Refused(Full)
  {
    hide Inv, Looked, Joined, BoardOf;
    LookKeepsInv(s, now, session);
    LookedBoard(s, now, session);
    var seen, here := Looked(s, now, session), BoardOf(s, session);
    if here.Some? && kind.Some? {
      PostKeepsInv(seen, here.value, session, agent, now,
                   Post(newId, session, agent, kind.value, body, approach, [], None, now));
    }
  }

  /** Someone on a board is still on it after looking it up. */
  lemma LookedBoard(s: Lobby, now: int, session: string)
    requires Inv(s)
    ensures BoardOf(s, session).Some? ==>
              var b, seen := BoardOf(s, session).value, Looked(s, now, session);
              && b in seen.boards && seen.boards[b].open && session in seen.boards[b].participants
              && seen.bySession == s.bySession && session in s.bySession && s.bySession[session] == b
  {
    OnBoard(s, session);
  }

  /** A participant's post without corroborations, and joining again afterwards. */
  lemma PostKeepsInv(s: Lobby, b: string, session: string, agent: string, now: int, post: Post)
    requires Inv(s) && b in s.boards && s.boards[b].open && session in s.boards[b].participants
    requires session in s.bySession && s.bySession[session] == b && post.corroborations == []
    ensures var posted := PutBoard(s, b, s.boards[b].(posts := s.boards[b].posts + [post]));
            Inv(posted) && Inv(Joined(posted, b, session, agent, now))
  {
    var board := s.boards[b].(posts := s.boards[b].posts + [post]);
    assert AllHonest(s.boards[b].posts) && Honest(post);
    assert AllHonest(board.posts);
    ReviseKeepsInv(s, b, board);
    hide Inv, AllHonest;
    JoinKeepsInvIff(PutBoard(s, b, board), b, session, agent, now);
  }

  lemma BackKeepsHonest(post: Post, session: string, agent: string)
    requires Honest(post) && post.session != session && post.agent != agent && !Spoke(post, session, agent)
    ensures Honest(Backed(post, session, agent))
  {
  }

  lemma CorroborateKeepsInv(s: Lobby, now: int, session: string, agent: string, id: string)
    requires Inv(s)
    ensures Inv(Corroborated(s, now, session, agent, id).0)
    ensures Corroborated(s, now, session, agent, id).1 != Refused(Full)
  {
    OnBoard(s, session);
    LookKeepsInv(s, now, session);
    var seen, here := Looked(s, now, session), BoardOf(s, session);
    if here.Some? && Locate(seen.boards[here.value].posts, id).Some? {
      var b, i := here.value, Locate(seen.boards[here.value].posts, id).value;
      var board := seen.boards[b];
      assert session in board.participants;
      var post := board.posts[i];
      assert AllHonest(board.posts);
      if post.session != session && post.agent != agent && !Spoke(post, session, agent) {
        BackKeepsHonest(post, session, agent);
        var backed := board.(posts := board.posts[i := Backed(post, session, agent)]);
        ReviseKeepsInv(seen, b, backed);
        JoinKeepsInvIff(PutBoard(seen, b, backed), b, session, agent, now);
      }
    }
  }

  lemma SeenKeepsInv(s: Lobby, now: int, session: string, agent: string)
    requires Inv(s)
    ensures Inv(Seen(s, now, session, agent).0)
  {
    OnBoard(s, session);
    LookKeepsInv(s, now, session);
    var here := BoardOf(s, session);
    if here.Some? {
      TouchKeepsInv(Looked(s, now, session), here.value, session, agent, now);
    }
  }

  lemma LeaveKeepsInv(s: Lobby, now: int, session: string)
    requires Inv(s)
    ensures Inv(Left(s, now, session).0)
    ensures s.config.enabled ==> session == "" || session !in Left(s, now, session).0.bySession
  {
    OnBoard(s, session);
    LookKeepsInv(s, now, session);
    var seen, here := Looked(s, now, session), BoardOf(s, session);
    if s.config.enabled && here.Some? {
      var after, b := Left(s, now, session).0, here.value;
      forall t, c
        ensures (t in after.bySession && after.bySession[t] == c) <==>
                (c in after.boards && after.boards[c].open && t in after.boards[c].participants)
      {
        assert (t in seen.bySession && seen.bySession[t] == c) <==>
               (c in seen.boards && seen.boards[c].open && t in seen.boards[c].participants);
      }
      ChangeKeepsSound(seen, after, b, after.boards[b]);
    }
  }

  lemma CloseKeepsInv(s: Lobby, now: int, session: string)
    requires Inv(s)
    ensures Inv(Closed(s, now, session).0)
    ensures Closed(s, now, session).1 != Refused(NotParticipant)
  {
    OnBoard(s, session);
    LookKeepsInv(s, now, session);
    var seen, here := Looked(s, now, session), BoardOf(s, session);
    if s.config.enabled && here.Some? {
      var after, b := Closed(s, now, session).0, here.value;
      assert session in seen.boards[b].participants;
      forall t, c
        ensures (t in after.bySession && after.bySession[t] == c) <==>
                (c in after.boards && after.boards[c].open && t in after.boards[c].participants)
      {
        assert (t in seen.bySession && seen.bySession[t] == c) <==>
               (c in seen.boards && seen.boards[c].open && t in seen.boards[c].participants);
      }
      ChangeKeepsSound(seen, after, b, after.boards[b]);
    }
  }

  lemma PromoteKeepsInv(s: Lobby, b: string, id: string, target: string)
    requires Inv(s)
    ensures Inv(Promoted(s, b, id, target))
  {
    if b in s.boards && Locate(s.boards[b].posts, id).Some? {
      var posts, i := s.boards[b].posts, Locate(s.boards[b].posts, id).value;
      assert AllHonest(posts) && Honest(posts[i]);
      ReviseKeepsInv(s, b, s.boards[b].(posts := posts[i := posts[i].(promotedTo := Some(target))]));
    }
  }

  // ---- runs

  datatype Call =
    | Configure(config: Config)
    | Reset
    | Look(now: int, session: string)
    | Open(now: int, newId: string, session: string, agent: string, task: string, namespace: string, room: Option<Room>)
    | Publish(now: int, session: string, agent: string, room: Option<Room>, kind: Option<Kind>, body: string,
              approach: Option<string>, bytes: nat, newId: string)
    | Corroborate(now: int, session: string, agent: string, id: string)
    | Heartbeat(now: int, session: string, agent: string)
    | Leave(now: int, session: string)
    | Close(now: int, session: string)
    | MarkPromoted(board: string, id: string, target: string)

  ghost function Next(s: Lobby, c: Call): Lobby {
    match c
    case Configure(config) => s.(config := config)
    case Reset => Lobby(s.config, map[], map[])
    case Look(now, session) => if s.config.enabled then Looked(s, now, session) else s
    case Open(now, newId, session, agent, task, namespace, room) =>
      Opened(s, now, newId, session, agent, task, namespace, room).0
    case Publish(now, session, agent, room, kind, body, approach, bytes, newId) =>
      Published(s, now, session, agent, room, kind, body, approach, bytes, newId).0
    case Corroborate(now, session, agent, id) => Corroborated(s, now, session, agent, id).0
    case Heartbeat(now, session, agent) => Seen(s, now, session, agent).0
    case Leave(now, session) => Left(s, now, session).0
    case Close(now, session) => Closed(s, now, session).0
    case MarkPromoted(board, id, target) => Promoted(s, board, id, target)
  }

  /** Boards get new ids, and whoever opens one has a session. */
  ghost predicate Legal(s: Lobby, run: seq<Call>)
    decreases |run|
  {
    |run| > 0 ==>
      && (run[0].Open? ==> run[0].newId !in s.boards && run[0].newId != "" && run[0].session != "")
      && Legal(Next(s, run[0]), run[1..])
  }

  ghost function Exec(s: Lobby, run: seq<Call>): Lobby
    decreases |run|
  {
    if |run| == 0 then s else Exec(Next(s, run[0]), run[1..])
  }

  lemma NextKeepsInv(s: Lobby, c: Call)
    requires Inv(s)
    requires c.Open? ==> c.newId !in s.boards && c.newId != "" && c.session != ""
    ensures Inv(Next(s, c))
  {
    match c {
      case Configure(config) =>
        var after := s.(config := config);
        assert Linked(after) && PresenceMatches(after) && OneBoardEach(after) && PostsHonest(after);
      case Reset =>
      case Look(now, session) => LookKeepsInv(s, now, session);
      case Open(now, newId, session, agent, task, namespace, room) =>
        OpenKeepsInvIff(s, now, newId, session, agent, task, namespace, room);
      case Publish(now, session, agent, room, kind, body, approach, bytes, newId) =>
        PublishKeepsInv(s, now, session, agent, room, kind, body, approach, bytes, newId);
      case Corroborate(now, session, agent, id) => CorroborateKeepsInv(s, now, session, agent, id);
      case Heartbeat(now, session, agent) => SeenKeepsInv(s, now, session, agent);
      case Leave(now, session) => LeaveKeepsInv(s, now, session);
      case Close(now, session) => CloseKeepsInv(s, now, session);
      case MarkPromoted(board, id, target) => PromoteKeepsInv(s, board, id, target);
    }
  }

  /** In every run the sessions point at the open boards they are on, presence lists
      exactly those on a board, no two open boards have the same offer, and every
      post is backed by distinct others. */
  lemma {:induction false} LobbySafety(s: Lobby, run: seq<Call>)
    requires Inv(s) && Legal(s, run)
    ensures Inv(Exec(s, run))
    decreases |run|
  {
    if |run| > 0 {
      NextKeepsInv(s, run[0]);
      LobbySafety(Next(s, run[0]), run[1..]);
    }
  }

  lemma StartIsSafe(config: Config)
    ensures Inv(Lobby(config, map[], map[]))
  {
  }

  lemma OneMore(a: set<string>, x: string)
    ensures x in a ==> a + {x} == a
    ensures |a + {x}| <= |a| + 1 && |a - {x}| <= |a|
  {
    if x in a {
      assert a + {x} == a && a == (a - {x}) + {x};
    }
  }

  lemma JoinKeepsWithin(s: Lobby, b: string, session: string, agent: string, now: int, cap: nat)
    requires Within(s, cap) && b in s.boards && 0 < s.config.maxAgents <= cap
    requires !IsFull(s.config, s.boards[b], session)
    ensures Within(Joined(s, b, session, agent, now), cap)
  {
    OneMore(s.boards[b].participants, session);
  }

  lemma LookKeepsWithin(s: Lobby, now: int, session: string, cap: nat)
    requires Within(s, cap)
    ensures Within(Looked(s, now, session), cap)
    ensures Looked(s, now, session).config == s.config
  {
  }

  lemma OpenKeepsWithin(s: Lobby, c: Call, cap: nat)
    requires Within(s, cap) && 0 < s.config.maxAgents <= cap && c.Open?
    ensures Within(Next(s, c), cap)
  {
    if s.config.enabled && c.room.Some? && BoardOf(s, c.session).None? {
      var there := Joinable(s, c.task, c.namespace, c.room.value);
      if there.Some? {
        if !IsFull(s.config, s.boards[there.value], c.session) {
          JoinKeepsWithin(s, there.value, c.session, c.agent, c.now, cap);
        }
      } else {
        var made := PutBoard(s, c.newId, NewBoard(c.session, c.task, c.namespace, c.room.value));
        assert |{c.session}| == 1;
        assert Within(made, cap);
        JoinKeepsWithin(made, c.newId, c.session, c.agent, c.now, cap);
      }
    }
  }

  lemma InLooked(s: Lobby, now: int, session: string)
    ensures BoardOf(s, session).Some? ==> BoardOf(s, session).value in Looked(s, now, session).boards
  {
  }

  lemma EditKeepsWithin(s: Lobby, b: string, posts: seq<Post>, cap: nat)
    requires Within(s, cap) && b in s.boards
    ensures Within(PutBoard(s, b, s.boards[b].(posts := posts)), cap)
  {
  }

  lemma PublishKeepsWithin(s: Lobby, now: int, session: string, agent: string, room: Option<Room>, kind: Option<Kind>,
                           body: string, approach: Option<string>, bytes: nat, newId: string, cap: nat)
    requires Within(s, cap) && 0 < s.config.maxAgents <= cap
    ensures Within(Published(s, now, session, agent, room, kind, body, approach, bytes, newId).0, cap)
  {
    hide Joined, Looked, Within, IsFull;
    var seen, here := Looked(s, now, session), BoardOf(s, session);
    LookKeepsWithin(s, now, session, cap);
    if here.Some? && kind.Some? {
      InLooked(s, now, session);
      var post := Post(newId, session, agent, kind.value, body, approach, [], None, now);
      var posts := seen.boards[here.value].posts + [post];
      var posted := PutBoard(seen, here.value, seen.boards[here.value].(posts := posts));
      EditKeepsWithin(seen, here.value, posts, cap);
      if !IsFull(s.config, posted.boards[here.value], session) {
        JoinKeepsWithin(posted, here.value, session, agent, now, cap);
      }
    }
  }

  lemma CorroborateKeepsWithin(s: Lobby, now: int, session: string, agent: string, id: string, cap: nat)
    requires Within(s, cap) && 0 < s.config.maxAgents <= cap
    ensures Within(Corroborated(s, now, session, agent, id).0, cap)
  {
    hide Joined, Looked, Within, Spoke;
    var seen, here := Looked(s, now, session), BoardOf(s, session);
    LookKeepsWithin(s, now, session, cap);
    InLooked(s, now, session);
    if here.Some? && Locate(seen.boards[here.value].posts, id).Some? {
      var b, i := here.value, Locate(seen.boards[here.value].posts, id).value;
      var posts := seen.boards[b].posts[i := Backed(seen.boards[b].posts[i], session, agent)];
      EditKeepsWithin(seen, b, posts, cap);
      if !IsFull(s.config, seen.boards[b], session) {
        JoinKeepsWithin(PutBoard(seen, b, seen.boards[b].(posts := posts)), b, session, agent, now, cap);
      }
    }
  }

  lemma LeaveKeepsWithin(s: Lobby, now: int, session: string, cap: nat)
    requires Within(s, cap)
    ensures Within(Left(s, now, session).0, cap)
  {
    if BoardOf(s, session).Some? {
      OneMore(s.boards[BoardOf(s, session).value].participants, session);
    }
  }

  lemma NextKeepsWithin(s: Lobby, c: Call, cap: nat)
    requires Within(s, cap) && 0 < s.config.maxAgents <= cap
    ensures Within(Next(s, c), cap)
  {
    match c {
      case Open(_, _, _, _, _, _, _) => OpenKeepsWithin(s, c, cap);
      case Publish(now, session, agent, room, kind, body, approach, bytes, newId) =>
        PublishKeepsWithin(s, now, session, agent, room, kind, body, approach, bytes, newId, cap);
      case Corroborate(now, session, agent, id) => CorroborateKeepsWithin(s, now, session, agent, id, cap);
      case Leave(now, session) => LeaveKeepsWithin(s, now, session, cap);
      case _ =>
    }
  }

  /** While every configuration in force keeps a limit of at most `cap`, no board ever
      holds more than `cap` sessions. */
  lemma {:induction false} CapacityHolds(s: Lobby, run: seq<Call>, cap: nat)
    requires Within(s, cap) && 0 < s.config.maxAgents <= cap
    requires forall i :: 0 <= i < |run| && run[i].Configure? ==> 0 < run[i].config.maxAgents <= cap
    ensures Within(Exec(s, run), cap)
    decreases |run|
  {
    if |run| > 0 {
      NextKeepsWithin(s, run[0], cap);
      ConfigStays(s, run[0]);
      CapacityHolds(Next(s, run[0]), run[1..], cap);
    }
  }

  lemma ConfigStays(s: Lobby, c: Call)
    ensures Next(s, c).config == if c.Configure? then c.config else s.config
  {
  }

  function Voices(rows: seq<Corroboration>): set<string> {
    if |rows| == 0 then {} else Voices(rows[..|rows| - 1]) + {rows[|rows| - 1].agent}
  }

  lemma {:induction false} VoicesCount(rows: seq<Corroboration>)
    requires forall i, j :: 0 <= i < j < |rows| ==> rows[i].agent != rows[j].agent
    ensures |Voices(rows)| == |rows|
    ensures forall a :: a in Voices(rows) ==> exists i :: 0 <= i < |rows| && rows[i].agent == a
  {
    if |rows| > 0 {
      VoicesCount(rows[..|rows| - 1]);
    }
  }

  /** The agents behind a post: its author and whoever corroborated it. */
  function Agents(post: Post): set<string> {
    {post.agent} + Voices(post.corroborations)
  }

  /** A post with k corroborations has exactly k + 1 agents behind it. */
  lemma BackersCount(post: Post)
    requires Honest(post)
    ensures |Agents(post)| == |post.corroborations| + 1
  {
    VoicesCount(post.corroborations);
    assert {post.agent} !! Voices(post.corroborations);
  }

  // ---- the store object

  class LobbyStore {
    var config: Config
    var boards: map<string, Board>
    var bySession: map<string, string>

    function State(): Lobby
      reads this
    {
      Lobby(config, boards, bySession)
    }

    /** All that opening needs to find the one board on offer. Every method keeps it. */
    ghost predicate Valid()
      reads this
    {
      OneBoardEach(State())
    }

    constructor (config: Config)
      ensures Valid() && Inv(State()) && State() == Lobby(config, map[], map[])
    {
      this.config, boards, bySession := config, map[], map[];
    }

    method Configure(config: Config)
      modifies this`config
      ensures State() == Next(old(State()), Call.Configure(config))
    {
      this.config := config;
    }

    method Reset()
      modifies this`boards, this`bySession
      ensures State() == Next(old(State()), Call.Reset)
    {
      boards, bySession := map[], map[];
    }

    /** Drop a board's expired posts. */
    method ExpirePosts(b: string, now: int)
      requires b in boards
      modifies this`boards
      ensures boards == old(boards)[b := Expire(config, old(boards)[b], now)]
    {
      if config.ttl == 0 {
        return;
      }
      var posts, kept, i := boards[b].posts, [], 0;
      while i < |posts|
        invariant 0 <= i <= |posts|
        invariant kept == Unexpired(posts[..i], now, config.ttl)
      {
        if now - posts[i].createdAt <= config.ttl {
          kept := kept + [posts[i]];
        }
        assert posts[..i + 1][..i] == posts[..i];
        i := i + 1;
      }
      assert posts[..i] == posts;
      boards := boards[b := boards[b].(posts := kept)];
    }

    method BoardForSession(session: string, now: int) returns (board: Option<string>)
      modifies this`boards
      ensures board == BoardOf(old(State()), session)
      ensures State() == Looked(old(State()), now, session)
    {
      if session == "" || session !in bySession {
        return None;
      }
      var b := bySession[session];
      if b == "" || b !in boards || !boards[b].open {
        return None;
      }
      ExpirePosts(b, now);
      board := Some(b);
    }

    method FindBoard(task: string, namespace: string, room: Room) returns (board: Option<string>)
      requires Valid()
      ensures board == Joinable(State(), task, namespace, room)
    {
      var left := boards.Keys;
      while left != {}
        invariant left <= boards.Keys
        invariant forall b :: b in boards && b !in left ==> !Offers(boards[b], task, namespace, room)
        decreases left
      {
        var b :| b in left;
        if Offers(boards[b], task, namespace, room) {
          forall c | c in boards && Offers(boards[c], task, namespace, room) ensures c == b {
            assert SameOffer(boards[b], boards[c]);
          }
          return Some(b);
        }
        left := left - {b};
      }
      board := None;
    }

    method Open(now: int, newId: string, session: string, agent: string, task: string, namespace: string,
                room: Option<Room>) returns (reply: Reply)
      requires Valid() && newId !in boards && newId != ""
      modifies this`boards, this`bySession
      ensures Valid()
      ensures (State(), reply) == Opened(old(State()), now, newId, session, agent, task, namespace, room)
    {
      OpenKeepsOffers(State(), now, newId, session, agent, task, namespace, room);
      ghost var goal := Opened(State(), now, newId, session, agent, task, namespace, room).0;
      hide Joined, OneBoardEach;
      if !config.enabled {
        return Refused(Disabled);
      }
      if room.None? {
        return Refused(BadRoom);
      }
      if task == "" {
        return Refused(NoTask);
      }
      var existing := BoardForSession(session, now);
      if existing.Some? {
        boards := boards[existing.value := Touch(boards[existing.value], session, agent, now)];
        assert boards == goal.boards;
        return Accepted;
      }
      var found := FindBoard(task, namespace, room.value);
      if found.None? {
        Create(newId, session, agent, task, namespace, room.value, now);
        return Accepted;
      }
      reply := Join(found.value, session, agent, now);
      if reply.Accepted? {
        ExpirePosts(found.value, now);
      }
    }

    method Create(newId: string, session: string, agent: string, task: string, namespace: string, room: Room, now: int)
      modifies this`boards, this`bySession
      ensures State()
           == Joined(PutBoard(old(State()), newId, NewBoard(session, task, namespace, room)),
                     newId, session, agent, now)
    {
      boards := boards[newId := Touch(NewBoard(session, task, namespace, room), session, agent, now)];
      bySession := bySession[session := newId];
      assert {session} + {session} == {session};
    }

    method Publish(now: int, session: string, agent: string, room: Option<Room>, kind: Option<Kind>, body: string,
                   approach: Option<string>, bytes: nat, newId: string) returns (reply: Reply)
      requires Valid()
      modifies this`boards, this`bySession
      ensures Valid()
      ensures (State(), reply) == Published(old(State()), now, session, agent, room, kind, body, approach, bytes, newId)
    {
      hide OneBoardEach;
      PublishKeepsOffers(State(), now, session, agent, room, kind, body, approach, bytes, newId);
      if !config.enabled {
        return Refused(Disabled);
      }
      var found := BoardForSession(session, now);
      if found.None? {
        return Refused(NoBoard);
      }
      var b := found.value;
      if room.None? {
        return Refused(BadRoom);
      } else if room.value != boards[b].room {
        return Refused(OtherRoom);
      } else if kind.None? {
        return Refused(BadKind);
      } else if body == "" {
        return Refused(NoBody);
      } else if config.maxBytes != 0 && bytes > config.maxBytes {
        return Refused(TooLarge);
      }
      var post := Post(newId, session, agent, kind.value, body, approach, [], None, now);
      boards := boards[b := boards[b].(posts := boards[b].posts + [post])];
      reply := Join(b, session, agent, now);
    }

    /** The tail shared by publishing and corroborating. */
    method Join(b: string, session: string, agent: string, now: int) returns (reply: Reply)
      requires b in boards
      modifies this`boards, this`bySession
      ensures reply == if IsFull(config, old(boards)[b], session) then Refused(Full) else Accepted
      ensures State() == if reply.Refused? then old(State()) else Joined(old(State()), b, session, agent, now)
    {
      if IsFull(config, boards[b], session) {
        return Refused(Full);
      }
      boards := boards[b := boards[b].(participants := boards[b].participants + {session})];
      bySession := bySession[session := b];
      boards := boards[b := Touch(boards[b], session, agent, now)];
      reply := Accepted;
    }

    method FindPost(b: string, id: string) returns (place: Option<nat>)
      requires b in boards
      ensures place == Locate(boards[b].posts, id)
    {
      var posts, i := boards[b].posts, 0;
      while i < |posts|
        invariant 0 <= i <= |posts|
        invariant forall j :: 0 <= j < i ==> posts[j].id != id
      {
        if posts[i].id == id {
          return Some(i);
        }
        i := i + 1;
      }
      place := None;
    }

    method TakePost(now: int, session: string, id: string) returns (found: Option<(string, Post)>, why: Reason)
      requires Valid()
      modifies this`boards
      ensures Valid()
      ensures State() == if config.enabled then Looked(old(State()), now, session) else old(State())
      ensures var here := BoardOf(old(State()), session);
              && (found.Some? <==>
                    config.enabled && here.Some? && Locate(boards[here.value].posts, id).Some?)
              && (found.Some? ==>
                    found.value == (here.value, boards[here.value].posts[Locate(boards[here.value].posts, id).value]))
              && (found.None? ==> why == if !config.enabled then Disabled else if here.None? then NoBoard else NoPost)
    {
      LookKeepsOffers(State(), now, session);
      hide OneBoardEach;
      if !config.enabled {
        return None, Disabled;
      }
      var here := BoardForSession(session, now);
      if here.None? {
        return None, NoBoard;
      }
      var place := FindPost(here.value, id);
      if place.None? {
        return None, NoPost;
      }
      found, why := Some((here.value, boards[here.value].posts[place.value])), NoPost;
    }

    method Corroborate(now: int, session: string, agent: string, id: string) returns (reply: Reply)
      requires Valid()
      modifies this`boards, this`bySession
      ensures Valid()
      ensures (State(), reply) == Corroborated(old(State()), now, session, agent, id)
    {
      hide OneBoardEach;
      CorroborateKeepsOffers(State(), now, session, agent, id);
      if !config.enabled {
        return Refused(Disabled);
      }
      var found := BoardForSession(session, now);
      if found.None? {
        return Refused(NoBoard);
      }
      var b := found.value;
      var place := FindPost(b, id);
      if place.None? {
        return Refused(NoPost);
      }
      var post, i := boards[b].posts[place.value], 0;
      if post.session == session || post.agent == agent {
        return Refused(OwnPost);
      }
      while i < |post.corroborations|
        invariant 0 <= i <= |post.corroborations|
        invariant forall j :: 0 <= j < i ==>
                    post.corroborations[j].session != session && post.corroborations[j].agent != agent
      {
        if post.corroborations[i].session == session || post.corroborations[i].agent == agent {
          return Accepted;
        }
        i := i + 1;
      }
      if IsFull(config, boards[b], session) {
        return Refused(Full);
      }
      boards := boards[b := boards[b].(posts := boards[b].posts[place.value := Backed(post, session, agent)])];
      reply := Join(b, session, agent, now);
    }

    method Heartbeat(now: int, session: string, agent: string) returns (reply: Reply)
      requires Valid()
      modifies this`boards
      ensures Valid()
      ensures (State(), reply) == Seen(old(State()), now, session, agent)
    {
      OffersStay(State(), Seen(State(), now, session, agent).0);
      if !config.enabled {
        return Refused(Disabled);
      }
      var found := BoardForSession(session, now);
      if found.None? {
        return Refused(NoBoard);
      }
      boards := boards[found.value := Touch(boards[found.value], session, agent, now)];
      reply := Accepted;
    }

    method Leave(now: int, session: string) returns (reply: Reply)
      requires Valid()
      modifies this`boards, this`bySession
      ensures Valid()
      ensures (State(), reply) == Left(old(State()), now, session)
    {
      ghost var goal := Left(State(), now, session).0;
      OffersStay(State(), goal);
      if !config.enabled {
        return Refused(Disabled);
      }
      var found := BoardForSession(session, now);
      if found.Some? {
        var b := found.value;
        boards := boards[b := boards[b].(participants := boards[b].participants - {session})];
        boards := boards[b := boards[b].(presence := boards[b].presence - {session})];
        bySession := bySession - {session};
        assert boards == goal.boards;
      }
      reply := Accepted;
    }

    /** Closing hands over the failures nobody has promoted. */
    method Close(now: int, session: string) returns (reply: Reply, failures: seq<Post>)
      requires Valid()
      modifies this`boards, this`bySession
      ensures Valid()
      ensures (State(), reply) == Closed(old(State()), now, session)
      ensures reply.Accepted? ==>
                var s := old(State());
                failures == UnpromotedFailures(Looked(s, now, session).boards[BoardOf(s, session).value].posts)
    {
      failures := [];
      ghost var goal := Closed(State(), now, session).0;
      OffersStay(State(), goal);
      if !config.enabled {
        return Refused(Disabled), [];
      }
      var found := BoardForSession(session, now);
      if found.None? {
        return Refused(NoBoard), [];
      }
      var b := found.value;
      if session !in boards[b].participants && boards[b].opener != session {
        return Refused(NotParticipant), [];
      }
      failures := CollectFailures(boards[b].posts);
      boards := boards[b := boards[b].(open := false)];
      FreeSessions(b, boards[b].participants);
      assert boards == goal.boards && bySession == goal.bySession;
      reply := Accepted;
    }

    /** Take the sessions that point at a board off it. */
    method FreeSessions(b: string, members: set<string>)
      modifies this`bySession
      ensures bySession == map t | t in old(bySession) && !(t in members && old(bySession)[t] == b) :: old(bySession)[t]
    {
      var left := members;
      while left != {}
        invariant left <= members
        invariant bySession == map t | t in old(bySession)
                    && !(t in members && t !in left && old(bySession)[t] == b) :: old(bySession)[t]
        decreases left
      {
        var t :| t in left;
        if t in bySession && bySession[t] == b {
          bySession := bySession - {t};
        }
        left := left - {t};
      }
    }

    method CollectFailures(posts: seq<Post>) returns (failures: seq<Post>)
      ensures failures == UnpromotedFailures(posts)
    {
      failures := [];
      var i := 0;
      while i < |posts|
        invariant 0 <= i <= |posts| && failures == UnpromotedFailures(posts[..i])
      {
        if posts[i].kind.Failure? && (posts[i].promotedTo.None? || posts[i].promotedTo.value == "") {
          failures := failures + [posts[i]];
        }
        assert posts[..i + 1][..i] == posts[..i];
        i := i + 1;
      }
      assert posts[..i] == posts;
    }

    method MarkPromoted(b: string, id: string, target: string)
      requires Valid()
      modifies this`boards
      ensures Valid()
      ensures State() == Promoted(old(State()), b, id, target)
    {
      OffersStay(State(), Promoted(State(), b, id, target));
      if b in boards {
        var place := FindPost(b, id);
        if place.Some? {
          var posts := boards[b].posts;
          posts := posts[place.value := posts[place.value].(promotedTo := Some(target))];
          boards := boards[b := boards[b].(posts := posts)];
        }
      }
    }
  }

  ghost predicate NoNewOffers(s: Lobby, t: Lobby) {
    && t.boards.Keys == s.boards.Keys
    && forall b :: b in s.boards && t.boards[b].open ==> SameOffer(s.boards[b], t.boards[b])
  }

  /** Steps that open no board and move no offer cannot break uniqueness. */
  lemma OffersStay(s: Lobby, t: Lobby)
    requires OneBoardEach(s) && NoNewOffers(s, t)
    ensures OneBoardEach(t)
  {
    forall c, d | c in t.boards && d in t.boards && SameOffer(t.boards[c], t.boards[d]) ensures c == d {
      assert SameOffer(s.boards[c], s.boards[d]);
    }
  }

  lemma LookOffers(s: Lobby, now: int, session: string)
    ensures NoNewOffers(s, Looked(s, now, session))
  {
  }

  lemma LookKeepsOffers(s: Lobby, now: int, session: string)
    requires OneBoardEach(s)
    ensures OneBoardEach(Looked(s, now, session))
  {
    LookOffers(s, now, session);
    OffersStay(s, Looked(s, now, session));
  }

  lemma EditOffers(s: Lobby, t: Lobby, b: string, posts: seq<Post>)
    requires NoNewOffers(s, t) && b in t.boards
    ensures NoNewOffers(s, PutBoard(t, b, t.boards[b].(posts := posts)))
  {
  }

  lemma JoinOffers(s: Lobby, t: Lobby, b: string, session: string, agent: string, now: int)
    requires NoNewOffers(s, t) && b in t.boards
    ensures NoNewOffers(s, Joined(t, b, session, agent, now))
  {
  }

  lemma PublishKeepsOffers(s: Lobby, now: int, session: string, agent: string, room: Option<Room>, kind: Option<Kind>,
                           body: string, approach: Option<string>, bytes: nat, newId: string)
    requires OneBoardEach(s)
    ensures OneBoardEach(Published(s, now, session, agent, room, kind, body, approach, bytes, newId).0)
  {
    hide NoNewOffers, Joined, Looked, OneBoardEach;
    var seen, here := Looked(s, now, session), BoardOf(s, session);
    LookOffers(s, now, session);
    if here.Some? && kind.Some? {
      InLooked(s, now, session);
      var post := Post(newId, session, agent, kind.value, body, approach, [], None, now);
      var posts := seen.boards[here.value].posts + [post];
      EditOffers(s, seen, here.value, posts);
      JoinOffers(s, PutBoard(seen, here.value, seen.boards[here.value].(posts := posts)),
                 here.value, session, agent, now);
    }
    SameOrStill(s, s);
    OffersStay(s, Published(s, now, session, agent, room, kind, body, approach, bytes, newId).0);
  }

  lemma SameOrStill(s: Lobby, t: Lobby)
    requires s == t
    ensures NoNewOffers(s, t)
  {
  }

  lemma CorroborateKeepsOffers(s: Lobby, now: int, session: string, agent: string, id: string)
    requires OneBoardEach(s)
    ensures OneBoardEach(Corroborated(s, now, session, agent, id).0)
  {
    hide NoNewOffers, Joined, Looked, OneBoardEach, Spoke;
    var seen, here := Looked(s, now, session), BoardOf(s, session);
    LookOffers(s, now, session);
    InLooked(s, now, session);
    if here.Some? && Locate(seen.boards[here.value].posts, id).Some? {
      var b, i := here.value, Locate(seen.boards[here.value].posts, id).value;
      var posts := seen.boards[b].posts[i := Backed(seen.boards[b].posts[i], session, agent)];
      EditOffers(s, seen, b, posts);
      JoinOffers(s, PutBoard(seen, b, seen.boards[b].(posts := posts)), b, session, agent, now);
    }
    SameOrStill(s, s);
    OffersStay(s, Corroborated(s, now, session, agent, id).0);
  }

  lemma OpenKeepsOffers(s: Lobby, now: int, newId: string, session: string, agent: string, task: string,
                        namespace: string, room: Option<Room>)
    requires OneBoardEach(s) && newId !in s.boards && newId != ""
    ensures OneBoardEach(Opened(s, now, newId, session, agent, task, namespace, room).0)
  {
    hide OneBoardEach, NoNewOffers, Joined;
    if s.config.enabled && room.Some? && BoardOf(s, session).None? {
      var there := Joinable(s, task, namespace, room.value);
      if there.Some? {
        SameOrStill(s, s);
        JoinOffers(s, s, there.value, session, agent, now);
        var joined := Joined(s, there.value, session, agent, now);
        InJoined(s, there.value, session, agent, now);
        EditOffers(s, joined, there.value, Expire(s.config, joined.boards[there.value], now).posts);
        OffersStay(s, PutBoard(joined, there.value, Expire(s.config, joined.boards[there.value], now)));
      } else {
        CreateKeepsOffers(s, now, newId, session, agent, task, namespace, room.value);
      }
    } else {
      TouchOffers(s, now, newId, session, agent, task, namespace, room);
      OffersStay(s, Opened(s, now, newId, session, agent, task, namespace, room).0);
    }
  }

  lemma InJoined(s: Lobby, b: string, session: string, agent: string, now: int)
    requires b in s.boards
    ensures b in Joined(s, b, session, agent, now).boards
    ensures var board := Joined(s, b, session, agent, now).boards[b];
            Expire(s.config, board, now) == board.(posts := Expire(s.config, board, now).posts)
  {
  }

  lemma TouchOffers(s: Lobby, now: int, newId: string, session: string, agent: string, task: string,
                    namespace: string, room: Option<Room>)
    requires !s.config.enabled || room.None? || BoardOf(s, session).Some?
    ensures NoNewOffers(s, Opened(s, now, newId, session, agent, task, namespace, room).0)
  {
  }

  lemma CreateKeepsOffers(s: Lobby, now: int, newId: string, session: string, agent: string, task: string,
                          namespace: string, room: Room)
    requires OneBoardEach(s) && newId !in s.boards && newId != ""
    requires forall b :: b in s.boards ==> !Offers(s.boards[b], task, namespace, room)
    ensures OneBoardEach(Joined(PutBoard(s, newId, NewBoard(session, task, namespace, room)),
                                newId, session, agent, now))
  {
    var t := Joined(PutBoard(s, newId, NewBoard(session, task, namespace, room)), newId, session, agent, now);
    hide OneBoardEach;
    assert t.boards.Keys == s.boards.Keys + {newId};
    NewOfferIsUnique(s, t, newId, task, namespace, room);
  }

  lemma NewOfferIsUnique(s: Lobby, t: Lobby, newId: string, task: string, namespace: string, room: Room)
    requires OneBoardEach(s) && newId != "" && t.boards.Keys == s.boards.Keys + {newId}
    requires Offers(t.boards[newId], task, namespace, room)
    requires forall b :: b in s.boards ==> t.boards[b] == s.boards[b] && !Offers(s.boards[b], task, namespace, room)
    ensures OneBoardEach(t)
  {
    forall c, d | c in t.boards && d in t.boards && SameOffer(t.boards[c], t.boards[d]) ensures c == d {
      assert c != newId ==> !Offers(s.boards[c], task, namespace, room);
      assert d != newId ==> !Offers(s.boards[d], task, namespace, room);
      assert c != newId && d != newId ==> SameOffer(s.boards[c], s.boards[d]);
    }
  }
}
