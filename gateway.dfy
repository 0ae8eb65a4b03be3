/**
 * The socket.io gateway of the backend (`MessagesGateway`): authentication of a new socket,
 * joining and leaving conversation rooms, and the broadcast of a new message to a room.
 */
module Gateway {
  import opened Outcomes
  import opened Seqs
  import opened Entities
  import opened Storage

  /** A socket, by its connection id. */
  type Socket = nat

  /** What the handshake carries: `auth.token` and the `authorization` header, when present. */
  datatype Handshake = Handshake(authToken: Option<string>, authorization: Option<string>)

  /** The events the gateway emits. */
  datatype Event = Authenticated(userId: string) | MessageNew(message: Message)

  /** One `emit`: the sockets it reaches and the event. */
  datatype Emission = Emission(recipients: set<Socket>, event: Event)

  /** The acknowledgement of a `joinConversation`/`leaveConversation` request. */
  datatype Reply = Ok(conversationId: string) | Refused(error: string)

  const UnauthorizedReply := "Unauthorized"

  function UserRoom(userId: string): string {
    "user:" + userId
  }

  function ConversationRoom(conversationId: string): string {
    "conversation:" + conversationId
  }

  /** A user room and a conversation room never share a name. */
  lemma RoomKindsDisjoint(userId: string, conversationId: string)
    ensures UserRoom(userId) != ConversationRoom(conversationId)
  {
    assert UserRoom(userId)[0] == 'u';
    assert ConversationRoom(conversationId)[0] == 'c';
  }

  /** Room names determine the user or conversation they were made from. */
  lemma RoomNamesInjective(a: string, b: string)
    ensures UserRoom(a) == UserRoom(b) ==> a == b
    ensures ConversationRoom(a) == ConversationRoom(b) ==> a == b
  {
    if UserRoom(a) == UserRoom(b) {
      assert a == UserRoom(a)[5..];
      assert b == UserRoom(b)[5..];
    }
    if ConversationRoom(a) == ConversationRoom(b) {
      assert a == ConversationRoom(a)[13..];
      assert b == ConversationRoom(b)[13..];
    }
  }

  /** The sockets currently in `room` (none when the room does not exist). */
  function Members(rooms: map<string, set<Socket>>, room: string): set<Socket> {
    if room in rooms then rooms[room] else {}
  }

  /** `client.join(room)`: the socket is added to that room and no other changes. */
  function Join(rooms: map<string, set<Socket>>, room: string, s: Socket): (r: map<string, set<Socket>>)
    ensures forall q :: Members(r, q) == if q == room then Members(rooms, q) + {s} else Members(rooms, q)
  {
    rooms[room := Members(rooms, room) + {s}]
  }

  /** `client.leave(room)`: the socket is taken out of that room and no other changes. */
  function Leave(rooms: map<string, set<Socket>>, room: string, s: Socket): (r: map<string, set<Socket>>)
    ensures forall q :: Members(r, q) == if q == room then Members(rooms, q) - {s} else Members(rooms, q)
  {
    if room in rooms then rooms[room := rooms[room] - {s}] else rooms
  }

  /** `String.prototype.split` with a one-character separator. */
  function Split(s: string, sep: char): (parts: seq<string>)
    ensures |parts| >= 1
    ensures forall k :: 0 <= k < |parts| ==> sep !in parts[k]
    decreases |s|
  {
    match FirstIndex(s, c => c == sep)
    case None => [s]
    case Some(i) => [s[..i]] + Split(s[i + 1..], sep)
  }

  /** `Array.prototype.join` with a one-character separator. */
  function JoinWith(parts: seq<string>, sep: char): string {
    if parts == [] then ""
    else if |parts| == 1 then parts[0]
    else parts[0] + [sep] + JoinWith(parts[1..], sep)
  }

  /** Splitting loses nothing: joining the parts back gives the original string. */
  lemma {:induction false} SplitJoin(s: string, sep: char)
    ensures JoinWith(Split(s, sep), sep) == s
    decreases |s|
  {
    match FirstIndex(s, c => c == sep)
    case None =>
    case Some(i) =>
      var rest := Split(s[i + 1..], sep);
      var parts := [s[..i]] + rest;
      assert Split(s, sep) == parts;
      assert parts[1..] == rest;
      calc {
        JoinWith(parts, sep);
        s[..i] + [sep] + JoinWith(rest, sep);
        { SplitJoin(s[i + 1..], sep); }
        s[..i] + [sep] + s[i + 1..];
        { assert s[i] == sep; }
        s;
      }
  }

  /** `authorization?.split(' ')[1]`: the second space-separated field of the header. */
  function BearerToken(authorization: Option<string>): Option<string> {
    match authorization
    case None => None
    case Some(header) =>
      var fields := Split(header, ' ');
      if |fields| >= 2 then Some(fields[1]) else None
  }

  /**
   * The token of a handshake: `auth.token || authorization?.split(' ')[1]`. The `||` and the
   * later `!token` treat the empty string like a missing token.
   */
  function ExtractToken(h: Handshake): (t: Option<string>)
    ensures t.Some? ==> t.value != ""
    ensures h.authToken.Some? && h.authToken.value != "" ==> t == h.authToken
    ensures (h.authToken.None? || h.authToken.value == "") ==>
      t == (if BearerToken(h.authorization).Some? && BearerToken(h.authorization).value != ""
            then BearerToken(h.authorization) else None)
  {
    if h.authToken.Some? && h.authToken.value != "" then h.authToken
    else match BearerToken(h.authorization)
      case Some(token) => if token != "" then Some(token) else None
      case None => None
  }

  /**
   * The user a handshake authenticates, if any: a token is present, `verify` accepts it, its
   * `sub` is a well-formed ObjectId and a stored user has that id. `verify` returns None where
   * `jwtService.verify` throws.
   */
  function Authenticate(h: Handshake, verify: string -> Option<TokenPayload>, isObjectId: string -> bool,
                        users: seq<User>): (u: Option<User>)
    ensures u.Some? <==>
      ExtractToken(h).Some? && verify(ExtractToken(h).value).Some? &&
      isObjectId(verify(ExtractToken(h).value).value.sub) &&
      exists v :: v in users && v.id == verify(ExtractToken(h).value).value.sub
    ensures u.Some? ==> u.value in users && u.value.id == verify(ExtractToken(h).value).value.sub
  {
    match ExtractToken(h)
    case None => None
    case Some(token) =>
      match verify(token)
      case None => None
      case Some(payload) =>
        if !isObjectId(payload.sub) then None
        else Find(users, (v: User) => v.id == payload.sub)
  }

  /** The events that reached socket `s`, in emission order. */
  function Inbox(outbox: seq<Emission>, s: Socket): seq<Event> {
    if outbox == [] then []
    else Inbox(outbox[..|outbox| - 1], s) + (if s in outbox[|outbox| - 1].recipients then [outbox[|outbox| - 1].event] else [])
  }

  /** One more emission adds its event to the inbox of exactly its recipients. */
  lemma InboxAfterEmit(outbox: seq<Emission>, e: Emission, s: Socket)
    ensures Inbox(outbox + [e], s) == Inbox(outbox, s) + (if s in e.recipients then [e.event] else [])
  {
    assert (outbox + [e])[..|outbox|] == outbox;
  }

  class MessagesGateway {
    /** The user repository the handshake looks users up in. */
    const users: Repository<User>
    /** `client.data.user` of every authenticated socket; `client.data.userId` is its `id`. */
    var sessions: map<Socket, PublicUser>
    /** Room name to the sockets in it. */
    var rooms: map<string, set<Socket>>
    /** Sockets the gateway disconnected. */
    var disconnected: set<Socket>
    /** Every emission so far, oldest first. */
    var outbox: seq<Emission>

    /**
     * Only authenticated sockets are in rooms; a socket's user room is the room of its own
     * user; a disconnected socket is not authenticated.
     */
    ghost predicate Valid()
      reads this
    {
      (forall room, s :: room in rooms && s in rooms[room] ==> s in sessions) &&
      (forall u, s :: s in Members(rooms, UserRoom(u)) ==> s in sessions && sessions[s].id == u) &&
      (forall s :: s in disconnected ==> s !in sessions)
    }

    constructor (users: Repository<User>)
      ensures Valid()
      ensures this.users == users && sessions == map[] && rooms == map[] && disconnected == {} && outbox == []
    {
      this.users := users;
      sessions, rooms, disconnected, outbox := map[], map[], {}, [];
    }

    /**
     * `handleConnection` of a new socket: with a token that verifies to a stored user the socket
     * is bound to that user, joins `user:<id>` and gets `authenticated`; in every other case it
     * is disconnected and nothing else changes.
     */
    method HandleConnection(client: Socket, h: Handshake, verify: string -> Option<TokenPayload>,
                            isObjectId: string -> bool)
      requires Valid()
      requires client !in sessions && client !in disconnected
      modifies this
      ensures Valid()
      ensures var u := Authenticate(h, verify, isObjectId, users.rows);
        if u.None? then
          sessions == old(sessions) && rooms == old(rooms) && outbox == old(outbox) &&
          disconnected == old(disconnected) + {client}
        else
          sessions == old(sessions)[client := Public(u.value)] &&
          rooms == Join(old(rooms), UserRoom(u.value.id), client) &&
          outbox == old(outbox) + [Emission({client}, Authenticated(u.value.id))] &&
          disconnected == old(disconnected)
    {
      var user := Authenticate(h, verify, isObjectId, users.rows);
      if user.None? {
        disconnected := disconnected + {client};
        return;
      }
      var u := user.value;
      sessions := sessions[client := Public(u)];
      rooms := Join(rooms, UserRoom(u.id), client);
      outbox := outbox + [Emission({client}, Authenticated(u.id))];
      forall v, s | s in Members(rooms, UserRoom(v)) ensures s in sessions && sessions[s].id == v {
        RoomNamesInjective(v, u.id);
      }
    }

    /** `handleDisconnect` does nothing (its cleanup is a TODO in the gateway). */
    method HandleDisconnect(client: Socket)
      ensures sessions == old(sessions) && rooms == old(rooms)
      ensures disconnected == old(disconnected) && outbox == old(outbox)
    {
    }

    /**
     * `joinConversation`: an unauthenticated socket gets `{ error: 'Unauthorized' }` and no room
     * changes; otherwise it joins `conversation:<id>` and the id is echoed back.
     */
    method HandleJoinConversation(client: Socket, conversationId: string) returns (reply: Reply)
      requires Valid()
      modifies this
      ensures Valid()
      ensures client !in old(sessions) ==> reply == Refused(UnauthorizedReply) && rooms == old(rooms)
      ensures client in old(sessions) ==>
        reply == Ok(conversationId) && rooms == Join(old(rooms), ConversationRoom(conversationId), client)
      ensures sessions == old(sessions) && disconnected == old(disconnected) && outbox == old(outbox)
    {
      if client !in sessions {
        return Refused(UnauthorizedReply);
      }
      rooms := Join(rooms, ConversationRoom(conversationId), client);
      forall u | true ensures Members(rooms, UserRoom(u)) == Members(old(rooms), UserRoom(u)) {
        RoomKindsDisjoint(u, conversationId);
      }
      return Ok(conversationId);
    }

    /** `leaveConversation`: no authentication needed; the socket leaves `conversation:<id>` and succeeds. */
    method HandleLeaveConversation(client: Socket, conversationId: string) returns (reply: Reply)
      requires Valid()
      modifies this
      ensures Valid()
      ensures reply == Ok(conversationId)
      ensures rooms == Leave(old(rooms), ConversationRoom(conversationId), client)
      ensures sessions == old(sessions) && disconnected == old(disconnected) && outbox == old(outbox)
    {
      rooms := Leave(rooms, ConversationRoom(conversationId), client);
      return Ok(conversationId);
    }

    /** `broadcastMessage`: one `message:new` emission to the members of `conversation:<id>`. */
    method BroadcastMessage(conversationId: string, message: Message)
      modifies this
      ensures outbox == old(outbox) + [Emission(Members(rooms, ConversationRoom(conversationId)), MessageNew(message))]
      ensures forall s :: (Inbox(outbox, s) ==
        Inbox(old(outbox), s) + if s in Members(rooms, ConversationRoom(conversationId)) then [MessageNew(message)] else [])
      ensures sessions == old(sessions) && rooms == old(rooms) && disconnected == old(disconnected)
      ensures old(Valid()) ==> Valid() && outbox[|outbox| - 1].recipients <= sessions.Keys
    {
      if Valid() {
        ConversationRoomAuthenticated(conversationId);
      }
      var e := Emission(Members(rooms, ConversationRoom(conversationId)), MessageNew(message));
      forall s ensures Inbox(outbox + [e], s) == Inbox(outbox, s) + (if s in e.recipients then [e.event] else []) {
        InboxAfterEmit(outbox, e, s);
      }
      outbox := outbox + [e];
    }

    /** A `message:new` broadcast reaches only authenticated sockets. */
    lemma ConversationRoomAuthenticated(conversationId: string)
      requires Valid()
      ensures Members(rooms, ConversationRoom(conversationId)) <= sessions.Keys
    {
    }

    /** Whatever is emitted to `user:<u>` reaches only sockets bound to user `u`. */
    lemma UserRoomReachesOnlyItsUser(u: string, s: Socket)
      requires Valid()
      requires s in Members(rooms, UserRoom(u))
      ensures s in sessions && sessions[s].id == u
    {
    }
  }
}
