/**
 * The server's Socket.IO event handlers, as one state machine over the room and message
 * collections, the users' names, the open connections with the rooms each one is subscribed
 * to, and an outbox of emitted events, each addressed to a set of connections. Every handler
 * runs as one atomic step: validate, check access, persist, then fan out.
 */
module SocketHandlers {
  import opened Common
  import opened JsText
  import opened RoomModel
  import opened MessageModel
  import opened RoomAuth

  /** A connected socket. */
  type ConnId = nat

  /** `socket.user`: the authenticated user of a connection. */
  datatype Identity = Identity(id: ObjectId, username: JsString)

  /** The shape in which a stored message travels to clients. */
  datatype MessagePayload = MessagePayload(
    id: ObjectId,
    content: JsString,
    senderId: ObjectId,
    senderName: JsString,
    timestamp: Time,
    messageType: MessageType,
    encrypted: bool)

  datatype ServerEvent =
    | RoomsJoined(count: nat)
    | ErrorEvent(message: JsString)
    | MessageHistory(messages: seq<MessagePayload>)
    | UserJoined(userId: ObjectId, username: JsString)
    | UserLeft(userId: ObjectId, username: JsString)
    | NewMessageEvent(payload: MessagePayload)
    | UserTyping(userId: ObjectId, username: JsString)
    | UserStoppedTyping(userId: ObjectId, username: JsString)
    | IncomingCall(callerId: ObjectId, callerName: JsString, roomId: ObjectId, callType: Option<JsString>, timestamp: Time)
    | CallAccepted(accepterId: ObjectId, accepterName: JsString)
    | CallRejected(rejecterId: ObjectId, rejecterName: JsString)
    | CallEnded(enderId: ObjectId, enderName: JsString)

  /** One `emit`, with the connections it reaches. */
  datatype Emission = Emission(to: set<ConnId>, event: ServerEvent)

  /** Everything the handlers read and write. */
  datatype ServerState = ServerState(
    rooms: seq<RoomRecord>,
    messages: seq<MessageRecord>,
    usernames: map<ObjectId, JsString>,
    connections: map<ConnId, Identity>,
    subscriptions: map<ConnId, set<ObjectId>>,
    outbox: seq<Emission>)

  /** The connections subscribed to a room: who `io.to(room)` reaches. */
  function SubscribersIn(subscriptions: map<ConnId, set<ObjectId>>, room: ObjectId): (s: set<ConnId>)
    ensures forall c :: c in s <==> c in subscriptions && room in subscriptions[c]
  {
    set c | c in subscriptions.Keys && room in subscriptions[c]
  }

  /** The active rooms listing the user as a member, in store order (the `join-rooms` query). */
  function UserRooms(rooms: seq<RoomRecord>, user: ObjectId): (r: seq<RoomRecord>)
    ensures |r| <= |rooms|
    ensures forall room :: room in r <==> room in rooms && room.isActive && IsMember(room, user)
  {
    if rooms == [] then []
    else
      var rest := UserRooms(rooms[1..], user);
      if rooms[0].isActive && IsMember(rooms[0], user) then [rooms[0]] + rest else rest
  }

  function RoomIds(rooms: seq<RoomRecord>): (ids: set<ObjectId>)
    ensures forall id :: id in ids <==> exists i :: 0 <= i < |rooms| && rooms[i].id == id
  {
    if rooms == [] then {} else {rooms[0].id} + RoomIds(rooms[1..])
  }

  lemma RoomIdsAppend(rooms: seq<RoomRecord>, room: RoomRecord)
    ensures RoomIds(rooms + [room]) == RoomIds(rooms) + {room.id}
  {
    var r := rooms + [room];
    forall id | id in RoomIds(rooms) ensures id in RoomIds(r) {
      var i :| 0 <= i < |rooms| && rooms[i].id == id;
      assert r[i].id == id;
    }
    assert r[|rooms|].id == room.id;
    forall id | id in RoomIds(r) ensures id in RoomIds(rooms) + {room.id} {
      var i :| 0 <= i < |r| && r[i].id == id;
      if i < |rooms| { assert rooms[i].id == id; }
    }
  }

  /** The username `populate("sender", "username")` finds. */
  function NameOf(usernames: map<ObjectId, JsString>, user: ObjectId): JsString {
    if user in usernames then usernames[user] else []
  }

  function ToPayload(usernames: map<ObjectId, JsString>, m: MessageRecord): MessagePayload {
    MessagePayload(m.id, m.content, m.sender, NameOf(usernames, m.sender), m.createdAt, m.messageType, m.encrypted)
  }

  function Payloads(usernames: map<ObjectId, JsString>, ms: seq<MessageRecord>): (ps: seq<MessagePayload>)
    ensures |ps| == |ms|
  {
    seq(|ms|, i requires 0 <= i < |ms| => ToPayload(usernames, ms[i]))
  }

  /** The size of the history `join-room` sends. */
  const HistoryLimit: nat := 50

  /** The `message-history` a joiner receives: the room's 50 newest visible messages, oldest first. */
  function History(s: ServerState, room: ObjectId): seq<MessagePayload> {
    Payloads(s.usernames, Page(RoomVisible(s.messages, room), 0, HistoryLimit))
  }

  /** `Room.findByIdAndUpdate(id, { lastActivity: now })`. */
  function Touch(rooms: seq<RoomRecord>, id: ObjectId, now: Time): (r: seq<RoomRecord>)
    ensures |r| == |rooms|
    ensures forall i :: 0 <= i < |rooms| ==>
      r[i] == if rooms[i].id == id then rooms[i].(lastActivity := now) else rooms[i]
  {
    seq(|rooms|, i requires 0 <= i < |rooms| =>
      if rooms[i].id == id then rooms[i].(lastActivity := now) else rooms[i])
  }

  function MessageIds(messages: seq<MessageRecord>): (ids: seq<ObjectId>)
    ensures |ids| == |messages| && forall i :: 0 <= i < |messages| ==> ids[i] == messages[i].id
  {
    seq(|messages|, i requires 0 <= i < |messages| => messages[i].id)
  }

  /** The id a newly saved message gets: one no stored message has. */
  function FreshId(messages: seq<MessageRecord>): (id: ObjectId)
    ensures forall i :: 0 <= i < |messages| ==> messages[i].id != id
  {
    var ids := MessageIds(messages);
    assert forall i :: 0 <= i < |messages| ==> messages[i].id == ids[i] <= MaxId(ids);
    MaxId(ids) + 1
  }

  function AccessDeniedText(): JsString { Str("Access denied to room") }
  function MissingFieldsText(): JsString { Str("Content and room ID are required") }
  function SendFailedText(): JsString { Str("Failed to send message") }

  /** The text of the message an `initiate-call` leaves in the room. */
  function CallContent(callType: Option<JsString>): JsString {
    if callType == Some(Str("video")) then Str("Video call started") else Str("Audio call started")
  }

  /** The subscription sets after `join-rooms` has added `ids` for connection `c`. */
  function Joined(subscriptions: map<ConnId, set<ObjectId>>, c: ConnId, ids: set<ObjectId>): map<ConnId, set<ObjectId>>
    requires c in subscriptions
  {
    subscriptions[c := subscriptions[c] + ids]
  }

  /** Running `join-rooms` a second time leaves the subscriptions as they are. */
  lemma JoinRoomsIdempotent(subscriptions: map<ConnId, set<ObjectId>>, c: ConnId, ids: set<ObjectId>)
    requires c in subscriptions
    ensures Joined(Joined(subscriptions, c, ids), c, ids) == Joined(subscriptions, c, ids)
    ensures forall room :: room in ids ==> c in SubscribersIn(Joined(subscriptions, c, ids), room)
    ensures forall d, room :: d != c && d in subscriptions ==>
      (d in SubscribersIn(Joined(subscriptions, c, ids), room) <==> d in SubscribersIn(subscriptions, room))
  {
  }

  class ChatServer {
    var rooms: seq<RoomRecord>
    var messages: seq<MessageRecord>
    var usernames: map<ObjectId, JsString>
    var connections: map<ConnId, Identity>
    var subscriptions: map<ConnId, set<ObjectId>>
    var outbox: seq<Emission>

    function State(): ServerState
      reads this
    {
      ServerState(rooms, messages, usernames, connections, subscriptions, outbox)
    }

    /**
     * Every connection has a subscription set and a known user, every stored message a known
     * sender, and room and message ids are unique.
     */
    predicate Valid()
      reads this
    {
      && subscriptions.Keys == connections.Keys
      && (forall c :: c in connections ==> connections[c].id in usernames)
      && (forall i :: 0 <= i < |messages| ==> messages[i].sender in usernames)
      && UniqueIds(rooms)
      && (forall i, j :: 0 <= i < j < |messages| ==> messages[i].id != messages[j].id)
    }

    function Subscribers(room: ObjectId): set<ConnId>
      reads this
    {
      SubscribersIn(subscriptions, room)
    }

    /** A server with the stored rooms, messages and users, and no connection yet. */
    constructor (rooms: seq<RoomRecord>, messages: seq<MessageRecord>, usernames: map<ObjectId, JsString>)
      requires UniqueIds(rooms)
      requires forall i :: 0 <= i < |messages| ==> messages[i].sender in usernames
      requires forall i, j :: 0 <= i < j < |messages| ==> messages[i].id != messages[j].id
      ensures Valid()
      ensures State() == ServerState(rooms, messages, usernames, map[], map[], [])
    {
      this.rooms, this.messages, this.usernames := rooms, messages, usernames;
      connections, subscriptions, outbox := map[], map[], [];
    }

    /** An authenticated socket connects: it starts with no room subscriptions. */
    method Connect(c: ConnId, user: Identity)
      requires Valid() && c !in connections && user.id in usernames
      modifies this
      ensures Valid()
      ensures State() == old(State()).(connections := old(connections)[c := user],
                                       subscriptions := old(subscriptions)[c := {}])
    {
      connections := connections[c := user];
      subscriptions := subscriptions[c := {}];
    }

    /** `disconnect`: Socket.IO drops the socket's subscriptions; the handler only logs. */
    method Disconnect(c: ConnId)
      requires Valid() && c in connections
      modifies this
      ensures Valid()
      ensures State() == old(State()).(connections := old(connections) - {c},
                                       subscriptions := old(subscriptions) - {c})
    {
      connections := connections - {c};
      subscriptions := subscriptions - {c};
    }

    /** The `forEach` of `join-rooms`: `socket.join` for each room in turn. */
    method JoinEach(c: ConnId, userRooms: seq<RoomRecord>)
      requires c in subscriptions
      modifies this
      ensures State() == old(State()).(subscriptions := Joined(old(subscriptions), c, RoomIds(userRooms)))
    {
      var subscribed := subscriptions[c];
      for i := 0 to |userRooms|
        invariant unchanged(this)
        invariant subscribed == old(subscriptions)[c] + RoomIds(userRooms[..i])
      {
        assert userRooms[..i + 1] == userRooms[..i] + [userRooms[i]];
        RoomIdsAppend(userRooms[..i], userRooms[i]);
        subscribed := subscribed + {userRooms[i].id};
      }
      subscriptions := subscriptions[c := subscribed];
      assert userRooms[..|userRooms|] == userRooms;
    }

    /** `join-rooms`: subscribe to every active room the user belongs to and report how many. */
    method JoinRooms(c: ConnId)
      requires Valid() && c in connections
      modifies this
      ensures Valid()
      ensures var found := UserRooms(old(rooms), old(connections)[c].id);
        State() == old(State()).(
          subscriptions := Joined(old(subscriptions), c, RoomIds(found)),
          outbox := old(outbox) + [Emission({c}, RoomsJoined(|found|))])
    {
      var userRooms := UserRooms(rooms, connections[c].id);
      JoinEach(c, userRooms);
      outbox := outbox + [Emission({c}, RoomsJoined(|userRooms|))];
    }

    /**
     * `join-room`: without access, one error to the requester and nothing else; with access,
     * subscribe, send the requester the recent history, and tell the room's other subscribers.
     */
    method JoinRoom(c: ConnId, roomId: RoomRef)
      requires Valid() && c in connections
      modifies this
      ensures Valid()
      ensures var user := old(connections)[c];
        !CheckSocketRoomAccess(old(rooms), roomId, user.id) ==>
          State() == old(State()).(outbox := old(outbox) + [Emission({c}, ErrorEvent(AccessDeniedText()))])
      ensures var user := old(connections)[c];
        CheckSocketRoomAccess(old(rooms), roomId, user.id) ==>
          State() == old(State()).(
            subscriptions := old(subscriptions)[c := old(subscriptions)[c] + {roomId.id}],
            outbox := old(outbox) + [
              Emission({c}, MessageHistory(History(old(State()), roomId.id))),
              Emission(SubscribersIn(old(subscriptions), roomId.id) - {c}, UserJoined(user.id, user.username))])
    {
      var user := connections[c];
      if !CheckSocketRoomAccess(rooms, roomId, user.id) {
        outbox := outbox + [Emission({c}, ErrorEvent(AccessDeniedText()))];
        return;
      }
      var history := History(State(), roomId.id);
      var joined := subscriptions[c := subscriptions[c] + {roomId.id}];
      OthersUnchanged(subscriptions, c, joined[c], roomId.id);
      var others := SubscribersIn(joined, roomId.id) - {c};
      subscriptions, outbox := joined, outbox + [
        Emission({c}, MessageHistory(history)),
        Emission(others, UserJoined(user.id, user.username))];
    }

    /** `leave-room`: unsubscribe and tell the remaining subscribers; there is no access check. */
    method LeaveRoom(c: ConnId, roomId: ObjectId)
      requires Valid() && c in connections
      modifies this
      ensures Valid()
      ensures var user := old(connections)[c];
        State() == old(State()).(
          subscriptions := old(subscriptions)[c := old(subscriptions)[c] - {roomId}],
          outbox := old(outbox) + [Emission(SubscribersIn(old(subscriptions), roomId) - {c}, UserLeft(user.id, user.username))])
    {
      var user := connections[c];
      OthersUnchanged(subscriptions, c, subscriptions[c] - {roomId}, roomId);
      subscriptions := subscriptions[c := subscriptions[c] - {roomId}];
      outbox := outbox + [Emission(Subscribers(roomId) - {c}, UserLeft(user.id, user.username))];
    }

    /**
     * `send-message`: content and room id are required, then access; a message the schema
     * rejects ends in "Failed to send message". A stored message is encrypted, sent by the
     * connection's user, refreshes the room's `lastActivity`, and goes to every subscriber.
     */
    method SendMessage(c: ConnId, content: Option<JsString>, roomId: RoomRef, messageType: Option<JsString>, now: Time)
      requires Valid() && c in connections
      modifies this
      ensures Valid()
      ensures var user := old(connections)[c];
        var error :=
          if !Truthy(content) || roomId.Missing? then Some(MissingFieldsText())
          else if !CheckSocketRoomAccess(old(rooms), roomId, user.id) then Some(AccessDeniedText())
          else if NewMessage(FreshId(old(messages)), content.value, user.id, roomId.id, messageType, Some(true), now).Err?
          then Some(SendFailedText())
          else None;
        if error.Some? then
          State() == old(State()).(outbox := old(outbox) + [Emission({c}, ErrorEvent(error.value))])
        else
          var m := NewMessage(FreshId(old(messages)), content.value, user.id, roomId.id, messageType, Some(true), now).value;
          State() == old(State()).(
            messages := old(messages) + [m],
            rooms := Touch(old(rooms), roomId.id, now),
            outbox := old(outbox) + [Emission(SubscribersIn(old(subscriptions), roomId.id),
                                              NewMessageEvent(ToPayload(old(usernames), m)))])
    {
      var user := connections[c];
      if !Truthy(content) || roomId.Missing? {
        outbox := outbox + [Emission({c}, ErrorEvent(MissingFieldsText()))];
        return;
      }
      if !CheckSocketRoomAccess(rooms, roomId, user.id) {
        outbox := outbox + [Emission({c}, ErrorEvent(AccessDeniedText()))];
        return;
      }
      var saved := NewMessage(FreshId(messages), content.value, user.id, roomId.id, messageType, Some(true), now);
      if saved.Err? {
        outbox := outbox + [Emission({c}, ErrorEvent(SendFailedText()))];
        return;
      }
      var m := saved.value;
      messages := messages + [m];
      rooms := Touch(rooms, roomId.id, now);
      assert forall i :: 0 <= i < |rooms| ==> rooms[i].id == old(rooms)[i].id;
      outbox := outbox + [Emission(Subscribers(roomId.id), NewMessageEvent(ToPayload(usernames, m)))];
    }

    /** `typing-start`: relayed to the room's other subscribers, with no access check. */
    method TypingStart(c: ConnId, roomId: ObjectId)
      requires Valid() && c in connections
      modifies this
      ensures Valid()
      ensures var user := old(connections)[c];
        State() == old(State()).(outbox := old(outbox) +
          [Emission(SubscribersIn(old(subscriptions), roomId) - {c}, UserTyping(user.id, user.username))])
    {
      var user := connections[c];
      outbox := outbox + [Emission(Subscribers(roomId) - {c}, UserTyping(user.id, user.username))];
    }

    /** `typing-stop`: relayed to the room's other subscribers, with no access check. */
    method TypingStop(c: ConnId, roomId: ObjectId)
      requires Valid() && c in connections
      modifies this
      ensures Valid()
      ensures var user := old(connections)[c];
        State() == old(State()).(outbox := old(outbox) +
          [Emission(SubscribersIn(old(subscriptions), roomId) - {c}, UserStoppedTyping(user.id, user.username))])
    {
      var user := connections[c];
      outbox := outbox + [Emission(Subscribers(roomId) - {c}, UserStoppedTyping(user.id, user.username))];
    }

    /**
     * `initiate-call`: with access, announce the call to the room's other subscribers and store
     * an unencrypted call message saying which kind of call started.
     */
    method InitiateCall(c: ConnId, roomId: RoomRef, callType: Option<JsString>, now: Time)
      requires Valid() && c in connections
      modifies this
      ensures Valid()
      ensures var user := old(connections)[c];
        !CheckSocketRoomAccess(old(rooms), roomId, user.id) ==>
          State() == old(State()).(outbox := old(outbox) + [Emission({c}, ErrorEvent(AccessDeniedText()))])
      ensures var user := old(connections)[c];
        CheckSocketRoomAccess(old(rooms), roomId, user.id) ==>
          var m := MessageRecord(FreshId(old(messages)), CallContent(callType), user.id, roomId.id, Call, false, now, None, None);
          State() == old(State()).(
            messages := old(messages) + [m],
            outbox := old(outbox) + [Emission(SubscribersIn(old(subscriptions), roomId.id) - {c},
                                              IncomingCall(user.id, user.username, roomId.id, callType, now))])
    {
      var user := connections[c];
      if !CheckSocketRoomAccess(rooms, roomId, user.id) {
        outbox := outbox + [Emission({c}, ErrorEvent(AccessDeniedText()))];
        return;
      }
      outbox := outbox + [Emission(Subscribers(roomId.id) - {c}, IncomingCall(user.id, user.username, roomId.id, callType, now))];
      var saved := NewMessage(FreshId(messages), CallContent(callType), user.id, roomId.id, Some(TypeName(Call)), Some(false), now);
      CallMessageValid(FreshId(messages), callType, user.id, roomId.id, now);
      messages := messages + [saved.value];
    }

    /** `accept-call`: the accepter's identity goes to the room's other subscribers. */
    method AcceptCall(c: ConnId, roomId: ObjectId)
      requires Valid() && c in connections
      modifies this
      ensures Valid()
      ensures var user := old(connections)[c];
        State() == old(State()).(outbox := old(outbox) +
          [Emission(SubscribersIn(old(subscriptions), roomId) - {c}, CallAccepted(user.id, user.username))])
    {
      var user := connections[c];
      outbox := outbox + [Emission(Subscribers(roomId) - {c}, CallAccepted(user.id, user.username))];
    }

    /** `reject-call`: the rejecter's identity goes to the room's other subscribers. */
    method RejectCall(c: ConnId, roomId: ObjectId)
      requires Valid() && c in connections
      modifies this
      ensures Valid()
      ensures var user := old(connections)[c];
        State() == old(State()).(outbox := old(outbox) +
          [Emission(SubscribersIn(old(subscriptions), roomId) - {c}, CallRejected(user.id, user.username))])
    {
      var user := connections[c];
      outbox := outbox + [Emission(Subscribers(roomId) - {c}, CallRejected(user.id, user.username))];
    }

    /** `end-call`: the ender's identity goes to the room's other subscribers. */
    method EndCall(c: ConnId, roomId: ObjectId)
      requires Valid() && c in connections
      modifies this
      ensures Valid()
      ensures var user := old(connections)[c];
        State() == old(State()).(outbox := old(outbox) +
          [Emission(SubscribersIn(old(subscriptions), roomId) - {c}, CallEnded(user.id, user.username))])
    {
      var user := connections[c];
      outbox := outbox + [Emission(Subscribers(roomId) - {c}, CallEnded(user.id, user.username))];
    }
  }

  /** The call message always passes the schema: short content, type "call", not encrypted. */
  lemma CallMessageValid(id: ObjectId, callType: Option<JsString>, sender: ObjectId, room: ObjectId, now: Time)
    ensures NewMessage(id, CallContent(callType), sender, room, Some(TypeName(Call)), Some(false), now) ==
      Ok(MessageRecord(id, CallContent(callType), sender, room, Call, false, now, None, None))
  {
    ParseTypeName(Call, TypeName(Call));
  }

  /**
   * A relayed event (typing, user-joined, user-left, incoming-call and the call answers) never
   * reaches its sender, and reaches every other subscriber of the room.
   */
  lemma RelayExcludesSender(subscriptions: map<ConnId, set<ObjectId>>, room: ObjectId, c: ConnId)
    ensures c !in SubscribersIn(subscriptions, room) - {c}
    ensures forall d :: d != c && d in subscriptions && room in subscriptions[d] ==>
      d in SubscribersIn(subscriptions, room) - {c}
  {
  }

  /** Changing one connection's subscriptions does not change who else is subscribed to a room. */
  lemma OthersUnchanged(subscriptions: map<ConnId, set<ObjectId>>, c: ConnId, rooms: set<ObjectId>, room: ObjectId)
    ensures SubscribersIn(subscriptions[c := rooms], room) - {c} == SubscribersIn(subscriptions, room) - {c}
  {
  }

  /** A successful `send-message` makes the new message the newest entry of the room's history. */
  lemma SentMessageEndsHistory(s: ServerState, m: MessageRecord)
    requires Visible(m)
    ensures var v := RoomVisible(s.messages + [m], m.room);
      |Page(v, 0, HistoryLimit)| > 0 && Page(v, 0, HistoryLimit)[|Page(v, 0, HistoryLimit)| - 1] == m
  {
    RoomVisibleAppend(s.messages, m, m.room);
    RecentIsSuffix(RoomVisible(s.messages + [m], m.room));
  }
}
