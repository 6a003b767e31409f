/**
 * The client's socket hook: the message list, the list of users typing and the pending
 * incoming call that server events update, and the guarded actions that emit events. The
 * hook's state is the fields of one class; each event handler and each action is a method
 * that applies a pure updater to that state.
 */
module UseSocket {
  import opened Common
  import opened JsText

  /** A message as the client lists it. */
  datatype ChatMessage = ChatMessage(
    id: JsString,
    content: JsString,
    senderId: JsString,
    senderName: JsString,
    timestamp: Time,
    encrypted: bool,
    messageType: Option<JsString>)

  datatype TypingUser = TypingUser(userId: JsString, username: JsString)

  datatype CallData = CallData(callerId: JsString, callerName: JsString, roomId: JsString, callType: JsString, timestamp: Time)

  /** An event the client emits, with its payload. */
  datatype Outgoing =
    | JoinRoomsOut
    | JoinRoomOut(roomId: JsString)
    | LeaveRoomOut(roomId: JsString)
    | SendMessageOut(content: JsString, roomId: JsString, messageType: JsString)
    | TypingStartOut(roomId: JsString)
    | TypingStopOut(roomId: JsString)
    | InitiateCallOut(callRoomId: Option<JsString>, callType: JsString)
    | AcceptCallOut(roomId: JsString, callerId: JsString)
    | RejectCallOut(roomId: JsString, callerId: JsString)
    | EndCallOut(callRoomId: Option<JsString>)

  /** "text", the default message type of `sendMessage`. */
  const TextType: JsString := [0x74, 0x65, 0x78, 0x74]

  /** "temp-", the prefix of an optimistic message's id. */
  const TempPrefix: JsString := [0x74, 0x65, 0x6D, 0x70, 0x2D]

  // ---------------------------------------------------------------------------
  // the message list

  /** `prev.some(m => m.id === id)`. */
  function HasId(list: seq<ChatMessage>, id: JsString): (found: bool)
    ensures found <==> exists i :: 0 <= i < |list| && list[i].id == id
  {
    if list == [] then false else list[0].id == id || HasId(list[1..], id)
  }

  /** A message with this content from this sender. */
  predicate SamePair(m: ChatMessage, content: JsString, senderId: JsString) {
    m.content == content && m.senderId == senderId
  }

  /** `prev.filter(m => m.content !== content || m.senderId !== senderId)`. */
  function DropPair(list: seq<ChatMessage>, content: JsString, senderId: JsString): (r: seq<ChatMessage>)
    ensures |r| <= |list|
    ensures forall m :: m in r <==> m in list && !SamePair(m, content, senderId)
  {
    if list == [] then []
    else (if SamePair(list[0], content, senderId) then [] else [list[0]]) + DropPair(list[1..], content, senderId)
  }

  /** How many messages of the list have this content and sender. */
  function PairCount(list: seq<ChatMessage>, content: JsString, senderId: JsString): nat {
    if list == [] then 0
    else (if SamePair(list[0], content, senderId) then 1 else 0) + PairCount(list[1..], content, senderId)
  }

  /** The `new-message` updater: a listed id is ignored; otherwise the optimistic copies go and the message is appended. */
  function Reconciled(prev: seq<ChatMessage>, message: ChatMessage): seq<ChatMessage> {
    if HasId(prev, message.id) then prev
    else DropPair(prev, message.content, message.senderId) + [message]
  }

  lemma {:induction false} PairCountDrop(list: seq<ChatMessage>, content: JsString, senderId: JsString)
    ensures PairCount(DropPair(list, content, senderId), content, senderId) == 0
    ensures |DropPair(list, content, senderId)| == |list| - PairCount(list, content, senderId)
  {
    if list != [] {
      PairCountDrop(list[1..], content, senderId);
      var rest := DropPair(list[1..], content, senderId);
      if !SamePair(list[0], content, senderId) {
        assert DropPair(list, content, senderId) == [list[0]] + rest;
        assert ([list[0]] + rest)[1..] == rest;
      } else {
        assert DropPair(list, content, senderId) == rest;
      }
    }
  }

  lemma {:induction false} PairCountAppend(a: seq<ChatMessage>, b: seq<ChatMessage>, content: JsString, senderId: JsString)
    ensures PairCount(a + b, content, senderId) == PairCount(a, content, senderId) + PairCount(b, content, senderId)
  {
    if a == [] {
      assert a + b == b;
    } else {
      assert (a + b)[1..] == a[1..] + b;
      PairCountAppend(a[1..], b, content, senderId);
    }
  }

  /**
   * A message whose id is listed changes nothing. Otherwise the list ends with the message,
   * exactly one entry has its content and sender, and every other entry is kept in place:
   * what came before it still comes before it, what came after it still after.
   */
  lemma ReconciledEffect(prev: seq<ChatMessage>, message: ChatMessage)
    ensures HasId(prev, message.id) ==> Reconciled(prev, message) == prev
    ensures !HasId(prev, message.id) ==>
      var r := Reconciled(prev, message);
      && r[|r| - 1] == message
      && PairCount(r, message.content, message.senderId) == 1
      && |r| == |prev| - PairCount(prev, message.content, message.senderId) + 1
      && (forall m :: !SamePair(m, message.content, message.senderId) ==> (m in r <==> m in prev))
      && forall k :: 0 <= k < |prev| && !SamePair(prev[k], message.content, message.senderId) ==>
           r == DropPair(prev[..k], message.content, message.senderId) + [prev[k]]
                + DropPair(prev[k + 1..], message.content, message.senderId) + [message]
  {
    if !HasId(prev, message.id) {
      var d := DropPair(prev, message.content, message.senderId);
      PairCountDrop(prev, message.content, message.senderId);
      PairCountAppend(d, [message], message.content, message.senderId);
      assert [message][1..] == [];
      forall k | 0 <= k < |prev| && !SamePair(prev[k], message.content, message.senderId)
        ensures d == DropPair(prev[..k], message.content, message.senderId) + [prev[k]]
                     + DropPair(prev[k + 1..], message.content, message.senderId)
      {
        DropPairAround(prev, k, message.content, message.senderId);
      }
    }
  }

  /** Dropping the pair around a kept entry: the entry stays between what precedes and what follows it. */
  lemma DropPairAround(list: seq<ChatMessage>, k: nat, content: JsString, senderId: JsString)
    requires k < |list| && !SamePair(list[k], content, senderId)
    ensures DropPair(list, content, senderId) ==
      DropPair(list[..k], content, senderId) + [list[k]] + DropPair(list[k + 1..], content, senderId)
  {
    var before, after := list[..k], list[k + 1..];
    assert list == (before + [list[k]]) + after;
    DropPairAppend(before + [list[k]], after, content, senderId);
    DropPairAppend(before, [list[k]], content, senderId);
    DropPairKeeps(list[k], content, senderId);
  }

  lemma DropPairKeeps(m: ChatMessage, content: JsString, senderId: JsString)
    requires !SamePair(m, content, senderId)
    ensures DropPair([m], content, senderId) == [m]
  {
    assert [m][1..] == [];
  }

  /**
   * The optimistic echo: when the server confirms a message the client appended itself, the
   * temporary copy is replaced by the confirmed one, which ends the list.
   */
  lemma EchoReplaced(prev: seq<ChatMessage>, optimistic: ChatMessage, confirmed: ChatMessage)
    requires SamePair(optimistic, confirmed.content, confirmed.senderId)
    requires !HasId(prev, confirmed.id) && optimistic.id != confirmed.id
    ensures Reconciled(prev + [optimistic], confirmed) ==
      DropPair(prev, confirmed.content, confirmed.senderId) + [confirmed]
  {
    var list := prev + [optimistic];
    assert !HasId(list, confirmed.id) by {
      forall i | 0 <= i < |list|
        ensures list[i].id != confirmed.id
      {
        if i < |prev| {
          assert list[i] == prev[i];
        }
      }
    }
    DropPairAppend(prev, [optimistic], confirmed.content, confirmed.senderId);
    assert [optimistic][1..] == [];
  }

  lemma {:induction false} DropPairAppend(a: seq<ChatMessage>, b: seq<ChatMessage>, content: JsString, senderId: JsString)
    ensures DropPair(a + b, content, senderId) == DropPair(a, content, senderId) + DropPair(b, content, senderId)
  {
    if a == [] {
      assert a + b == b;
    } else {
      assert (a + b)[1..] == a[1..] + b;
      DropPairAppend(a[1..], b, content, senderId);
    }
  }

  // ---------------------------------------------------------------------------
  // the typing list

  /** `prev.find(u => u.userId === userId)` found something. */
  function HasTypingUser(list: seq<TypingUser>, userId: JsString): (found: bool)
    ensures found <==> exists i :: 0 <= i < |list| && list[i].userId == userId
  {
    if list == [] then false else list[0].userId == userId || HasTypingUser(list[1..], userId)
  }

  /** The `user-typing` updater: append the user unless their id is listed. */
  function WithTyping(prev: seq<TypingUser>, user: TypingUser): seq<TypingUser> {
    if HasTypingUser(prev, user.userId) then prev else prev + [user]
  }

  /** The `user-stopped-typing` updater: `prev.filter(u => u.userId !== userId)`. */
  function WithoutTyping(prev: seq<TypingUser>, userId: JsString): (r: seq<TypingUser>)
    ensures |r| <= |prev|
    ensures forall u :: u in r <==> u in prev && u.userId != userId
  {
    if prev == [] then []
    else (if prev[0].userId == userId then [] else [prev[0]]) + WithoutTyping(prev[1..], userId)
  }

  /** No user id is listed twice. */
  predicate NoDuplicateTyping(list: seq<TypingUser>) {
    forall i, j :: 0 <= i < j < |list| ==> list[i].userId != list[j].userId
  }

  /** Adding a typing user keeps ids distinct and lists the user's id afterwards. */
  lemma WithTypingEffect(prev: seq<TypingUser>, user: TypingUser)
    requires NoDuplicateTyping(prev)
    ensures NoDuplicateTyping(WithTyping(prev, user))
    ensures HasTypingUser(WithTyping(prev, user), user.userId)
    ensures forall u :: u in prev ==> u in WithTyping(prev, user)
    ensures |WithTyping(prev, user)| <= |prev| + 1
  {
    var r := WithTyping(prev, user);
    if !HasTypingUser(prev, user.userId) {
      forall i, j | 0 <= i < j < |r|
        ensures r[i].userId != r[j].userId
      {
        if j == |prev| {
          assert r[i] == prev[i];
        }
      }
      assert r[|prev|] == user;
    }
  }

  /** Removing a typing user keeps ids distinct and leaves no entry with that id. */
  lemma {:induction false} WithoutTypingEffect(prev: seq<TypingUser>, userId: JsString)
    requires NoDuplicateTyping(prev)
    ensures NoDuplicateTyping(WithoutTyping(prev, userId))
    ensures !HasTypingUser(WithoutTyping(prev, userId), userId)
  {
    if prev != [] {
      WithoutTypingEffect(prev[1..], userId);
      var rest := WithoutTyping(prev[1..], userId);
      var r := WithoutTyping(prev, userId);
      if prev[0].userId != userId {
        assert r == [prev[0]] + rest;
        forall j | 0 <= j < |rest|
          ensures rest[j].userId != prev[0].userId
        {
          assert rest[j] in prev[1..];
          var k :| 0 <= k < |prev[1..]| && prev[1..][k] == rest[j];
          assert prev[k + 1] == rest[j];
        }
      }
      assert r[..] == r;
      assert forall u :: u in r ==> u.userId != userId;
    }
  }

  /** A message `sendMessage` appends before the server has seen it. */
  function Optimistic(now: Time, content: JsString, userId: JsString, messageType: JsString): ChatMessage {
    ChatMessage(TempPrefix + Decimal(now), content, userId, Str("You"), now, false, Some(messageType))
  }

  /** The hook's state. */
  datatype Hook = Hook(
    connected: bool,
    messages: seq<ChatMessage>,
    typingUsers: seq<TypingUser>,
    incomingCall: Option<CallData>,
    outbox: seq<Outgoing>)

  /**
   * The hook for one room and one user. The socket exists only when both are set and an
   * access token is stored; every handler below is registered on that socket.
   */
  class SocketClient {
    const roomId: Option<JsString>
    const userId: Option<JsString>
    /** `socketRef.current` is set. */
    const hasSocket: bool
    var connected: bool
    var messages: seq<ChatMessage>
    var typingUsers: seq<TypingUser>
    var incomingCall: Option<CallData>
    /** The events emitted so far, oldest first. */
    var outbox: seq<Outgoing>

    function State(): Hook
      reads this
    {
      Hook(connected, messages, typingUsers, incomingCall, outbox)
    }

    /** The socket exists only for a set room and user; the typing list never repeats an id nor lists the local user. */
    predicate Valid()
      reads this
    {
      && (hasSocket ==> Truthy(roomId) && Truthy(userId))
      && NoDuplicateTyping(typingUsers)
      && (userId.Some? ==> !HasTypingUser(typingUsers, userId.value))
    }

    /** The hook's first render and its effect: the socket is opened when the room, the user and a token are there. */
    constructor (roomId: Option<JsString>, userId: Option<JsString>, hasToken: bool)
      ensures this.roomId == roomId && this.userId == userId
      ensures hasSocket <==> Truthy(roomId) && Truthy(userId) && hasToken
      ensures State() == Hook(false, [], [], None, [])
      ensures Valid()
    {
      this.roomId := roomId;
      this.userId := userId;
      hasSocket := Truthy(roomId) && Truthy(userId) && hasToken;
      connected := false;
      messages := [];
      typingUsers := [];
      incomingCall := None;
      outbox := [];
    }

    /** `connect`: connected, then `join-rooms` and `join-room` for the hook's room. */
    method OnConnect()
      requires Valid() && hasSocket
      modifies this
      ensures Valid()
      ensures State() == old(State()).(connected := true, outbox := old(outbox) + [JoinRoomsOut, JoinRoomOut(roomId.value)])
    {
      connected := true;
      outbox := outbox + [JoinRoomsOut];
      outbox := outbox + [JoinRoomOut(roomId.value)];
    }

    /** `disconnect` and `connect_error`. */
    method OnDisconnect()
      requires Valid() && hasSocket
      modifies this
      ensures Valid()
      ensures State() == old(State()).(connected := false)
    {
      connected := false;
    }

    /** `new-message`. */
    method OnNewMessage(message: ChatMessage)
      requires Valid() && hasSocket
      modifies this
      ensures Valid()
      ensures State() == old(State()).(messages := Reconciled(old(messages), message))
    {
      messages := Reconciled(messages, message);
    }

    /** `message-history`: the list becomes the history, in the order received. */
    method OnMessageHistory(history: seq<ChatMessage>)
      requires Valid() && hasSocket
      modifies this
      ensures Valid()
      ensures State() == old(State()).(messages := history)
    {
      messages := history;
    }

    /** `user-typing`: ignored for the local user; otherwise added once. */
    method OnUserTyping(user: TypingUser)
      requires Valid() && hasSocket
      modifies this
      ensures Valid()
      ensures user.userId == userId.value ==> State() == old(State())
      ensures user.userId != userId.value ==>
        State() == old(State()).(typingUsers := WithTyping(old(typingUsers), user))
    {
      if user.userId == userId.value {
        return;
      }
      WithTypingEffect(typingUsers, user);
      typingUsers := WithTyping(typingUsers, user);
    }

    /** `user-stopped-typing`: ignored for the local user; otherwise every entry with the id goes. */
    method OnUserStoppedTyping(user: TypingUser)
      requires Valid() && hasSocket
      modifies this
      ensures Valid()
      ensures user.userId == userId.value ==> State() == old(State())
      ensures user.userId != userId.value ==>
        State() == old(State()).(typingUsers := WithoutTyping(old(typingUsers), user.userId))
    {
      if user.userId == userId.value {
        return;
      }
      WithoutTypingEffect(typingUsers, user.userId);
      typingUsers := WithoutTyping(typingUsers, user.userId);
    }

    /** `incoming-call`: the call becomes the pending one. */
    method OnIncomingCall(call: CallData)
      requires Valid() && hasSocket
      modifies this
      ensures Valid()
      ensures State() == old(State()).(incomingCall := Some(call))
    {
      incomingCall := Some(call);
    }

    /** `call-accepted`, `call-rejected` and `call-ended`: no call is pending any more. */
    method OnCallCleared()
      requires Valid() && hasSocket
      modifies this
      ensures Valid()
      ensures State() == old(State()).(incomingCall := None)
    {
      incomingCall := None;
    }

    /** The guard of `sendMessage`. */
    predicate CanSend()
      reads this
    {
      hasSocket && connected && Truthy(roomId) && Truthy(userId)
    }

    /**
     * `sendMessage(content, messageType)`: when connected with a room and a user, one optimistic
     * message is appended and `send-message` is emitted without an id; otherwise nothing happens.
     */
    method SendMessage(content: JsString, messageType: Option<JsString>, now: Time)
      requires Valid()
      modifies this
      ensures Valid()
      ensures !old(CanSend()) ==> State() == old(State())
      ensures old(CanSend()) ==>
        var t := messageType.GetOr(TextType);
        State() == old(State()).(
          messages := old(messages) + [Optimistic(now, content, userId.value, t)],
          outbox := old(outbox) + [SendMessageOut(content, roomId.value, t)])
    {
      if hasSocket && connected && Truthy(roomId) && Truthy(userId) {
        var t := messageType.GetOr(TextType);
        var tempId := TempPrefix + Decimal(now);
        var optimistic := ChatMessage(tempId, content, userId.value, Str("You"), now, false, Some(t));
        messages := messages + [optimistic];
        outbox := outbox + [SendMessageOut(content, roomId.value, t)];
      }
    }

    /** The guard of `startTyping` and `stopTyping`. */
    predicate CanType()
      reads this
    {
      hasSocket && connected && Truthy(roomId)
    }

    /** `startTyping`: emits `typing-start` when connected with a room. */
    method StartTyping()
      requires Valid()
      modifies this
      ensures Valid()
      ensures CanType() ==> State() == old(State()).(outbox := old(outbox) + [TypingStartOut(roomId.value)])
      ensures !CanType() ==> State() == old(State())
    {
      if hasSocket && connected && Truthy(roomId) {
        outbox := outbox + [TypingStartOut(roomId.value)];
      }
    }

    /** `stopTyping`: emits `typing-stop` when connected with a room. */
    method StopTyping()
      requires Valid()
      modifies this
      ensures Valid()
      ensures CanType() ==> State() == old(State()).(outbox := old(outbox) + [TypingStopOut(roomId.value)])
      ensures !CanType() ==> State() == old(State())
    {
      if hasSocket && connected && Truthy(roomId) {
        outbox := outbox + [TypingStopOut(roomId.value)];
      }
    }

    /** `initiateCall(type)`: emits `initiate-call` when connected. */
    method InitiateCall(callType: JsString)
      requires Valid()
      modifies this
      ensures Valid()
      ensures hasSocket && connected ==>
        State() == old(State()).(outbox := old(outbox) + [InitiateCallOut(roomId, callType)])
      ensures !(hasSocket && connected) ==> State() == old(State())
    {
      if hasSocket && connected {
        outbox := outbox + [InitiateCallOut(roomId, callType)];
      }
    }

    /** `acceptCall`: with a pending call, emits `accept-call` for that call's room and caller and clears it. */
    method AcceptCall()
      requires Valid()
      modifies this
      ensures Valid()
      ensures hasSocket && connected && old(incomingCall).Some? ==>
        var call := old(incomingCall).value;
        State() == old(State()).(incomingCall := None, outbox := old(outbox) + [AcceptCallOut(call.roomId, call.callerId)])
      ensures !(hasSocket && connected && old(incomingCall).Some?) ==> State() == old(State())
    {
      if hasSocket && connected && incomingCall.Some? {
        outbox := outbox + [AcceptCallOut(incomingCall.value.roomId, incomingCall.value.callerId)];
        incomingCall := None;
      }
    }

    /** `rejectCall`: with a pending call, emits `reject-call` for that call's room and caller and clears it. */
    method RejectCall()
      requires Valid()
      modifies this
      ensures Valid()
      ensures hasSocket && connected && old(incomingCall).Some? ==>
        var call := old(incomingCall).value;
        State() == old(State()).(incomingCall := None, outbox := old(outbox) + [RejectCallOut(call.roomId, call.callerId)])
      ensures !(hasSocket && connected && old(incomingCall).Some?) ==> State() == old(State())
    {
      if hasSocket && connected && incomingCall.Some? {
        outbox := outbox + [RejectCallOut(incomingCall.value.roomId, incomingCall.value.callerId)];
        incomingCall := None;
      }
    }

    /** `endCall`: emits `end-call` for the hook's room when connected; the pending call is left alone. */
    method EndCall()
      requires Valid()
      modifies this
      ensures Valid()
      ensures hasSocket && connected ==>
        State() == old(State()).(outbox := old(outbox) + [EndCallOut(roomId)])
      ensures !(hasSocket && connected) ==> State() == old(State())
    {
      if hasSocket && connected {
        outbox := outbox + [EndCallOut(roomId)];
      }
    }

    /** The effect's cleanup: a connected socket emits `leave-room` and disconnects. */
    method Cleanup()
      requires Valid()
      modifies this
      ensures Valid()
      ensures hasSocket && old(connected) ==>
        State() == old(State()).(connected := false, outbox := old(outbox) + [LeaveRoomOut(roomId.value)])
      ensures !(hasSocket && old(connected)) ==> State() == old(State())
    {
      if hasSocket && connected {
        outbox := outbox + [LeaveRoomOut(roomId.value)];
        connected := false;
      }
    }
  }

  /** An optimistic id starts with "temp-", so it never equals an id the server assigns without that prefix. */
  lemma OptimisticIdIsTemporary(now: Time, content: JsString, userId: JsString, messageType: JsString, serverId: JsString)
    requires |serverId| < |TempPrefix| || serverId[..|TempPrefix|] != TempPrefix
    ensures Optimistic(now, content, userId, messageType).id[..|TempPrefix|] == TempPrefix
    ensures Optimistic(now, content, userId, messageType).id != serverId
  {
    var id := Optimistic(now, content, userId, messageType).id;
    assert id[..|TempPrefix|] == TempPrefix;
  }
}
