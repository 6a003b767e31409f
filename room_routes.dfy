/**
 * The room HTTP routes: list the caller's rooms, create a room with a fresh join code, join a
 * room by code, page through a room's messages and leave a room. The collections they read
 * and write are the fields of one class; each route runs as one atomic step.
 */
module RoomRoutes {
  import opened Common
  import opened JsText
  import opened Http
  import opened RoomModel
  import opened MessageModel
  import opened RoomAuth

  /** The `maxlength` of a room name. */
  const MaxNameLength: nat := 100

  /** The number of codes the create route tries before giving up. */
  const MaxCodeAttempts: nat := 10

  function NameRequiredText(): JsString { Str("Room name is required") }
  function CodeFailedText(): JsString { Str("Failed to generate unique room code") }
  function CodeRequiredText(): JsString { Str("Room code is required") }
  function RoomNotFoundText(): JsString { Str("Room not found") }
  function AlreadyJoinedText(): JsString { Str("You are already a member of this room") }

  /** Some stored room, active or not, already has this code (`Room.findOne({ code })`). */
  predicate CodeUsed(rooms: seq<RoomRecord>, code: JsString) {
    exists i :: 0 <= i < |rooms| && rooms[i].code == code
  }

  /** The first active room with the code (`Room.findOne({ code, isActive: true })`). */
  function FindActiveByCode(rooms: seq<RoomRecord>, code: JsString): (r: Option<RoomRecord>)
    ensures r.Some? ==> r.value in rooms && r.value.code == code && r.value.isActive
    ensures r.None? <==> forall i :: 0 <= i < |rooms| ==> !(rooms[i].code == code && rooms[i].isActive)
  {
    if rooms == [] then None
    else if rooms[0].code == code && rooms[0].isActive then Some(rooms[0])
    else FindActiveByCode(rooms[1..], code)
  }

  /** `members.filter(m => m.user !== user)`. */
  function RemoveUser(members: seq<Member>, user: ObjectId): (r: seq<Member>)
    ensures |r| <= |members|
    ensures forall m :: m in r <==> m in members && m.user != user
  {
    if members == [] then []
    else (if members[0].user == user then [] else [members[0]]) + RemoveUser(members[1..], user)
  }

  /** Filtering works piece by piece, so the remaining members keep their order. */
  lemma {:induction false} RemoveUserAppend(a: seq<Member>, b: seq<Member>, user: ObjectId)
    ensures RemoveUser(a + b, user) == RemoveUser(a, user) + RemoveUser(b, user)
  {
    if a == [] {
      assert a + b == b;
    } else {
      assert (a + b)[1..] == a[1..] + b;
      RemoveUserAppend(a[1..], b, user);
    }
  }

  /** Leaving drops exactly the caller's entries: a list without them is unchanged. */
  lemma {:induction false} RemoveUserAbsent(members: seq<Member>, user: ObjectId)
    requires forall i :: 0 <= i < |members| ==> members[i].user != user
    ensures RemoveUser(members, user) == members
  {
    if members != [] {
      RemoveUserAbsent(members[1..], user);
    }
  }

  /** `$pull: { rooms: id }`: every occurrence of the id goes. */
  function PullId(ids: seq<ObjectId>, id: ObjectId): (r: seq<ObjectId>)
    ensures forall x :: x in r <==> x in ids && x != id
  {
    if ids == [] then [] else (if ids[0] == id then [] else [ids[0]]) + PullId(ids[1..], id)
  }

  /** The stored rooms with the one whose id matches replaced by `room` (what `save` writes). */
  function Replace(rooms: seq<RoomRecord>, room: RoomRecord): (r: seq<RoomRecord>)
    ensures |r| == |rooms|
    ensures forall i :: 0 <= i < |rooms| ==> r[i] == if rooms[i].id == room.id then room else rooms[i]
  {
    seq(|rooms|, i requires 0 <= i < |rooms| => if rooms[i].id == room.id then room else rooms[i])
  }

  /** What `room.members.length === 0` leads to: an empty room is no longer active. */
  function AfterLeave(room: RoomRecord, user: ObjectId): RoomRecord {
    var members := RemoveUser(room.members, user);
    room.(members := members, isActive := if members == [] then false else room.isActive)
  }

  /**
   * Leaving removes every entry of the caller and no other, keeps the rest in order, and
   * deactivates the room exactly when nobody is left.
   */
  lemma AfterLeaveEffect(room: RoomRecord, user: ObjectId)
    ensures !IsMember(AfterLeave(room, user), user)
    ensures forall m :: m in AfterLeave(room, user).members <==> m in room.members && m.user != user
    ensures AfterLeave(room, user).members == [] ==> !AfterLeave(room, user).isActive
    ensures AfterLeave(room, user).members != [] ==> AfterLeave(room, user).isActive == room.isActive
    ensures |AfterLeave(room, user).members| <= |room.members|
    ensures AfterLeave(room, user).(members := room.members, isActive := room.isActive) == room
  {
  }

  // ---------------------------------------------------------------------------
  // listing

  /** `sort({ lastActivity: -1 })`: newest activity first. */
  predicate SortedByActivity(rs: seq<RoomRecord>) {
    forall i, j :: 0 <= i < j < |rs| ==> rs[i].lastActivity >= rs[j].lastActivity
  }

  function InsertByActivity(r: RoomRecord, sorted: seq<RoomRecord>): (out: seq<RoomRecord>)
    requires SortedByActivity(sorted)
    ensures SortedByActivity(out)
    ensures multiset(out) == multiset(sorted) + multiset{r}
  {
    if sorted == [] || r.lastActivity >= sorted[0].lastActivity then
      [r] + sorted
    else
      var rest := InsertByActivity(r, sorted[1..]);
      assert sorted == [sorted[0]] + sorted[1..];
      HeadBound(sorted, rest, r);
      ConsSorted(sorted[0], rest);
      assert multiset([sorted[0]] + rest) == multiset{sorted[0]} + multiset(rest);
      [sorted[0]] + rest
  }

  /** The head of a sorted list is at least as recent as every room of its tail with one more inserted. */
  lemma HeadBound(sorted: seq<RoomRecord>, rest: seq<RoomRecord>, r: RoomRecord)
    requires SortedByActivity(sorted) && sorted != [] && r.lastActivity < sorted[0].lastActivity
    requires multiset(rest) == multiset(sorted[1..]) + multiset{r}
    ensures forall k :: 0 <= k < |rest| ==> rest[k].lastActivity <= sorted[0].lastActivity
  {
    forall k | 0 <= k < |rest|
      ensures rest[k].lastActivity <= sorted[0].lastActivity
    {
      assert rest[k] in multiset(rest);
      if rest[k] != r {
        assert rest[k] in multiset(sorted[1..]);
        var j :| 0 <= j < |sorted[1..]| && sorted[1..][j] == rest[k];
        assert sorted[j + 1] == rest[k];
      }
    }
  }

  /** A room at least as recent as every room of a sorted list can go in front of it. */
  lemma ConsSorted(head: RoomRecord, rest: seq<RoomRecord>)
    requires SortedByActivity(rest)
    requires forall k :: 0 <= k < |rest| ==> rest[k].lastActivity <= head.lastActivity
    ensures SortedByActivity([head] + rest)
  {
    var out := [head] + rest;
    forall i, j | 0 <= i < j < |out|
      ensures out[i].lastActivity >= out[j].lastActivity
    {
      assert out[j] == rest[j - 1];
      if i > 0 {
        assert out[i] == rest[i - 1];
      }
    }
  }

  /** The rooms in order of descending `lastActivity`; rooms with equal times keep their order. */
  function SortByActivity(rs: seq<RoomRecord>): (out: seq<RoomRecord>)
    ensures SortedByActivity(out)
    ensures multiset(out) == multiset(rs)
  {
    if rs == [] then []
    else
      assert rs == [rs[0]] + rs[1..];
      InsertByActivity(rs[0], SortByActivity(rs[1..]))
  }

  /** The summary of a room's newest message that the list route attaches. */
  datatype LastMessage = LastMessage(content: JsString, sender: JsString, createdAt: Time)

  datatype RoomEntry = RoomEntry(room: RoomRecord, lastMessage: Option<LastMessage>)

  /** The rooms `Room.find({ 'members.user': user, isActive: true })` returns, in store order. */
  function ActiveRoomsOf(rooms: seq<RoomRecord>, user: ObjectId): (r: seq<RoomRecord>)
    ensures forall room :: room in r <==> room in rooms && room.isActive && IsMember(room, user)
  {
    if rooms == [] then []
    else (if rooms[0].isActive && IsMember(rooms[0], user) then [rooms[0]] else []) + ActiveRoomsOf(rooms[1..], user)
  }

  /** `Message.findOne({ room, deletedAt: null }).sort({ createdAt: -1 })`, as the list shows it. */
  function LastMessageOf(messages: seq<MessageRecord>, usernames: map<ObjectId, JsString>, room: ObjectId): Option<LastMessage> {
    var v := RoomVisible(messages, room);
    if v == [] then None
    else
      var m := v[|v| - 1];
      Some(LastMessage(m.content, if m.sender in usernames then usernames[m.sender] else [], m.createdAt))
  }

  function Entries(rooms: seq<RoomRecord>, messages: seq<MessageRecord>, usernames: map<ObjectId, JsString>): (es: seq<RoomEntry>)
    ensures |es| == |rooms| && forall i :: 0 <= i < |rooms| ==> es[i].room == rooms[i]
  {
    seq(|rooms|, i requires 0 <= i < |rooms| => RoomEntry(rooms[i], LastMessageOf(messages, usernames, rooms[i].id)))
  }

  /** `GET /rooms`. */
  function ListRooms(rooms: seq<RoomRecord>, messages: seq<MessageRecord>, usernames: map<ObjectId, JsString>, user: ObjectId): seq<RoomEntry> {
    Entries(SortByActivity(ActiveRoomsOf(rooms, user)), messages, usernames)
  }

  /** The list is ordered by descending `lastActivity`. */
  lemma ListRoomsOrder(rooms: seq<RoomRecord>, messages: seq<MessageRecord>, usernames: map<ObjectId, JsString>, user: ObjectId)
    ensures var es := ListRooms(rooms, messages, usernames, user);
      forall i, j :: 0 <= i < j < |es| ==> es[i].room.lastActivity >= es[j].room.lastActivity
  {
  }

  /** The list holds each active room the caller belongs to, and nothing else. */
  lemma ListRoomsMembers(rooms: seq<RoomRecord>, messages: seq<MessageRecord>, usernames: map<ObjectId, JsString>, user: ObjectId, room: RoomRecord)
    ensures var es := ListRooms(rooms, messages, usernames, user);
      (exists i :: 0 <= i < |es| && es[i].room == room) <==> room in rooms && room.isActive && IsMember(room, user)
  {
    var active := ActiveRoomsOf(rooms, user);
    var sorted := SortByActivity(active);
    var es := ListRooms(rooms, messages, usernames, user);
    if room in active {
      assert room in multiset(sorted);
      var i :| 0 <= i < |sorted| && sorted[i] == room;
      assert es[i].room == room;
    }
    if exists i :: 0 <= i < |es| && es[i].room == room {
      var i :| 0 <= i < |es| && es[i].room == room;
      assert sorted[i] in multiset(active);
    }
  }

  /** A room's last message is its newest non-deleted one, and absent exactly when it has none. */
  lemma ListRoomsLastMessage(rooms: seq<RoomRecord>, messages: seq<MessageRecord>, usernames: map<ObjectId, JsString>, user: ObjectId, i: nat)
    requires i < |ListRooms(rooms, messages, usernames, user)|
    ensures var e := ListRooms(rooms, messages, usernames, user)[i];
      var v := RoomVisible(messages, e.room.id);
      && (e.lastMessage.None? <==> v == [])
      && (e.lastMessage.Some? ==>
            e.lastMessage.value.content == v[|v| - 1].content &&
            e.lastMessage.value.createdAt == v[|v| - 1].createdAt &&
            (v[|v| - 1].sender in usernames ==> e.lastMessage.value.sender == usernames[v[|v| - 1].sender]))
  {
    var sorted := SortByActivity(ActiveRoomsOf(rooms, user));
    var es := Entries(sorted, messages, usernames);
    assert ListRooms(rooms, messages, usernames, user) == es;
    assert es[i] == RoomEntry(sorted[i], LastMessageOf(messages, usernames, sorted[i].id));
    LastMessageOfEffect(messages, usernames, sorted[i].id);
  }

  /** The summary is absent exactly for a room without visible messages, and otherwise describes its newest one. */
  lemma LastMessageOfEffect(messages: seq<MessageRecord>, usernames: map<ObjectId, JsString>, room: ObjectId)
    ensures var v := RoomVisible(messages, room);
      var last := LastMessageOf(messages, usernames, room);
      && (last.None? <==> v == [])
      && (last.Some? ==>
            last.value.content == v[|v| - 1].content &&
            last.value.createdAt == v[|v| - 1].createdAt &&
            (v[|v| - 1].sender in usernames ==> last.value.sender == usernames[v[|v| - 1].sender]))
  {
  }

  // ---------------------------------------------------------------------------
  // paging

  /** `GET /rooms/:roomId/messages` after the access check: `page` and `limit` as numbers, defaulting to 1 and 50. */
  function MessagePage(messages: seq<MessageRecord>, room: ObjectId, page: Option<int>, limit: Option<int>): Result<seq<MessageRecord>, HttpError> {
    PageAt(RoomVisible(messages, room), page.GetOr(1), limit.GetOr(50))
  }

  /**
   * `.skip((page - 1) * limit).limit(limit)` on the newest-first list, reversed. A negative skip
   * is refused; a negative limit caps the answer at its absolute value, as Mongo's does.
   */
  function PageAt(v: seq<MessageRecord>, page: int, limit: int): Result<seq<MessageRecord>, HttpError> {
    var skip := (page - 1) * limit;
    if skip < 0 then Err(ServerError()) else Ok(Page(v, skip, if limit < 0 then -limit else limit))
  }

  /** Without query parameters the route answers the 50 newest non-deleted messages, oldest first. */
  lemma MessagePageDefault(messages: seq<MessageRecord>, room: ObjectId)
    ensures var v := RoomVisible(messages, room);
      MessagePage(messages, room, None, None) == Ok(v[|v| - (if |v| < 50 then |v| else 50)..])
  {
    RecentIsSuffix(RoomVisible(messages, room));
  }

  /** The run of at most `limit` elements of `v` that ends `skip` elements before its end (all of them for limit 0). */
  function RunBefore<T>(v: seq<T>, skip: nat, limit: nat): (r: seq<T>)
    ensures |r| <= |v| && (limit > 0 ==> |r| <= limit)
  {
    var hi := if skip <= |v| then |v| - skip else 0;
    var lo := if limit == 0 || limit >= hi then 0 else hi - limit;
    v[lo..hi]
  }

  /**
   * Page `p >= 1` with limit `l > 0` is the run of at most `l` messages that ends `(p-1)*l`
   * messages before the newest one, oldest first; past the end it is empty.
   */
  lemma MessagePageSlice(messages: seq<MessageRecord>, room: ObjectId, p: nat, l: nat, skip: nat)
    requires 1 <= p && 0 < l && skip == (p - 1) * l
    ensures MessagePage(messages, room, Some(p), Some(l)) == Ok(RunBefore(RoomVisible(messages, room), skip, l))
  {
    assert Some(p).GetOr(1) == p && Some(l).GetOr(50) == l;
    PageAtSlice(RoomVisible(messages, room), p, l, skip);
  }

  /** `PageAt` on a list, for a page number whose skip is not negative. */
  lemma PageAtSlice(v: seq<MessageRecord>, p: nat, l: nat, skip: nat)
    requires skip == (p - 1) * l
    ensures PageAt(v, p, l) == Ok(RunBefore(v, skip, l))
  {
    PageIsSlice(v, skip, l);
  }

  /** The only failure is a negative skip, which `.skip()` rejects; it answers "Server error". */
  lemma MessagePageFails(messages: seq<MessageRecord>, room: ObjectId, page: Option<int>, limit: Option<int>)
    ensures MessagePage(messages, room, page, limit).Err? <==> (page.GetOr(1) - 1) * limit.GetOr(50) < 0
    ensures MessagePage(messages, room, page, limit).Err? ==> MessagePage(messages, room, page, limit).error == ServerError()
  {
  }

  /**
   * A negative limit `-n` turns page `p` into page `2 - p` with limit `n`: page 1 is the same
   * page, page 0 is the second page, and every page from 2 on has a negative skip and fails.
   */
  lemma MessagePageNegativeLimit(messages: seq<MessageRecord>, room: ObjectId, p: int, n: int)
    requires 0 < n
    ensures MessagePage(messages, room, Some(p), Some(-n)) == MessagePage(messages, room, Some(2 - p), Some(n))
    ensures 2 <= p ==> MessagePage(messages, room, Some(p), Some(-n)) == Err(ServerError())
  {
    var v := RoomVisible(messages, room);
    assert Some(p).GetOr(1) == p && Some(-n).GetOr(50) == -n;
    assert Some(2 - p).GetOr(1) == 2 - p && Some(n).GetOr(50) == n;
    assert MessagePage(messages, room, Some(p), Some(-n)) == PageAt(v, p, -n);
    assert MessagePage(messages, room, Some(2 - p), Some(n)) == PageAt(v, 2 - p, n);
    PageAtNegative(v, p, n);
  }

  /** `PageAt` with limit `-n` on page `p` is `PageAt` with limit `n` on page `2 - p`. */
  lemma PageAtNegative(v: seq<MessageRecord>, p: int, n: int)
    requires 0 < n
    ensures PageAt(v, p, -n) == PageAt(v, 2 - p, n)
    ensures 2 <= p ==> PageAt(v, p, -n).Err?
  {
    var skip := (p - 1) * -n;
    assert skip == (2 - p - 1) * n by {
      assert (p - 1) * -n == -((p - 1) * n);
    }
    if 2 <= p {
      assert (p - 1) * n > 0;
    }
  }

  // ---------------------------------------------------------------------------
  // the routes that change the store

  /** `crypto.randomBytes(32).toString('hex')`. */
  method RandomHexKey() returns (key: JsString)
    ensures |key| == 64 && forall i :: 0 <= i < |key| ==> IsLowerHex(key[i])
  {
    assert |seq(32, _ => 0 as bv8)| == 32;
    var bytes: seq<bv8> :| |bytes| == 32;
    key := Hex(bytes);
  }

  /** Every stored room's id, for choosing the id of a new one. */
  function RoomIdList(rooms: seq<RoomRecord>): (ids: seq<ObjectId>)
    ensures |ids| == |rooms| && forall i :: 0 <= i < |rooms| ==> ids[i] == rooms[i].id
  {
    seq(|rooms|, i requires 0 <= i < |rooms| => rooms[i].id)
  }

  function FreshRoomId(rooms: seq<RoomRecord>): (id: ObjectId)
    ensures forall i :: 0 <= i < |rooms| ==> rooms[i].id != id
  {
    var ids := RoomIdList(rooms);
    assert forall i :: 0 <= i < |rooms| ==> rooms[i].id == ids[i] <= MaxId(ids);
    MaxId(ids) + 1
  }

  /** A room within the schema's cap that is inactive once nobody belongs to it. */
  predicate ValidRoom(room: RoomRecord) {
    && room.maxMembers <= MaxMembersLimit && |room.members| <= room.maxMembers
    && (room.members == [] ==> !room.isActive)
  }

  /**
   * Room ids and codes are unique, every room respects the two-member cap, and a room nobody
   * belongs to is inactive.
   */
  predicate ValidRooms(rooms: seq<RoomRecord>) {
    && UniqueIds(rooms)
    && (forall i, j :: 0 <= i < j < |rooms| ==> rooms[i].code != rooms[j].code)
    && (forall i :: 0 <= i < |rooms| ==> ValidRoom(rooms[i]))
  }

  /** Saving an updated copy of a stored room that keeps its id and code and stays valid keeps the store valid. */
  lemma ReplaceKeepsValid(rooms: seq<RoomRecord>, found: RoomRecord, saved: RoomRecord)
    requires ValidRooms(rooms) && found in rooms
    requires saved.id == found.id && saved.code == found.code && ValidRoom(saved)
    ensures ValidRooms(Replace(rooms, saved))
    ensures forall i :: 0 <= i < |rooms| && rooms[i] == found ==> Replace(rooms, saved)[i] == saved
  {
    var k :| 0 <= k < |rooms| && rooms[k] == found;
    var r := Replace(rooms, saved);
    forall i | 0 <= i < |rooms|
      ensures r[i].id == rooms[i].id && r[i].code == rooms[i].code
    {
      if rooms[i].id == found.id {
        assert i == k;
      }
    }
  }

  /** A room with a fresh id and an unused code can be appended to a valid store. */
  lemma AppendKeepsValid(rooms: seq<RoomRecord>, room: RoomRecord)
    requires ValidRooms(rooms) && ValidRoom(room)
    requires forall i :: 0 <= i < |rooms| ==> rooms[i].id != room.id
    requires !CodeUsed(rooms, room.code)
    ensures ValidRooms(rooms + [room])
  {
    var r := rooms + [room];
    forall i, j | 0 <= i < j < |r|
      ensures r[i].id != r[j].id && r[i].code != r[j].code
    {
      if j == |rooms| {
        assert r[j] == room && r[i] == rooms[i];
      }
    }
  }

  /**
   * The code loop of `POST /rooms`: random codes are drawn until one is unused, at most ten
   * times. `tried` lists the codes drawn, in order; the last one is the answer when there is one.
   */
  method PickRoomCode(rooms: seq<RoomRecord>) returns (code: Option<JsString>, ghost tried: seq<JsString>)
    ensures 0 < |tried| <= MaxCodeAttempts
    ensures forall k :: 0 <= k < |tried| - 1 ==> CodeUsed(rooms, tried[k])
    ensures code.None? ==> |tried| == MaxCodeAttempts && forall k :: 0 <= k < |tried| ==> CodeUsed(rooms, tried[k])
    ensures code.Some? ==> IsRoomCode(code.value) && !CodeUsed(rooms, code.value) && code.value == tried[|tried| - 1]
  {
    tried := [];
    var roomCode: JsString := [];
    var isUnique := false;
    var attempts := 0;
    while !isUnique && attempts < MaxCodeAttempts
      invariant attempts == |tried| <= MaxCodeAttempts
      invariant forall k :: 0 <= k < |tried| - 1 ==> CodeUsed(rooms, tried[k])
      invariant isUnique <==> |tried| > 0 && !CodeUsed(rooms, tried[|tried| - 1])
      invariant |tried| > 0 ==> roomCode == tried[|tried| - 1] && IsRoomCode(roomCode)
      decreases MaxCodeAttempts - attempts
    {
      roomCode := GenerateRoomCode();
      tried := tried + [roomCode];
      if !CodeUsed(rooms, roomCode) {
        isUnique := true;
      }
      attempts := attempts + 1;
    }
    code := if isUnique then Some(roomCode) else None;
  }

  /** The store as the routes see it. */
  datatype Store = Store(rooms: seq<RoomRecord>, messages: seq<MessageRecord>,
                         usernames: map<ObjectId, JsString>, userRooms: map<ObjectId, seq<ObjectId>>)

  class RoomRouter {
    var rooms: seq<RoomRecord>
    var messages: seq<MessageRecord>
    var usernames: map<ObjectId, JsString>
    /** Each user's `rooms` array. */
    var userRooms: map<ObjectId, seq<ObjectId>>

    function State(): Store
      reads this
    {
      Store(rooms, messages, usernames, userRooms)
    }

    /**
     * Room ids and codes are unique, every room respects the two-member cap, and a room nobody
     * belongs to is inactive.
     */
    predicate Valid()
      reads this
    {
      ValidRooms(rooms)
    }

    /** `$push: { rooms: id }` on the user, a no-op when the user document is absent. */
    function PushedRoom(user: ObjectId, id: ObjectId): map<ObjectId, seq<ObjectId>>
      reads this
    {
      if user in userRooms then userRooms[user := userRooms[user] + [id]] else userRooms
    }

    /**
     * `POST /rooms`: a blank name is refused; up to ten random codes are tried until one is
     * unused; the room is created with the trimmed, upper-cased name and the caller as its only
     * member, and its id is pushed onto the caller's rooms.
     */
    method CreateRoom(user: ObjectId, name: Option<JsString>, now: Time)
      returns (result: Result<RoomRecord, HttpError>, ghost tried: seq<JsString>)
      requires Valid()
      modifies this
      ensures Valid()
      ensures name.None? || Trim(name.value) == [] ==>
        result == Err(BadRequest(NameRequiredText())) && State() == old(State())
      ensures |tried| <= MaxCodeAttempts
      ensures forall k :: 0 <= k < |tried| - 1 ==> CodeUsed(old(rooms), tried[k])
      ensures result == Err(HttpError(500, CodeFailedText())) ==>
        |tried| == MaxCodeAttempts && (forall k :: 0 <= k < |tried| ==> CodeUsed(old(rooms), tried[k])) &&
        State() == old(State())
      ensures result.Ok? ==>
        var r := result.value;
        && name.Some? && r.name == ToUpper(Trim(name.value)) && |r.name| <= MaxNameLength
        && r.members == [Member(user, now)] && r.maxMembers == MaxMembersLimit && r.isActive
        && IsRoomCode(r.code) && !CodeUsed(old(rooms), r.code) && 0 < |tried| && r.code == tried[|tried| - 1]
        && |r.encryptionKey| == 64
        && State() == old(State()).(rooms := old(rooms) + [r], userRooms := old(PushedRoom(user, r.id)))
      ensures result.Err? ==> State() == old(State())
      ensures result.Err? ==> result.error.status == 400 || result.error.status == 500
      ensures result.Err? ==>
        || ((name.None? || Trim(name.value) == []) && result.error == BadRequest(NameRequiredText()))
        || (result.error == HttpError(500, CodeFailedText()) && |tried| == MaxCodeAttempts &&
            forall k :: 0 <= k < |tried| ==> CodeUsed(old(rooms), tried[k]))
        || (result.error == ServerError() && name.Some? && |ToUpper(Trim(name.value))| > MaxNameLength)
    {
      tried := [];
      if name.None? || Trim(name.value) == [] {
        return Err(BadRequest(NameRequiredText())), tried;
      }
      var picked;
      picked, tried := PickRoomCode(rooms);
      if picked.None? {
        return Err(HttpError(500, CodeFailedText())), tried;
      }
      var roomCode := picked.value;
      var encryptionKey := RandomHexKey();
      var trimmed := ToUpper(Trim(name.value));
      if |trimmed| > MaxNameLength {
        // the schema's maxlength rejects the save and the route answers "Server error"
        return Err(ServerError()), tried;
      }
      var room := RoomRecord(FreshRoomId(rooms), trimmed, roomCode, [Member(user, now)],
                             MaxMembersLimit, true, now, encryptionKey);
      AppendKeepsValid(rooms, room);
      userRooms := PushedRoom(user, room.id);
      rooms := rooms + [room];
      result := Ok(room);
    }

    /**
     * `POST /rooms/join`: a missing code is refused; the upper-cased code is looked up among
     * active rooms; a full room or an existing member is refused; otherwise the caller is
     * appended through `addMember` and the room id pushed onto the caller's rooms.
     */
    method JoinByCode(user: ObjectId, code: Option<JsString>, now: Time) returns (result: Result<RoomRecord, HttpError>)
      requires Valid()
      modifies this
      ensures Valid()
      ensures code.None? || code.value == [] ==>
        result == Err(BadRequest(CodeRequiredText())) && State() == old(State())
      ensures code.Some? && code.value != [] && FindActiveByCode(old(rooms), ToUpper(code.value)).None? ==>
        result == Err(NotFoundError(RoomNotFoundText())) && State() == old(State())
      ensures code.Some? && code.value != [] && FindActiveByCode(old(rooms), ToUpper(code.value)).Some? ==>
        var room := FindActiveByCode(old(rooms), ToUpper(code.value)).value;
        && (Full(room) ==> result == Err(BadRequest(RoomIsFullError())) && State() == old(State()))
        && (!Full(room) && IsMember(room, user) ==>
              result == Err(BadRequest(AlreadyJoinedText())) && State() == old(State()))
        && (!Full(room) && !IsMember(room, user) ==>
              && result == Ok(WithMember(room, user, now).value)
              && State() == old(State()).(rooms := Replace(old(rooms), result.value),
                                         userRooms := old(PushedRoom(user, room.id))))
    {
      if code.None? || code.value == [] {
        return Err(BadRequest(CodeRequiredText()));
      }
      var found := FindActiveByCode(rooms, ToUpper(code.value));
      if found.None? {
        return Err(NotFoundError(RoomNotFoundText()));
      }
      var doc := new RoomDocument.Load(found.value);
      if doc.IsFull() {
        return Err(BadRequest(RoomIsFullError()));
      }
      if AnyMemberIs(doc.members, user) {
        return Err(BadRequest(AlreadyJoinedText()));
      }
      var added := doc.AddMember(user, now);
      var saved := doc.Record();
      assert ValidRoom(found.value);
      WithMemberOutcome(found.value, user, now);
      ReplaceKeepsValid(rooms, found.value, saved);
      rooms := Replace(rooms, saved);
      userRooms := PushedRoom(user, saved.id);
      result := Ok(saved);
    }

    /**
     * `POST /rooms/:roomId/leave`: after the access check, every entry of the caller is
     * removed, an emptied room is deactivated, and the room id is pulled from the caller's rooms.
     */
    method LeaveRoom(user: ObjectId, roomId: RoomRef) returns (result: Result<(), HttpError>)
      requires Valid()
      modifies this
      ensures Valid()
      ensures CheckRoomAccess(old(rooms), roomId, user).Err? ==>
        result == Err(CheckRoomAccess(old(rooms), roomId, user).error) && State() == old(State())
      ensures CheckRoomAccess(old(rooms), roomId, user).Ok? ==>
        var room := CheckRoomAccess(old(rooms), roomId, user).value;
        && result == Ok(())
        && State() == old(State()).(
             rooms := Replace(old(rooms), AfterLeave(room, user)),
             userRooms := if user in old(userRooms) then old(userRooms)[user := PullId(old(userRooms)[user], room.id)]
                          else old(userRooms))
    {
      var access := CheckRoomAccess(rooms, roomId, user);
      if access.Err? {
        return Err(access.error);
      }
      var doc := new RoomDocument.Load(access.value);
      doc.members := RemoveUser(doc.members, user);
      if |doc.members| == 0 {
        doc.isActive := false;
      }
      var saved := doc.Record();
      assert saved == AfterLeave(access.value, user);
      AfterLeaveEffect(access.value, user);
      assert ValidRoom(access.value);
      ReplaceKeepsValid(rooms, access.value, saved);
      rooms := Replace(rooms, saved);
      if user in userRooms {
        userRooms := userRooms[user := PullId(userRooms[user], saved.id)];
      }
      result := Ok(());
    }
  }
}
