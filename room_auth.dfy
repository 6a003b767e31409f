/**
 * Room access control: the HTTP middleware `checkRoomAccess`, which answers 404, 403 or 500
 * or lets a member through with the room attached, and `checkSocketRoomAccess`, which folds
 * every failure into `false`.
 */
module RoomAuth {
  import opened Common
  import opened JsText
  import opened Http
  import opened RoomModel

  /** The room id a request or an event carries. */
  datatype RoomRef =
    | Id(id: ObjectId)
    | Missing      // `undefined`: `findById` resolves to null
    | Malformed    // not an ObjectId: `findById` rejects with a cast error

  /** What `Room.findById` gives: the room, null, or a rejected promise. */
  datatype Lookup = Found(room: RoomRecord) | NotFound | Fault

  /** The first stored room with the given id. */
  function FindRoom(rooms: seq<RoomRecord>, id: ObjectId): (r: Option<RoomRecord>)
    ensures r.Some? ==> r.value in rooms && r.value.id == id
    ensures r.None? <==> forall i :: 0 <= i < |rooms| ==> rooms[i].id != id
  {
    if rooms == [] then None
    else if rooms[0].id == id then Some(rooms[0])
    else FindRoom(rooms[1..], id)
  }

  /** No two stored rooms share an id. */
  predicate UniqueIds(rooms: seq<RoomRecord>) {
    forall i, j :: 0 <= i < j < |rooms| ==> rooms[i].id != rooms[j].id
  }

  /** `Room.findById(roomId)`. */
  function FindById(rooms: seq<RoomRecord>, roomId: RoomRef): Lookup {
    match roomId
    case Id(id) => (match FindRoom(rooms, id) case Some(r) => Found(r) case None => NotFound)
    case Missing => NotFound
    case Malformed => Fault
  }

  /** `checkSocketRoomAccess(socket, roomId)` for the socket's user. */
  function CheckSocketRoomAccess(rooms: seq<RoomRecord>, roomId: RoomRef, user: ObjectId): bool {
    match FindById(rooms, roomId)
    case Found(room) => IsMember(room, user)
    case NotFound => false
    case Fault => false
  }

  /** `checkRoomAccess`: the room handed on to `next()`, or the answer sent instead. */
  function CheckRoomAccess(rooms: seq<RoomRecord>, roomId: RoomRef, user: ObjectId): Result<RoomRecord, HttpError> {
    match FindById(rooms, roomId)
    case NotFound => Err(NotFoundError(Str("Room not found")))
    case Fault => Err(ServerError())
    case Found(room) =>
      if IsMember(room, user) then Ok(room) else Err(Forbidden(Str("Access denied to this room")))
  }

  /** The status of an answer; a request passed on to the route counts as 200. */
  function Status(r: Result<RoomRecord, HttpError>): nat {
    if r.Ok? then 200 else r.error.status
  }

  /**
   * With ids unique, the socket check is true exactly when some stored room has the given id
   * and a member entry for the user; a missing id and a failed lookup give false.
   */
  lemma SocketAccessIff(rooms: seq<RoomRecord>, roomId: RoomRef, user: ObjectId)
    requires UniqueIds(rooms)
    ensures CheckSocketRoomAccess(rooms, roomId, user) <==>
      roomId.Id? &&
      (exists i :: 0 <= i < |rooms| && rooms[i].id == roomId.id &&
         exists j :: 0 <= j < |rooms[i].members| && rooms[i].members[j].user == user)
  {
    if roomId.Id? {
      var found := FindRoom(rooms, roomId.id);
      if found.Some? {
        var k :| 0 <= k < |rooms| && rooms[k] == found.value;
        forall i | 0 <= i < |rooms| && rooms[i].id == roomId.id
          ensures rooms[i] == found.value
        {
          assert i == k;
        }
      }
    }
  }

  /**
   * The HTTP check answers 404 for an unknown room, 500 when the lookup fails, 403 for a
   * non-member, and passes on the looked-up room exactly when the socket check would allow.
   */
  lemma RoomAccessOutcome(rooms: seq<RoomRecord>, roomId: RoomRef, user: ObjectId)
    ensures FindById(rooms, roomId) == NotFound ==> Status(CheckRoomAccess(rooms, roomId, user)) == 404
    ensures FindById(rooms, roomId) == Fault ==> Status(CheckRoomAccess(rooms, roomId, user)) == 500
    ensures FindById(rooms, roomId).Found? && !IsMember(FindById(rooms, roomId).room, user) ==>
      Status(CheckRoomAccess(rooms, roomId, user)) == 403
    ensures CheckRoomAccess(rooms, roomId, user).Ok? <==> CheckSocketRoomAccess(rooms, roomId, user)
    ensures CheckRoomAccess(rooms, roomId, user).Ok? ==>
      FindById(rooms, roomId) == Found(CheckRoomAccess(rooms, roomId, user).value) &&
      CheckRoomAccess(rooms, roomId, user).value.id == roomId.id
  {
  }
}
