/**
 * The `Room` document: a named chat room with a join code, at most two members, an active
 * flag and the time of its last activity, plus its three operations: generating a code,
 * `isFull` and `addMember`.
 */
module RoomModel {
  import opened Common
  import opened JsText

  /** One entry of `members`: the user and when they joined. */
  datatype Member = Member(user: ObjectId, joinedAt: Time)

  /** A stored room, as the collection holds it. */
  datatype RoomRecord = RoomRecord(
    id: ObjectId,
    name: JsString,
    code: JsString,
    members: seq<Member>,
    maxMembers: nat,
    isActive: bool,
    lastActivity: Time,
    encryptionKey: JsString)

  /** The schema default and upper bound of `maxMembers`. */
  const MaxMembersLimit: nat := 2

  /** The length of a room code. */
  const CodeLength: nat := 8

  /** `members.some(m => m.user === user)`, scanning from the front. */
  function AnyMemberIs(members: seq<Member>, user: ObjectId): (found: bool)
    ensures found <==> exists i :: 0 <= i < |members| && members[i].user == user
  {
    if members == [] then false
    else members[0].user == user || AnyMemberIs(members[1..], user)
  }

  predicate IsMember(room: RoomRecord, user: ObjectId) {
    AnyMemberIs(room.members, user)
  }

  /** `room.isFull()` on a stored room. */
  predicate Full(room: RoomRecord) {
    |room.members| >= room.maxMembers
  }

  // ---------------------------------------------------------------------------
  // room codes

  /** `chars.charAt(k)` for `chars = "ABCDEFGHIJKLMNOPQRSTUVWXYZ0123456789"`. */
  function CodeChar(k: bv16): (u: bv16)
    requires k < 36
    ensures IsCodeUnit(u)
  {
    if k < 26 then 0x41 + k else 0x30 + (k - 26)
  }

  /** An upper-case ASCII letter or a decimal digit. */
  predicate IsCodeUnit(u: bv16) {
    (0x41 <= u <= 0x5A) || (0x30 <= u <= 0x39)
  }

  predicate IsRoomCode(code: JsString) {
    |code| == CodeLength && forall i :: 0 <= i < |code| ==> IsCodeUnit(code[i])
  }

  /** `Room.generateRoomCode()`: eight characters, each picked at random from A-Z and 0-9. */
  method GenerateRoomCode() returns (code: JsString)
    ensures IsRoomCode(code)
  {
    code := [];
    for i := 0 to CodeLength
      invariant |code| == i
      invariant forall j :: 0 <= j < i ==> IsCodeUnit(code[j])
    {
      var k: bv16 :| k < 36;
      code := code + [CodeChar(k)];
    }
  }

  /** A generated code is already upper case, so the upper-cased lookup of the join route finds it. */
  lemma RoomCodeIsUpper(code: JsString)
    requires IsRoomCode(code)
    ensures ToUpper(code) == code
  {
    assert HasNoLowerAscii(code);
    ToUpperIdempotent(code);
  }

  // ---------------------------------------------------------------------------
  // addMember

  /** The error messages `addMember` throws. */
  function RoomIsFullError(): JsString { Str("Room is full") }
  function AlreadyMemberError(): JsString { Str("User is already a member of this room") }

  /** The room after `addMember(user)` at time `now`, or the message it throws. */
  function WithMember(room: RoomRecord, user: ObjectId, now: Time): Result<RoomRecord, JsString> {
    if Full(room) then Err(RoomIsFullError())
    else if IsMember(room, user) then Err(AlreadyMemberError())
    else Ok(room.(members := room.members + [Member(user, now)], lastActivity := now))
  }

  /**
   * `addMember` fails on a full room first, then on an existing member; otherwise it appends
   * exactly one entry for the user, keeps everything else but `lastActivity`, and the room
   * stays within its cap.
   */
  lemma WithMemberOutcome(room: RoomRecord, user: ObjectId, now: Time)
    ensures Full(room) ==> WithMember(room, user, now) == Err(RoomIsFullError())
    ensures !Full(room) && IsMember(room, user) ==> WithMember(room, user, now) == Err(AlreadyMemberError())
    ensures WithMember(room, user, now).Ok? <==> !Full(room) && !IsMember(room, user)
    ensures WithMember(room, user, now).Ok? ==>
      var r := WithMember(room, user, now).value;
      && r.members[..|room.members|] == room.members
      && r.members[|room.members|] == Member(user, now)
      && |r.members| == |room.members| + 1
      && |r.members| <= room.maxMembers
      && IsMember(r, user)
      && r.lastActivity == now
      && r.(members := room.members, lastActivity := room.lastActivity) == room
  {
    if WithMember(room, user, now).Ok? {
      var r := WithMember(room, user, now).value;
      assert r.members[|room.members|].user == user;
    }
  }

  /**
   * A Mongoose room document, loaded from its record; `addMember` updates it in place and
   * `Record` is what saving it writes back.
   */
  class RoomDocument {
    var id: ObjectId
    var name: JsString
    var code: JsString
    var members: seq<Member>
    var maxMembers: nat
    var isActive: bool
    var lastActivity: Time
    var encryptionKey: JsString

    /** The schema's bound: no more members than `maxMembers`, which is at most 2. */
    predicate Valid()
      reads this
    {
      maxMembers <= MaxMembersLimit && |members| <= maxMembers
    }

    function Record(): RoomRecord
      reads this
    {
      RoomRecord(id, name, code, members, maxMembers, isActive, lastActivity, encryptionKey)
    }

    constructor Load(r: RoomRecord)
      ensures Record() == r
    {
      id, name, code, members := r.id, r.name, r.code, r.members;
      maxMembers, isActive, lastActivity, encryptionKey := r.maxMembers, r.isActive, r.lastActivity, r.encryptionKey;
    }

    /** `room.isFull()`. */
    function IsFull(): (full: bool)
      reads this
      ensures full <==> Full(Record())
    {
      |members| >= maxMembers
    }

    /** `room.addMember(user)`: throws when full or already a member, otherwise appends the user. */
    method AddMember(user: ObjectId, now: Time) returns (outcome: Result<(), JsString>)
      modifies this
      ensures WithMember(old(Record()), user, now).Err? ==>
        outcome == Err(WithMember(old(Record()), user, now).error) && Record() == old(Record())
      ensures WithMember(old(Record()), user, now).Ok? ==>
        outcome == Ok(()) && Record() == WithMember(old(Record()), user, now).value
      ensures old(Valid()) ==> Valid()
    {
      if IsFull() {
        return Err(RoomIsFullError());
      }
      if AnyMemberIs(members, user) {
        return Err(AlreadyMemberError());
      }
      members := members + [Member(user, now)];
      lastActivity := now;
      outcome := Ok(());
    }
  }
}
