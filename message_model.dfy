/**
 * The `Message` document (content, sender, room, type, encryption flag, edit and deletion
 * times), the validation its schema applies on save, `softDelete`, and the queries the
 * server runs over the collection: a room's non-deleted messages, newest first, skipped and
 * limited, then reversed into chronological order.
 */
module MessageModel {
  import opened Common
  import opened JsText

  datatype MessageType = Text | Image | File | Call

  /** The stored spelling of a message type: "text", "image", "file" or "call". */
  function TypeName(t: MessageType): JsString {
    match t
    case Text => [0x74, 0x65, 0x78, 0x74]
    case Image => [0x69, 0x6D, 0x61, 0x67, 0x65]
    case File => [0x66, 0x69, 0x6C, 0x65]
    case Call => [0x63, 0x61, 0x6C, 0x6C]
  }

  /** The schema's `enum` check: the type a string names, if it names one. */
  function ParseType(s: JsString): Option<MessageType> {
    if s == TypeName(Text) then Some(Text)
    else if s == TypeName(Image) then Some(Image)
    else if s == TypeName(File) then Some(File)
    else if s == TypeName(Call) then Some(Call)
    else None
  }

  /** Exactly the four names are accepted, and each one denotes its own type. */
  lemma ParseTypeName(t: MessageType, s: JsString)
    ensures ParseType(TypeName(t)) == Some(t)
    ensures ParseType(s) == Some(t) ==> s == TypeName(t)
  {
  }

  /** A stored message. The collection's order is creation order. */
  datatype MessageRecord = MessageRecord(
    id: ObjectId,
    content: JsString,
    sender: ObjectId,
    room: ObjectId,
    messageType: MessageType,
    encrypted: bool,
    createdAt: Time,
    editedAt: Option<Time>,
    deletedAt: Option<Time>)

  /** The `maxlength` of `content`. */
  const MaxContentLength: nat := 2000

  /** Why saving a new message fails schema validation. */
  datatype ValidationError = ContentRequired | ContentTooLong | InvalidMessageType

  /**
   * `new Message({...}).save()`: content is required (the empty string fails `required`) and at
   * most 2000 code units; a given type must be one of the four; the type defaults to text,
   * `encrypted` to true, and neither `editedAt` nor `deletedAt` is set.
   */
  function NewMessage(id: ObjectId, content: JsString, sender: ObjectId, room: ObjectId,
                      messageType: Option<JsString>, encrypted: Option<bool>, now: Time)
    : Result<MessageRecord, ValidationError>
  {
    if content == [] then Err(ContentRequired)
    else if |content| > MaxContentLength then Err(ContentTooLong)
    else if messageType.Some? && ParseType(messageType.value).None? then Err(InvalidMessageType)
    else
      var t := if messageType.Some? then ParseType(messageType.value).value else Text;
      Ok(MessageRecord(id, content, sender, room, t, encrypted.GetOr(true), now, None, None))
  }

  /** A saved message satisfies every schema constraint and takes the defaults for what was not given. */
  lemma NewMessageOutcome(id: ObjectId, content: JsString, sender: ObjectId, room: ObjectId,
                          messageType: Option<JsString>, encrypted: Option<bool>, now: Time)
    ensures NewMessage(id, content, sender, room, messageType, encrypted, now).Ok? <==>
      && 0 < |content| <= MaxContentLength
      && (messageType.Some? ==> ParseType(messageType.value).Some?)
    ensures NewMessage(id, content, sender, room, messageType, encrypted, now).Ok? ==>
      var m := NewMessage(id, content, sender, room, messageType, encrypted, now).value;
      && m.id == id && m.content == content && m.sender == sender && m.room == room
      && (messageType.None? ==> m.messageType == Text)
      && (messageType.Some? ==> TypeName(m.messageType) == messageType.value)
      && (encrypted.None? ==> m.encrypted)
      && (encrypted.Some? ==> m.encrypted == encrypted.value)
      && m.createdAt == now && m.editedAt.None? && m.deletedAt.None?
  {
    if messageType.Some? && ParseType(messageType.value).Some? {
      ParseTypeName(ParseType(messageType.value).value, messageType.value);
    }
  }

  // ---------------------------------------------------------------------------
  // softDelete

  /** The content a deleted message keeps: "This message was deleted". */
  function Tombstone(): JsString { Str("This message was deleted") }

  /** A message that the `deletedAt: null` filter keeps. */
  predicate Visible(m: MessageRecord) {
    m.deletedAt.None?
  }

  /** The message after `softDelete()` at time `now`. */
  function SoftDeleted(m: MessageRecord, now: Time): MessageRecord {
    m.(deletedAt := Some(now), content := Tombstone())
  }

  /**
   * After `softDelete` the message is hidden from every query, its content is the tombstone,
   * and its identity, sender, room, type, flag and times are those it had.
   */
  lemma SoftDeleteEffect(m: MessageRecord, now: Time, later: Time)
    ensures !Visible(SoftDeleted(m, now)) && SoftDeleted(m, now).deletedAt == Some(now)
    ensures SoftDeleted(m, now).content == Tombstone()
    ensures SoftDeleted(m, now).(deletedAt := m.deletedAt, content := m.content) == m
    ensures SoftDeleted(SoftDeleted(m, now), now) == SoftDeleted(m, now)
    ensures SoftDeleted(SoftDeleted(m, now), later) == SoftDeleted(m, later)
  {
  }

  /** A Mongoose message document; `softDelete` updates it in place and saves it. */
  class MessageDocument {
    var id: ObjectId
    var content: JsString
    var sender: ObjectId
    var room: ObjectId
    var messageType: MessageType
    var encrypted: bool
    var createdAt: Time
    var editedAt: Option<Time>
    var deletedAt: Option<Time>

    function Record(): MessageRecord
      reads this
    {
      MessageRecord(id, content, sender, room, messageType, encrypted, createdAt, editedAt, deletedAt)
    }

    constructor Load(m: MessageRecord)
      ensures Record() == m
    {
      id, content, sender, room, messageType := m.id, m.content, m.sender, m.room, m.messageType;
      encrypted, createdAt, editedAt, deletedAt := m.encrypted, m.createdAt, m.editedAt, m.deletedAt;
    }

    /** `message.softDelete()`: stamps the deletion time and replaces the content. */
    method SoftDelete(now: Time)
      modifies this
      ensures Record() == SoftDeleted(old(Record()), now)
    {
      deletedAt := Some(now);
      content := Tombstone();
    }
  }

  // ---------------------------------------------------------------------------
  // queries

  /** `Message.find({ room, deletedAt: null })` in creation order. */
  function RoomVisible(store: seq<MessageRecord>, room: ObjectId): (v: seq<MessageRecord>)
    ensures |v| <= |store|
    ensures forall i :: 0 <= i < |v| ==> v[i].room == room && Visible(v[i])
    ensures forall m :: m in v <==> m in store && m.room == room && Visible(m)
  {
    if store == [] then []
    else
      var rest := RoomVisible(store[1..], room);
      if store[0].room == room && Visible(store[0]) then [store[0]] + rest else rest
  }

  /** Messages stored after the visible ones of a room do not change that room's earlier list. */
  lemma {:induction false} RoomVisibleAppend(store: seq<MessageRecord>, m: MessageRecord, room: ObjectId)
    ensures RoomVisible(store + [m], room) ==
      RoomVisible(store, room) + (if m.room == room && Visible(m) then [m] else [])
  {
    if store == [] {
      assert [m][1..] == [];
    } else {
      assert (store + [m])[1..] == store[1..] + [m];
      RoomVisibleAppend(store[1..], m, room);
    }
  }

  function Reverse<T>(s: seq<T>): (r: seq<T>)
    ensures |r| == |s|
    ensures forall i :: 0 <= i < |s| ==> r[i] == s[|s| - 1 - i]
  {
    if s == [] then [] else Reverse(s[1..]) + [s[0]]
  }

  /** `.skip(skip).limit(limit)` on a cursor; a limit of 0 means no limit. */
  function SkipLimit<T>(s: seq<T>, skip: nat, limit: nat): seq<T> {
    var rest := if skip <= |s| then s[skip..] else [];
    if limit == 0 || limit >= |rest| then rest else rest[..limit]
  }

  /** Newest first, skipped and limited, then reversed: one page in chronological order. */
  function Page<T>(v: seq<T>, skip: nat, limit: nat): seq<T> {
    Reverse(SkipLimit(Reverse(v), skip, limit))
  }

  /**
   * A page is the contiguous run of `v` that ends `skip` messages before the newest one and
   * holds `limit` messages (all the earlier ones when the limit is 0), in the order of `v`.
   */
  lemma PageIsSlice<T>(v: seq<T>, skip: nat, limit: nat)
    ensures var hi := if skip <= |v| then |v| - skip else 0;
      var lo := if limit == 0 || limit >= hi then 0 else hi - limit;
      Page(v, skip, limit) == v[lo..hi]
  {
    var hi := if skip <= |v| then |v| - skip else 0;
    var lo := if limit == 0 || limit >= hi then 0 else hi - limit;
    var w := SkipLimit(Reverse(v), skip, limit);
    assert |w| == hi - lo;
    forall i | 0 <= i < hi - lo
      ensures w[i] == v[hi - 1 - i]
    {
    }
    var p := Page(v, skip, limit);
    forall i | 0 <= i < hi - lo
      ensures p[i] == v[lo + i]
    {
      assert p[i] == w[hi - lo - 1 - i];
    }
  }

  /** The `message-history` query: at most 50 of the newest messages, oldest first, ending with the newest. */
  lemma RecentIsSuffix<T>(v: seq<T>)
    ensures |Page(v, 0, 50)| == if |v| < 50 then |v| else 50
    ensures Page(v, 0, 50) == v[|v| - |Page(v, 0, 50)|..]
    ensures v != [] ==> Page(v, 0, 50)[|Page(v, 0, 50)| - 1] == v[|v| - 1]
  {
    PageIsSlice(v, 0, 50);
  }
}
