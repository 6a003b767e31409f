/**
 * The room list screen: the user's initials, the room-count label, the create and join
 * dialogs that prepend the room the server answers with, and the join-code input that is
 * upper-cased as it is typed. The requests themselves are outside the model: their answers
 * arrive as parameters.
 */
module RoomSelector {
  import opened Common
  import opened JsText

  const Space: bv16 := 0x20

  /** A room as the list shows it. */
  datatype RoomSummary = RoomSummary(id: JsString, name: JsString, code: JsString)

  /** A callback the screen calls on its parent. */
  datatype Callback =
    | SelectRoom(roomId: JsString)
    | CreatedRoom(name: JsString)
    | JoinedRoom(code: JsString)

  // ---------------------------------------------------------------------------
  // initials

  /** `pieces.map(n => n[0]).join("")`: an empty piece gives `undefined`, which `join` drops. */
  function FirstUnits(pieces: seq<JsString>): (r: JsString)
    ensures |r| <= |pieces|
  {
    if pieces == [] then []
    else (if pieces[0] == [] then [] else [pieces[0][0]]) + FirstUnits(pieces[1..])
  }

  /**
   * The units of `s` that start a word: not a space, and first in `s` or right after a
   * space (`afterSpace` says whether the unit before `s` was one).
   */
  function WordStarts(s: JsString, afterSpace: bool): JsString {
    if s == [] then []
    else (if s[0] != Space && afterSpace then [s[0]] else []) + WordStarts(s[1..], s[0] == Space)
  }

  /** `getUserInitials()`: from the name when it is set, else the email's first unit, else "U". */
  function Initials(name: Option<JsString>, email: Option<JsString>): JsString {
    if Truthy(name) then ToUpper(FirstUnits(Split(name.value, Space)))
    else if Truthy(email) then ToUpper([email.value[0]])
    else Str("U")
  }

  /**
   * The first units of the space-separated pieces are exactly the units that start a word:
   * leading, trailing and doubled spaces add nothing.
   */
  lemma {:induction false} FirstUnitsAreWordStarts(s: JsString)
    ensures FirstUnits(Split(s, Space)) == WordStarts(s, true)
    ensures FirstUnits(Split(s, Space)[1..]) == WordStarts(s, false)
  {
    if s != [] {
      FirstUnitsAreWordStarts(s[1..]);
      var rest := Split(s[1..], Space);
      if s[0] == Space {
        assert Split(s, Space) == [[]] + rest;
        assert Split(s, Space)[1..] == rest;
      } else {
        var p := Split(s, Space);
        assert p == [[s[0]] + rest[0]] + rest[1..];
        assert p[1..] == rest[1..];
        assert FirstUnits(p) == [s[0]] + FirstUnits(rest[1..]);
      }
    }
  }

  /** With a name, the initials are the upper-cased word starts of the name, one per word. */
  lemma InitialsOfName(name: JsString, email: Option<JsString>)
    requires name != []
    ensures Initials(Some(name), email) == ToUpper(WordStarts(name, true))
    ensures |Initials(Some(name), email)| <= |Split(name, Space)|
  {
    FirstUnitsAreWordStarts(name);
  }

  /** Without a name, the initial is the upper-cased first unit of the email, or "U" with neither. */
  lemma InitialsFallBack(name: Option<JsString>, email: Option<JsString>)
    requires !Truthy(name)
    ensures Truthy(email) ==> Initials(name, email) == [UpperUnit(email.value[0])]
    ensures !Truthy(email) ==> Initials(name, email) == [0x55]
  {
  }

  // ---------------------------------------------------------------------------
  // the count label

  /** `{rooms.length} room{rooms.length !== 1 ? "s" : ""}`. */
  function RoomCountLabel(n: nat): JsString {
    Decimal(n) + [Space, 0x72, 0x6F, 0x6F, 0x6D] + (if n != 1 then [0x73] else [])
  }

  /** The label is the count, then " room", with an "s" exactly when the count is not one. */
  lemma RoomCountLabelPlural(n: nat)
    ensures var r := RoomCountLabel(n);
      && r[..|Decimal(n)|] == Decimal(n)
      && (n == 1 <==> r[|r| - 1] == 0x6D)
      && (n != 1 <==> r[|r| - 1] == 0x73)
      && |r| == |Decimal(n)| + (if n == 1 then 5 else 6)
  {
    var r := RoomCountLabel(n);
    assert r[..|Decimal(n)|] == Decimal(n);
  }

  // ---------------------------------------------------------------------------
  // the screen

  /** The screen's state. */
  datatype Screen = Screen(
    rooms: seq<RoomSummary>,
    roomName: JsString,
    roomCode: JsString,
    showCreateModal: bool,
    showJoinModal: bool,
    calls: seq<Callback>)

  class RoomSelectorScreen {
    var rooms: seq<RoomSummary>
    var roomName: JsString
    var roomCode: JsString
    var showCreateModal: bool
    var showJoinModal: bool
    /** The parent callbacks called so far, oldest first. */
    var calls: seq<Callback>

    function State(): Screen
      reads this
    {
      Screen(rooms, roomName, roomCode, showCreateModal, showJoinModal, calls)
    }

    constructor ()
      ensures State() == Screen([], [], [], false, false, [])
    {
      rooms, roomName, roomCode := [], [], [];
      showCreateModal, showJoinModal, calls := false, false, [];
    }

    /** The fetch of the user's rooms answered: the list becomes the answer. */
    method RoomsFetched(data: seq<RoomSummary>)
      modifies this
      ensures State() == old(State()).(rooms := data)
    {
      rooms := data;
    }

    /** Typing in the name field. */
    method NameInput(value: JsString)
      modifies this
      ensures State() == old(State()).(roomName := value)
    {
      roomName := value;
    }

    /** Typing in the code field: the code is kept upper-cased. */
    method CodeInput(value: JsString)
      modifies this
      ensures State() == old(State()).(roomCode := ToUpper(value))
      ensures HasNoLowerAscii(roomCode)
    {
      roomCode := ToUpper(value);
      ToUpperIdempotent(value);
    }

    /**
     * `handleCreateRoom` with the server's answer: a blank name returns at once; a created room
     * is prepended and selected and the parent told; either way the dialog closes and the name
     * is cleared.
     */
    method CreateRoom(response: Result<RoomSummary, JsString>)
      modifies this
      ensures IsBlank(old(roomName)) ==> State() == old(State())
      ensures !IsBlank(old(roomName)) && response.Ok? ==>
        State() == old(State()).(
          rooms := [response.value] + old(rooms),
          calls := old(calls) + [SelectRoom(response.value.id), CreatedRoom(old(roomName))],
          showCreateModal := false, roomName := [])
      ensures !IsBlank(old(roomName)) && response.Err? ==>
        State() == old(State()).(showCreateModal := false, roomName := [])
    {
      TrimEmptyIffBlank(roomName);
      if Trim(roomName) == [] {
        return;
      }
      if response.Ok? {
        rooms := [response.value] + rooms;
        calls := calls + [SelectRoom(response.value.id), CreatedRoom(roomName)];
      }
      showCreateModal := false;
      roomName := [];
    }

    /**
     * `handleJoinRoom` with the server's answer: a blank code returns at once; a joined room
     * is prepended and selected and the parent told; either way the dialog closes and the code
     * is cleared.
     */
    method JoinRoom(response: Result<RoomSummary, JsString>)
      modifies this
      ensures IsBlank(old(roomCode)) ==> State() == old(State())
      ensures !IsBlank(old(roomCode)) && response.Ok? ==>
        State() == old(State()).(
          rooms := [response.value] + old(rooms),
          calls := old(calls) + [SelectRoom(response.value.id), JoinedRoom(old(roomCode))],
          showJoinModal := false, roomCode := [])
      ensures !IsBlank(old(roomCode)) && response.Err? ==>
        State() == old(State()).(showJoinModal := false, roomCode := [])
    {
      TrimEmptyIffBlank(roomCode);
      if Trim(roomCode) == [] {
        return;
      }
      if response.Ok? {
        rooms := [response.value] + rooms;
        calls := calls + [SelectRoom(response.value.id), JoinedRoom(roomCode)];
      }
      showJoinModal := false;
      roomCode := [];
    }
  }
}
