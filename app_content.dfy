/**
 * The client's top-level screen switch: the login form, the room list, the chat screen for the
 * current room and the call screen for the current call, with the handlers the child screens
 * call back. The authentication state (`user`, `loading`) arrives as parameters.
 */
module AppContent {
  import opened Common
  import opened JsText

  datatype AppState = Login | Rooms | Chat | Call

  datatype CallKind = Audio | Video

  /** The call in progress: its kind and its room. */
  datatype CallState = CallState(kind: CallKind, roomId: JsString)

  /** What the component renders. `Nothing` is React's `null`. */
  datatype Rendered =
    | LoadingScreen
    | LoginScreen(isSignup: bool)
    | RoomsScreen
    | ChatScreen(roomId: JsString)
    | CallScreen(kind: CallKind, callRoomId: JsString)
    | Nothing

  /** The text "room-". */
  const RoomPrefix: JsString := [0x72, 0x6F, 0x6F, 0x6D, 0x2D]

  /** The component's state. */
  datatype App = App(appState: AppState, isSignup: bool, currentRoomId: Option<JsString>, callState: Option<CallState>)

  class AppScreen {
    var appState: AppState
    var isSignup: bool
    var currentRoomId: Option<JsString>
    var callState: Option<CallState>

    function State(): App
      reads this
    {
      App(appState, isSignup, currentRoomId, callState)
    }

    /** The call screen is only ever entered with a call for a non-empty room. */
    predicate Valid()
      reads this
    {
      appState == Call ==> callState.Some? && IsTruthy(callState.value.roomId)
    }

    constructor ()
      ensures State() == App(Login, false, None, None)
      ensures Valid()
    {
      appState, isSignup, currentRoomId, callState := Login, false, None, None;
    }

    /** The effect on `[user, loading]`: once loading is over, the room list with a user, the login form without one. */
    method Settle(hasUser: bool, loading: bool)
      requires Valid()
      modifies this
      ensures Valid()
      ensures loading ==> State() == old(State())
      ensures !loading ==> State() == Settled(old(State()), hasUser)
    {
      if !loading {
        if hasUser {
          appState := Rooms;
        } else {
          appState := Login;
        }
      }
    }

    /** `onToggleMode`: the login form switches between signing in and signing up. */
    method ToggleMode()
      requires Valid()
      modifies this
      ensures Valid()
      ensures State() == old(State()).(isSignup := !old(isSignup))
    {
      isSignup := !isSignup;
    }

    /** `handleSelectRoom`: the chosen room becomes current and the chat opens. */
    method SelectRoom(roomId: JsString)
      requires Valid()
      modifies this
      ensures Valid()
      ensures State() == old(State()).(currentRoomId := Some(roomId), appState := Chat)
    {
      currentRoomId := Some(roomId);
      appState := Chat;
    }

    /** `handleCreateRoom`: a placeholder id, "room-" and the clock, becomes current and the chat opens. */
    method CreateRoom(name: JsString, now: Time)
      requires Valid()
      modifies this
      ensures Valid()
      ensures State() == old(State()).(currentRoomId := Some(RoomPrefix + Decimal(now)), appState := Chat)
    {
      currentRoomId := Some(RoomPrefix + Decimal(now));
      appState := Chat;
    }

    /** `handleJoinRoom`: "room-" and the code becomes current and the chat opens. */
    method JoinRoom(code: JsString)
      requires Valid()
      modifies this
      ensures Valid()
      ensures State() == old(State()).(currentRoomId := Some(RoomPrefix + code), appState := Chat)
    {
      currentRoomId := Some(RoomPrefix + code);
      appState := Chat;
    }

    /** `handleStartCall(type)`: with a current room, a call of that kind in that room starts; otherwise nothing. */
    method StartCall(kind: CallKind)
      requires Valid()
      modifies this
      ensures Valid()
      ensures Truthy(old(currentRoomId)) ==>
        State() == old(State()).(callState := Some(CallState(kind, old(currentRoomId).value)), appState := Call)
      ensures !Truthy(old(currentRoomId)) ==> State() == old(State())
    {
      if Truthy(currentRoomId) {
        callState := Some(CallState(kind, currentRoomId.value));
        appState := Call;
      }
    }

    /** `handleEndCall`: the call is dropped and the chat comes back. */
    method EndCall()
      requires Valid()
      modifies this
      ensures Valid()
      ensures State() == old(State()).(callState := None, appState := Chat)
    {
      callState := None;
      appState := Chat;
    }

    /** `handleBackToRooms`: no room is current and the room list comes back. */
    method BackToRooms()
      requires Valid()
      modifies this
      ensures Valid()
      ensures State() == old(State()).(currentRoomId := None, appState := Rooms)
    {
      currentRoomId := None;
      appState := Rooms;
    }
  }

  /** The state the component reaches once loading is over: decided by the user alone. */
  function Settled(s: App, hasUser: bool): App {
    s.(appState := if hasUser then Rooms else Login)
  }

  /**
   * What the component renders in state `s` for the given `loading` flag: the chat screen only
   * for a non-empty current room, the call screen only for the current call.
   */
  function RenderOf(s: App, loading: bool): (r: Rendered)
    ensures loading <==> r == LoadingScreen
    ensures r.ChatScreen? ==> Truthy(s.currentRoomId) && r.roomId == s.currentRoomId.value
    ensures r.CallScreen? ==> s.callState == Some(CallState(r.kind, r.callRoomId))
  {
    if loading then LoadingScreen
    else match s.appState
      case Login => LoginScreen(s.isSignup)
      case Rooms => RoomsScreen
      case Chat => if Truthy(s.currentRoomId) then ChatScreen(s.currentRoomId.value) else Nothing
      case Call => if s.callState.Some? then CallScreen(s.callState.value.kind, s.callState.value.roomId) else Nothing
  }

  /** In a valid state the call screen never renders `null`: entering it always brings a call. */
  lemma CallScreenRenders(s: App)
    requires s.appState == Call ==> s.callState.Some? && IsTruthy(s.callState.value.roomId)
    ensures RenderOf(s, false) != Nothing <==> s.appState != Chat || Truthy(s.currentRoomId)
  {
  }

  /** A created or joined room always has a non-empty id, so the chat screen renders for it. */
  lemma CreatedRoomRenders(s: App, now: Time, code: JsString)
    ensures RenderOf(s.(currentRoomId := Some(RoomPrefix + Decimal(now)), appState := Chat), false)
      == ChatScreen(RoomPrefix + Decimal(now))
    ensures RenderOf(s.(currentRoomId := Some(RoomPrefix + code), appState := Chat), false)
      == ChatScreen(RoomPrefix + code)
  {
  }

  /** Once loading is over the rendered screen follows the user: the room list with one, the login form without. */
  lemma SettledRenders(s: App, hasUser: bool)
    ensures hasUser ==> RenderOf(Settled(s, hasUser), false) == RoomsScreen
    ensures !hasUser ==> RenderOf(Settled(s, hasUser), false) == LoginScreen(s.isSignup)
  {
  }
}
