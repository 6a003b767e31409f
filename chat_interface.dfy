/**
 * The chat screen: the input field with its typing indicator, the send handler that encrypts
 * the trimmed input with the shared room key before handing it to the socket hook, and the
 * rendering rule that decrypts only messages marked as encrypted. The one-second typing timer
 * is an explicit event, `TimerFired`.
 */
module ChatInterface {
  import opened Common
  import opened JsText
  import opened Base64
  import opened Encryption
  import opened UseSocket

  /** `message.senderId === user?._id`: a message is the user's own only with a signed-in user. */
  predicate IsOwn(message: ChatMessage, userId: Option<JsString>) {
    userId.Some? && message.senderId == userId.value
  }

  /** The text `renderMessage` shows: the decryption of the content when the message is marked encrypted, the content otherwise. */
  function Displayed(message: ChatMessage): JsString {
    if message.encrypted then Decrypted(StaticRoomKey, message.content) else message.content
  }

  /**
   * A message the server stores with the encryption of a byte-sized text, and marks encrypted,
   * shows that text again.
   */
  lemma DisplayedRoundTrip(message: ChatMessage, text: JsString)
    requires IsBinary(text) && message.encrypted && message.content == Encrypted(StaticRoomKey, text)
    ensures Displayed(message) == text
  {
    StaticKeyRoundTrip(text);
  }

  /** An unencrypted message, such as the optimistic echo, shows its content as stored. */
  lemma DisplayedPlain(message: ChatMessage)
    requires !message.encrypted
    ensures Displayed(message) == message.content
  {
  }

  /** The optimistic echo of a message sent by the signed-in user renders on the user's side. */
  lemma EchoIsOwn(now: Time, content: JsString, userId: JsString, messageType: JsString)
    ensures IsOwn(Optimistic(now, content, userId, messageType), Some(userId))
    ensures !IsOwn(Optimistic(now, content, userId, messageType), None)
  {
  }

  /** The view's own state, beside the hook's. */
  datatype View = View(inputMessage: JsString, isTyping: bool, timerPending: bool)

  class ChatView {
    /** The signed-in user's id, `user?._id`. */
    const userId: Option<JsString>
    /** `useSocket(roomId, user?._id || null)`. */
    const hook: SocketClient
    /** The shared `encryption` instance. */
    const cipher: SimpleEncryption
    var inputMessage: JsString
    var isTyping: bool
    /** `typingTimeoutRef.current` holds a timer that has not fired nor been cleared. */
    var timerPending: bool

    function ViewState(): View
      reads this
    {
      View(inputMessage, isTyping, timerPending)
    }

    /** The hook belongs to the signed-in user and the cipher holds the room key. */
    predicate Valid()
      reads this, hook, cipher
    {
      && hook.Valid()
      && hook.userId == (if Truthy(userId) then userId else None)
      && cipher.key == StaticRoomKey
    }

    constructor (userId: Option<JsString>, hook: SocketClient, cipher: SimpleEncryption)
      requires hook.Valid() && hook.userId == (if Truthy(userId) then userId else None)
      requires cipher.key == StaticRoomKey
      ensures this.userId == userId && this.hook == hook && this.cipher == cipher
      ensures ViewState() == View([], false, false)
      ensures Valid()
    {
      this.userId := userId;
      this.hook := hook;
      this.cipher := cipher;
      inputMessage := [];
      isTyping := false;
      timerPending := false;
    }

    /**
     * `handleInputChange(value)`: the field takes the value; the first non-empty keystroke
     * while not typing marks the user typing and emits `typing-start`; the timer is restarted.
     */
    method InputChange(value: JsString)
      requires Valid()
      modifies this, hook
      ensures Valid()
      ensures ViewState() == View(value, old(isTyping) || |value| > 0, true)
      ensures |value| > 0 && !old(isTyping) && old(hook.CanType()) ==>
        hook.State() == old(hook.State()).(outbox := old(hook.outbox) + [TypingStartOut(hook.roomId.value)])
      ensures !(|value| > 0 && !old(isTyping) && old(hook.CanType())) ==> hook.State() == old(hook.State())
    {
      inputMessage := value;
      if |value| > 0 && !isTyping {
        isTyping := true;
        hook.StartTyping();
      }
      timerPending := true;
    }

    /** The typing timer fires: the user is no longer typing and `typing-stop` is emitted. */
    method TimerFired()
      requires Valid() && timerPending
      modifies this, hook
      ensures Valid()
      ensures ViewState() == old(ViewState()).(isTyping := false, timerPending := false)
      ensures old(hook.CanType()) ==>
        hook.State() == old(hook.State()).(outbox := old(hook.outbox) + [TypingStopOut(hook.roomId.value)])
      ensures !old(hook.CanType()) ==> hook.State() == old(hook.State())
    {
      isTyping := false;
      hook.StopTyping();
      timerPending := false;
    }

    /**
     * `handleSendMessage`: a blank input does nothing. Otherwise the trimmed input is encrypted
     * with the room key and sent as a text message, the field is cleared, a typing user stops
     * typing and the timer is cleared.
     */
    method SendMessage(now: Time)
      requires Valid()
      modifies this, hook
      ensures Valid()
      ensures IsBlank(old(inputMessage)) ==> ViewState() == old(ViewState()) && hook.State() == old(hook.State())
      ensures !IsBlank(old(inputMessage)) ==> ViewState() == View([], false, false)
      ensures !IsBlank(old(inputMessage)) ==>
        var content := Encrypted(StaticRoomKey, Trim(old(inputMessage)));
        && hook.messages == old(hook.messages)
             + (if old(hook.CanSend()) then [Optimistic(now, content, hook.userId.value, TextType)] else [])
        && hook.outbox == old(hook.outbox)
             + (if old(hook.CanSend()) then [SendMessageOut(content, hook.roomId.value, TextType)] else [])
             + (if old(isTyping) && old(hook.CanType()) then [TypingStopOut(hook.roomId.value)] else [])
        && hook.connected == old(hook.connected)
        && hook.typingUsers == old(hook.typingUsers)
        && hook.incomingCall == old(hook.incomingCall)
    {
      TrimEmptyIffBlank(inputMessage);
      var trimmed := Trim(inputMessage);
      if trimmed == [] {
        return;
      }
      var content := cipher.Encrypt(trimmed);
      hook.SendMessage(content, Some(TextType), now);
      inputMessage := [];
      if isTyping {
        isTyping := false;
        hook.StopTyping();
      }
      timerPending := false;
    }
  }
}
