# PrivateCircle chat core in Dafny

PrivateCircle is a two-person private chat with a Node/Express/Mongoose server and a React
client. Rooms hold at most two members and are joined by an eight-character code. Messages are
encrypted on the client with an XOR-then-base64 cipher under a shared static key. The server
fans each event out to the room's Socket.IO subscribers. This project models the core of that
system and proves properties of the model.

Server side:

- the socket event handlers, as one state machine (`SocketHandlers.ChatServer`). Its state is the
  room and message collections, each connection's subscribed rooms, and an outbox of emitted
  events, each addressed to a set of connections;
- the room access checks (`RoomAuth`);
- the room and message records with `addMember` and `softDelete` (`RoomModel`, `MessageModel`);
- the room routes: create with the bounded code-retry loop, join by code, leave, list, and paged
  messages (`RoomRoutes`);
- the authentication routes, with each user's refresh-token list (`AuthRoutes`).

Client side:

- the socket hook and its pure list updaters (`UseSocket`);
- the cipher, over a base64 model of `btoa`/`atob` (`Encryption`, `Base64`);
- the chat screen's typing debounce, send logic and render decisions (`ChatInterface`);
- the top-level screen state machine (`AppContent`);
- `formatDuration` (`CallInterface`);
- the room list screen's initials, count label and create/join updates (`RoomSelector`).

JavaScript strings are sequences of UTF-16 code units (`JsText`). Ids and times are natural
numbers. A Mongoose document that the source updates in place is a class loaded from a stored
record and saved back. Mongo's `createdAt` order is the order of the message sequence.

Where the code and its description disagree, the model follows the code:

- The socket `disconnect` handler only logs (server/socket/SocketHandlers.js:205-207). It does
  not announce `user-left` to the user's rooms.

## Model

| member | source | states |
|---|---|---|
| SocketHandlers.SubscribersIn | server/socket/SocketHandlers.js:61-64 | a connection is reached by an emit to a room exactly when it is subscribed to that room |
| SocketHandlers.UserRooms | server/socket/SocketHandlers.js:11-14 | the rooms found are exactly the stored rooms that are active and list the user as a member |
| SocketHandlers.RoomIds | server/socket/SocketHandlers.js:16-18 | the ids joined are exactly the ids of the rooms found |
| SocketHandlers.Payloads | server/socket/SocketHandlers.js:47-56 | one payload per stored message, in the same order |
| SocketHandlers.Touch | server/socket/SocketHandlers.js:109-111 | only the room with the id gets the new `lastActivity`; every other room is unchanged |
| SocketHandlers.FreshId | server/socket/SocketHandlers.js:97-105 | a saved message gets an id no stored message has |
| SocketHandlers.JoinRoomsIdempotent | server/socket/SocketHandlers.js:9-20 | running `join-rooms` twice leaves the same subscriptions as once; the connection is subscribed to every room found; no other connection's subscriptions change |
| SocketHandlers.ChatServer.constructor | server/socket/SocketHandlers.js:5-6 | the server starts with the stored collections, no connections and nothing emitted |
| SocketHandlers.ChatServer.Connect | server/socket/SocketHandlers.js:5-6 | a new connection is registered with its user and no subscriptions |
| SocketHandlers.ChatServer.Disconnect | server/socket/SocketHandlers.js:205-207 | the connection and its subscriptions go; nothing is emitted |
| SocketHandlers.ChatServer.JoinEach | server/socket/SocketHandlers.js:16-18 | the loop subscribes the connection to exactly the ids of the given rooms, added to its earlier ones |
| SocketHandlers.ChatServer.JoinRooms | server/socket/SocketHandlers.js:9-20 | the connection joins every active room of its user, and `rooms-joined` with that count goes to it alone |
| SocketHandlers.ChatServer.JoinRoom | server/socket/SocketHandlers.js:27-69 | without access: one "Access denied to room" error to the requester and nothing else. With access: subscribes, sends the requester the history, and sends `user-joined` to the other subscribers only |
| SocketHandlers.ChatServer.LeaveRoom | server/socket/SocketHandlers.js:72-78 | unsubscribes without an access check; `user-left` goes to the remaining subscribers |
| SocketHandlers.ChatServer.SendMessage | server/socket/SocketHandlers.js:81-127 | missing content or room, no access, or a schema rejection: one error to the sender and no store change. Otherwise exactly one encrypted message from the connection's user is stored, the room's `lastActivity` is refreshed, and `new-message` with the stored id and time goes to every subscriber, sender included |
| SocketHandlers.ChatServer.TypingStart | server/socket/SocketHandlers.js:130-135 | `user-typing` with the user's id and name goes to the other subscribers; no access check; the stores are untouched |
| SocketHandlers.ChatServer.TypingStop | server/socket/SocketHandlers.js:137-142 | `user-stopped-typing` goes to the other subscribers; the stores are untouched |
| SocketHandlers.ChatServer.InitiateCall | server/socket/SocketHandlers.js:145-178 | without access: one error. With access: `incoming-call` goes to the others, and exactly one unencrypted "call" message saying which kind of call started is stored |
| SocketHandlers.ChatServer.AcceptCall | server/socket/SocketHandlers.js:180-186 | only `call-accepted` with the responder's identity goes to the others; no store change |
| SocketHandlers.ChatServer.RejectCall | server/socket/SocketHandlers.js:188-194 | only `call-rejected` with the responder's identity goes to the others; no store change |
| SocketHandlers.ChatServer.EndCall | server/socket/SocketHandlers.js:196-202 | only `call-ended` with the ender's identity goes to the others; no store change |
| SocketHandlers.CallMessageValid | server/socket/SocketHandlers.js:164-171 | the call message always passes the schema: type "call", not encrypted, content "Video call started" or "Audio call started" |
| SocketHandlers.RelayExcludesSender | server/socket/SocketHandlers.js:61-64 | a relayed event never reaches its sender and reaches every other subscriber of the room |
| SocketHandlers.OthersUnchanged | server/socket/SocketHandlers.js:35 | changing one connection's subscriptions does not change who else is subscribed to a room |
| SocketHandlers.SentMessageEndsHistory | server/socket/SocketHandlers.js:38-46 | after a message is stored, the room's history ends with that message |
| RoomAuth.FindRoom | server/middleware/roomAuth.js:31 | the room found has the id; none is found exactly when no stored room has it |
| RoomAuth.SocketAccessIff | server/middleware/roomAuth.js:28-45 | access holds exactly when the room exists and some member entry is the caller; a missing id or a failed lookup gives false |
| RoomAuth.RoomAccessOutcome | server/middleware/roomAuth.js:3-26 | 404 for a missing room, 403 for a non-member, 500 on failure; only a member passes, with the room, exactly when the socket check holds |
| RoomModel.AnyMemberIs | server/models/Room.js:70-72 | true exactly when some member entry's user is the given one |
| RoomModel.CodeChar | server/models/Room.js:51-54 | every pick from the 36-character alphabet is an upper-case letter or a digit |
| RoomModel.GenerateRoomCode | server/models/Room.js:50-57 | the code has exactly eight characters, each from A-Z or 0-9 |
| RoomModel.RoomCodeIsUpper | server/models/Room.js:10-16 | a generated code is unchanged by upper-casing |
| RoomModel.WithMemberOutcome | server/models/Room.js:65-81 | full: "Room is full". Already a member: "User is already a member of this room". Otherwise exactly one entry for the user is appended, earlier members are kept, `lastActivity` is refreshed, and the cap of 2 is kept |
| RoomModel.RoomDocument.IsFull | server/models/Room.js:60-62 | full exactly when the member count reaches `maxMembers` |
| RoomModel.RoomDocument.AddMember | server/models/Room.js:65-81 | on a refusal the document is unchanged; otherwise it becomes the room with the user appended; a valid room stays valid |
| MessageModel.ParseTypeName | server/models/Message.js:19-23 | exactly "text", "image", "file" and "call" are accepted, each naming its own type |
| MessageModel.NewMessageOutcome | server/models/Message.js:3-36 | a save succeeds exactly when the content is non-empty, at most 2000 units, and the type is in the enum. A saved message defaults to type "text" and `encrypted` true, and has no `deletedAt` |
| MessageModel.SoftDeleteEffect | server/models/Message.js:43-47 | sets `deletedAt`, replaces the content with "This message was deleted" and changes nothing else; deleting again at the same instant changes nothing, and deleting again later only moves `deletedAt` to the later time |
| MessageModel.MessageDocument.SoftDelete | server/models/Message.js:43-47 | the document becomes its soft-deleted record |
| MessageModel.RoomVisible | server/socket/SocketHandlers.js:38-41 | exactly the room's messages without `deletedAt`, in store order |
| MessageModel.RoomVisibleAppend | server/socket/SocketHandlers.js:38-44 | a later message only extends a room's visible list, and only when it belongs to the room and is visible |
| MessageModel.Reverse | server/socket/SocketHandlers.js:46 | element `i` of the result is element `n-1-i` of the input |
| MessageModel.PageIsSlice | server/routes/rooms.js:185-194 | newest first, skipped, limited and reversed is a contiguous slice of the list in chronological order |
| MessageModel.RecentIsSuffix | server/socket/SocketHandlers.js:38-46 | the history holds at most 50 messages: the newest ones, oldest first, ending with the newest |
| RoomRoutes.FindActiveByCode | server/routes/rooms.js:120-123 | the room found is active with the code; none is found exactly when no active room has it |
| RoomRoutes.RemoveUser | server/routes/rooms.js:210-212 | the remaining entries are exactly the members other than the caller |
| RoomRoutes.RemoveUserAppend | server/routes/rooms.js:210-212 | the filter works piece by piece, so the remaining members keep their order |
| RoomRoutes.RemoveUserAbsent | server/routes/rooms.js:210-212 | a list without the caller is unchanged |
| RoomRoutes.PullId | server/routes/rooms.js:222-224 | every occurrence of the room id leaves the user's rooms, and nothing else does |
| RoomRoutes.Replace | server/routes/rooms.js:219 | saving replaces the room with the same id and leaves every other room |
| RoomRoutes.AfterLeaveEffect | server/routes/rooms.js:210-217 | the caller is no longer a member; the other members remain; the room is deactivated exactly when nobody is left; nothing else changes |
| RoomRoutes.InsertByActivity | server/routes/rooms.js:21 | inserting into a list sorted by descending `lastActivity` keeps it sorted and adds exactly the room |
| RoomRoutes.SortByActivity | server/routes/rooms.js:21 | the result is sorted by descending `lastActivity` and is a permutation of the input |
| RoomRoutes.ActiveRoomsOf | server/routes/rooms.js:16-19 | exactly the stored active rooms listing the caller |
| RoomRoutes.Entries | server/routes/rooms.js:24-42 | one entry per room, in the same order |
| RoomRoutes.ListRoomsOrder | server/routes/rooms.js:16-21 | the list is ordered by descending `lastActivity` |
| RoomRoutes.ListRoomsMembers | server/routes/rooms.js:16-19 | a room is listed exactly when it is stored, active, and lists the caller |
| RoomRoutes.ListRoomsLastMessage | server/routes/rooms.js:26-39 | each entry's last message is its room's newest non-deleted message, and is null exactly when there is none |
| RoomRoutes.LastMessageOfEffect | server/routes/rooms.js:26-39 | the summary is null exactly for a room without non-deleted messages, and otherwise carries the newest one's content, time and sender name |
| RoomRoutes.MessagePageDefault | server/routes/rooms.js:183-194 | without query parameters: the 50 newest non-deleted messages, oldest first |
| RoomRoutes.MessagePageSlice | server/routes/rooms.js:185-194 | page `p` with limit `l` is the run of at most `l` messages that ends `(p-1)*l` before the newest, oldest first |
| RoomRoutes.MessagePageFails | server/routes/rooms.js:191-192 | the only failure is a negative skip, and it answers "Server error" |
| RoomRoutes.MessagePageNegativeLimit | server/routes/rooms.js:183-192 | a negative limit `-n` on page `p` answers what limit `n` answers on page `2 - p`: page 1 is unchanged, page 0 is the second page, and every page from 2 on fails with "Server error" |
| RoomRoutes.PickRoomCode | server/routes/rooms.js:62-77 | at most ten codes are drawn; every code before the last was in use; the answer is the last code, which is an unused eight-character code, or none when all ten were in use |
| RoomRoutes.RandomHexKey | server/routes/rooms.js:80 | the room key is 64 lower-case hexadecimal characters |
| RoomRoutes.FreshRoomId | server/routes/rooms.js:83-90 | a new room gets an id no stored room has |
| RoomRoutes.ReplaceKeepsValid | server/routes/rooms.js:210-219 | saving a valid updated room with the same id and code keeps ids and codes unique, the cap, and the deactivation rule |
| RoomRoutes.AppendKeepsValid | server/routes/rooms.js:83-90 | a valid room with a fresh id and an unused code can be added to a valid store |
| RoomRoutes.RoomRouter.CreateRoom | server/routes/rooms.js:52-108 | a blank name gets 400 and no change. At most ten codes are tried, and every code but the last was in use. If all ten are taken: 500 "Failed to generate unique room code" and no change. A trimmed, upper-cased name longer than 100 units fails the schema's `maxlength` and gets 500 "Server error" with no change. These are the only errors; otherwise the room is created with that name, the caller as its only member and an unused code, and its id is pushed onto the caller's rooms |
| RoomRoutes.RoomRouter.JoinByCode | server/routes/rooms.js:111-164 | a missing code gets 400 and an unknown upper-cased code among active rooms gets 404. A full room or an existing member gets 400 with no change. Otherwise exactly the caller is appended and the room id is pushed onto the caller's rooms |
| RoomRoutes.RoomRouter.LeaveRoom | server/routes/rooms.js:202-231 | a failed access check answers its status and changes nothing. Otherwise the caller's entries go, an emptied room is deactivated, and the id is pulled from the caller's rooms |
| AuthRoutes.FindFirst | server/routes/auth.js:40-42 | the index of the first user the filter accepts; none exactly when no user is accepted |
| AuthRoutes.FindExisting | server/routes/auth.js:40-42 | the first user whose email or username matches, or none exactly when no user matches either |
| AuthRoutes.FindByEmail | server/routes/auth.js:83 | the first user with the email, or none exactly when nobody has it |
| AuthRoutes.FindUser | server/routes/auth.js:123 | the user with the id, or none exactly when nobody has it |
| AuthRoutes.Without | server/routes/auth.js:139 | the remaining tokens are exactly those different from the given one |
| AuthRoutes.WithoutCount | server/routes/auth.js:139 | pruning removes exactly the occurrences of the token and no other entry |
| AuthRoutes.OccursIff | server/routes/auth.js:130 | the `some` check holds exactly when the token occurs in the list |
| AuthRoutes.WithoutAbsent | server/routes/auth.js:159-163 | pruning a token that is not in the list changes nothing |
| AuthRoutes.RotatedEffect | server/routes/auth.js:139-140 | a refresh removes every copy of the old token and appends exactly one new token; every other token stays where it was, after the kept tokens that preceded it and before those that followed it |
| AuthRoutes.FreshUserId | server/routes/auth.js:51-52 | a new user gets an id nobody has |
| AuthRoutes.AddUserKeepsUnique | server/routes/auth.js:40-52 | a user whose id, email and username are all unused can be added without breaking uniqueness |
| AuthRoutes.AuthRouter.Signup | server/routes/auth.js:26-71 | a missing field gets 400 "All fields are required" and a password under 6 units gets 400. A clash reports "Email already exists" if the email matches, otherwise "Username already exists". Otherwise one user is stored whose only refresh token is the issued one |
| AuthRoutes.AuthRouter.Login | server/routes/auth.js:74-111 | a missing field gets 400. An unknown email and a wrong password get the same 401 "Invalid credentials". Otherwise exactly one refresh token is appended to that user's list |
| AuthRoutes.AuthRouter.Refresh | server/routes/auth.js:114-151 | a missing token, one that does not verify, an unknown user, or a token not in the user's list gets 401 with no change. Otherwise the token is rotated for the new one |
| AuthRoutes.AuthRouter.Logout | server/routes/auth.js:154-176 | with a token, only the matching entries of that user go; without one, the user's list is emptied; other users are unchanged |
| AuthRoutes.RefreshIsSingleUse | server/routes/auth.js:129-140 | when the newly signed token differs from the presented one, the presented token is no longer in the list after the refresh, so reusing it fails |
| AuthRoutes.RefreshReissuedKeepsToken | server/routes/auth.js:9-23 | when signing `{ userId }` in the same second reproduces the presented token, the refresh filters it out and pushes it straight back: it stays in the list, exactly once, and stays usable |
| AuthRoutes.LogoutKeepsOthers | server/routes/auth.js:159-163 | pulling the only copy of a token leaves the other tokens in their order |
| AuthRoutes.WithoutAppend | server/routes/auth.js:139 | pruning works piece by piece |
| UseSocket.HasId | client/src/hooks/useSocket.ts:73 | true exactly when some listed message has the id |
| UseSocket.DropPair | client/src/hooks/useSocket.ts:75-78 | exactly the messages with a different content or sender remain |
| UseSocket.ReconciledEffect | client/src/hooks/useSocket.ts:70-85 | a known id leaves the list unchanged. Otherwise every entry with the same content and sender goes, each other entry stays after the kept entries that preceded it and before those that followed it, the message is last, and exactly one entry with that pair remains |
| UseSocket.EchoReplaced | client/src/hooks/useSocket.ts:70-85 | an optimistic echo of the confirmed message is replaced by it |
| UseSocket.HasTypingUser | client/src/hooks/useSocket.ts:101 | true exactly when some entry has the user id |
| UseSocket.WithoutTyping | client/src/hooks/useSocket.ts:112 | exactly the entries with another user id remain |
| UseSocket.WithTypingEffect | client/src/hooks/useSocket.ts:100-106 | the user is listed afterwards, every earlier entry stays, at most one entry is added, and the list stays free of duplicates |
| UseSocket.WithoutTypingEffect | client/src/hooks/useSocket.ts:112 | the user is gone and the list stays free of duplicates |
| UseSocket.SocketClient.constructor | client/src/hooks/useSocket.ts:27-45 | a socket exists exactly when room, user and token are all set; the state starts empty and disconnected |
| UseSocket.SocketClient.OnConnect | client/src/hooks/useSocket.ts:49-58 | connected, then `join-rooms` and `join-room` for the hook's room are emitted |
| UseSocket.SocketClient.OnDisconnect | client/src/hooks/useSocket.ts:60-68 | no longer connected; nothing else changes |
| UseSocket.SocketClient.OnNewMessage | client/src/hooks/useSocket.ts:70-85 | the list becomes its reconciliation with the message |
| UseSocket.SocketClient.OnMessageHistory | client/src/hooks/useSocket.ts:87-94 | the list becomes the history, in the order received |
| UseSocket.SocketClient.OnUserTyping | client/src/hooks/useSocket.ts:97-107 | the local user is ignored; others are added once |
| UseSocket.SocketClient.OnUserStoppedTyping | client/src/hooks/useSocket.ts:109-113 | the local user is ignored; every entry of another user goes |
| UseSocket.SocketClient.OnIncomingCall | client/src/hooks/useSocket.ts:116-121 | the call becomes the pending one |
| UseSocket.SocketClient.OnCallCleared | client/src/hooks/useSocket.ts:123-133 | no call is pending any more |
| UseSocket.SocketClient.SendMessage | client/src/hooks/useSocket.ts:147-171 | nothing happens unless the socket exists, is connected, and room and user are set. Otherwise exactly one optimistic message ("temp-" id, local user, unencrypted, type defaulting to "text") is appended and `send-message` is emitted without an id |
| UseSocket.SocketClient.StartTyping | client/src/hooks/useSocket.ts:173-177 | `typing-start` is emitted exactly when connected with a room |
| UseSocket.SocketClient.StopTyping | client/src/hooks/useSocket.ts:179-183 | `typing-stop` is emitted exactly when connected with a room |
| UseSocket.SocketClient.InitiateCall | client/src/hooks/useSocket.ts:185-192 | `initiate-call` is emitted exactly when connected |
| UseSocket.SocketClient.AcceptCall | client/src/hooks/useSocket.ts:194-202 | without a pending call nothing happens; otherwise that call's room and caller are emitted and the call is cleared |
| UseSocket.SocketClient.RejectCall | client/src/hooks/useSocket.ts:204-212 | without a pending call nothing happens; otherwise that call's room and caller are emitted and the call is cleared |
| UseSocket.SocketClient.EndCall | client/src/hooks/useSocket.ts:214-218 | `end-call` for the hook's room is emitted exactly when connected; the pending call is kept |
| UseSocket.SocketClient.Cleanup | client/src/hooks/useSocket.ts:139-144 | a connected socket emits `leave-room` and disconnects; otherwise nothing happens |
| UseSocket.OptimisticIdIsTemporary | client/src/hooks/useSocket.ts:151 | an optimistic id starts with "temp-", so it never equals a server id without that prefix |
| Encryption.GenerateKey | client/src/utils/encryption.ts:8-12 | 64 lower-case hexadecimal characters |
| Encryption.XorLoop | client/src/utils/encryption.ts:18-24 | the loop's result is the XOR of each unit with the key unit at `i mod` key length, or failure for an empty key |
| Encryption.SimpleEncryption.constructor | client/src/utils/encryption.ts:4-6 | the given key when it is non-empty, otherwise a generated 64-character hex key |
| Encryption.SimpleEncryption.Encrypt | client/src/utils/encryption.ts:14-30 | the result is the encryption of the text under the key, falling back to the text itself |
| Encryption.SimpleEncryption.Decrypt | client/src/utils/encryption.ts:32-49 | the result is the decryption under the key, falling back to the input itself |
| Encryption.SimpleEncryption.GetKey | client/src/utils/encryption.ts:51-53 | returns the key |
| Encryption.SimpleEncryption.SetKey | client/src/utils/encryption.ts:55-57 | the key becomes the given one |
| Encryption.NewRoomEncryption | client/src/utils/encryption.ts:62-65 | the shared instance holds the fixed key "superSecretRoomKey123!" |
| Encryption.XorShape | client/src/utils/encryption.ts:18-24 | XOR keeps the length and applies key unit `i mod` key length to unit `i`; it fails only for an empty key and non-empty text |
| Encryption.XorInvolutive | client/src/utils/encryption.ts:37-43 | XOR with the same key undoes itself |
| Encryption.XorKeepsBinary | client/src/utils/encryption.ts:18-25 | byte-sized text and key give byte-sized XOR output |
| Encryption.DecryptEncrypt | client/src/utils/encryption.ts:14-49 | `decrypt(encrypt(t)) == t` for a non-empty byte-sized key and byte-sized text |
| Encryption.EncryptEmpty | client/src/utils/encryption.ts:17-25 | `encrypt("")` is "" |
| Encryption.EncryptFallsBack | client/src/utils/encryption.ts:26-29 | when an XORed unit exceeds a byte, `encrypt` returns its input |
| Encryption.DecryptFallsBack | client/src/utils/encryption.ts:45-48 | input that is not valid base64 comes back unchanged |
| Encryption.StaticKeyRoundTrip | client/src/utils/encryption.ts:62-65 | the shared instance round-trips every byte-sized text |
| Base64.BtoaAcceptsBinary | client/src/utils/encryption.ts:25 | `btoa` accepts exactly the byte-sized strings, and its output length is a multiple of four |
| Base64.AtobBtoa | client/src/utils/encryption.ts:34 | `atob(btoa(s)) == s` for every byte-sized string |
| Base64.AtobIsBinary | client/src/utils/encryption.ts:34 | `atob` yields byte-sized units |
| ChatInterface.DisplayedRoundTrip | client/src/components/ChatInterface.tsx:106-111 | a message marked encrypted whose content is the encryption of a byte-sized text shows that text |
| ChatInterface.DisplayedPlain | client/src/components/ChatInterface.tsx:104-106 | a message not marked encrypted shows its content as stored |
| ChatInterface.EchoIsOwn | client/src/components/ChatInterface.tsx:103 | the optimistic echo renders as the signed-in user's own, and as nobody's own without a user |
| ChatInterface.ChatView.constructor | client/src/components/ChatInterface.tsx:41-45 | empty input, not typing, no timer; the hook is the signed-in user's |
| ChatInterface.ChatView.InputChange | client/src/components/ChatInterface.tsx:51-71 | the field takes the value. `typing-start` is emitted only for a non-empty value while not typing, and then typing is set. A timer is always pending afterwards |
| ChatInterface.ChatView.TimerFired | client/src/components/ChatInterface.tsx:67-70 | no longer typing, no timer, and `typing-stop` is emitted when connected |
| ChatInterface.ChatView.SendMessage | client/src/components/ChatInterface.tsx:73-92 | blank input changes nothing. Otherwise the encryption of the trimmed input is sent as "text" and the field is cleared. `typing-stop` is emitted only if typing was set, and the timer is cancelled |
| AppContent.AppScreen.constructor | client/src/App.tsx:18-21 | login screen, not signing up, no room, no call |
| AppContent.AppScreen.Settle | client/src/App.tsx:23-31 | once loading is over the state is 'rooms' with a user and 'login' without one; while loading nothing changes |
| AppContent.AppScreen.ToggleMode | client/src/App.tsx:104 | the login form flips between sign-in and sign-up |
| AppContent.AppScreen.SelectRoom | client/src/App.tsx:51-55 | the room becomes current and the chat opens |
| AppContent.AppScreen.CreateRoom | client/src/App.tsx:57-63 | "room-" and the time becomes current and the chat opens |
| AppContent.AppScreen.JoinRoom | client/src/App.tsx:65-70 | "room-" and the code becomes current and the chat opens |
| AppContent.AppScreen.StartCall | client/src/App.tsx:72-77 | without a current room nothing changes; otherwise the call of that kind in that room starts and the call screen opens |
| AppContent.AppScreen.EndCall | client/src/App.tsx:79-82 | the call is cleared, the chat returns, and the current room is kept |
| AppContent.AppScreen.BackToRooms | client/src/App.tsx:84-87 | no room is current and the room list returns |
| AppContent.RenderOf | client/src/App.tsx:89-138 | the loading screen exactly while loading. The chat screen only for a non-empty current room, and the call screen only for the current call |
| AppContent.CallScreenRenders | client/src/App.tsx:118-134 | in a reachable state, only 'chat' without a room renders nothing |
| AppContent.CreatedRoomRenders | client/src/App.tsx:57-70 | a created or joined room's id is non-empty, so its chat screen renders |
| AppContent.SettledRenders | client/src/App.tsx:23-31 | after loading, the room list renders with a user and the login form without one |
| CallInterface.TwoDigitsValue | client/src/components/CallInterface.tsx:98 | a padded field has at least two digits and reads back as the number; exactly two below 100 |
| CallInterface.FormatDurationReadBack | client/src/components/CallInterface.tsx:95-99 | the label is the minutes field, ':' and a two-digit seconds field below 60, and `60*mm + ss` is the input |
| CallInterface.FormatDurationShape | client/src/components/CallInterface.tsx:98 | below 6000 seconds the label has five characters, with ':' at index 2 |
| RoomSelector.FirstUnits | client/src/components/room-selector.tsx:139-141 | at most one unit per piece |
| RoomSelector.FirstUnitsAreWordStarts | client/src/components/room-selector.tsx:139-141 | the first units of the space-separated pieces are exactly the units that start a word; empty pieces contribute nothing |
| RoomSelector.InitialsOfName | client/src/components/room-selector.tsx:136-143 | with a name: the upper-cased word starts of the name, at most one per piece |
| RoomSelector.InitialsFallBack | client/src/components/room-selector.tsx:144 | without a name: the upper-cased first unit of the email, or "U" with neither |
| RoomSelector.RoomCountLabelPlural | client/src/components/room-selector.tsx:457 | the count, then "room", with an "s" exactly when the count is not one |
| RoomSelector.RoomSelectorScreen.constructor | client/src/components/room-selector.tsx:78 | no rooms, empty fields, dialogs closed |
| RoomSelector.RoomSelectorScreen.RoomsFetched | client/src/components/room-selector.tsx:81-86 | the list becomes the fetched rooms |
| RoomSelector.RoomSelectorScreen.NameInput | client/src/components/room-selector.tsx:805 | the name field takes the value |
| RoomSelector.RoomSelectorScreen.CodeInput | client/src/components/room-selector.tsx:854 | the code field holds the upper-cased value, which has no lower-case letter left |
| RoomSelector.RoomSelectorScreen.CreateRoom | client/src/components/room-selector.tsx:94-106 | a blank name changes nothing. On success the room is prepended, existing order kept, and the parent is told. In either case the dialog closes and the name is cleared |
| RoomSelector.RoomSelectorScreen.JoinRoom | client/src/components/room-selector.tsx:108-120 | a blank code changes nothing. On success the room is prepended, existing order kept, and the parent is told. In either case the dialog closes and the code is cleared |
| JsText.TrimEmptyIffBlank | server/routes/rooms.js:57 | trimming gives "" exactly when the string is all white space |
| JsText.TrimIsSlice | server/routes/rooms.js:84 | the trimmed string is a contiguous slice whose ends are not white space |
| JsText.ToUpperIdempotent | client/src/components/room-selector.tsx:854 | upper-casing leaves no lower-case letter, and doing it twice equals once |
| JsText.DecimalValue | client/src/components/CallInterface.tsx:98 | the decimal digits of `n` read back as `n` |
| JsText.PadStart | client/src/components/CallInterface.tsx:98 | the result is the input preceded by fill units, up to the wanted length |
| JsText.SplitJoin | client/src/components/room-selector.tsx:139-141 | joining the split pieces gives the string back, and no piece holds the separator |
| JsText.Hex | server/routes/rooms.js:80 | two lower-case hexadecimal characters per byte |

## Left out

- Transport and storage: Socket.IO, its token handshake, Mongoose queries, `populate` and `save`. The collections are in-memory sequences and each handler or route is one atomic step. A save failure is modelled only where a schema constraint of the model rejects the record.
- Concurrency: handlers interleaving across connections, and a crash between persisting and broadcasting.
- The socket server and the HTTP routes keep separate copies of the room collection (`SocketHandlers.ChatServer` and `RoomRoutes.RoomRouter`); the model does not tie them together.
- Relay events with no access check (`typing-start`, `leave-room`, the call answers) take a room id that exists as an id; a malformed id that makes Socket.IO's room lookup throw is not modelled.
- The user model, JWT signing and verification, and `comparePassword` are not part of this model. Issued tokens, a verified token's user id and the password check arrive as parameters. Users are never deleted.
- `page` and `limit` arrive as integers; non-numeric query strings, which JavaScript turns into `NaN`, are not modelled.
- RoomRoutes.MessagePage: fractional `page` and `limit` values (such as `limit=2.5`) are not modelled, and a negative limit is taken as a cap of its absolute value, without Mongo's single-batch size bound.
- Mongo's `createdAt` order and ties in `lastActivity` are modelled by store order; the sort keeps rooms with equal times in their stored order.
- `toUpperCase` changes only the ASCII letters a-z; other Unicode case mappings are not modelled.
- Randomness (`Math.random`, `crypto.getRandomValues`, `crypto.randomBytes`) is a nondeterministic choice constrained only by the output's shape. Clocks are a `Time` parameter.
- Timers are explicit events: `ChatInterface.ChatView.TimerFired` is the one-second typing timeout firing.
- Locale formatting (`toLocaleTimeString`), JSX, styling, the Agora calls, media, the ringtone and the clipboard are left out, and so are `LoginForm.tsx`, `RoomSelector.tsx`, `useAuth.ts`, `roomService.ts` and `agora.ts`.
- The hook's props are constants of `UseSocket.SocketClient`; re-running its effect when the room or the user changes is not modelled.
- React's stale closures (a handler seeing an earlier render's `isTyping` or `connected`) are not modelled; each event sees the latest state.
- ChatInterface.Displayed: the "[Encrypted message]" fallback of `renderMessage` is unreachable, because `decrypt` catches its own errors and never throws, so it is not modelled.
- UseSocket.Optimistic: the optimistic echo is marked unencrypted while it holds the ciphertext the chat screen passes in, so the sender sees the ciphertext until the server's copy replaces it; this is modelled as written.
