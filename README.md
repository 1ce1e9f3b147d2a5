# WorkAdventure session orchestration, modelled in Dafny

This project models two parts of WorkAdventure:

- **The back server's session orchestrator (`SocketManager`).** It keeps a registry of the rooms being created or already loaded. It keeps the Webex meeting known for each room. It writes every message the server sends to a participant's socket. These include:
  - WebRTC start and stop signaling when the proximity engine puts users in a group or takes them out;
  - ephemeral TURN relay credentials;
  - the user list after a departure;
  - admin messages, bans and room refreshes;
  - zone events for the gateways.
- **The pure parts of the pusher's Webex OAuth controller.** These are the form serialiser, the callback's query parsing and error selection, and the responses its handlers write.

The orchestrator is the class `SocketManagerService.SocketManager`:

- Its fields are the registry (`roomsPromises`, plus the list of creations started), the Webex meeting map, and `sent`, the ordered list of socket writes and socket ends it has performed.
- Each method is specified against a pure function of the old state. Those functions are defined, and their properties proved, in separate modules:
  - `Registry` (the registry as a value, over any sequence of events);
  - `Signaling`, `Broadcasts` and `Rooms` (what a loop writes and who leaves);
  - `Meetings`, `Turn`, `Movement` and `ZoneEvents`.
- The room engine (`GameRoom`) is outside this model. `Rooms.GameRoom` keeps only what the orchestrator uses:
  - the sessions in join order;
  - the connected admins;
  - the version counter;
  - `leave`, `adminLeave`, `isEmpty`, `getUsersByUuid` and `incrementVersion`.

Foreign functions are parameters and are not interpreted:

- HMAC-SHA1 with base64;
- `encodeURIComponent`;
- `Date.parse`.

The clock is an integer parameter. The outcomes of awaited calls (room creation, the meeting-provider and token-endpoint requests) are explicit events or parameters.

Notes on the model:

- **Registry deletion.** When a room becomes empty, the code deletes the registry entry keyed by `room.roomUrl`, whatever creation that entry stands for (back/src/Services/SocketManager.ts:316-320 and back/src/Services/SocketManager.ts:607-612). A room already evicted from the registry can still become empty again, for instance when its last admin leaves. The entry of a newer creation for the same URL is then deleted. `Registry.ReleaseIfEmpty` models this deletion, whatever the entry's ticket.
- **Meeting map.** `webexMeetings` is read and deleted from but never written anywhere in the orchestrator's code. The model keeps it as a field that only `LeaveRoom` changes.
- **Identity test in the group loops.** The loops skip `user === otherUser`, which compares references. The model compares values.

## Model

| member | source | states |
|---|---|---|
| Registry.GetOrCreate | back/src/Services/SocketManager.ts:327-357 | an existing entry is returned unchanged; only an absent id starts a creation, whose pending slot is stored and returned; no other id changes; well-formedness is kept |
| Registry.Resolve | back/src/Services/SocketManager.ts:346-349 | a creation's room becomes the entry only if the entry still stands for that creation; keys, tickets and other ids are unchanged |
| Registry.Fail | back/src/Services/SocketManager.ts:350-353 | a rejected creation deletes its id's entry and nothing else |
| Registry.ReleaseIfEmpty | back/src/Services/SocketManager.ts:316-320 | the id's entry is deleted iff the room is empty; no other entry changes; a non-empty room leaves the registry as it was |
| Registry.RetryAfterFailure | back/src/Services/SocketManager.ts:350-353 | after a failure, the next request starts a new creation whose ticket no registered entry uses |
| Registry.OneCreationWhilePresent | back/src/Services/SocketManager.ts:329-356 | over any sequence of requests, settlements and releases that never evicts an id, at most one creation is started for it (exactly one if it was absent and requested), and a present entry keeps its creation |
| Registry.ConcurrentRequests | back/src/Services/SocketManager.ts:329-331 | two requests before the creation settles get the same pending creation, and one creation is counted |
| SocketManagerService.SocketManager.constructor | back/src/Services/SocketManager.ts:112-117 | the registry, meeting map and write log start empty, and the invariant holds |
| SocketManagerService.SocketManager.GetOrCreateRoom | back/src/Services/SocketManager.ts:327-357 | the new registry and returned slot are those of `Registry.GetOrCreate`; the invariant (entries well-formed; each ready room under its own URL, with its sessions keyed by id) is kept |
| SocketManagerService.SocketManager.ResolveCreation | back/src/Services/SocketManager.ts:346-349 | given a room with unique session ids, the registry becomes `Registry.Resolve` of the old one; the invariant is kept |
| SocketManagerService.SocketManager.FailCreation | back/src/Services/SocketManager.ts:350-353 | the registry becomes `Registry.Fail` of the old one |
| SocketManagerService.SocketManager.ReleaseIfEmpty | back/src/Services/SocketManager.ts:316-320 | the registry becomes `Registry.ReleaseIfEmpty` for the room's URL and emptiness |
| SocketManagerService.SocketManager.LeaveRoom | back/src/Services/SocketManager.ts:301-325 | the owner's meeting entry is dropped; the session leaves; the remaining writable sessions are sent the user list; the room's registry entry goes iff the room is empty; the room's session ids stay unique and the invariant is kept |
| SocketManagerService.SocketManager.LeaveAdminRoom | back/src/Services/SocketManager.ts:606-613 | the admin leaves; the room's registry entry goes iff the room is empty; sessions and version are unchanged; the invariant is kept |
| SocketManagerService.SocketManager.UpdateUserList | back/src/Services/SocketManager.ts:801-831 | the writes appended are exactly `Broadcasts.UserListBroadcast` of the room's sessions |
| SocketManagerService.SocketManager.WriteToWritable | back/src/Services/SocketManager.ts:819-827 | the given message is written to each writable session, in order, and to nobody else |
| SocketManagerService.SocketManager.Emit | back/src/Services/SocketManager.ts:636-645 | one write of the message per recipient, in order |
| SocketManagerService.SocketManager.SendAdminMessage | back/src/Services/SocketManager.ts:615-646 | a missing room, a room still loading or no session of the uuid writes nothing; otherwise one admin message of type "ban" is written to each session of the uuid; the invariant is kept |
| SocketManagerService.SocketManager.BanSessions | back/src/Services/SocketManager.ts:669-683 | each recipient leaves, then is written the "banned" notice, then has its socket ended, in order; admins and version are unchanged and unique ids are kept |
| SocketManagerService.SocketManager.BanUser | back/src/Services/SocketManager.ts:648-684 | a missing room or no session of the uuid writes nothing and removes nobody; otherwise the room's sessions become exactly those of other uuids, in order, and each session of the uuid gets the notice then the end of its socket; the invariant, unique ids included, is kept |
| SocketManagerService.SocketManager.DispatchRoomRefresh | back/src/Services/SocketManager.ts:732-749 | a missing room does nothing; otherwise the version goes up by one and that new number is sent to every session; the invariant is kept |
| SocketManagerService.SocketManager.JoinWebRtcRoom | back/src/Services/SocketManager.ts:965-1000 | the writes appended are exactly `Signaling.StartMessages` for the joiner and the group |
| SocketManagerService.SocketManager.DisconnectedUser | back/src/Services/SocketManager.ts:1022-1053 | the writes appended are exactly `Signaling.StopMessages` for the leaver and the group |
| SocketManagerService.SocketManager.EmitVideo | back/src/Services/SocketManager.ts:241-269 | the writes appended are `Signaling.EmitVideo` of the room's sessions |
| SocketManagerService.SocketManager.HandleWebexSessionQuery | back/src/Services/SocketManager.ts:372-451 | exactly one reply, `Meetings.WebexSessionReply` for the room's known meeting, is written to the querying session; the meeting map is unchanged |
| Rooms.GameRoom.Leave | back/src/Services/SocketManager.ts:313 | the session with that id is removed, others kept in order; admins and version unchanged; unique ids are kept |
| Rooms.GameRoom.AdminLeave | back/src/Services/SocketManager.ts:607 | only that admin is removed; sessions and version are unchanged, so unique ids are kept |
| Rooms.GameRoom.IsEmpty | back/src/Services/SocketManager.ts:316 | a room counts as empty exactly when it has no session and no admin |
| Rooms.DropIdTwice | back/src/Services/SocketManager.ts:313 | a session that has left leaving again changes nothing |
| Rooms.GameRoom.IncrementVersion | back/src/Services/SocketManager.ts:738 | the version goes up by one and the new value is returned |
| Rooms.LeavingAllSessionsOfUuid | back/src/Services/SocketManager.ts:669-671 | removing the ids of every session of a uuid removes exactly that uuid's sessions and keeps every other session in order |
| Rooms.DropIdsMembers | back/src/Services/SocketManager.ts:669-671 | after the recipients leave, exactly the sessions with other ids remain |
| Rooms.DropIdsStep | back/src/Services/SocketManager.ts:671 | one more leave removes one more id |
| Broadcasts.BroadcastReachesEachOnce | back/src/Services/SocketManager.ts:636-645 | with distinct session ids, a broadcast writes once to each recipient and to nobody else |
| Broadcasts.UserInfos | back/src/Services/SocketManager.ts:803-811 | one entry per session in order, with its id, its name and its first layer's name or "" |
| Broadcasts.UserListReachesWritable | back/src/Services/SocketManager.ts:819-827 | each writable remaining session gets the full user list exactly once; every other socket gets nothing |
| Broadcasts.BanDeliveriesAt | back/src/Services/SocketManager.ts:669-683 | two writes per banned session: first the "banned" notice, then the end of its socket, in recipient order |
| Signaling.Others | back/src/Services/SocketManager.ts:966-969 | the group members other than the user, in group order |
| Signaling.StartMessagesAt | back/src/Services/SocketManager.ts:965-1000 | per other member: the joiner gets `(member id, initiator)` and the member gets `(joiner id, not initiator)`, each with credentials for the session named |
| Signaling.StartMessagesCount | back/src/Services/SocketManager.ts:965-1000 | a joiner in a group of n sessions with distinct ids causes exactly 2·(n−1) start messages |
| Signaling.NoSelfStart | back/src/Services/SocketManager.ts:967-969 | no start message tells a session to connect to itself |
| Signaling.StopMessagesAt | back/src/Services/SocketManager.ts:1022-1053 | per other member: a disconnect naming the leaver goes to the member, then one naming the member goes to the leaver |
| Signaling.NoSelfStop | back/src/Services/SocketManager.ts:1028-1031 | with ids unique in the group, nobody receives a disconnect about themselves |
| Signaling.StopSymmetric | back/src/Services/SocketManager.ts:1028-1052 | every disconnect has its mirror image in the same call, and each involves the leaver |
| Signaling.OthersOfMember | back/src/Services/SocketManager.ts:966-969 | with distinct ids, a member has n−1 others and a non-member has n |
| Signaling.FindUser | back/src/Services/SocketManager.ts:243 | finds the session with the receiver's id, and finds none iff no session has that id |
| Signaling.EmitVideo | back/src/Services/SocketManager.ts:241-269 | at most one write; one exactly when the receiver is in the room; it names the sender and carries credentials for the sender's id |
| Turn.TurnCredentials | back/src/Services/SocketManager.ts:1007-1019 | the username is the decimal expiry, then ":", then the name; the password is the keyed hash of the username; the username reads back as the name and an expiry 4 hours after the issuing second (section 2.2 of draft-uberti-behave-turn-rest-00) |
| Turn.UsernameRoundTrip | back/src/Services/SocketManager.ts:1009 | `[expiry, name].join(":")` parses back to that expiry and name, whatever the name contains |
| Turn.OptionalCredentials | back/src/Services/SocketManager.ts:975-979 | credentials are attached iff the shared secret is non-empty |
| Turn.SameSecondSameCredentials | back/src/Services/SocketManager.ts:1008 | credentials depend on the clock only through the second it reads |
| Turn.DistinctNamesDistinctUsernames | back/src/Services/SocketManager.ts:1009 | different names never share a username |
| Decimal.DecimalRoundTrip | back/src/Services/SocketManager.ts:1009 | the decimal rendering of a number reads back as that number |
| Movement.HandleUserMoves | back/src/Services/SocketManager.ts:181-201 | shed iff overheating and the position is moving; otherwise a missing position or viewport is rejected; otherwise the position reaches the room |
| Movement.RestingUpdateNeverShed | back/src/Services/SocketManager.ts:185-199 | a well-formed update that is not moving always reaches the room |
| Movement.OnlyRestingPositionUnderLoad | back/src/Services/SocketManager.ts:185-188 | under load, a run of moving updates ending in a resting one applies exactly the resting position |
| Movement.NoSheddingWithoutLoad | back/src/Services/SocketManager.ts:185-199 | without load, every well-formed update is applied, in order |
| Meetings.ReleaseMeeting | back/src/Services/SocketManager.ts:304-310 | the room's meeting entry is dropped iff the leaving session owns it; other entries are kept |
| Meetings.ReuseIff | back/src/Services/SocketManager.ts:383-387 | a known meeting is reused iff it has an id and a link and has not ended (an unparsable end never ends) |
| Meetings.WebexSessionReply | back/src/Services/SocketManager.ts:372-451 | the reply is a response for the queried room with a non-empty link, or an error at the handler's location |
| Meetings.ReplyIff | back/src/Services/SocketManager.ts:387-439 | a link is returned iff the known meeting is reusable or the provider returned an id and a link; it is the stored SIP address or the new web link |
| ZoneEvents.ToProtoZone | back/src/Services/SocketManager.ts:955-963 | no zone gives no field; a zone keeps its coordinates |
| ZoneEvents.GroupUpdate | back/src/Services/SocketManager.ts:914-930 | a group update about that group, with its position, its size and its zone of origin |
| ZoneEvents.OnZoneEnter | back/src/Services/SocketManager.ts:849-876 | one payload to the listener, about the entering thing, a join or a group update, with the zone of origin |
| ZoneEvents.OnClientMove | back/src/Services/SocketManager.ts:878-895 | one payload: a user's own current position, or a group update without a zone of origin |
| ZoneEvents.OnClientLeave | back/src/Services/SocketManager.ts:897-905 | one payload to the listener, about the leaving thing, with its destination zone |
| ZoneEvents.SnapshotBatch | back/src/Services/SocketManager.ts:533-562 | one payload per thing, in order, about that thing: joins without a zone of origin for users, updates without a size or zone of origin for groups |
| Text.SplitJoin | pusher/src/Controller/WebexController.ts:30-33 | splitting a join of separator-free parts gives the parts back |
| Text.JoinSplit | back/src/Services/SocketManager.ts:1009 | joining a split gives the string back |
| Webex.FormatQuery | pusher/src/Controller/WebexController.ts:30-33 | the empty form, and only it, gives the empty string |
| Webex.UrlEncode | pusher/src/Controller/WebexController.ts:30-33 | an empty object, and only it, encodes to the empty string |
| Webex.UrlEncodeRoundTrip | pusher/src/Controller/WebexController.ts:30-33 | the callback's parser reads an encoded form back as its encoded pairs, in key order |
| Webex.FormatQueryRoundTrip | pusher/src/Controller/WebexController.ts:90-95 | parsing `k=v&…` with plain keys and values gives the map of those pairs, later keys winning |
| Webex.BuildMap | pusher/src/Controller/WebexController.ts:90-95 | a key is in the map iff some entry has it |
| Webex.LastWins | pusher/src/Controller/WebexController.ts:90-95 | a key maps to the value of its last entry |
| Webex.ParseFieldIgnoresRest | pusher/src/Controller/WebexController.ts:94 | the key is before the first `=`, the value runs up to a second `=`, and the rest is dropped |
| Webex.Configure | pusher/src/Controller/WebexController.ts:7-10 | an unset variable takes its default; a set one, even empty, is kept (`??`, not `||`) |
| Webex.AuthorizeStatePassesCallback | pusher/src/Controller/WebexController.ts:15-21 | the state the authorization URL sends passes the callback's state check |
| Webex.SelectError | pusher/src/Controller/WebexController.ts:97-105 | an `error` key's value comes first; otherwise a wrong state gives "Invalid state"; otherwise a missing code gives "No authorization code returned"; nothing otherwise |
| Webex.DecideCallback | pusher/src/Controller/WebexController.ts:107-114 | rejects iff the selected error is truthy; otherwise exchanges the query's code |
| Webex.ExchangeConditions | pusher/src/Controller/WebexController.ts:97-114 | as written, the exchange happens iff an `error` key is present but falsy, or there is no `error` key, the state is valid and a code is present |
| Webex.EmptyErrorSkipsStateCheck | pusher/src/Controller/WebexController.ts:99-110 | `error=&code=<c>` with no state reaches the exchange as written and is rejected by the checked decision |
| Webex.DecideCallbackChecked | pusher/src/Controller/WebexController.ts:97-110 | an exchange only with a valid state, a code and no truthy error |
| Webex.CheckedAgreesWithoutEmptyError | pusher/src/Controller/WebexController.ts:97-110 | the checked decision differs from the written one only on an empty or absent `error` value |
| Webex.AfterExchange | pusher/src/Controller/WebexController.ts:114-122 | once the token request settles: the token result's redirect, or the handler's failure status (503 in the callback, 502 in refresh) with the thrown message, or nothing once the client has gone |
| Webex.Callback | pusher/src/Controller/WebexController.ts:84-124 | a code is posted exactly when `error` is present with an empty or absent value, or absent with a valid state and a code; otherwise one 501 carrying the selected error and no post; after a post, what the exchange's outcome writes |
| Webex.CallbackExchangesOnEmptyError | pusher/src/Controller/WebexController.ts:99-114 | as written, `error=&code=<c>` without a state posts `c` and answers with the exchange's outcome |
| Webex.CallbackChecked | pusher/src/Controller/WebexController.ts:84-124 | with the checked decision, a code is posted only with a valid state and a code present; otherwise one 501 and no post |
| Webex.CallbackCheckedAgrees | pusher/src/Controller/WebexController.ts:99-110 | the checked callback behaves as written on every query without an empty or absent `error` value |
| Webex.Error | pusher/src/Controller/WebexController.ts:126-129 | the status and the message as body, no headers |
| Webex.Redirect | pusher/src/Controller/WebexController.ts:130-135 | 302 with one `Set-Cookie` per cookie in order, then `Location`, and an empty body |
| Webex.TokenResultRedirect | pusher/src/Controller/WebexController.ts:137-151 | a 302 to `tokenRedirectUri?…` carrying one http-only, lax `webex_refresh_token` cookie living as long as the refresh token; the query reads back the access token and its lifetime |
| Webex.TokenFormsCarryTheirToken | pusher/src/Controller/WebexController.ts:154-160 | the token-endpoint forms carry the authorization code or the refresh token they were given |
| Webex.Refresh | pusher/src/Controller/WebexController.ts:59-82 | as written: always posts the refresh form; without a token the first response is the 500 "No refresh token found"; unless aborted, the last response is the token result's redirect on success or a 502 with the thrown message |
| Webex.RefreshWithoutTokenAnswersTwice | pusher/src/Controller/WebexController.ts:67-81 | without a token and not aborted, the written handler answers twice |
| Webex.RefreshGuarded | pusher/src/Controller/WebexController.ts:59-82 | without a token, one 500 "No refresh token found" and no post; with one, the refresh post, then the token result's redirect on success, a 502 on failure, nothing if aborted |
| Webex.RefreshGuardedAgrees | pusher/src/Controller/WebexController.ts:59-82 | with a token the guarded handler is the written one; without, it writes exactly one response |
| Webex.Authorize | pusher/src/Controller/WebexController.ts:49-57 | takes the refresh path iff the cookie jar's refresh token is truthy, else redirects to the authorization URL |
| Webex.AuthorizeMatchesWrittenRefresh | pusher/src/Controller/WebexController.ts:49-57 | `authorize` calls refresh only with a token, where the written handler answers once; the direct refresh route (line 42) is not so guarded |

## Left out

- The room, zone and proximity-group engine (`GameRoom`, `Group`, `Zone`, `User` under back/src/Model) is not part of this model. A room is reduced to its sessions, admins and version. `Rooms.GameRoom.IsEmpty` is taken to mean "no session and no admin".
- The promises are not modelled as concurrency. Room creation is a pending slot plus explicit resolve and fail events. The admin operations do nothing on a room still loading (`AwaitingRoom`), where the source would wait for it.
- Handlers that wait for the Webex meeting provider, and the `fetchAccessToken`/`refreshAccessToken` HTTP posts, are given their outcome as a parameter. `HandleWebexSessionQuery` takes the provider outcome (`Meetings.MeetingCreation`) and `Callback`/`Refresh` take the token outcome (`Webex.Outcome`).
- Foreign functions are uninterpreted parameters: HMAC-SHA1 and base64, `encodeURIComponent` (only assumed to escape `&` and `=` and to be injective), `Date.parse`, and `cookie.parse`/`cookie.serialize` (a cookie is a value, the jar is the token it holds). Protobuf messages are plain datatypes.
- JWT and Jitsi token handling, `handleJoinRoom`/`joinRoom`, `emitScreenSharing` (the same shape as `emitVideo`), `emitPlayGlobalMessage`, `handleItemEvent`, `handleVariableEvent`, `handleSilentMessage`, emotes, `handlerSendUserMessage`, `handlerBanUserMessage` and its 10-second timer, `sendAdminRoomMessage`, `dispatchWorldFullWarning`, and the zone and room listener registration, apart from the snapshot batch of `addZoneListener`. They are outside the modelled core.
- Metrics, logging, `notifyNewMeetOnRoomJoin` and `notifyStopMeetOnRoomLeave`: these only log.
- Group positions are given as integers. The flooring of floating-point coordinates in `emitCreateUpdateGroupEvent` is not modelled.
- `Number.isInteger(thing.id)` in `onZoneEnter` cannot fail in the model, since ids are natural numbers.
- Exceptions thrown inside `leaveRoom` and `updateUserList` (a failing socket write) are not modelled: every write succeeds.
- The controller's route wiring in its constructor is not modelled. It registers `/webex` twice when the client id or secret is missing. pusher/src/Services/OpenIDClient.ts and pusher/src/App.ts are not part of this model.
- SocketManagerService.SocketManager.JoinWebRtcRoom: the source reads `Date.now()` once per credential (back/src/Services/SocketManager.ts:1008, reached at lines 976 and 990 for every pair); the model issues every credential of one call at a single `nowMs`, so two credentials of the same call never straddle a second boundary.
- SocketManagerService.SocketManager.EmitVideo: the same single `nowMs` stands for the clock read made while building the sender's credentials.
- SocketManagerService.SocketManager.LeaveRoom: `room.leave(user)` also runs the group and zone callbacks the room was built with (back/src/Services/SocketManager.ts:331-345), so in the source a leave also writes the WebRtcDisconnect messages of `disConnectedUser` (lines 1022-1053) and the zone listeners' leave batches. Those writes are outside this method's `sent` contract, which lists only the user-list broadcast.
- SocketManagerService.SocketManager.BanSessions: for the same reason, the disconnect and zone-leave writes each banned session's `room.leave` triggers are outside the `sent` contract, which lists only the ban notices and socket ends.
- SocketManagerService.SocketManager.BanUser: its `sent` contract, like that of `BanSessions`, leaves out the writes triggered through the room's group and zone callbacks.
- Rooms.GameRoom.Leave: writes nothing in the model; the room engine's callbacks (`DisconnectedUser`, `OnClientLeave`) that the source's `leave` fires are not invoked from it.
- Decimal.NatToDecimal: numbers are unbounded naturals rendered as plain digits. JavaScript numbers are doubles, and `String(n)` switches to exponential form from 1e21. The TURN expiry and the token lifetimes stay far below that.
- Rooms.GameRoom.IncrementVersion: back/src/Model/GameRoom.ts is not part of this model; the model assumes `incrementVersion()` returns the counter's new value, not the old one.
- ZoneEvents.GroupUpdate: the size is read as `group.getSize` at back/src/Services/SocketManager.ts:922, without a call; back/src/Model/Group.ts is not part of this model, and the model takes that expression to be the group's size.
- Turn.TurnCredentials: the base64 HMAC-SHA1 is uninterpreted. The contract ties the password to the username and secret, not to the digest's bytes.

## Findings

| source | as written | input that shows it | evidently intended | confidence | as-written member | corrected member |
|---|---|---|---|---|---|---|
| pusher/src/Controller/WebexController.ts:99-110 | an `error` key is selected with `has` but tested for truthiness, so an empty or absent `error` value skips the state and code checks and the callback goes on to the token exchange | query `error=&code=<c>` with no `state` | an exchange only for a valid state and a present code unless a non-empty error rejects first | medium, not executed | Webex.CallbackExchangesOnEmptyError | Webex.CallbackChecked |
| pusher/src/Controller/WebexController.ts:67-72 | after writing "No refresh token found" the handler does not return: it posts `refresh_token=undefined` and writes a second response to the same request | a request to the refresh route without a `webex_refresh_token` cookie, not aborted | return after the error response | high, not executed | Webex.RefreshWithoutTokenAnswersTwice | Webex.RefreshGuarded |
