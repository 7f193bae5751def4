# WebRTC signaling: relay registry and client negotiation bookkeeping

This project models the two stateful parts of a small WebRTC calling app and
proves properties of them in Dafny.

- **The relay** (`server/server.js`) is a socket.io server. It keeps a `users`
  object that maps a user id to a socket id. `register` binds an id.
  `disconnect` deletes the first id bound to the closing socket. `message`
  forwards a message to the socket of its `remoteUserId`, after overwriting
  `remoteUserId` with the sender's own id.
- **The client** (`src/app/webrtc.service.ts`) is `WebrtcService`. It keeps
  three tables keyed by remote user:
  - peer connections;
  - buffered ICE candidates;
  - remote streams.

  It also holds the local stream, the current room and an incoming-call flag.
  It reacts to `offer`, `answer`, `candidate`, `disconnect`, `user_joined`,
  `user_left` and `existing_users` messages. Candidates that arrive before a
  connection has its remote description are buffered, and are drained once the
  description is set: trickle ICE, as described in section 4 of RFC 8838. The
  model runs each handler to completion. Under that assumption the candidates
  are applied in arrival order; the code's own `async` handlers can reorder
  them (see "## Left out").

Files:

- `signal.dfy` (module `Signal`) holds the wire message. It is one flat
  record whose fields may each be absent (`None` stands for JavaScript
  `undefined`).
- `server.dfy` (module `Server`) models the relay.
  - The `users` object is a map plus the order in which `for...in` visits its
    keys. A new key is appended to that order; reassigning an existing key
    keeps its place.
  - Pure functions (`Register`, `Disconnected`, `Forwarded`) specify the
    handlers.
  - The class `RelayServer` runs the handlers in place, with the same
    `for...in`/`break` scans as loops.
- `webrtc.dfy` (module `Webrtc`) models the client.
  - `RTCPeerConnection` becomes a record. It holds a handle, the local stream
    whose tracks were added, the local and remote descriptions, and the
    candidates passed to `addIceCandidate`, in call order.
  - The tables become `map`s keyed by `Option<string>`. A JavaScript `Map`
    accepts `undefined` as a key, and the client does key entries that way
    (see below).
  - Pure per-peer functions (`ReceiveCandidate`, `Drain`, `RemoteDescribed`,
    `Answered`) specify the buffering. The class `WebrtcService` performs it
    in place.
  - Socket emits are appended to an `outbox`.
  - Browser outcomes are a `Browser` parameter: whether `getUserMedia`
    grants a stream, and what `createOffer`/`createAnswer` return.
- `interplay.dfy` (module `Interplay`) puts the two sides together.

### How the two sides disagree on the sender field

The relay writes the sender's id into `remoteUserId` (server/server.js:44).
The client reads the sender from `senderUserId` (src/app/webrtc.service.ts:105,
121, 130). No client ever fills in `senderUserId`. The model keeps both sides
as written, and the `Interplay` lemmas state the consequences:

- Every relayed offer, answer and candidate reaches the client's handlers
  with an absent sender. All of them are therefore keyed under `undefined`.
- Two different senders are indistinguishable to the recipient.
- The answer to a relayed offer is addressed to `undefined`. The relay then
  looks up the property `"undefined"`, so the answer is dropped unless some
  client registered under that literal name.

### Rooms and multiple ids per socket

- The client emits `join_room` and `leave_room` (src/app/webrtc.service.ts:161,
  186), but the server registers no handler for either event
  (server/server.js:15-49 handles only `register`, `disconnect` and `message`).
  The model therefore has no rooms.
- `register` binds whatever id it is sent to the calling socket
  (server/server.js:19), so one socket may bind several ids. `disconnect`
  removes only the first of them in visiting order (server/server.js:24-28), so
  the later ids stay bound to a closed socket (`Server.SecondIdOutlivesItsSocket`).
- `leave_room` is emitted only when the room id is truthy
  (src/app/webrtc.service.ts:185). An empty room id emits nothing and is kept.
- The server never emits `user_joined`, `user_left` or `existing_users`
  (server/server.js:15-49), and this client sends only `offer`, `answer` and
  `candidate` messages (src/app/webrtc.service.ts:65-67, 117, 217). So
  `handleUserJoined`, the only place an offer is created, runs only if some
  other client sends a `user_joined` message; two instances of this client on
  their own never start a negotiation.

### Error paths kept in the model

The model keeps the following error paths of the code:

- A missing `offer`, `answer` or `candidate` makes the `RTCSessionDescription`
  or `RTCIceCandidate` constructor throw. The handler then stops at that line.
- A rejected `getUserMedia` stops `createPeerConnection`. By then the new
  connection and its empty queue are already in place. The rejection also
  stops the handler or loop that awaited it.
- A message with no `users` field makes `for...of` throw before any change,
  which is the same as an empty list.

## Model

| member | source | states |
|---|---|---|
| Server.FirstBoundTo | server/server.js:24-28 | the index a `for...in` scan stops at holds an id bound to the socket, and no earlier id is bound to it; `None` only when no visited id is bound to it |
| Server.SenderOf | server/server.js:37-43 | the sender id found by the scan is bound to the sending socket and no earlier id is; for a well-formed table it is absent exactly when no id is bound to the socket |
| Server.PropertyKey | server/server.js:35 | a present id is its own property name; an absent `remoteUserId` is read as the property "undefined", so it collides exactly with a user registered under that literal name |
| Server.Register | server/server.js:18-21 | after `users[userId] = socket.id` the id maps to the socket, every other id keeps its binding, and the old visiting order is a prefix of the new one, at most one longer |
| Server.RegisterBinds | server/server.js:18-21 | `register` keeps the table well-formed, and the visiting order grows exactly when the id was new |
| Server.LastRegisterWins | server/server.js:18-21 | after a sequence of registrations an id is bound to the socket of its latest registration, or keeps its earlier binding if it never registered |
| Server.Disconnected | server/server.js:23-29 | `disconnect` only removes entries, never rebinds one, and keeps every id bound to another socket |
| Server.DisconnectRemovesFirstBinding | server/server.js:23-29 | disconnecting removes exactly the first id bound to the socket (one entry fewer) and leaves every other entry, including other ids bound to the same socket; the visiting order loses exactly that id and keeps the rest in order; with no id bound it changes nothing |
| Server.DisconnectOfUnboundSocketIsNoOp | server/server.js:23-29 | disconnecting a socket that no id is bound to leaves the table unchanged |
| Server.Forwarded | server/server.js:33-48 | a message is dropped if and only if its `remoteUserId` (read as a property name, `undefined` included) is not in the table; otherwise its one delivery goes to that id's socket and equals the inbound message except that `remoteUserId` is the sender's first id (absent if unregistered) |
| Server.SecondIdOutlivesItsSocket | server/server.js:18-29 | two ids registered from one socket: disconnecting it removes the first and leaves the second bound to the closed socket |
| Server.RelayServer.constructor | server/server.js:11 | the table starts empty and nothing has been sent |
| Server.RelayServer.OnRegister | server/server.js:18-21 | the table becomes `Register` of the old one and stays well-formed |
| Server.RelayServer.OnDisconnect | server/server.js:23-29 | the in-place scan with `break` leaves exactly `Disconnected` of the old table, and the table stays well-formed |
| Server.RelayServer.OnMessage | server/server.js:33-48 | the scan finds `SenderOf`; the outbox grows by exactly the deliveries of `Forwarded`, and the table is not modified |
| Webrtc.MediaConstraints | src/app/webrtc.service.ts:40-43 | audio is always requested; video exactly for a video call |
| Webrtc.Addressed | src/app/webrtc.service.ts:74-76 | the sent message carries the given `remoteUserId` and `candidate` and agrees with the original in every other field |
| Webrtc.ReceiveCandidate | src/app/webrtc.service.ts:129-138 | one candidate never creates or removes a connection or queue, changes nothing on the connection but its applied candidates, and, under the buffering discipline, is added after everything applied or buffered so far; with neither queue nor described connection it is dropped |
| Webrtc.CandidateAppliedOrQueued | src/app/webrtc.service.ts:129-138 | a candidate is applied at once when the sender's connection has a remote description, otherwise appended to the end of the sender's queue, otherwise dropped with nothing changed; the buffering discipline is preserved |
| Webrtc.Drain | src/app/webrtc.service.ts:140-151 | draining never creates or removes a connection or queue, changes nothing on the connection but its applied candidates, loses or duplicates no candidate (applied followed by queued is the same sequence before and after), and changes the slot only when a described connection has something buffered |
| Webrtc.DrainSettles | src/app/webrtc.service.ts:140-151 | draining twice is draining once; once the remote description is set one drain leaves the queue empty and the buffering discipline satisfied; before it is set draining changes nothing |
| Webrtc.RemoteDescribed | src/app/webrtc.service.ts:124-125 | the description is installed, nothing else on the connection but its applied candidates changes, and an existing queue is applied in order and emptied |
| Webrtc.RemoteDescriptionReleasesQueue | src/app/webrtc.service.ts:124-125 | setting the remote description and then draining applies everything buffered, in order, empties the queue and changes nothing else on the connection |
| Webrtc.Answered | src/app/webrtc.service.ts:113-116 | the offer becomes the remote and the answer the local description, the connection keeps its handle and tracks, and the queue exists afterwards exactly when it did before |
| Webrtc.OfferAnsweredReleasesQueue | src/app/webrtc.service.ts:113-116 | after the offer is handled, the connection has the offer as remote and the answer as local description, has applied its buffered candidates in order, has an empty queue, and keeps its handle and tracks |
| Webrtc.QueuedInArrivalOrder | src/app/webrtc.service.ts:136 | before the remote description, a run of candidates is appended to the queue in arrival order and nothing is applied |
| Webrtc.AppliedInArrivalOrder | src/app/webrtc.service.ts:133-134 | after the remote description, a run of candidates is applied in arrival order |
| Webrtc.DroppedWithoutQueue | src/app/webrtc.service.ts:136 | candidates for a peer with neither connection nor queue are all dropped |
| Webrtc.ReceiveAllKeepsConsistent | src/app/webrtc.service.ts:129-138 | any run of candidates preserves the buffering discipline |
| Webrtc.CandidatesKeepArrivalOrder | src/app/webrtc.service.ts:120-151 | for any consistent connection still waiting for its remote description (a fresh one, or the caller's holding its local offer after `handleUserJoined`), the candidates already buffered, those arriving before the description and those arriving after it all end up applied in arrival order; none stays buffered, the description is installed, and the local description and handle are kept |
| Webrtc.WebrtcService.constructor | src/app/webrtc.service.ts:11-25 | the empty user id, empty tables, no stream, no room and no incoming call |
| Webrtc.WebrtcService.CreatePeerConnection | src/app/webrtc.service.ts:27-72 | a fresh connection and an empty queue for the peer, discarding earlier buffered candidates; the stream is acquired only when none is held, with the mode's constraints; the remote stream and tracks are added only when a stream is held; other peers are untouched |
| Webrtc.WebrtcService.SendMessage | src/app/webrtc.service.ts:74-76 | one emit of the message with `remoteUserId` and `candidate` written over it |
| Webrtc.WebrtcService.OnIceCandidate | src/app/webrtc.service.ts:63-69 | a gathered candidate is sent to the peer; the end-of-candidates event sends nothing |
| Webrtc.WebrtcService.ProcessIceCandidateQueue | src/app/webrtc.service.ts:140-151 | the loop leaves the peer's slot equal to `Drain` of the old one and touches no other peer |
| Webrtc.WebrtcService.HandleCandidate | src/app/webrtc.service.ts:129-138 | the sender's slot becomes `ReceiveCandidate` of the old one (unchanged when the candidate is missing); no other peer changes |
| Webrtc.WebrtcService.HandleAnswer | src/app/webrtc.service.ts:120-127 | for a known sender with an answer, its slot becomes `RemoteDescribed`; otherwise nothing changes |
| Webrtc.WebrtcService.AnswerOffer | src/app/webrtc.service.ts:113-117 | the sender's slot becomes `Answered` of the old one and exactly one answer is sent to the sender |
| Webrtc.WebrtcService.HandleOffer | src/app/webrtc.service.ts:104-118 | the incoming-call flag is raised; a connection is created only if none exists; for a new sender a local stream already held is kept, otherwise one is acquired with video constraints iff the browser grants it, and the sender gets a remote-stream entry iff a stream is available; for a known sender the stream, remote streams and handles are untouched; if the stream is available and an offer is present, the slot becomes `Answered` and one answer goes to the sender, otherwise nothing is sent |
| Webrtc.WebrtcService.HandleUserJoined | src/app/webrtc.service.ts:209-218 | a fresh connection for the newcomer, carrying the local stream's tracks iff a stream is available; the stream is acquired with video constraints only if none is held, and the newcomer gets a remote-stream entry iff a stream is available; if so, the offer becomes its local description and exactly one offer is sent to the newcomer |
| Webrtc.WebrtcService.HandleUserLeft | src/app/webrtc.service.ts:220-232 | if a connection exists for the peer, it is closed and the peer is removed from all three tables; otherwise nothing changes |
| Webrtc.WebrtcService.HandleExistingUsers | src/app/webrtc.service.ts:234-242 | every listed member gets a fresh, unnegotiated connection and nothing is offered; a refused stream stops after the first member |
| Webrtc.WebrtcService.InitializeSocket | src/app/webrtc.service.ts:153-157 | `register` is emitted only for a non-empty id on a disconnected socket |
| Webrtc.WebrtcService.Call | src/app/webrtc.service.ts:159-172 | the room is recorded and `join_room` is emitted; the stream is acquired only if none is held, with the mode's constraints |
| Webrtc.WebrtcService.Disconnect | src/app/webrtc.service.ts:174-191 | the stream is stopped and cleared, every connection is closed and all three tables are emptied, the incoming-call flag drops, and `leave_room` is emitted (and the room cleared) only for a non-empty room |
| Webrtc.WebrtcService.HandleDisconnect | src/app/webrtc.service.ts:193-207 | with exactly one peer, the same teardown without leaving the room; otherwise nothing changes |
| Webrtc.WebrtcService.HandleMessage | src/app/webrtc.service.ts:78-102 | an unknown `type` changes nothing; only an offer raises and only a `disconnect` lowers the incoming-call flag; the user id and room never change |
| Interplay.SendMessageOmitsSender | src/app/webrtc.service.ts:74-76 | `sendMessage` leaves `senderUserId` as the message had it, so none of the client's messages, which are all built from a bare `type`, ever carries one |
| Interplay.RelayedMessageArrivesWithoutSender | server/server.js:44 | a relayed client message arrives at the recipient's socket with the sender's id in `remoteUserId` and no `senderUserId` |
| Interplay.DistinctSendersShareOneKey | src/app/webrtc.service.ts:105 | two different registered senders arrive with different `remoteUserId` but the same absent `senderUserId`, which is the key the client's handlers use |
| Interplay.ReplyToRelayedMessageIsAddressedToUndefined | src/app/webrtc.service.ts:117 | the reply to a relayed message is addressed to `undefined`; the relay drops it if and only if no client registered as "undefined" |

## Left out

- The socket.io transport, express static serving and `http.listen`. Emits are appended to an outbox; receiving is a method call.
- Async interleaving between handlers. Each handler runs to completion; browser promises resolve or reject as the `Browser` parameter says.
- `getUserMedia`, `createOffer`, `createAnswer`, `addTrack` and track contents. A stream is a handle with its constraints, tracks are the handle of the stream they came from, and SDP and candidates are opaque strings. The browser's own rejection of a description or candidate is not modelled: neither a malformed one nor one the connection's signalling state forbids. For example, `HandleAnswer` installs an answer even on a connection that never set a local offer, which is the case for a relayed answer keyed under `undefined`; a browser would reject that `setRemoteDescription`.
- The `ontrack` callback (lines 57-61): it fills the remote stream with tracks, which the model does not represent.
- rxjs `BehaviorSubject`s: each holds its current value as a plain field; subscribers are not modelled.
- `console.log` output.
- JavaScript property-order rules for integer-like keys (which `for...in` visits first, in numeric order) and inherited prototype properties of `users`. The model visits keys in insertion order.
- Webrtc.CandidatesKeepArrivalOrder: the arrival order holds only because the model runs each handler to completion. In the code `processIceCandidateQueue` is called without `await` (src/app/webrtc.service.ts:114, 125) and awaits every `addIceCandidate` (lines 144-148). With queue [c1, c2], the drain calls `addIceCandidate(c1)` and suspends; a `candidate` message for c3 then finds the remote description set and calls `addIceCandidate(c3)` (line 134) before c2, so the call order is c1, c3, c2. The same interleaving limits `Webrtc.AppliedInArrivalOrder`, `Webrtc.RemoteDescriptionReleasesQueue` and `Webrtc.WebrtcService.ProcessIceCandidateQueue`.
- Webrtc.WebrtcService.ProcessIceCandidateQueue: the loop shifts a local copy of the queue and adds to a local copy of the connection record, and writes both back to the tables once after the loop. The code mutates the shared queue array and the connection object on every iteration. The intermediate states differ, but they are visible only to a handler interleaved with the drain, which the model does not run.
- Webrtc.WebrtcService.CreatePeerConnection: a connection it replaces is not closed, as in the code. It stays open and the model only tracks it through its handle.
- Webrtc.WebrtcService.HandleExistingUsers: does not state the local stream, remote streams or handles after the loop, only the connections and queues.
- Webrtc.WebrtcService.HandleMessage: states the dispatch only through the flags and tables it keeps valid; each handler's own contract holds for its case.
- The UI pages, the app component and the packaging config are not part of this model.
