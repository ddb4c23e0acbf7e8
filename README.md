# Signaling relay of a two-party video-calling application

This project models the signaling core of a small video-calling application in
Dafny and proves properties of that model. The application has a Node server and
a browser client.

The server keeps a presence registry, `onlineUsers`, that maps a user handle to
the socket id of a connected receiver. It relays call set-up messages between
sockets:

- `receiver-join` registers a handle, but only when a JWT verifies for that very
  handle.
- `call-user` looks a handle up. It either invites the bound socket or tells the
  caller the receiver is offline.
- `accept-call`, `reject-call`, `offer`, `answer` and `ice-candidate` are
  forwarded to whatever socket id the sender names.
- `disconnect` deletes the registry entry of the socket's handle.

The browser client works out from its URL whether it is a receiver page or a
caller page, and which user id it is about. It keeps `otherSocketId` up to date
as signaling messages arrive, and addresses its own messages with it.

## Files

- `protocol.dfy` (module `Protocol`): the message vocabulary. It holds the
  inbound `Event`s, the emitted `Message`s, the outbox entry `Emit`, `Token` and
  `Option`.
- `server.dfy` (module `Server`):
  - `Handle` is a pure function that says what one handler run does to the
    registry, to the socket's `userId` field and to the outbox.
  - The classes `Socket` and `SignalingServer` perform the same handlers in
    place, one method per `socket.on` handler.
  - Each method is proved to agree with `Handle` (the two-state predicate
    `Handled`). Each method also states the new state outright.
- `relay_traces.dfy` (module `Relay`): the server over a whole run. A run is a
  sequence of deliveries (socket, event), and every handler runs to completion,
  as Node runs them. The lemmas here relate many handler runs.
- `url.dfy` (module `Url`): the pure URL derivation of the client: `currentPath`,
  `split("/")`, the last piece, `startsWith`.
- `client.dfy` (module `Client`): the client's signaling handlers as a class. Its
  fields are `otherSocketId`, whether `localStream` and `pc` are set, whether
  `pc.onicecandidate` is installed, and the messages sent so far.

`jwt.verify` is modelled by `Server.VerifyToken`:

- A `null` token fails, as `jsonwebtoken` rejects a missing token.
- A string token goes to an opaque `verifier: string -> Option<UserId>`. The
  verifier is a constant of the server. It stands for the signature, expiry and
  payload checks, and for reading `decoded.userId`.

JavaScript truthiness is written out:

- `if (onlineUsers[to])` means "bound to a non-empty id".
- `if (socket.userId)` means "set and not the empty string".

## What the proofs show

- A registry binding exists only when some socket, in a verified join, claimed
  that handle. `Relay.BindingsComeFromVerifiedJoins` proves this. A failed join
  changes nothing and emits nothing.
- Only `receiver-join` and `disconnect` change the registry
  (`Server.Handle`, `Relay.OnlyJoinAndDisconnectChangeRegistry`).
- Every other event emits exactly one message, and the outbox only grows
  (`Relay.OutboxOnlyGrows`).
- The client always joins with `token: null` (public/app.js:48-51). On any
  run whose every `receiver-join` carries a `null` token, such as any
  interleaving of messages sent by this client, no handle is ever registered,
  and every `call-user`, at any point, is answered with `receiver-offline`
  (`Client.ReceiverPageJoinIsIgnored`, `Client.ClientTracesJoinWithNullTokens`,
  `Client.ClientReceiversAreNeverReachable`,
  `Relay.NullTokenReceiversAreNeverReachable`). A join that carries a token
  signed by `/login` (server.js:65-69) does register, so a different client can
  still be reached.
- `disconnect` deletes the socket's handle even after a newer socket has
  re-registered it. The newer socket, still connected, then becomes unreachable
  (`Relay.StaleDisconnectEvictsNewerRegistration`).
- A handle `""` that got registered is never removed. `if (socket.userId)`
  treats it as unset (`Server.DisconnectWithoutHandleIsNoOp`).
- The links that `/login` hands out, `/receiver/<id>` and `/call/<id>`, read
  back as the right page kind and the same id. This holds when the id is
  non-empty and contains no `/` (`Url.LinksRoundTrip`), and the pathname
  holds the link's characters as they are. An id is `name.toLowerCase()` plus
  a number, so a name containing `/` gives a link whose last piece is not the
  id.

The model follows server.js as written. In particular, server.js has none of
the following, so the model has none of them either:

- an unregister that spares a newer registration of the same handle;
- per-connection pairing state;
- a check that relayed messages go only between paired peers;
- `peer-disconnected` or `call-ended` notices;
- replies telling a receiver its join failed.

## Model

| member | source | states |
|---|---|---|
| `Server.VerifyToken` | server.js:96 | a `null` token never verifies; a string token verifies to whatever the opaque verifier decodes |
| `Server.JoinAccepted` | server.js:96-98 | a join passes both guards only with a string token that the verifier decodes to the very handle claimed; a `null` token never passes |
| `Server.Truthy` | server.js:111 | a string id is truthy exactly when it is non-empty |
| `Server.Handle` | server.js:94-146 | every binding afterwards is an old one or the verified handle bound to the sender; a handle is removed only by its own socket's `disconnect`; `socket.userId` changes only by a successful join, to the joined handle; registry events emit nothing and every other event exactly one message |
| `Server.JoinBindsHandle` | server.js:96-101 | a verified join binds the handle to the joining socket, overwriting any earlier binding, adds no other key, keeps every other binding, sets `socket.userId`, emits nothing |
| `Server.RejectedJoinChangesNothing` | server.js:96-107 | a token that fails or asserts another handle leaves registry and `socket.userId` unchanged and emits nothing |
| `Server.CallUserRoutes` | server.js:110-118 | exactly one message: `incoming-call` carrying the caller's id to the bound socket when the handle is bound, `receiver-offline` to the caller exactly when it is not; registry unchanged |
| `Server.ForwardersRelayVerbatim` | server.js:120-140 | each forwarder emits one message to the named socket id with the payload unchanged, `from` only on `offer`, the accepter's id only on `call-accepted`, no registry check, no state change |
| `Server.DisconnectEvictsWhateverIsBound` | server.js:142-146 | `disconnect` removes the socket's handle even when it is now bound to a different socket |
| `Server.DisconnectWithoutHandleIsNoOp` | server.js:142-146 | `disconnect` of a socket without a (truthy) `userId` changes nothing and emits nothing |
| `Server.Socket.constructor` | server.js:92 | a new connection has its transport-assigned id and no `userId` |
| `Server.SignalingServer.constructor` | server.js:90 | the registry starts empty and nothing has been emitted |
| `Server.SignalingServer.ReceiverJoin` | server.js:94-108 | on a token verifying for `userId`, `onlineUsers[userId] := socket.id` and `socket.userId := userId`; otherwise no change; never emits; agrees with `Handle` |
| `Server.SignalingServer.CallUser` | server.js:110-118 | appends `incoming-call` to the bound socket, or `receiver-offline` to the caller; agrees with `Handle` |
| `Server.SignalingServer.AcceptCall` | server.js:120-124 | appends one `call-accepted` to the caller id carrying the accepter's id |
| `Server.SignalingServer.RejectCall` | server.js:126-128 | appends one `call-rejected` to the caller id |
| `Server.SignalingServer.Offer` | server.js:130-132 | appends the offer to `to`, adding `from = socket.id` |
| `Server.SignalingServer.Answer` | server.js:134-136 | appends the answer to `to`, with no sender field |
| `Server.SignalingServer.IceCandidate` | server.js:138-140 | appends the candidate to `to`, with no sender field |
| `Server.SignalingServer.Disconnect` | server.js:142-146 | deletes the entry of a truthy `socket.userId`, whichever socket it names; otherwise no change |
| `Server.SignalingServer.Deliver` | server.js:92-147 | dispatching any event keeps the registry's ids assigned and has exactly the effect `Handle` describes |
| `Relay.BindingsComeFromVerifiedJoins` | server.js:94-146 | after any run, every registry binding was there at the start or was made by a verified join of that handle from that socket |
| `Relay.NoVerifiedJoinWithNullTokens` | server.js:96-98 | a run whose joins all carry `null` tokens contains no verified join |
| `Relay.NullTokenReceiversAreNeverReachable` | server.js:94-118 | from the initial state, with only `null`-token joins, the registry stays empty and every `call-user` is answered with one `receiver-offline` to the caller |
| `Relay.OnlyJoinAndDisconnectChangeRegistry` | server.js:94-146 | a run with no `receiver-join` and no `disconnect` leaves `onlineUsers` as it was |
| `Relay.OutboxOnlyGrows` | server.js:110-140 | earlier messages stay in order, and the outbox grows by one message per event other than the two registry events |
| `Relay.StaleDisconnectEvictsNewerRegistration` | server.js:94-146 | after two sockets join the same handle, lookups reach the second; when the first disconnects the handle is gone although the second still claims it, and a call to it gets `receiver-offline` |
| `Url.CurrentPath` | public/app.js:14 | the pathname with at most one trailing `/` removed; one is removed exactly when the pathname ends with `/` |
| `Url.TrimUndoesTrailingSlash` | public/app.js:14 | trimming undoes appending one `/`, and leaves a path not ending in `/` unchanged |
| `Url.Split` | public/app.js:15 | at least one piece, and no piece contains the separator |
| `Url.JoinSplit` | public/app.js:15 | joining the pieces with the separator gives back the original string |
| `Url.LastPieceIsSuffix` | public/app.js:15-16 | the last piece is a suffix of the string that is the whole string or follows a separator |
| `Url.TextAfterLastSlashIsUnique` | public/app.js:16 | those conditions single out one suffix |
| `Url.UserIdFromUrl` | public/app.js:14-16 | the user id contains no `/` and is exactly the text after the last `/` of the current path |
| `Url.StartsWith` | public/app.js:18-19 | `startsWith` holds exactly when the prefix fits and agrees with the string character by character |
| `Url.IsReceiverPage` | public/app.js:14-18 | a receiver page is a pathname starting with `/receiver/` other than `/receiver/` itself |
| `Url.IsCallerPage` | public/app.js:14-19 | a caller page is a pathname starting with `/call/` other than `/call/` itself |
| `Url.PageKindsAreExclusive` | public/app.js:18-19 | no path is both a receiver page and a caller page |
| `Url.LinksRoundTrip` | public/app.js:14-19 | `/receiver/<id>` and `/call/<id>`, with or without a trailing `/`, give the right page kind and the same id |
| `Url.DoubleSlashGivesEmptyId` | public/app.js:14-19 | `/receiver//` is a receiver page whose user id is empty |
| `Client.AsEvent` | public/app.js:48-51 | each message reaches the server as the matching event with its fields unchanged (join, call, accept, reject, offer, answer, candidate); a peer-addressed message becomes a server event exactly when its target is not `null` |
| `Client.ReceiverPageJoinIsIgnored` | public/app.js:44-51 | the server handles a receiver page's join as a no-op: no binding, no `userId`, no reply |
| `Client.ClientTracesJoinWithNullTokens` | public/app.js:48-51 | any server trace made of messages from clients that join only with `null` tokens has only `null`-token joins |
| `Client.ClientReceiversAreNeverReachable` | public/app.js:48-51 | on such a trace the registry stays empty and every `call-user` is answered with `receiver-offline` |
| `Client.Client.constructor` | public/app.js:8-10 | `pc`, `localStream` and `otherSocketId` start out `null`, no candidate handler, nothing sent |
| `Client.Client.OnConnect` | public/app.js:40-55 | sends `receiver-join` with the URL's user id and a `null` token exactly on a receiver page with a non-empty id |
| `Client.Client.InitMedia` | public/app.js:59-82 | a stream is held afterwards exactly when one was held before or the camera was granted; with one held, nothing changes |
| `Client.Client.CreatePeer` | public/app.js:86-123 | `pc` is set afterwards; the call fails exactly when `pc` was unset and there is no local stream; the candidate handler is installed only by a call that makes `pc` and does not fail |
| `Client.Client.StartCall` | public/app.js:127-139 | sends `call-user` to the URL's user id only on a caller page with a non-empty id, otherwise does nothing |
| `Client.Client.OnIncomingCall` | public/app.js:156-168 | `otherSocketId := callerSocketId` |
| `Client.Client.AcceptCall` | public/app.js:172-186 | sends `accept-call` addressed to the current `otherSocketId` |
| `Client.Client.RejectCall` | public/app.js:260-268 | sends `reject-call` addressed to the current `otherSocketId` |
| `Client.Client.OnCallAccepted` | public/app.js:190-207 | `otherSocketId := receiverSocketId`, unless another handler overwrote it while this one was suspended; sends the offer to `otherSocketId` as it is at the emit, unless `createPeer` throws |
| `Client.Client.OnOffer` | public/app.js:211-230 | `otherSocketId := from`, unless another handler overwrote it while this one was suspended; sends the answer to `otherSocketId` as it is at the emit, unless `createPeer` throws |
| `Client.Client.OnLocalIceCandidate` | public/app.js:108-117 | once `createPeer` has installed the handler, a gathered candidate is sent to the current `otherSocketId`; the end-of-candidates event, or no handler, sends nothing |

## Left out

- HTTP routes `/register`, `/login`, `/receiver/:id` and `/call/:id` (server.js:29-86) are not modelled. They cover MongoDB storage, bcrypt hashing, JWT signing, `Math.random` user ids and static files. The link format `/login` returns appears only in `Url.LinksRoundTrip`.
- The internals of `jwt.verify` (signature, expiry against the clock, payload shape) are behind the opaque `verifier`. Only the `null` token case is fixed.
- The socket.io transport is reduced to an outbox of (target socket id, message). Rooms, delivery, and emits to ids that are no longer connected are not modelled.
- Plain-object quirks of `onlineUsers`, such as the inherited key `"toString"` reading as bound, are not modelled. The registry is a clean map.
- Inbound payload fields are modelled as strings. Missing or non-string fields, such as `userId: undefined`, are not represented.
- A client message with a `null` target, such as `acceptCall` before any `incoming-call`, has no server-side counterpart (`Client.AsEvent` gives None). What `io.to(null)` would do is not modelled.
- Start-up, environment and configuration (server.js:16-25, 151-155) and all `console.log` calls are not modelled.
- WebRTC and media are not modelled: `getUserMedia`, `RTCPeerConnection`, SDP and ICE handling, `ontrack`, and the ICE server list. Offers, answers and camera permission enter the client methods as parameters. The `answer` and `ice-candidate` receive handlers (public/app.js:234-256) only feed `pc`, so they change no signaling state and are not modelled.
- Client.OnOffer: a failure of `setRemoteDescription` or `createAnswer` is not modelled. Such a failure would stop the handler before the answer is sent.
- Client.OnCallAccepted: a failure of `createOffer` or `setLocalDescription` is not modelled. Such a failure would stop the handler before the offer is sent.
- Client.OnCallAccepted: of what another handler can do while this one waits, only an overwrite of `otherSocketId` is modelled (parameter `meanwhile`, the last id another handler stored before the emit). A handler that creates `pc` or sets `localStream` in between is not.
- Client.OnOffer: as for `Client.OnCallAccepted`, only an overwrite of `otherSocketId` by another handler is modelled.
- The browser's handling of `window.location.pathname` is not modelled: percent-encoding, the split-off query and fragment, and other URL normalisation. `Url` works on the pathname string as given.
- Client.InitMedia: the await in `initMedia` lets two concurrent calls both pass the `localStream` guard. Each client handler is modelled as running to completion, so that interleaving is not captured.
- The DOM is not modelled: buttons, video elements, and the one-shot click listener that starts a call on a caller page (public/app.js:143-152).
- The client has no handlers for `receiver-offline` or `call-rejected`, so there is nothing of them to model.
