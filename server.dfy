/** The socket handlers of the signaling server: the `onlineUsers` presence
    registry, registration of a receiver, lookup-and-invite, the stateless
    forwarders and the cleanup on disconnect.

    `Handle` states what one event does to the registry, to the sending socket's
    `userId` field and to the outbox; `SignalingServer` performs the same events
    in place, one method per handler, and each method is proved to agree with
    `Handle`. */
module Server {
  import opened Protocol

  /** `jwt.verify(token, JWT_SECRET)` followed by reading `decoded.userId`.
      The signature check itself is the opaque `verifier`; a `null` token makes
      `jwt.verify` throw, which is `None` here, like any other failure. */
  function VerifyToken(verifier: string -> Option<UserId>, token: Token): (decoded: Option<UserId>)
    ensures token == NullToken ==> decoded == None
    ensures token.Jwt? ==> decoded == verifier(token.compact)
  {
    match token
    case NullToken => None
    case Jwt(compact) => verifier(compact)
  }

  /** A `receiver-join` that gets past both guards: the token verifies and
      asserts the very handle the socket claims. */
  predicate JoinAccepted(verifier: string -> Option<UserId>, e: Event)
    ensures JoinAccepted(verifier, e) ==> e.ReceiverJoin? && e.token.Jwt? && verifier(e.token.compact) == Some(e.userId)
    ensures e.ReceiverJoin? && e.token == NullToken ==> !JoinAccepted(verifier, e)
  {
    e.ReceiverJoin? && VerifyToken(verifier, e.token) == Some(e.userId)
  }

  /** JavaScript truthiness of a string: only the empty string is falsy. */
  predicate Truthy(s: string)
    ensures Truthy(s) <==> |s| > 0
  {
    s != ""
  }

  /** What one handler run leaves behind: the registry, the socket's `userId`
      field, and the messages emitted, in order. */
  datatype Effect = Effect(onlineUsers: map<UserId, SocketId>, userId: Option<UserId>, emitted: seq<Emit>)

  /** The handler for event `e` sent by socket `self`, whose `userId` field is
      `selfUser`, run to completion against registry `onlineUsers`. */
  function Handle(verifier: string -> Option<UserId>, onlineUsers: map<UserId, SocketId>,
                  self: SocketId, selfUser: Option<UserId>, e: Event): (r: Effect)
    // every binding afterwards was there before, or is the verified handle bound to `self`
    ensures forall u | u in r.onlineUsers ::
              (u in onlineUsers && r.onlineUsers[u] == onlineUsers[u])
              || (JoinAccepted(verifier, e) && u == e.userId && r.onlineUsers[u] == self)
    // a handle disappears only when its own socket's `userId` names it and that socket disconnects
    ensures forall u | u in onlineUsers && u !in r.onlineUsers :: e == Disconnect && selfUser == Some(u)
    // `socket.userId` changes only by a successful join, and to the joined handle
    ensures r.userId != selfUser ==> JoinAccepted(verifier, e) && r.userId == Some(e.userId)
    // registry events emit nothing; every other event emits exactly one message
    ensures |r.emitted| == if e.ReceiverJoin? || e == Disconnect then 0 else 1
  {
    match e
    case ReceiverJoin(userId, token) =>
      var decoded := VerifyToken(verifier, token);
      if decoded.None? then Effect(onlineUsers, selfUser, [])          // jwt.verify threw
      else if decoded.value != userId then Effect(onlineUsers, selfUser, [])
      else Effect(onlineUsers[userId := self], Some(userId), [])
    case CallUser(to) =>
      if to in onlineUsers && Truthy(onlineUsers[to])
      then Effect(onlineUsers, selfUser, [Emit(onlineUsers[to], IncomingCall(self))])
      else Effect(onlineUsers, selfUser, [Emit(self, ReceiverOffline)])
    case AcceptCall(callerSocketId) =>
      Effect(onlineUsers, selfUser, [Emit(callerSocketId, CallAccepted(self))])
    case RejectCall(callerSocketId) =>
      Effect(onlineUsers, selfUser, [Emit(callerSocketId, CallRejected)])
    case SendOffer(to, offer) =>
      Effect(onlineUsers, selfUser, [Emit(to, Offer(offer, self))])
    case SendAnswer(to, answer) =>
      Effect(onlineUsers, selfUser, [Emit(to, Answer(answer))])
    case SendIceCandidate(to, candidate) =>
      Effect(onlineUsers, selfUser, [Emit(to, IceCandidate(candidate))])
    case Disconnect =>
      if selfUser.Some? && Truthy(selfUser.value)
      then Effect(onlineUsers - {selfUser.value}, selfUser, [])
      else Effect(onlineUsers, selfUser, [])
  }

  /** A registry in which every bound socket id is truthy; the transport never
      assigns an empty id, so every registry the server builds is one. */
  predicate IdsAssigned(onlineUsers: map<UserId, SocketId>)
  {
    forall u | u in onlineUsers :: onlineUsers[u] != ""
  }

  /** A successful join binds the handle to the joining socket, overwriting any
      earlier binding, leaves every other handle as it was, and emits nothing. */
  lemma JoinBindsHandle(verifier: string -> Option<UserId>, onlineUsers: map<UserId, SocketId>,
                        self: SocketId, selfUser: Option<UserId>, userId: UserId, token: Token)
    requires VerifyToken(verifier, token) == Some(userId)
    ensures var r := Handle(verifier, onlineUsers, self, selfUser, ReceiverJoin(userId, token));
      && userId in r.onlineUsers && r.onlineUsers[userId] == self
      && r.onlineUsers.Keys == onlineUsers.Keys + {userId}
      && (forall u | u in onlineUsers && u != userId :: r.onlineUsers[u] == onlineUsers[u])
      && r.userId == Some(userId)
      && r.emitted == []
  {
  }

  /** A join whose token does not verify, or verifies for another handle,
      changes nothing and tells nobody. */
  lemma RejectedJoinChangesNothing(verifier: string -> Option<UserId>, onlineUsers: map<UserId, SocketId>,
                                   self: SocketId, selfUser: Option<UserId>, userId: UserId, token: Token)
    requires VerifyToken(verifier, token) != Some(userId)
    ensures Handle(verifier, onlineUsers, self, selfUser, ReceiverJoin(userId, token)) == Effect(onlineUsers, selfUser, [])
  {
  }

  /** `call-user` invites the bound socket, carrying the caller's own id, exactly
      when the handle is bound, and otherwise tells the caller the receiver is
      offline; the registry is left alone either way. */
  lemma CallUserRoutes(verifier: string -> Option<UserId>, onlineUsers: map<UserId, SocketId>,
                       self: SocketId, selfUser: Option<UserId>, to: UserId)
    requires IdsAssigned(onlineUsers)
    ensures var r := Handle(verifier, onlineUsers, self, selfUser, CallUser(to));
      && r.onlineUsers == onlineUsers && r.userId == selfUser
      && |r.emitted| == 1
      && (to in onlineUsers ==> r.emitted[0] == Emit(onlineUsers[to], IncomingCall(self)))
      && (to !in onlineUsers <==> r.emitted[0] == Emit(self, ReceiverOffline))
  {
  }

  /** The five forwarders send exactly one message, to whatever socket id the
      sender named, with the payload unchanged; only `offer` and `accept-call`
      add the sender's id. No forwarder consults the registry. */
  lemma ForwardersRelayVerbatim(verifier: string -> Option<UserId>, onlineUsers: map<UserId, SocketId>,
                                self: SocketId, selfUser: Option<UserId>, to: SocketId, p: Payload)
    ensures Handle(verifier, onlineUsers, self, selfUser, AcceptCall(to)) == Effect(onlineUsers, selfUser, [Emit(to, CallAccepted(self))])
    ensures Handle(verifier, onlineUsers, self, selfUser, RejectCall(to)) == Effect(onlineUsers, selfUser, [Emit(to, CallRejected)])
    ensures Handle(verifier, onlineUsers, self, selfUser, SendOffer(to, p)) == Effect(onlineUsers, selfUser, [Emit(to, Offer(p, self))])
    ensures Handle(verifier, onlineUsers, self, selfUser, SendAnswer(to, p)) == Effect(onlineUsers, selfUser, [Emit(to, Answer(p))])
    ensures Handle(verifier, onlineUsers, self, selfUser, SendIceCandidate(to, p)) == Effect(onlineUsers, selfUser, [Emit(to, IceCandidate(p))])
  {
  }

  /** `disconnect` deletes the entry of the socket's own handle even when that
      entry now names a different, newer socket. */
  lemma DisconnectEvictsWhateverIsBound(verifier: string -> Option<UserId>, onlineUsers: map<UserId, SocketId>,
                                        self: SocketId, userId: UserId)
    requires userId != ""
    requires userId in onlineUsers && onlineUsers[userId] != self
    ensures userId !in Handle(verifier, onlineUsers, self, Some(userId), Disconnect).onlineUsers
  {
  }

  /** `disconnect` of a socket that never joined leaves the registry alone; nor
      does it remove the handle "", which `if (socket.userId)` treats as unset. */
  lemma DisconnectWithoutHandleIsNoOp(verifier: string -> Option<UserId>, onlineUsers: map<UserId, SocketId>,
                                      self: SocketId, selfUser: Option<UserId>)
    requires selfUser == None || selfUser == Some("")
    ensures Handle(verifier, onlineUsers, self, selfUser, Disconnect) == Effect(onlineUsers, selfUser, [])
  {
  }

  /** The server-side socket object; `userId` is the field `receiver-join` sets. */
  class Socket {
    const id: SocketId
    var userId: Option<UserId>

    constructor (id: SocketId)
      requires id != ""
      ensures this.id == id && userId == None
    {
      this.id := id;
      userId := None;
    }
  }

  /** The process-wide state of the signaling server: the `onlineUsers` registry
      and, standing for the transport, the messages emitted so far. */
  class SignalingServer {
    const verifier: string -> Option<UserId>
    var onlineUsers: map<UserId, SocketId>
    var outbox: seq<Emit>

    ghost predicate Valid()
      reads this
    {
      IdsAssigned(onlineUsers)
    }

    /** The state change of one handler run for `socket` is the one `Handle` describes. */
    twostate predicate Handled(socket: Socket, e: Event)
      reads this, socket
    {
      var r := Handle(verifier, old(onlineUsers), socket.id, old(socket.userId), e);
      onlineUsers == r.onlineUsers && socket.userId == r.userId && outbox == old(outbox) + r.emitted
    }

    constructor (verifier: string -> Option<UserId>)
      ensures Valid() && this.verifier == verifier
      ensures onlineUsers == map[] && outbox == []
    {
      this.verifier := verifier;
      onlineUsers := map[];
      outbox := [];
    }

    /** `receiver-join`: bind `userId` to this socket when the token verifies for it. */
    method ReceiverJoin(socket: Socket, userId: UserId, token: Token)
      requires Valid() && socket.id != ""
      modifies this, socket
      ensures Valid() && Handled(socket, Event.ReceiverJoin(userId, token))
      ensures VerifyToken(verifier, token) == Some(userId) ==>
                onlineUsers == old(onlineUsers)[userId := socket.id] && socket.userId == Some(userId)
      ensures VerifyToken(verifier, token) != Some(userId) ==>
                onlineUsers == old(onlineUsers) && socket.userId == old(socket.userId)
      ensures outbox == old(outbox)
    {
      var decoded := VerifyToken(verifier, token);
      if decoded.None? {
        return;  // jwt.verify threw; the handler only logs
      }
      if decoded.value != userId {
        return;
      }
      onlineUsers := onlineUsers[userId := socket.id];
      socket.userId := Some(userId);
    }

    /** `call-user`: invite the socket bound to `to`, or tell the caller it is offline. */
    method CallUser(socket: Socket, to: UserId)
      requires Valid()
      modifies this`outbox
      ensures Valid() && Handled(socket, Event.CallUser(to))
      ensures to in onlineUsers ==> outbox == old(outbox) + [Emit(onlineUsers[to], IncomingCall(socket.id))]
      ensures to !in onlineUsers ==> outbox == old(outbox) + [Emit(socket.id, ReceiverOffline)]
    {
      if to in onlineUsers && Truthy(onlineUsers[to]) {
        outbox := outbox + [Emit(onlineUsers[to], IncomingCall(socket.id))];
      } else {
        outbox := outbox + [Emit(socket.id, ReceiverOffline)];
      }
    }

    /** `accept-call`: tell the caller, by socket id, who accepted. */
    method AcceptCall(socket: Socket, callerSocketId: SocketId)
      requires Valid()
      modifies this`outbox
      ensures Valid() && Handled(socket, Event.AcceptCall(callerSocketId))
      ensures outbox == old(outbox) + [Emit(callerSocketId, CallAccepted(socket.id))]
    {
      outbox := outbox + [Emit(callerSocketId, CallAccepted(socket.id))];
    }

    /** `reject-call`: tell the caller the call was rejected. */
    method RejectCall(socket: Socket, callerSocketId: SocketId)
      requires Valid()
      modifies this`outbox
      ensures Valid() && Handled(socket, Event.RejectCall(callerSocketId))
      ensures outbox == old(outbox) + [Emit(callerSocketId, CallRejected)]
    {
      outbox := outbox + [Emit(callerSocketId, CallRejected)];
    }

    /** `offer`: forward the offer to `to`, adding the sender's socket id. */
    method Offer(socket: Socket, to: SocketId, offer: Payload)
      requires Valid()
      modifies this`outbox
      ensures Valid() && Handled(socket, SendOffer(to, offer))
      ensures outbox == old(outbox) + [Emit(to, Message.Offer(offer, socket.id))]
    {
      outbox := outbox + [Emit(to, Message.Offer(offer, socket.id))];
    }

    /** `answer`: forward the answer to `to`, with no sender field. */
    method Answer(socket: Socket, to: SocketId, answer: Payload)
      requires Valid()
      modifies this`outbox
      ensures Valid() && Handled(socket, SendAnswer(to, answer))
      ensures outbox == old(outbox) + [Emit(to, Message.Answer(answer))]
    {
      outbox := outbox + [Emit(to, Message.Answer(answer))];
    }

    /** `ice-candidate`: forward the candidate to `to`, with no sender field. */
    method IceCandidate(socket: Socket, to: SocketId, candidate: Payload)
      requires Valid()
      modifies this`outbox
      ensures Valid() && Handled(socket, SendIceCandidate(to, candidate))
      ensures outbox == old(outbox) + [Emit(to, Message.IceCandidate(candidate))]
    {
      outbox := outbox + [Emit(to, Message.IceCandidate(candidate))];
    }

    /** `disconnect`: delete the entry of the socket's handle, whichever socket it names now. */
    method Disconnect(socket: Socket)
      requires Valid()
      modifies this`onlineUsers
      ensures Valid() && Handled(socket, Event.Disconnect)
      ensures socket.userId.Some? && socket.userId.value != "" ==>
                onlineUsers == old(onlineUsers) - {socket.userId.value}
      ensures socket.userId.None? || socket.userId.value == "" ==> onlineUsers == old(onlineUsers)
      ensures outbox == old(outbox)
    {
      if socket.userId.Some? && Truthy(socket.userId.value) {
        onlineUsers := onlineUsers - {socket.userId.value};
      }
    }

    /** Dispatch an event to its handler, as `socket.on` does. */
    method Deliver(socket: Socket, e: Event)
      requires Valid() && socket.id != ""
      modifies this, socket
      ensures Valid() && Handled(socket, e)
    {
      match e
      case ReceiverJoin(userId, token) => ReceiverJoin(socket, userId, token);
      case CallUser(to) => CallUser(socket, to);
      case AcceptCall(callerSocketId) => AcceptCall(socket, callerSocketId);
      case RejectCall(callerSocketId) => RejectCall(socket, callerSocketId);
      case SendOffer(to, offer) => Offer(socket, to, offer);
      case SendAnswer(to, answer) => Answer(socket, to, answer);
      case SendIceCandidate(to, candidate) => IceCandidate(socket, to, candidate);
      case Disconnect => Disconnect(socket);
    }
  }
}
