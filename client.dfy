/** The signaling side of the browser client: the module-level variables
    `otherSocketId`, `pc` and `localStream`, and what each event handler sends
    to the server. Media, peer-connection internals and the page itself are not
    modelled; `pc` and `localStream` are reduced to whether they are set. */
module Client {
  import opened Protocol
  import opened Url
  import Server
  import Relay

  /** What the client emits. Peer-addressed messages carry `otherSocketId`,
      which is `null` (None) until one of the three handlers sets it. */
  datatype Outgoing =
    | Join(userId: UserId, token: Token)
    | Call(to: UserId)
    | Accept(callerSocketId: Option<SocketId>)
    | Reject(callerSocketId: Option<SocketId>)
    | OfferTo(target: Option<SocketId>, offer: Payload)
    | AnswerTo(target: Option<SocketId>, answer: Payload)
    | CandidateTo(target: Option<SocketId>, candidate: Payload)

  /** The server-side event an outgoing message becomes, when it has no `null` field. */
  function AsEvent(o: Outgoing): (e: Option<Event>)
    ensures o.Join? ==> e == Some(ReceiverJoin(o.userId, o.token))
    ensures o.Call? ==> e == Some(CallUser(o.to))
    ensures o.Accept? && o.callerSocketId.Some? ==> e == Some(AcceptCall(o.callerSocketId.value))
    ensures o.Reject? && o.callerSocketId.Some? ==> e == Some(RejectCall(o.callerSocketId.value))
    ensures o.OfferTo? && o.target.Some? ==> e == Some(SendOffer(o.target.value, o.offer))
    ensures o.AnswerTo? && o.target.Some? ==> e == Some(SendAnswer(o.target.value, o.answer))
    ensures o.CandidateTo? && o.target.Some? ==> e == Some(SendIceCandidate(o.target.value, o.candidate))
    ensures e.None? <==> (o.Accept? && o.callerSocketId.None?) || (o.Reject? && o.callerSocketId.None?)
                         || ((o.OfferTo? || o.AnswerTo? || o.CandidateTo?) && o.target.None?)
  {
    match o
    case Join(userId, token) => Some(ReceiverJoin(userId, token))
    case Call(to) => Some(CallUser(to))
    case Accept(caller) => if caller.Some? then Some(AcceptCall(caller.value)) else None
    case Reject(caller) => if caller.Some? then Some(RejectCall(caller.value)) else None
    case OfferTo(to, offer) => if to.Some? then Some(SendOffer(to.value, offer)) else None
    case AnswerTo(to, answer) => if to.Some? then Some(SendAnswer(to.value, answer)) else None
    case CandidateTo(to, candidate) => if to.Some? then Some(SendIceCandidate(to.value, candidate)) else None
  }

  /** The join a receiver page sends reaches the server as a `receiver-join` with
      a `null` token, which no verifier accepts: the server registers nothing,
      leaves the socket's `userId` alone and says nothing back. */
  lemma ReceiverPageJoinIsIgnored(verifier: string -> Option<UserId>, onlineUsers: map<UserId, SocketId>,
                                  self: SocketId, selfUser: Option<UserId>, pathname: string)
    ensures var e := AsEvent(Join(UserIdFromUrl(pathname), NullToken));
      e.Some? && Server.Handle(verifier, onlineUsers, self, selfUser, e.value) == Server.Effect(onlineUsers, selfUser, [])
  {
  }

  /** Every join in `sent` carries a `null` token. */
  predicate NullTokenJoinsOnly(sent: seq<Outgoing>)
  {
    forall i | 0 <= i < |sent| :: sent[i].Join? ==> sent[i].token == NullToken
  }

  /** The delivery `d` is one of the messages of `sent`, as the server receives it. */
  predicate SentAmong(d: Relay.Delivery, sent: seq<Outgoing>)
  {
    exists i | 0 <= i < |sent| :: AsEvent(sent[i]) == Some(d.event)
  }

  /** Whatever interleaving the server sees of messages sent by clients that
      only ever join with a `null` token, every `receiver-join` in it carries a
      `null` token. `sent` is everything those clients sent, together. */
  lemma ClientTracesJoinWithNullTokens(sent: seq<Outgoing>, trace: seq<Relay.Delivery>)
    requires NullTokenJoinsOnly(sent)
    requires forall k | 0 <= k < |trace| :: SentAmong(trace[k], sent)
    ensures Relay.OnlyNullTokenJoins(trace)
  {
    forall k | 0 <= k < |trace| && trace[k].event.ReceiverJoin?
      ensures trace[k].event.token == NullToken
    {
      var i :| 0 <= i < |sent| && AsEvent(sent[i]) == Some(trace[k].event);
      assert sent[i].Join?;
    }
  }

  /** So on any server run made of such clients' messages the registry stays
      empty, and every `call-user` is answered with `receiver-offline`. */
  lemma ClientReceiversAreNeverReachable(verifier: string -> Option<UserId>, sent: seq<Outgoing>,
                                         trace: seq<Relay.Delivery>, caller: SocketId, to: UserId)
    requires NullTokenJoinsOnly(sent)
    requires forall k | 0 <= k < |trace| :: SentAmong(trace[k], sent)
    ensures Relay.Run(verifier, Relay.Initial(), trace).onlineUsers == map[]
    ensures Relay.Run(verifier, Relay.Initial(), trace + [Relay.Delivery(caller, CallUser(to))]).outbox
            == Relay.Run(verifier, Relay.Initial(), trace).outbox + [Emit(caller, ReceiverOffline)]
  {
    ClientTracesJoinWithNullTokens(sent, trace);
    Relay.NullTokenReceiversAreNeverReachable(verifier, trace, caller, to);
  }

  class Client {
    const pathname: string
    var otherSocketId: Option<SocketId>
    var hasLocalStream: bool  // `localStream` is set
    var hasPeer: bool         // `pc` is set
    var iceHandlerSet: bool   // `pc.onicecandidate` is installed
    var sent: seq<Outgoing>

    /** Every join the client has sent carries a `null` token, and the
        candidate handler is only ever installed on an existing `pc`. */
    ghost predicate Valid()
      reads this
    {
      NullTokenJoinsOnly(sent) && (iceHandlerSet ==> hasPeer)
    }

    /** The script loading: all three variables start out `null`. */
    constructor (pathname: string)
      ensures Valid() && this.pathname == pathname
      ensures otherSocketId == None && !hasLocalStream && !hasPeer && !iceHandlerSet && sent == []
    {
      this.pathname := pathname;
      otherSocketId := None;
      hasLocalStream := false;
      hasPeer := false;
      iceHandlerSet := false;
      sent := [];
    }

    /** `connect`: a receiver page with a non-empty user id joins with a `null` token. */
    method OnConnect()
      requires Valid()
      modifies this`sent
      ensures Valid()
      ensures IsReceiverPage(pathname) && UserIdFromUrl(pathname) != "" ==>
                sent == old(sent) + [Join(UserIdFromUrl(pathname), NullToken)]
      ensures !(IsReceiverPage(pathname) && UserIdFromUrl(pathname) != "") ==> sent == old(sent)
    {
      if IsReceiverPage(pathname) && UserIdFromUrl(pathname) != "" {
        sent := sent + [Join(UserIdFromUrl(pathname), NullToken)];
      }
    }

    /** `initMedia`: ask for the camera once; `granted` is whether `getUserMedia`
        resolved. Once a stream is held, nothing changes. */
    method InitMedia(granted: bool)
      modifies this`hasLocalStream
      ensures hasLocalStream == (old(hasLocalStream) || granted)
    {
      if hasLocalStream {
        return;
      }
      if granted {
        hasLocalStream := true;
      }
    }

    /** `createPeer`: make `pc` once. `ok` is false when the call throws: a fresh
        `pc` is assigned before `localStream.getTracks()` is read, so without a
        stream the call throws after `pc` is already set, and before the
        `onicecandidate` handler is installed. */
    method CreatePeer() returns (ok: bool)
      requires Valid()
      modifies this`hasPeer, this`iceHandlerSet
      ensures Valid() && hasPeer
      ensures ok == (old(hasPeer) || hasLocalStream)
      ensures iceHandlerSet == (old(iceHandlerSet) || (!old(hasPeer) && hasLocalStream))
    {
      if hasPeer {
        return true;
      }
      hasPeer := true;
      ok := hasLocalStream;
      if ok {
        iceHandlerSet := true;
      }
    }

    /** `startCall`: only a caller page with a non-empty user id calls that id. */
    method StartCall(granted: bool)
      requires Valid()
      modifies this`sent, this`hasLocalStream
      ensures Valid()
      ensures IsCallerPage(pathname) && UserIdFromUrl(pathname) != "" ==>
                sent == old(sent) + [Call(UserIdFromUrl(pathname))]
                && hasLocalStream == (old(hasLocalStream) || granted)
      ensures !(IsCallerPage(pathname) && UserIdFromUrl(pathname) != "") ==>
                sent == old(sent) && hasLocalStream == old(hasLocalStream)
    {
      if !IsCallerPage(pathname) || UserIdFromUrl(pathname) == "" {
        return;
      }
      InitMedia(granted);
      sent := sent + [Call(UserIdFromUrl(pathname))];
    }

    /** `incoming-call`: remember who is calling. */
    method OnIncomingCall(callerSocketId: SocketId)
      modifies this`otherSocketId
      ensures otherSocketId == Some(callerSocketId)
    {
      otherSocketId := Some(callerSocketId);
    }

    /** `acceptCall`: accept on behalf of whoever `otherSocketId` names now. */
    method AcceptCall()
      requires Valid()
      modifies this`sent
      ensures Valid()
      ensures sent == old(sent) + [Accept(otherSocketId)]
    {
      sent := sent + [Accept(otherSocketId)];
    }

    /** `rejectCall`: reject on behalf of whoever `otherSocketId` names now. */
    method RejectCall()
      requires Valid()
      modifies this`sent
      ensures Valid()
      ensures sent == old(sent) + [Reject(otherSocketId)]
    {
      sent := sent + [Reject(otherSocketId)];
    }

    /** `call-accepted`: remember the receiver, get media and a peer, and send it
        `offer`, the description the peer connection produced. If `createPeer`
        throws, the handler stops before the offer. The offer goes to whatever
        `otherSocketId` holds when it is sent: `meanwhile` is the last id another
        handler stored there while this one was suspended at one of its awaits,
        if any. */
    method OnCallAccepted(receiverSocketId: SocketId, granted: bool, meanwhile: Option<SocketId>, offer: Payload)
      requires Valid()
      modifies this`otherSocketId, this`hasLocalStream, this`hasPeer, this`iceHandlerSet, this`sent
      ensures Valid() && hasPeer
      ensures otherSocketId == if meanwhile.Some? then meanwhile else Some(receiverSocketId)
      ensures hasLocalStream == (old(hasLocalStream) || granted)
      ensures iceHandlerSet == (old(iceHandlerSet) || (!old(hasPeer) && hasLocalStream))
      ensures old(hasPeer) || hasLocalStream ==> sent == old(sent) + [OfferTo(otherSocketId, offer)]
      ensures !(old(hasPeer) || hasLocalStream) ==> sent == old(sent)
    {
      otherSocketId := Some(receiverSocketId);
      InitMedia(granted);
      if meanwhile.Some? {
        otherSocketId := meanwhile;
      }
      var ok := CreatePeer();
      if !ok {
        return;
      }
      sent := sent + [OfferTo(otherSocketId, offer)];
    }

    /** `offer`: remember the sender, get media and a peer, and answer it with
        `answer`, the description the peer connection produced. As for the
        offer, the answer goes to `otherSocketId` as it is when it is sent,
        which `meanwhile` overrides when another handler ran in between. */
    method OnOffer(from: SocketId, granted: bool, meanwhile: Option<SocketId>, answer: Payload)
      requires Valid()
      modifies this`otherSocketId, this`hasLocalStream, this`hasPeer, this`iceHandlerSet, this`sent
      ensures Valid() && hasPeer
      ensures otherSocketId == if meanwhile.Some? then meanwhile else Some(from)
      ensures hasLocalStream == (old(hasLocalStream) || granted)
      ensures iceHandlerSet == (old(iceHandlerSet) || (!old(hasPeer) && hasLocalStream))
      ensures old(hasPeer) || hasLocalStream ==> sent == old(sent) + [AnswerTo(otherSocketId, answer)]
      ensures !(old(hasPeer) || hasLocalStream) ==> sent == old(sent)
    {
      otherSocketId := Some(from);
      InitMedia(granted);
      if meanwhile.Some? {
        otherSocketId := meanwhile;
      }
      var ok := CreatePeer();
      if !ok {
        return;
      }
      sent := sent + [AnswerTo(otherSocketId, answer)];
    }

    /** `pc.onicecandidate`: once the handler is installed, send a gathered
        candidate to `otherSocketId`; the end-of-candidates event (no candidate)
        sends nothing, and with no handler installed nothing is sent at all. */
    method OnLocalIceCandidate(candidate: Option<Payload>)
      requires Valid()
      modifies this`sent
      ensures Valid()
      ensures iceHandlerSet && candidate.Some? ==> sent == old(sent) + [CandidateTo(otherSocketId, candidate.value)]
      ensures !(iceHandlerSet && candidate.Some?) ==> sent == old(sent)
    {
      if iceHandlerSet && candidate.Some? {
        sent := sent + [CandidateTo(otherSocketId, candidate.value)];
      }
    }
  }
}
