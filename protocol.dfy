/** The message vocabulary shared by the signaling server and the browser client:
    the events a socket sends to the server, the messages the server emits, and the
    identifiers they carry. */
module Protocol {

  datatype Option<+T> = None | Some(value: T)

  /** A socket id assigned by the transport at connection time. */
  type SocketId = string

  /** A user handle such as "alice1234". */
  type UserId = string

  /** A session description or ICE candidate; the relay forwards it without looking inside. */
  type Payload = string

  /** The `token` field of `receiver-join`: JavaScript `null`, or a compact JWT string. */
  datatype Token = NullToken | Jwt(compact: string)

  /** What a socket sends to the server, one constructor per `socket.on` handler.
      `SendOffer`, `SendAnswer` and `SendIceCandidate` are the inbound `offer`,
      `answer` and `ice-candidate` events. */
  datatype Event =
    | ReceiverJoin(userId: UserId, token: Token)
    | CallUser(to: UserId)
    | AcceptCall(callerSocketId: SocketId)
    | RejectCall(callerSocketId: SocketId)
    | SendOffer(to: SocketId, offer: Payload)
    | SendAnswer(to: SocketId, answer: Payload)
    | SendIceCandidate(to: SocketId, candidate: Payload)
    | Disconnect

  /** What the server emits: the message kind together with its fields. */
  datatype Message =
    | IncomingCall(callerSocketId: SocketId)
    | ReceiverOffline
    | CallAccepted(receiverSocketId: SocketId)
    | CallRejected
    | Offer(offer: Payload, from: SocketId)
    | Answer(answer: Payload)
    | IceCandidate(candidate: Payload)

  /** One entry of the server's outbox: `io.to(target).emit(...)` or `socket.emit(...)`. */
  datatype Emit = Emit(target: SocketId, message: Message)
}
