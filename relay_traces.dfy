/** The signaling server across many handler runs. Node runs each handler to
    completion, so a run of the server is a sequence of deliveries, each an event
    together with the socket that sent it, applied one after another. */
module Relay {
  import opened Protocol
  import opened Server

  datatype Delivery = Delivery(socket: SocketId, event: Event)

  /** The server's state between handler runs: the registry, the `userId` field of
      every socket that has one, and everything emitted so far. */
  datatype World = World(onlineUsers: map<UserId, SocketId>, userIdOf: map<SocketId, UserId>, outbox: seq<Emit>)

  /** The server as it starts: `let onlineUsers = {}`, no socket joined, nothing sent. */
  function Initial(): World
  {
    World(map[], map[], [])
  }

  function UserIdOf(w: World, s: SocketId): Option<UserId>
  {
    if s in w.userIdOf then Some(w.userIdOf[s]) else None
  }

  /** One handler run, as `Handle` describes it, applied to the whole server. */
  function Step(verifier: string -> Option<UserId>, w: World, d: Delivery): World
  {
    var r := Handle(verifier, w.onlineUsers, d.socket, UserIdOf(w, d.socket), d.event);
    World(r.onlineUsers,
          if r.userId.Some? then w.userIdOf[d.socket := r.userId.value] else w.userIdOf,
          w.outbox + r.emitted)
  }

  /** The deliveries of `trace`, in order, starting from `w`. */
  function Run(verifier: string -> Option<UserId>, w: World, trace: seq<Delivery>): World
    decreases |trace|
  {
    if trace == [] then w
    else Step(verifier, Run(verifier, w, trace[..|trace| - 1]), trace[|trace| - 1])
  }

  lemma RunSnoc(verifier: string -> Option<UserId>, w: World, trace: seq<Delivery>, d: Delivery)
    ensures Run(verifier, w, trace + [d]) == Step(verifier, Run(verifier, w, trace), d)
  {
  }

  /** Some delivery of `trace` was a join of handle `u` by socket `s` that got past both guards. */
  predicate JoinedIn(verifier: string -> Option<UserId>, trace: seq<Delivery>, u: UserId, s: SocketId)
    decreases |trace|
  {
    trace != [] &&
    (JoinedIn(verifier, trace[..|trace| - 1], u, s) ||
     (var d := trace[|trace| - 1]; d.socket == s && JoinAccepted(verifier, d.event) && d.event.userId == u))
  }

  /** Every binding in the registry was either there at the start, or was made by
      a verified join of that very handle from that very socket. */
  lemma {:induction false} BindingsComeFromVerifiedJoins(verifier: string -> Option<UserId>, w: World, trace: seq<Delivery>)
    ensures var w' := Run(verifier, w, trace);
      forall u | u in w'.onlineUsers ::
        (u in w.onlineUsers && w'.onlineUsers[u] == w.onlineUsers[u])
        || JoinedIn(verifier, trace, u, w'.onlineUsers[u])
    decreases |trace|
  {
    if trace != [] {
      var prefix := trace[..|trace| - 1];
      BindingsComeFromVerifiedJoins(verifier, w, prefix);
    }
  }

  /** A trace in which every `receiver-join` carries a `null` token, as the
      browser client always sends it. */
  predicate OnlyNullTokenJoins(trace: seq<Delivery>)
  {
    forall i | 0 <= i < |trace| :: trace[i].event.ReceiverJoin? ==> trace[i].event.token == NullToken
  }

  lemma {:induction false} NoVerifiedJoinWithNullTokens(verifier: string -> Option<UserId>, trace: seq<Delivery>, u: UserId, s: SocketId)
    requires OnlyNullTokenJoins(trace)
    ensures !JoinedIn(verifier, trace, u, s)
    decreases |trace|
  {
    if trace != [] {
      var prefix := trace[..|trace| - 1];
      assert OnlyNullTokenJoins(prefix) by {
        forall i | 0 <= i < |prefix| ensures prefix[i] == trace[i] { }
      }
      NoVerifiedJoinWithNullTokens(verifier, prefix, u, s);
    }
  }

  /** If every receiver joins with a `null` token, no handle is ever registered,
      so every `call-user`, wherever it comes in the trace, is answered with
      `receiver-offline` to the caller and nothing else. */
  lemma {:induction false} NullTokenReceiversAreNeverReachable(verifier: string -> Option<UserId>, trace: seq<Delivery>,
                                                            caller: SocketId, to: UserId)
    requires OnlyNullTokenJoins(trace)
    ensures Run(verifier, Initial(), trace).onlineUsers == map[]
    ensures Run(verifier, Initial(), trace + [Delivery(caller, CallUser(to))]).outbox
            == Run(verifier, Initial(), trace).outbox + [Emit(caller, ReceiverOffline)]
  {
    var w' := Run(verifier, Initial(), trace);
    BindingsComeFromVerifiedJoins(verifier, Initial(), trace);
    forall u | u in w'.onlineUsers ensures false {
      NoVerifiedJoinWithNullTokens(verifier, trace, u, w'.onlineUsers[u]);
    }
    RunSnoc(verifier, Initial(), trace, Delivery(caller, CallUser(to)));
  }

  /** Neither registry event occurs in the trace. */
  predicate NoRegistryEvents(trace: seq<Delivery>)
  {
    forall i | 0 <= i < |trace| :: !trace[i].event.ReceiverJoin? && trace[i].event != Disconnect
  }

  /** Only `receiver-join` and `disconnect` ever modify `onlineUsers`. */
  lemma {:induction false} OnlyJoinAndDisconnectChangeRegistry(verifier: string -> Option<UserId>, w: World, trace: seq<Delivery>)
    requires NoRegistryEvents(trace)
    ensures Run(verifier, w, trace).onlineUsers == w.onlineUsers
    decreases |trace|
  {
    if trace != [] {
      var prefix := trace[..|trace| - 1];
      assert NoRegistryEvents(prefix) by {
        forall i | 0 <= i < |prefix| ensures prefix[i] == trace[i] { }
      }
      OnlyJoinAndDisconnectChangeRegistry(verifier, w, prefix);
      var w1 := Run(verifier, w, prefix);
      var r := Handle(verifier, w1.onlineUsers, trace[|trace| - 1].socket, UserIdOf(w1, trace[|trace| - 1].socket), trace[|trace| - 1].event);
      assert !JoinAccepted(verifier, trace[|trace| - 1].event);
      assert r.onlineUsers.Keys == w1.onlineUsers.Keys;
    }
  }

  /** How many deliveries of `trace` are events other than the two registry events. */
  function Relayed(trace: seq<Delivery>): nat
    decreases |trace|
  {
    if trace == [] then 0
    else
      var e := trace[|trace| - 1].event;
      Relayed(trace[..|trace| - 1]) + (if e.ReceiverJoin? || e == Disconnect then 0 else 1)
  }

  /** The outbox only grows: what was sent stays sent, in order, and each event
      other than `receiver-join` and `disconnect` adds exactly one message. */
  lemma {:induction false} OutboxOnlyGrows(verifier: string -> Option<UserId>, w: World, trace: seq<Delivery>)
    ensures var w' := Run(verifier, w, trace);
      |w'.outbox| == |w.outbox| + Relayed(trace) && w'.outbox[..|w.outbox|] == w.outbox
    decreases |trace|
  {
    if trace != [] {
      var prefix := trace[..|trace| - 1];
      OutboxOnlyGrows(verifier, w, prefix);
      var w1 := Run(verifier, w, prefix);
      var w' := Run(verifier, w, trace);
      assert w'.outbox[..|w1.outbox|] == w1.outbox;
      assert w'.outbox[..|w.outbox|] == w1.outbox[..|w.outbox|];
    }
  }

  /** A verified join, as one step of a run: the handle is bound to the socket
      and recorded as its `userId`; nothing is sent. */
  lemma JoinStep(verifier: string -> Option<UserId>, w: World, s: SocketId, u: UserId, token: string)
    requires verifier(token) == Some(u)
    ensures var w' := Step(verifier, w, Delivery(s, ReceiverJoin(u, Jwt(token))));
      w'.onlineUsers == w.onlineUsers[u := s] && w'.userIdOf == w.userIdOf[s := u] && w'.outbox == w.outbox
  {
    assert JoinAccepted(verifier, ReceiverJoin(u, Jwt(token)));
  }

  /** A `disconnect` of a socket whose `userId` is a non-empty handle, as one
      step of a run: that handle is deleted, whoever it is bound to. */
  lemma DisconnectStep(verifier: string -> Option<UserId>, w: World, s: SocketId, u: UserId)
    requires s in w.userIdOf && w.userIdOf[s] == u && u != ""
    ensures var w' := Step(verifier, w, Delivery(s, Disconnect));
      w'.onlineUsers == w.onlineUsers - {u} && w'.userIdOf == w.userIdOf && w'.outbox == w.outbox
  {
  }

  /** Supersession and the unguarded delete: socket `s2` re-registers a handle
      `s1` had registered; lookups now reach `s2`; then `s1` disconnects and its
      `delete onlineUsers[socket.userId]` removes `s2`'s binding, although `s2`
      is still connected and its `userId` field still names the handle, so a
      later `call-user` to the handle finds the receiver offline. */
  lemma StaleDisconnectEvictsNewerRegistration(verifier: string -> Option<UserId>, u: UserId, token: string,
                                               s1: SocketId, s2: SocketId, caller: SocketId)
    requires verifier(token) == Some(u) && u != ""
    requires s1 != s2
    ensures var joins := [Delivery(s1, ReceiverJoin(u, Jwt(token))), Delivery(s2, ReceiverJoin(u, Jwt(token)))];
      var afterJoins := Run(verifier, Initial(), joins);
      var afterLeave := Run(verifier, Initial(), joins + [Delivery(s1, Disconnect)]);
      && afterJoins.onlineUsers == map[u := s2]
      && afterLeave.onlineUsers == map[]
      && UserIdOf(afterLeave, s2) == Some(u)
      && Run(verifier, Initial(), joins + [Delivery(s1, Disconnect), Delivery(caller, CallUser(u))]).outbox
         == [Emit(caller, ReceiverOffline)]
  {
    var d1, d2 := Delivery(s1, ReceiverJoin(u, Jwt(token))), Delivery(s2, ReceiverJoin(u, Jwt(token)));
    var d3, d4 := Delivery(s1, Disconnect), Delivery(caller, CallUser(u));
    var w1 := Step(verifier, Initial(), d1);
    JoinStep(verifier, Initial(), s1, u, token);
    var w2 := Step(verifier, w1, d2);
    JoinStep(verifier, w1, s2, u, token);
    assert w2.onlineUsers == map[u := s2] && w2.userIdOf == map[s1 := u, s2 := u] && w2.outbox == [];
    var w3 := Step(verifier, w2, d3);
    DisconnectStep(verifier, w2, s1, u);
    assert w3.onlineUsers == map[];
    var w4 := Step(verifier, w3, d4);
    assert w4.outbox == [Emit(caller, ReceiverOffline)];
    RunSnoc(verifier, Initial(), [], d1);
    assert [] + [d1] == [d1];
    RunSnoc(verifier, Initial(), [d1], d2);
    assert [d1] + [d2] == [d1, d2];
    RunSnoc(verifier, Initial(), [d1, d2], d3);
    assert [d1, d2] + [d3] == [d1, d2, d3];
    RunSnoc(verifier, Initial(), [d1, d2, d3], d4);
    assert [d1, d2] + [d3, d4] == [d1, d2, d3] + [d4];
  }
}
