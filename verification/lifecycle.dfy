/**
 The connection lifecycle around the registry: every socket the transport
 opens runs the `connection` handler once, which captures the handshake's
 user id; the `disconnect` closure created there later runs once, reusing
 that captured id. The server state pairs the registry with the captured
 id of every open socket, so the registry can be compared with the sockets
 that are really open.
 */
module Lifecycle {
  import opened Registry

  /** The registry, and the user id each open socket captured at connect
      (`None` when its handshake carried none). */
  datatype Server = Server(registry: SocketMap, sockets: map<SocketId, Option<UserId>>)

  /** A server after one handler call, and what that call emitted. */
  datatype ServerStep = ServerStep(server: Server, emitted: Emitted)

  /** What the transport delivers to the handlers. */
  datatype Event = Connection(sid: SocketId, userId: Option<UserId>) | Disconnection(sid: SocketId)

  /** The state at process start: nobody registered, no socket open. */
  function Init(): Server
  {
    Server(map[], map[])
  }

  /** Open socket `sid` captured the truthy user id `u`. */
  ghost predicate Owns(s: Server, sid: SocketId, u: UserId)
  {
    sid in s.sockets && Truthy(s.sockets[sid]) && s.sockets[sid].value == u
  }

  /** The registry holds a socket for a user exactly when that socket is
      open and captured that user, and no user is left with an empty set. */
  ghost predicate Consistent(s: Server)
  {
    && Wellformed(s.registry)
    && forall u, sid :: sid in Sockets(s.registry, u) <==> Owns(s, sid, u)
  }

  /** The users that own at least one open socket. */
  function LiveUsers(s: Server): set<UserId>
  {
    set sid | sid in s.sockets && Truthy(s.sockets[sid]) :: s.sockets[sid].value
  }

  /** The `connection` handler for a socket id the transport has just
      issued: remember the captured user id, then register the socket. */
  function OnConnection(s: Server, sid: SocketId, userId: Option<UserId>): (r: ServerStep)
    requires sid !in s.sockets
    ensures r.server.sockets == s.sockets[sid := userId]
    ensures r.emitted.GetOnlineUsers? <==> Truthy(userId)
  {
    var step := Connect(s.registry, userId, sid);
    ServerStep(Server(step.registry, s.sockets[sid := userId]), step.emitted)
  }

  /** The `disconnect` closure of open socket `sid`: deregister it under
      the user id captured at connect, and forget the socket. */
  function OnDisconnect(s: Server, sid: SocketId): (r: ServerStep)
    requires sid in s.sockets
    ensures r.server.sockets == s.sockets - {sid}
    ensures !Truthy(s.sockets[sid]) ==> r.server.registry == s.registry && r.emitted == Silent
    ensures Truthy(s.sockets[sid]) && s.sockets[sid].value in s.registry ==>
      && Sockets(r.server.registry, s.sockets[sid].value) == s.registry[s.sockets[sid].value] - {sid}
      && r.emitted == GetOnlineUsers(Online(r.server.registry))
  {
    var step := Disconnect(s.registry, s.sockets[sid], sid);
    ServerStep(Server(step.registry, s.sockets - {sid}), step.emitted)
  }

  /** An event the transport can deliver in state `s`: socket ids are
      fresh on connect and a disconnect comes only for an open socket. */
  predicate Admissible(s: Server, e: Event)
  {
    match e
    case Connection(sid, _) => sid !in s.sockets
    case Disconnection(sid) => sid in s.sockets
  }

  /** One event handled. */
  function Handle(s: Server, e: Event): ServerStep
    requires Admissible(s, e)
  {
    match e
    case Connection(sid, userId) => OnConnection(s, sid, userId)
    case Disconnection(sid) => OnDisconnect(s, sid)
  }

  /** The server after the events in order, or `None` when one of them is
      not an event the transport can deliver at that point. */
  function Run(s: Server, events: seq<Event>): Option<Server>
    decreases |events|
  {
    if events == [] then Some(s)
    else if Admissible(s, events[0]) then Run(Handle(s, events[0]).server, events[1..])
    else None
  }

  /** On a consistent server the online list is exactly the set of users
      with an open socket. */
  lemma {:induction false} OnlineIsLiveUsers(s: Server)
    requires Consistent(s)
    ensures Online(s.registry) == LiveUsers(s)
  {
    forall u | u in Online(s.registry) ensures u in LiveUsers(s) {
      var sid :| sid in Sockets(s.registry, u);
      assert Owns(s, sid, u);
    }
    forall u | u in LiveUsers(s) ensures u in Online(s.registry) {
      var sid :| sid in s.sockets && Truthy(s.sockets[sid]) && s.sockets[sid].value == u;
      assert Owns(s, sid, u);
      assert sid in Sockets(s.registry, u);
    }
  }

  /** The connection handler keeps the registry consistent with the open
      sockets, and broadcasts the new set of live users exactly when the
      captured user id is truthy. */
  lemma {:induction false} OnConnectionKeepsConsistent(s: Server, sid: SocketId, userId: Option<UserId>)
    requires Consistent(s)
    requires sid !in s.sockets
    ensures var r := OnConnection(s, sid, userId);
            Consistent(r.server)
            && r.emitted == (if Truthy(userId) then GetOnlineUsers(LiveUsers(r.server)) else Silent)
  {
    var r := OnConnection(s, sid, userId);
    forall u, x ensures x in Sockets(r.server.registry, u) <==> Owns(r.server, x, u) {
      if x == sid {
        assert sid !in Sockets(s.registry, u) by {
          assert !Owns(s, sid, u);
        }
      } else {
        assert Owns(r.server, x, u) <==> Owns(s, x, u);
      }
    }
    assert Consistent(r.server);
    if r.emitted.GetOnlineUsers? {
      OnlineIsLiveUsers(r.server);
    }
  }

  /** The disconnect closure keeps the registry consistent with the open
      sockets, and broadcasts the new set of live users exactly when the
      captured user id is truthy. */
  lemma {:induction false} OnDisconnectKeepsConsistent(s: Server, sid: SocketId)
    requires Consistent(s)
    requires sid in s.sockets
    ensures var r := OnDisconnect(s, sid);
            Consistent(r.server)
            && r.emitted == (if Truthy(s.sockets[sid]) then GetOnlineUsers(LiveUsers(r.server)) else Silent)
  {
    var r := OnDisconnect(s, sid);
    var userId := s.sockets[sid];
    if Truthy(userId) {
      assert Owns(s, sid, userId.value);
      assert sid in Sockets(s.registry, userId.value);
    }
    forall u, x ensures x in Sockets(r.server.registry, u) <==> Owns(r.server, x, u) {
      if x == sid {
        assert !Owns(r.server, x, u);
        if Truthy(userId) && userId.value == u {
          assert u in s.registry by {
            assert Owns(s, sid, u);
            assert sid in Sockets(s.registry, u);
          }
        } else {
          assert !Owns(s, sid, u);
        }
      } else {
        assert Owns(r.server, x, u) <==> Owns(s, x, u);
      }
    }
    assert Consistent(r.server);
    if r.emitted.GetOnlineUsers? {
      OnlineIsLiveUsers(r.server);
    }
  }

  /** Every run the transport can produce keeps the registry consistent. */
  lemma {:induction false} RunKeepsConsistent(s: Server, events: seq<Event>)
    requires Consistent(s)
    ensures Run(s, events).Some? ==> Consistent(Run(s, events).value)
    decreases |events|
  {
    if events != [] && Admissible(s, events[0]) {
      match events[0] {
        case Connection(sid, userId) => OnConnectionKeepsConsistent(s, sid, userId);
        case Disconnection(sid) => OnDisconnectKeepsConsistent(s, sid);
      }
      RunKeepsConsistent(Handle(s, events[0]).server, events[1..]);
    }
  }

  /** Presence: from process start, after any sequence of connects and
      disconnects the online list holds exactly the users with at least one
      open socket, and no user is mapped to an empty set. */
  lemma {:induction false} OnlineMatchesOpenSockets(events: seq<Event>)
    ensures Run(Init(), events).Some? ==>
      && Wellformed(Run(Init(), events).value.registry)
      && Online(Run(Init(), events).value.registry) == LiveUsers(Run(Init(), events).value)
  {
    assert Consistent(Init());
    RunKeepsConsistent(Init(), events);
    if Run(Init(), events).Some? {
      OnlineIsLiveUsers(Run(Init(), events).value);
    }
  }
}
