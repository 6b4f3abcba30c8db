/**
 The per-user socket registry kept by the Socket.IO connection handler:
 a map from a user id to the set of socket ids that user currently has
 open, updated on every connect and disconnect, and the online-user list
 that is broadcast after each change.
 */
module Registry {

  type UserId = string
  type SocketId = string

  /** `userSocketMap`: user id to the set of that user's live socket ids. */
  type SocketMap = map<UserId, set<SocketId>>

  /** The `userId` query parameter of a handshake, which may be missing. */
  datatype Option<+T> = None | Some(value: T)

  /** What a handler call emits to every client. */
  datatype Emitted = Silent | GetOnlineUsers(users: set<UserId>)

  /** The registry after a handler call, and what the call emitted. */
  datatype Step = Step(registry: SocketMap, emitted: Emitted)

  /** JavaScript truthiness of the query parameter: a missing value and the
      empty string are falsy, every other string is truthy. */
  predicate Truthy(userId: Option<UserId>)
  {
    userId.Some? && userId.value != ""
  }

  /** The socket ids registered for `u`; none when `u` is not a key. */
  function Sockets(m: SocketMap, u: UserId): set<SocketId>
  {
    if u in m then m[u] else {}
  }

  /** The registry invariant: no key is left mapped to an empty set. */
  ghost predicate Wellformed(m: SocketMap)
  {
    forall u :: u in m ==> m[u] != {}
  }

  /** True iff `a` and `b` agree on every user other than `u`. */
  ghost predicate SameExcept(a: SocketMap, b: SocketMap, u: UserId)
  {
    forall v :: v != u ==> (v in a <==> v in b) && Sockets(a, v) == Sockets(b, v)
  }

  /** `Object.keys(userSocketMap)`: on a well-formed registry, exactly the
      users that have at least one live socket. */
  function Online(m: SocketMap): (r: set<UserId>)
    ensures forall u :: u in r ==> u in m
    ensures Wellformed(m) ==> forall u :: u in r <==> Sockets(m, u) != {}
  {
    m.Keys
  }

  /** The `connection` handler: with a truthy user id, add the socket id to
      that user's set (creating the set when absent) and broadcast the
      online list; otherwise do nothing and emit nothing. */
  function Connect(m: SocketMap, userId: Option<UserId>, sid: SocketId): (r: Step)
    ensures !Truthy(userId) ==> r.registry == m && r.emitted == Silent
    ensures Truthy(userId) ==>
      && userId.value in r.registry
      && Sockets(r.registry, userId.value) == Sockets(m, userId.value) + {sid}
      && SameExcept(m, r.registry, userId.value)
      && r.emitted == GetOnlineUsers(Online(r.registry))
    ensures Wellformed(m) ==> Wellformed(r.registry)
  {
    if Truthy(userId) then
      var u := userId.value;
      var m' := m[u := Sockets(m, u) + {sid}];
      Step(m', GetOnlineUsers(Online(m')))
    else
      Step(m, Silent)
  }

  /** The `disconnect` callback: when the captured user id is truthy and the
      user has an entry, remove the socket id, delete the entry once it is
      empty, and broadcast the online list; otherwise do nothing and emit
      nothing. */
  function Disconnect(m: SocketMap, userId: Option<UserId>, sid: SocketId): (r: Step)
    ensures !(Truthy(userId) && userId.value in m) ==> r.registry == m && r.emitted == Silent
    ensures Truthy(userId) && userId.value in m ==>
      && (userId.value in r.registry <==> m[userId.value] - {sid} != {})
      && Sockets(r.registry, userId.value) == m[userId.value] - {sid}
      && SameExcept(m, r.registry, userId.value)
      && r.emitted == GetOnlineUsers(Online(r.registry))
    ensures Wellformed(m) ==> Wellformed(r.registry)
  {
    if Truthy(userId) && userId.value in m then
      var u := userId.value;
      var rest := m[u] - {sid};
      var m' := if |rest| == 0 then m - {u} else m[u := rest];
      Step(m', GetOnlineUsers(Online(m')))
    else
      Step(m, Silent)
  }

  /** Two registries that agree on every user's socket set and key presence
      are the same map. */
  lemma Extensionality(a: SocketMap, b: SocketMap)
    requires forall u :: (u in a <==> u in b) && Sockets(a, u) == Sockets(b, u)
    ensures a == b
  {
  }

  /** `Set.add` is idempotent: connecting the same socket for the same user
      a second time leaves the registry as the first call left it, and the
      second broadcast repeats the same online list. */
  lemma ConnectIdempotent(m: SocketMap, userId: Option<UserId>, sid: SocketId)
    ensures var once := Connect(m, userId, sid);
            var twice := Connect(once.registry, userId, sid);
            twice.registry == once.registry
            && (Truthy(userId) ==> twice.emitted == once.emitted)
  {
  }

  /** A repeated disconnect of the same socket never changes the registry a
      second time. */
  lemma {:induction false} DisconnectIdempotent(m: SocketMap, userId: Option<UserId>, sid: SocketId)
    ensures var once := Disconnect(m, userId, sid);
            Disconnect(once.registry, userId, sid).registry == once.registry
  {
    var once := Disconnect(m, userId, sid);
    var twice := Disconnect(once.registry, userId, sid);
    if Truthy(userId) && userId.value in once.registry {
      var u := userId.value;
      assert u in m;
      assert once.registry[u] == m[u] - {sid};
      assert once.registry[u] - {sid} == once.registry[u];
      forall v ensures (v in twice.registry <==> v in once.registry)
                       && Sockets(twice.registry, v) == Sockets(once.registry, v)
      {
      }
      Extensionality(twice.registry, once.registry);
    }
  }

  /** Connecting a socket id the user did not already hold and then
      disconnecting it restores a well-formed registry exactly. */
  lemma ConnectThenDisconnect(m: SocketMap, userId: Option<UserId>, sid: SocketId)
    requires Wellformed(m)
    requires Truthy(userId) ==> sid !in Sockets(m, userId.value)
    ensures var c := Connect(m, userId, sid);
            Disconnect(c.registry, userId, sid).registry == m
  {
  }

  /** The socket ids listed in `sids`. */
  function Elems(sids: seq<SocketId>): set<SocketId>
  {
    set x | x in sids
  }

  /** The registry after the sockets `sids` of one user connect in order. */
  function ConnectAll(m: SocketMap, userId: Option<UserId>, sids: seq<SocketId>): (r: SocketMap)
    ensures Wellformed(m) ==> Wellformed(r)
    decreases |sids|
  {
    if sids == [] then m
    else ConnectAll(Connect(m, userId, sids[0]).registry, userId, sids[1..])
  }

  /** The registry after the sockets `sids` of one user disconnect in order. */
  function DisconnectAll(m: SocketMap, userId: Option<UserId>, sids: seq<SocketId>): (r: SocketMap)
    ensures Wellformed(m) ==> Wellformed(r)
    decreases |sids|
  {
    if sids == [] then m
    else DisconnectAll(Disconnect(m, userId, sids[0]).registry, userId, sids[1..])
  }

  /** Connecting a batch of sockets for a truthy user gives that user the
      union of the old set and the batch, and no other entry moves. */
  lemma {:induction false} ConnectAllEffect(m: SocketMap, userId: Option<UserId>, sids: seq<SocketId>)
    requires Truthy(userId)
    ensures var r := ConnectAll(m, userId, sids);
            && Sockets(r, userId.value) == Sockets(m, userId.value) + Elems(sids)
            && (userId.value in r <==> userId.value in m || sids != [])
            && SameExcept(m, r, userId.value)
    decreases |sids|
  {
    if sids != [] {
      var m1 := Connect(m, userId, sids[0]).registry;
      ConnectAllEffect(m1, userId, sids[1..]);
      assert Elems(sids) == {sids[0]} + Elems(sids[1..]) by {
        assert sids == [sids[0]] + sids[1..];
      }
    }
  }

  /** Disconnecting a batch of sockets of a user in a well-formed registry
      removes exactly the batch from that user's set, drops the user once
      nothing is left, and moves no other entry. */
  lemma {:induction false} DisconnectAllEffect(m: SocketMap, userId: Option<UserId>, sids: seq<SocketId>)
    requires Wellformed(m)
    requires Truthy(userId)
    ensures var r := DisconnectAll(m, userId, sids);
            && Sockets(r, userId.value) == Sockets(m, userId.value) - Elems(sids)
            && (userId.value in r <==> Sockets(r, userId.value) != {})
            && SameExcept(m, r, userId.value)
            && Wellformed(r)
    decreases |sids|
  {
    var u := userId.value;
    if sids == [] {
      assert u in m <==> Sockets(m, u) != {};
    } else {
      var m1 := Disconnect(m, userId, sids[0]).registry;
      assert Sockets(m1, u) == Sockets(m, u) - {sids[0]};
      DisconnectAllEffect(m1, userId, sids[1..]);
      assert Elems(sids) == {sids[0]} + Elems(sids[1..]) by {
        assert sids == [sids[0]] + sids[1..];
      }
    }
  }

  /** After N sockets of a user who was offline connect and all of them
      disconnect, in any order and possibly alongside ids the user never
      held, the user is offline again and the registry is exactly what it
      was before. */
  lemma {:induction false} AllSocketsClosedMeansOffline(m: SocketMap, userId: Option<UserId>, sids: seq<SocketId>, closed: seq<SocketId>)
    requires Wellformed(m)
    requires Truthy(userId) && userId.value !in m
    requires Elems(sids) <= Elems(closed)
    ensures var r := DisconnectAll(ConnectAll(m, userId, sids), userId, closed);
            userId.value !in Online(r) && r == m
  {
    var u := userId.value;
    var c := ConnectAll(m, userId, sids);
    ConnectAllEffect(m, userId, sids);
    var r := DisconnectAll(c, userId, closed);
    DisconnectAllEffect(c, userId, closed);
    assert Sockets(c, u) == Elems(sids);
    assert Sockets(r, u) == {};
    forall v ensures (v in r <==> v in m) && Sockets(r, v) == Sockets(m, v) {
      if v != u {
        assert Sockets(c, v) == Sockets(m, v) && (v in c <==> v in m);
      }
    }
    Extensionality(r, m);
  }
}
