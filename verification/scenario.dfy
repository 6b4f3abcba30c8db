/**
 A worked presence scenario: two users, one of them with two sockets open.
 */
module Scenario {
  import opened Registry
  import opened Lifecycle

  /** alice opens s1. */
  lemma AliceOpensFirst()
    ensures OnConnection(Init(), "s1", Some("alice"))
         == ServerStep(Server(map["alice" := {"s1"}], map["s1" := Some("alice")]),
                       GetOnlineUsers({"alice"}))
  {
    var e: SocketMap := map[];
    assert Truthy(Some("alice"));
    assert Sockets(e, "alice") + {"s1"} == {"s1"};
  }

  /** bob opens s2. */
  lemma BobOpens()
    ensures OnConnection(Server(map["alice" := {"s1"}], map["s1" := Some("alice")]), "s2", Some("bob"))
         == ServerStep(Server(map["alice" := {"s1"}, "bob" := {"s2"}],
                              map["s1" := Some("alice"), "s2" := Some("bob")]),
                       GetOnlineUsers({"alice", "bob"}))
  {
    var m: SocketMap := map["alice" := {"s1"}];
    assert Truthy(Some("bob"));
    assert Sockets(m, "bob") + {"s2"} == {"s2"};
    assert m["bob" := {"s2"}].Keys == {"alice", "bob"};
  }

  /** alice opens a second socket s3. */
  lemma AliceOpensSecond()
    ensures OnConnection(Server(map["alice" := {"s1"}, "bob" := {"s2"}],
                                map["s1" := Some("alice"), "s2" := Some("bob")]), "s3", Some("alice"))
         == ServerStep(Server(map["alice" := {"s1", "s3"}, "bob" := {"s2"}],
                              map["s1" := Some("alice"), "s2" := Some("bob"), "s3" := Some("alice")]),
                       GetOnlineUsers({"alice", "bob"}))
  {
    var m: SocketMap := map["alice" := {"s1"}, "bob" := {"s2"}];
    assert Truthy(Some("alice"));
    assert Sockets(m, "alice") + {"s3"} == {"s1", "s3"};
    assert m["alice" := {"s1", "s3"}] == map["alice" := {"s1", "s3"}, "bob" := {"s2"}];
    assert m["alice" := {"s1", "s3"}].Keys == {"alice", "bob"};
  }

  /** alice closes s1 and stays online through s3. */
  lemma AliceClosesFirst()
    ensures OnDisconnect(Server(map["alice" := {"s1", "s3"}, "bob" := {"s2"}],
                                map["s1" := Some("alice"), "s2" := Some("bob"), "s3" := Some("alice")]), "s1")
         == ServerStep(Server(map["alice" := {"s3"}, "bob" := {"s2"}],
                              map["s2" := Some("bob"), "s3" := Some("alice")]),
                       GetOnlineUsers({"alice", "bob"}))
  {
    var m: SocketMap := map["alice" := {"s1", "s3"}, "bob" := {"s2"}];
    var k := map["s1" := Some("alice"), "s2" := Some("bob"), "s3" := Some("alice")];
    assert Truthy(Some("alice"));
    assert k["s1"] == Some("alice");
    assert {"s1", "s3"} - {"s1"} == {"s3"};
    assert m["alice" := {"s3"}] == map["alice" := {"s3"}, "bob" := {"s2"}];
    assert m["alice" := {"s3"}].Keys == {"alice", "bob"};
    assert k - {"s1"} == map["s2" := Some("bob"), "s3" := Some("alice")];
  }

  /** alice closes s3, her last socket, and goes offline. */
  lemma AliceClosesLast()
    ensures OnDisconnect(Server(map["alice" := {"s3"}, "bob" := {"s2"}],
                                map["s2" := Some("bob"), "s3" := Some("alice")]), "s3")
         == ServerStep(Server(map["bob" := {"s2"}], map["s2" := Some("bob")]),
                       GetOnlineUsers({"bob"}))
  {
  }

  /** The whole scenario from process start: alice stays online until her
      last socket closes, and only bob is left at the end. */
  lemma TwoSocketsScenario()
    ensures Run(Init(), [Connection("s1", Some("alice")), Connection("s2", Some("bob")),
                         Connection("s3", Some("alice")), Disconnection("s1"), Disconnection("s3")])
         == Some(Server(map["bob" := {"s2"}], map["s2" := Some("bob")]))
  {
    AliceOpensFirst();
    BobOpens();
    AliceOpensSecond();
    AliceClosesFirst();
    AliceClosesLast();
  }

  /** A socket whose handshake has an empty user id is accepted but never
      registered, and its connect and disconnect broadcast nothing. */
  lemma AnonymousSocketScenario()
    ensures var c := OnConnection(Init(), "s9", Some(""));
            var d := OnDisconnect(c.server, "s9");
            && c.emitted == Silent && c.server.registry == map[]
            && d.emitted == Silent && d.server == Init()
  {
  }
}
