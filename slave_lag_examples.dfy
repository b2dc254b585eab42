/** The throttler's documented scenarios, as facts about the model. */
module SlaveLagExamples {
  import Text
  import opened Discovery

  /** One entry whose first ':' is at `k`: its host, the text before `k`, unless that is a loopback address. */
  lemma SlavesForConnectionOne(e: string, k: nat)
    requires k <= |e| && ':' !in e[..k] && (k < |e| ==> e[k] == ':')
    ensures SlavesForConnection([e]) == if IsLoopback(e[..k]) then [] else [e[..k]]
  {
    if k < |e| {
      Text.BeforeFirst(e, ':', k);
    } else {
      assert e[..k] == e;
      Text.BeforeAbsent(e, ':');
    }
    assert [e][1..] == [];
  }

  /** Loopback replicas are ignored, whatever their port. */
  lemma LoopbackReplicasAreIgnored(a: string, b: string)
    requires a == "localhost:1234" && b == "127.0.0.1:5678"
    ensures SlavesForConnection([]) == []
    ensures SlavesForConnection([a, b]) == []
  {
    LoopbackIgnored(a, "localhost");
    LoopbackIgnored(b, "127.0.0.1");
    SlavesForConnectionPair(a, b);
  }

  /** An entry naming a loopback address before its port lists nothing. */
  lemma LoopbackIgnored(e: string, host: string)
    requires host == "localhost" || host == "127.0.0.1"
    requires |e| > 9 && e[..9] == host && e[9] == ':'
    ensures SlavesForConnection([e]) == []
  {
    assert ':' !in e[..9];
    SlavesForConnectionOne(e, 9);
  }

  /** A remote replica's entry loses its port. */
  lemma RemoteReplicaLosesItsPort(a: string)
    requires a == "server.example.com:1234"
    ensures SlavesForConnection([a]) == ["server.example.com"]
  {
    var host := a[..18];
    assert host == "server.example.com";
    assert host != "localhost" && host != "127.0.0.1" by {
      assert |host| != |"localhost"| && |host| != |"127.0.0.1"|;
    }
    SlavesForConnectionOne(a, 18);
  }

  /** An entry without a port is listed as it is. */
  lemma RemoteReplicaWithoutPort(b: string)
    requires b == "anotherserver.example.com"
    ensures SlavesForConnection([b]) == [b]
  {
    assert b != "localhost" && b != "127.0.0.1" by {
      assert |b| != |"localhost"| && |b| != |"127.0.0.1"|;
    }
    assert ':' !in b;
    SlavesForConnectionPlain([b]);
  }

  /** Remote replicas are listed in order, with their ports dropped. */
  lemma RemoteReplicasLoseTheirPorts(a: string, b: string)
    requires a == "server.example.com:1234" && b == "anotherserver.example.com"
    ensures SlavesForConnection([a, b]) == ["server.example.com", "anotherserver.example.com"]
  {
    RemoteReplicaLosesItsPort(a);
    RemoteReplicaWithoutPort(b);
    SlavesForConnectionPair(a, b);
  }

  /** Two entries are listed in order, each as it is listed alone. */
  lemma SlavesForConnectionPair(a: string, b: string)
    ensures SlavesForConnection([a, b]) == SlavesForConnection([a]) + SlavesForConnection([b])
  {
    SlavesForConnectionAppend([a], [b]);
    assert [a] + [b] == [a, b];
  }

  /** A host as a process list shows it without a port: no ':' and not a loopback address. */
  predicate PlainHost(h: Host) {
    ':' !in h && !IsLoopback(h)
  }

  /**
   * The replication tree of the unit test with replicas 1.1.1.1, 1.1.1.2 and 1.1.1.3:
   * the primary shows `h1`, whose connection shows `h3` and then `h2`; the connections
   * of `h2` and `h3` show nothing.
   */
  function MultipleSlaves(h1: Host, h2: Host, h3: Host): Topology {
    Topology(
      map[Conn("conn") := [h1], Conn("conn1") := [h3, h2]],
      map[h1 := Conn("conn1"), h2 := Conn("conn2"), h3 := Conn("conn2")],
      map[])
  }

  /** What each connection of that tree shows, and the hosts its process lists name. */
  lemma MultipleSlavesShape(h1: Host, h2: Host, h3: Host)
    requires PlainHost(h1) && PlainHost(h2) && PlainHost(h3)
    requires h1 != h2 && h1 != h3
    ensures var topo := MultipleSlaves(h1, h2, h3);
            && Children(topo, Conn("conn")) == [h1]
            && h1 in topo.connect && Children(topo, topo.connect[h1]) == [h3, h2]
            && h2 in topo.connect && Children(topo, topo.connect[h2]) == []
            && h3 in topo.connect && Children(topo, topo.connect[h3]) == []
            && h1 in Universe(topo) && h2 in Universe(topo) && h3 in Universe(topo)
  {
    var topo := MultipleSlaves(h1, h2, h3);
    SlavesForConnectionPlain([h1]);
    SlavesForConnectionPlain([h3, h2]);
    assert topo.connect[h1] == Conn("conn1");
    assert Children(topo, Conn("conn2")) == [];
    ChildrenInUniverse(topo, Conn("conn"));
    ChildrenInUniverse(topo, Conn("conn1"));
  }

  /** The worklist is popped from its end, so `h2` is found before `h3`. */
  lemma DiscoveryIsLastInFirstOut(h1: Host, h2: Host, h3: Host)
    requires PlainHost(h1) && PlainHost(h2) && PlainHost(h3)
    requires h1 != h2 && h1 != h3 && h2 != h3
    ensures DiscoverFrom(MultipleSlaves(h1, h2, h3), Conn("conn")) == [h1, h2, h3]
  {
    MultipleSlavesShape(h1, h2, h3);
    TreeOfThree(MultipleSlaves(h1, h2, h3), Conn("conn"), h1, h2, h3);
  }

  /**
   * In any topology where the primary shows `h1`, whose connection shows `h3` and then
   * `h2`, whose connections show nothing, discovery lists `h1`, `h2`, `h3`.
   */
  lemma TreeOfThree(topo: Topology, primary: Conn, h1: Host, h2: Host, h3: Host)
    requires h1 != h2 && h1 != h3 && h2 != h3
    requires Children(topo, primary) == [h1]
    requires h1 in topo.connect && Children(topo, topo.connect[h1]) == [h3, h2]
    requires h2 in topo.connect && Children(topo, topo.connect[h2]) == []
    requires h3 in topo.connect && Children(topo, topo.connect[h3]) == []
    requires h1 in Universe(topo) && h2 in Universe(topo) && h3 in Universe(topo)
    ensures DiscoverFrom(topo, primary) == [h1, h2, h3]
  {
    RecordsRoot(topo, h1, [h3, h2]);
    TwoLeaves(topo, h1, h2, h3);
  }

  /** With `h1` recorded and `h3`, `h2` queued, `h2` is recorded before `h3`. */
  lemma TwoLeaves(topo: Topology, h1: Host, h2: Host, h3: Host)
    requires h1 != h2 && h1 != h3 && h2 != h3
    requires h2 in topo.connect && Children(topo, topo.connect[h2]) == []
    requires h3 in topo.connect && Children(topo, topo.connect[h3]) == []
    requires h2 in Universe(topo) && h3 in Universe(topo)
    ensures Discover(topo, [h3, h2], [h1]) == [h1, h2, h3]
  {
    RecordsLeaf(topo, [h3], [h1], h2);
    assert [h3] + [h2] == [h3, h2] && [h1] + [h2] == [h1, h2];
    RecordsLeaf(topo, [], [h1, h2], h3);
    assert [] + [h3] == [h3] && [h1, h2] + [h3] == [h1, h2, h3];
  }

  /** Popping a new host whose connection shows nothing records it and goes on with the rest. */
  lemma RecordsLeaf(topo: Topology, rest: seq<Host>, visited: seq<Host>, h: Host)
    requires forall x :: x in rest ==> x in Universe(topo)
    requires h in Universe(topo) && h !in visited
    requires h in topo.connect && Children(topo, topo.connect[h]) == []
    ensures Discover(topo, rest + [h], visited) == Discover(topo, rest, visited + [h])
  {
    DiscoverVisits(topo, rest + [h], visited);
    assert (rest + [h])[..|rest|] + [] == rest;
  }

  /** The primary's only replica is recorded first, and its replicas become the worklist. */
  lemma RecordsRoot(topo: Topology, h: Host, children: seq<Host>)
    requires h in Universe(topo) && h in topo.connect
    requires Children(topo, topo.connect[h]) == children
    requires forall x :: x in children ==> x in Universe(topo)
    ensures Discover(topo, [h], []) == Discover(topo, children, [h])
  {
    DiscoverVisits(topo, [h], []);
    assert [h][..0] + children == children;
    assert [] + [h] == [h];
  }

  /** A primary without replicas yields none; a replica whose connection shows itself is listed once. */
  lemma DiscoveryScenarios(h: Host)
    requires PlainHost(h)
    ensures DiscoverFrom(Topology(map[], map[], map[]), Conn("conn")) == []
    ensures DiscoverFrom(Topology(map[Conn("conn") := [h]], map[h := Conn("conn")], map[]), Conn("conn")) == [h]
  {
    var topo := Topology(map[Conn("conn") := [h]], map[h := Conn("conn")], map[]);
    SlavesForConnectionPlain([h]);
    assert Children(topo, Conn("conn")) == [h];
    ChildrenInUniverse(topo, Conn("conn"));
    DiscoverVisits(topo, [h], []);
    assert [h][..0] + [h] == [h];
    assert Discover(topo, [h], [h]) == [h];
  }
}
