/**
 * Replica discovery and lag for the replica-lag throttler. The database is abstracted
 * into a Topology value: what each connection's process list shows, which hosts can be
 * connected to, and the lag rows each replica reports.
 */
module Discovery {
  import Text

  type Host = string

  /** A database connection, known by a name. */
  datatype Conn = Conn(name: string)

  /**
   * What the throttler can observe of the replication topology:
   * - processlist: the `host` column of the process-list rows in the 'Binlog Dump'
   *   state seen on a connection, as "host:port" or "host" (a connection that is not a
   *   key shows no such rows);
   * - connect: the connection opened to a host (a host that is not a key could not be
   *   connected to, which the source reports as nil);
   * - lagOf: the Seconds_Behind_Master values a replica's SHOW SLAVE STATUS returns
   *   (a host that is not a key returns no rows).
   */
  datatype Topology = Topology(
    processlist: map<Conn, seq<string>>,
    connect: map<Host, Conn>,
    lagOf: map<Host, seq<int>>)

  predicate IsLoopback(h: Host) {
    h == "localhost" || h == "127.0.0.1"
  }

  /** `select_slave_hosts`: the process-list entries of replicas reading from `c`. */
  function SelectSlaveHosts(topo: Topology, c: Conn): seq<string> {
    if c in topo.processlist then topo.processlist[c] else []
  }

  /**
   * `slaves_for_connection` on the entries `select_slave_hosts` returned: each entry cut
   * at its first ':' (dropping the port), then every 'localhost' and '127.0.0.1' removed.
   */
  function SlavesForConnection(entries: seq<string>): (r: seq<Host>)
    ensures |r| <= |entries|
    ensures forall h :: h in r ==> ':' !in h && !IsLoopback(h)
  {
    if entries == [] then []
    else
      var h := Text.Before(entries[0], ':');
      (if IsLoopback(h) then [] else [h]) + SlavesForConnection(entries[1..])
  }

  /** The replica list of each entry, concatenated in the order of the entries. */
  lemma {:induction false} SlavesForConnectionAppend(a: seq<string>, b: seq<string>)
    ensures SlavesForConnection(a + b) == SlavesForConnection(a) + SlavesForConnection(b)
  {
    if a == [] {
      assert a + b == b;
    } else {
      assert (a + b)[0] == a[0];
      assert (a + b)[1..] == a[1..] + b;
      SlavesForConnectionAppend(a[1..], b);
    }
  }

  /** A host is listed exactly when some entry names it and it is not a loopback address. */
  lemma {:induction false} SlavesForConnectionMembers(entries: seq<string>, h: Host)
    ensures h in SlavesForConnection(entries) <==>
            !IsLoopback(h) && exists i :: 0 <= i < |entries| && Text.Before(entries[i], ':') == h
  {
    if entries != [] {
      SlavesForConnectionMembers(entries[1..], h);
      if exists i :: 0 <= i < |entries| && Text.Before(entries[i], ':') == h {
        var i :| 0 <= i < |entries| && Text.Before(entries[i], ':') == h;
        if i > 0 {
          assert entries[1..][i - 1] == entries[i];
        }
      }
      if exists i :: 0 <= i < |entries[1..]| && Text.Before(entries[1..][i], ':') == h {
        var i :| 0 <= i < |entries[1..]| && Text.Before(entries[1..][i], ':') == h;
        assert entries[i + 1] == entries[1..][i];
      }
    }
  }

  /** Entries without a port that are not loopback addresses are listed as they are. */
  lemma {:induction false} SlavesForConnectionPlain(entries: seq<string>)
    requires forall e :: e in entries ==> ':' !in e && !IsLoopback(e)
    ensures SlavesForConnection(entries) == entries
  {
    if entries != [] {
      Text.BeforeAbsent(entries[0], ':');
      SlavesForConnectionPlain(entries[1..]);
    }
  }

  /** The replicas found on connection `c`, in the order its process list shows them. */
  function Children(topo: Topology, c: Conn): seq<Host> {
    SlavesForConnection(SelectSlaveHosts(topo, c))
  }

  /** Every host any process list names: finite, so the discovery below terminates. */
  ghost function Universe(topo: Topology): set<Host> {
    set c, h | c in topo.processlist && h in SlavesForConnection(topo.processlist[c]) :: h
  }

  lemma ChildrenInUniverse(topo: Topology, c: Conn)
    ensures forall h :: h in Children(topo, c) ==> h in Universe(topo)
  {
    if c in topo.processlist {
      forall h | h in Children(topo, c) ensures h in Universe(topo) {
        assert h in SlavesForConnection(topo.processlist[c]);
      }
    }
  }

  ghost function Seen(visited: seq<Host>): set<Host> {
    set h | h in visited
  }

  /** Recording a host not seen yet leaves fewer hosts of `universe` unseen. */
  lemma UnseenShrinks(universe: set<Host>, visited: seq<Host>, h: Host)
    requires h in universe && h !in visited
    ensures |universe - Seen(visited + [h])| < |universe - Seen(visited)|
  {
    var before := universe - Seen(visited);
    var after := universe - Seen(visited + [h]);
    assert Seen(visited + [h]) == Seen(visited) + {h};
    assert after == before - {h};
    assert h in before;
  }

  /**
   * The loop of `get_slave_hosts` from a worklist `work` and the hosts `visited` so far:
   * take the last host of the worklist; if it is new and a connection to it opens, record
   * it and append the replicas that connection shows; otherwise drop it.
   */
  function Discover(topo: Topology, work: seq<Host>, visited: seq<Host>): seq<Host>
    requires forall h :: h in work ==> h in Universe(topo)
    decreases |Universe(topo) - Seen(visited)|, |work|
  {
    if work == [] then visited
    else
      var slave := work[|work| - 1];
      var rest := work[..|work| - 1];
      if slave !in visited && slave in topo.connect then
        ChildrenInUniverse(topo, topo.connect[slave]);
        UnseenShrinks(Universe(topo), visited, slave);
        Discover(topo, rest + Children(topo, topo.connect[slave]), visited + [slave])
      else
        Discover(topo, rest, visited)
  }

  /** One step of discovery that records the last host of the worklist. */
  lemma DiscoverVisits(topo: Topology, work: seq<Host>, visited: seq<Host>)
    requires forall h :: h in work ==> h in Universe(topo)
    requires work != [] && work[|work| - 1] !in visited && work[|work| - 1] in topo.connect
    ensures forall h :: h in Children(topo, topo.connect[work[|work| - 1]]) ==> h in Universe(topo)
    ensures Discover(topo, work, visited)
         == Discover(topo, work[..|work| - 1] + Children(topo, topo.connect[work[|work| - 1]]), visited + [work[|work| - 1]])
  {
    ChildrenInUniverse(topo, topo.connect[work[|work| - 1]]);
  }

  /** The replicas `get_slave_hosts` returns for the primary connection `primary`. */
  function DiscoverFrom(topo: Topology, primary: Conn): seq<Host> {
    ChildrenInUniverse(topo, primary);
    Discover(topo, Children(topo, primary), [])
  }

  predicate NoDuplicates(s: seq<Host>) {
    forall i, j :: 0 <= i < j < |s| ==> s[i] != s[j]
  }

  /**
   * A set of hosts closed under discovery from `roots`: it holds every root a connection
   * opens to, and every replica that a member's connection shows and that a connection
   * opens to.
   */
  ghost predicate ClosedUnder(topo: Topology, roots: seq<Host>, s: set<Host>) {
    && (forall x :: x in roots && x in topo.connect ==> x in s)
    && (forall h, x ::
          h in s && h in topo.connect && x in Children(topo, topo.connect[h]) && x in topo.connect ==> x in s)
  }

  /** Some host of `hosts` was connected to, and its connection shows `x`. */
  ghost predicate ShownBy(topo: Topology, hosts: seq<Host>, x: Host) {
    exists j :: 0 <= j < |hosts| && hosts[j] in topo.connect && x in Children(topo, topo.connect[hosts[j]])
  }

  /**
   * Every host of `hosts` was connected to, and is a root or was shown by the connection
   * of a host listed before it.
   */
  ghost predicate DerivedFrom(topo: Topology, roots: seq<Host>, hosts: seq<Host>) {
    forall i :: 0 <= i < |hosts| ==>
      hosts[i] in topo.connect && (hosts[i] in roots || ShownBy(topo, hosts[..i], hosts[i]))
  }

  lemma ShownByExtends(topo: Topology, hosts: seq<Host>, y: Host, x: Host)
    requires ShownBy(topo, hosts, x)
    ensures ShownBy(topo, hosts + [y], x)
  {
    var j :| 0 <= j < |hosts| && hosts[j] in topo.connect && x in Children(topo, topo.connect[hosts[j]]);
    assert (hosts + [y])[j] == hosts[j];
  }

  /** Recording a host that was connected to and is a root or shown by a recorded host keeps the hosts derived. */
  lemma DerivedExtends(topo: Topology, roots: seq<Host>, hosts: seq<Host>, h: Host)
    requires DerivedFrom(topo, roots, hosts)
    requires h in topo.connect && (h in roots || ShownBy(topo, hosts, h))
    ensures DerivedFrom(topo, roots, hosts + [h])
  {
    var hosts' := hosts + [h];
    forall i | 0 <= i < |hosts'|
      ensures hosts'[i] in topo.connect && (hosts'[i] in roots || ShownBy(topo, hosts'[..i], hosts'[i]))
    {
      if i < |hosts| {
        assert hosts'[..i] == hosts[..i] && hosts'[i] == hosts[i];
      } else {
        assert hosts'[..i] == hosts;
      }
    }
  }

  /** Discovery only appends to what it has visited, and never records a host twice. */
  lemma {:induction false} DiscoverNoDuplicates(topo: Topology, work: seq<Host>, visited: seq<Host>)
    requires forall h :: h in work ==> h in Universe(topo)
    requires NoDuplicates(visited)
    ensures visited <= Discover(topo, work, visited)
    ensures NoDuplicates(Discover(topo, work, visited))
    decreases |Universe(topo) - Seen(visited)|, |work|
  {
    if work != [] {
      var slave := work[|work| - 1];
      var rest := work[..|work| - 1];
      if slave !in visited && slave in topo.connect {
        ChildrenInUniverse(topo, topo.connect[slave]);
        UnseenShrinks(Universe(topo), visited, slave);
        DiscoverNoDuplicates(topo, rest + Children(topo, topo.connect[slave]), visited + [slave]);
      } else {
        DiscoverNoDuplicates(topo, rest, visited);
      }
    }
  }

  /** Every replica the connection of `h` shows that a connection opens to is in `s`. */
  ghost predicate ShowsWithin(topo: Topology, h: Host, s: seq<Host>) {
    h in topo.connect ==> forall x :: x in Children(topo, topo.connect[h]) && x in topo.connect ==> x in s
  }

  /**
   * `found` misses nothing of a discovery from `work` and `visited`: it keeps what was
   * visited, holds every host of the worklist a connection opens to, and every such
   * replica of a host it holds beyond those visited.
   */
  ghost predicate Closes(topo: Topology, work: seq<Host>, visited: seq<Host>, found: seq<Host>) {
    && (forall x :: x in visited ==> x in found)
    && (forall x :: x in work && x in topo.connect ==> x in found)
    && (forall h :: h in found && h !in visited ==> ShowsWithin(topo, h, found))
  }

  /** Discovery misses nothing. */
  lemma {:induction false} DiscoverCloses(topo: Topology, work: seq<Host>, visited: seq<Host>)
    requires forall h :: h in work ==> h in Universe(topo)
    ensures Closes(topo, work, visited, Discover(topo, work, visited))
    decreases |Universe(topo) - Seen(visited)|, |work|
  {
    if work != [] {
      var slave := work[|work| - 1];
      var rest := work[..|work| - 1];
      if slave !in visited && slave in topo.connect {
        var children := Children(topo, topo.connect[slave]);
        ChildrenInUniverse(topo, topo.connect[slave]);
        UnseenShrinks(Universe(topo), visited, slave);
        DiscoverCloses(topo, rest + children, visited + [slave]);
        ClosesRecorded(topo, work, visited, Discover(topo, rest + children, visited + [slave]));
      } else {
        DiscoverCloses(topo, rest, visited);
        ClosesSkipped(topo, work, visited, Discover(topo, rest, visited));
      }
    }
  }

  /** The step of DiscoverCloses that records the last host of the worklist. */
  lemma ClosesRecorded(topo: Topology, work: seq<Host>, visited: seq<Host>, found: seq<Host>)
    requires work != [] && work[|work| - 1] in topo.connect
    requires Closes(topo, work[..|work| - 1] + Children(topo, topo.connect[work[|work| - 1]]), visited + [work[|work| - 1]], found)
    ensures Closes(topo, work, visited, found)
  {
    var slave := work[|work| - 1];
    var rest := work[..|work| - 1];
    var children := Children(topo, topo.connect[slave]);
    assert slave in visited + [slave];
    forall x | x in visited ensures x in found {
      assert x in visited + [slave];
    }
    forall x | x in work && x in topo.connect ensures x in found {
      if x != slave {
        assert x in rest + children;
      }
    }
    forall x | x in children && x in topo.connect ensures x in found {
      assert x in rest + children;
    }
    forall h | h in found && h !in visited ensures ShowsWithin(topo, h, found) {
      if h != slave {
        assert h !in visited + [slave];
      }
    }
  }

  /** The step of DiscoverCloses that drops the last host of the worklist. */
  lemma ClosesSkipped(topo: Topology, work: seq<Host>, visited: seq<Host>, found: seq<Host>)
    requires work != [] && (work[|work| - 1] in visited || work[|work| - 1] !in topo.connect)
    requires Closes(topo, work[..|work| - 1], visited, found)
    ensures Closes(topo, work, visited, found)
  {
    forall x | x in work && x in topo.connect ensures x in found {
      if x != work[|work| - 1] {
        assert x in work[..|work| - 1];
      }
    }
  }

  /**
   * Discovery invents nothing: when every worklist host is a root or a replica shown by
   * an already visited host, everything recorded is derived in order from the roots.
   */
  lemma {:induction false} DiscoverDerives(topo: Topology, roots: seq<Host>, work: seq<Host>, visited: seq<Host>)
    requires forall h :: h in work ==> h in Universe(topo)
    requires DerivedFrom(topo, roots, visited)
    requires forall x :: x in work ==> x in roots || ShownBy(topo, visited, x)
    ensures DerivedFrom(topo, roots, Discover(topo, work, visited))
    decreases |Universe(topo) - Seen(visited)|, |work|
  {
    if work != [] {
      var slave := work[|work| - 1];
      var rest := work[..|work| - 1];
      if slave !in visited && slave in topo.connect {
        var children := Children(topo, topo.connect[slave]);
        var visited' := visited + [slave];
        ChildrenInUniverse(topo, topo.connect[slave]);
        UnseenShrinks(Universe(topo), visited, slave);
        assert slave in work;
        DerivedExtends(topo, roots, visited, slave);
        forall x | x in rest + children
          ensures x in roots || ShownBy(topo, visited', x)
        {
          if x in rest {
            assert x in work;
            if x !in roots {
              ShownByExtends(topo, visited, slave, x);
            }
          } else {
            assert visited'[|visited|] == slave;
          }
        }
        DiscoverDerives(topo, roots, rest + children, visited');
      } else {
        forall x | x in rest
          ensures x in roots || ShownBy(topo, visited, x)
        {
          assert x in work;
        }
        DiscoverDerives(topo, roots, rest, visited);
      }
    }
  }

  /** A host derived from the roots belongs to every set closed under discovery. */
  lemma {:induction false} DerivedWithinClosed(topo: Topology, roots: seq<Host>, hosts: seq<Host>, s: set<Host>, i: nat)
    requires DerivedFrom(topo, roots, hosts) && ClosedUnder(topo, roots, s)
    requires i < |hosts|
    ensures hosts[i] in s
    decreases i
  {
    if hosts[i] !in roots {
      var j :| 0 <= j < i && hosts[..i][j] in topo.connect && hosts[i] in Children(topo, topo.connect[hosts[..i][j]]);
      assert hosts[..i][j] == hosts[j];
      DerivedWithinClosed(topo, roots, hosts, s, j);
    }
  }

  /**
   * What `get_slave_hosts` returns for the primary connection: no host twice, only hosts a
   * connection opened to, each derived from the primary's replicas through hosts listed
   * before it, and exactly the least set closed under discovery from the primary: every
   * reachable replica and nothing else.
   */
  lemma DiscoverFromSpec(topo: Topology, primary: Conn)
    ensures var hosts := DiscoverFrom(topo, primary);
            && NoDuplicates(hosts)
            && (forall h :: h in hosts ==> h in topo.connect)
            && DerivedFrom(topo, Children(topo, primary), hosts)
            && ClosedUnder(topo, Children(topo, primary), Seen(hosts))
            && (forall s :: ClosedUnder(topo, Children(topo, primary), s) ==> Seen(hosts) <= s)
  {
    var roots := Children(topo, primary);
    var hosts := DiscoverFrom(topo, primary);
    ChildrenInUniverse(topo, primary);
    DiscoverNoDuplicates(topo, roots, []);
    DiscoverCloses(topo, roots, []);
    DiscoverDerives(topo, roots, roots, []);
    forall h | h in hosts ensures h in topo.connect {
      var i :| 0 <= i < |hosts| && hosts[i] == h;
    }
    forall s | ClosedUnder(topo, roots, s) ensures Seen(hosts) <= s {
      forall h | h in Seen(hosts) ensures h in s {
        var i :| 0 <= i < |hosts| && hosts[i] == h;
        DerivedWithinClosed(topo, roots, hosts, s, i);
      }
    }
  }

  /** The Seconds_Behind_Master rows replica `h` reports. */
  function LagRows(topo: Topology, h: Host): seq<int> {
    if h in topo.lagOf then topo.lagOf[h] else []
  }

  /** `slave_hosts.map { |slave| slave_lag(slave) }.flatten`. */
  function AllLags(topo: Topology, hosts: seq<Host>): seq<int> {
    if hosts == [] then [] else LagRows(topo, hosts[0]) + AllLags(topo, hosts[1..])
  }

  /** A value is among the flattened lags exactly when some replica reported it. */
  lemma {:induction false} AllLagsMembers(topo: Topology, hosts: seq<Host>, x: int)
    ensures x in AllLags(topo, hosts) <==> exists i :: 0 <= i < |hosts| && x in LagRows(topo, hosts[i])
  {
    if hosts != [] {
      AllLagsMembers(topo, hosts[1..], x);
      if exists i :: 0 <= i < |hosts| && x in LagRows(topo, hosts[i]) {
        var i :| 0 <= i < |hosts| && x in LagRows(topo, hosts[i]);
        if i > 0 {
          assert hosts[1..][i - 1] == hosts[i];
        }
      }
      if exists i :: 0 <= i < |hosts[1..]| && x in LagRows(topo, hosts[1..][i]) {
        var i :| 0 <= i < |hosts[1..]| && x in LagRows(topo, hosts[1..][i]);
        assert hosts[i + 1] == hosts[1..][i];
      }
    }
  }

  /** Ruby's `Array#max` on a non-empty array of integers. */
  function MaxOf(xs: seq<int>): (m: int)
    requires xs != []
    ensures m in xs
    ensures forall x :: x in xs ==> x <= m
  {
    if |xs| == 1 then xs[0]
    else
      var rest := MaxOf(xs[1..]);
      assert forall x :: x in xs ==> x == xs[0] || x in xs[1..];
      if xs[0] >= rest then xs[0] else rest
  }

  /**
   * `max_current_slave_lag` over the replicas `hosts`: the maximum of every lag row and 0.
   * It is never negative, bounds every row, and is 0 or some replica's reported lag
   * (so exactly 0 when there is no replica).
   */
  function MaxCurrentLag(topo: Topology, hosts: seq<Host>): (m: int)
    ensures m >= 0
    ensures forall i :: 0 <= i < |hosts| ==> forall x :: x in LagRows(topo, hosts[i]) ==> x <= m
    ensures m == 0 || exists i :: 0 <= i < |hosts| && m in LagRows(topo, hosts[i])
  {
    MaxOfLags(topo, hosts);
    MaxOf(AllLags(topo, hosts) + [0])
  }

  lemma MaxOfLags(topo: Topology, hosts: seq<Host>)
    ensures var m := MaxOf(AllLags(topo, hosts) + [0]);
            && m >= 0
            && (forall i :: 0 <= i < |hosts| ==> forall x :: x in LagRows(topo, hosts[i]) ==> x <= m)
            && (m == 0 || exists i :: 0 <= i < |hosts| && m in LagRows(topo, hosts[i]))
  {
    var all := AllLags(topo, hosts) + [0];
    var m := MaxOf(all);
    assert 0 in all;
    forall i, x | 0 <= i < |hosts| && x in LagRows(topo, hosts[i]) ensures x <= m {
      AllLagsMembers(topo, hosts, x);
      assert x in all;
    }
    if m != 0 {
      assert m in AllLags(topo, hosts);
      AllLagsMembers(topo, hosts, m);
    }
  }
}
