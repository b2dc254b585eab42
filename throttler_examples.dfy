/**
 * Clients of the SlaveLag class: the throttler's documented scenarios, proved from the
 * method contracts alone. The replica list is memoised as one replica, "r", whose lag the
 * topology fixes, where the documented scenarios replace `max_current_slave_lag`.
 */
module ThrottlerExamples {
  import opened Wrappers
  import opened Backoff
  import opened Discovery
  import opened Throttler

  /** A topology where the single replica "r" reports `lag`. */
  function LaggingReplica(lag: int): Topology {
    Topology(map[], map[], map["r" := [lag]])
  }

  lemma LaggingReplicaLag(lag: int)
    requires lag >= 0
    ensures MaxCurrentLag(LaggingReplica(lag), ["r"]) == lag
  {
    var topo := LaggingReplica(lag);
    assert LagRows(topo, "r") == [lag];
    assert forall h :: h in ["r"] ==> h == "r";
  }

  method ThrottleScenarios() {
    var throttler := new SlaveLag(Options(None, None));
    throttler.slaveHosts := Some(["r"]);
    LaggingReplicaLag(0);
    LaggingReplicaLag(100);

    // Without lag, the initial timeout is kept.
    var t := throttler.ThrottleSeconds(LaggingReplica(0));
    assert t == INITIAL_TIMEOUT;

    // With a large lag, it doubles.
    t := throttler.ThrottleSeconds(LaggingReplica(100));
    assert t == INITIAL_TIMEOUT * 2.0;

    // But not past the maximum.
    throttler.timeoutSeconds := MAX_TIMEOUT;
    t := throttler.ThrottleSeconds(LaggingReplica(100));
    assert t == MAX_TIMEOUT;

    // Once the lag is gone, it halves.
    throttler.timeoutSeconds := INITIAL_TIMEOUT * 2.0 * 2.0;
    t := throttler.ThrottleSeconds(LaggingReplica(0));
    assert t == INITIAL_TIMEOUT * 2.0;

    // And not below the minimum on repeated runs.
    t := throttler.ThrottleSeconds(LaggingReplica(0));
    assert t == INITIAL_TIMEOUT;
    t := throttler.ThrottleSeconds(LaggingReplica(0));
    assert t == INITIAL_TIMEOUT;

    // `execute` pauses for that timeout, and the cached replicas stay as they were.
    var pause := throttler.Execute(LaggingReplica(0));
    assert pause == INITIAL_TIMEOUT && throttler.slaveHosts == Some(["r"]);
  }

  method ConstructionScenarios() {
    var defaults := new SlaveLag(Options(None, None));
    assert defaults.stride == 40_000 && defaults.allowedLag == 10;
    var custom := new SlaveLag(Options(Some(500), Some(2)));
    assert custom.stride == 500 && custom.allowedLag == 2;
  }

  /**
   * The pool configuration {:host => 'master', :shard_1 => {:host => 'master'}}: the
   * replica's configuration has its host, and the shard's configuration is the shard's
   * hash with its host.
   */
  method SlaveConfigScenarios() {
    var shard := new ConfigHash(map[HOST_KEY := Str("master")]);
    var pool := new ConfigHash(map[HOST_KEY := Str("master"), "shard_1" := Nested(shard)]);

    var r := SlaveConfig(pool, "slave", None);
    assert r.Success?;
    assert r.value.entries == map[HOST_KEY := Str("slave"), "shard_1" := Nested(shard)];
    assert shard.entries == map[HOST_KEY := Str("master")];

    r := SlaveConfig(pool, "slave", Some("shard_1"));
    assert r.Success? && r.value.entries == map[HOST_KEY := Str("slave")];

    r := SlaveConfig(pool, "slave", Some("shard_2"));
    assert r == Failure(NoShardHash("shard_2"));
  }

  /**
   * With a shard selected, `slave_config` writes the replica's host into the pool's own
   * shard configuration: afterwards the pool would connect its shard to the replica.
   * The isolated version leaves the pool's configuration as it was.
   */
  method ShardConfigIsShared() {
    var shard := new ConfigHash(map[HOST_KEY := Str("master")]);
    var pool := new ConfigHash(map[HOST_KEY := Str("master"), "shard_1" := Nested(shard)]);

    var r := SlaveConfigIsolated(pool, "slave", Some("shard_1"));
    assert r.Success? && r.value.entries == map[HOST_KEY := Str("slave")];
    assert shard.entries[HOST_KEY] == Str("master");

    r := SlaveConfig(pool, "slave", Some("shard_1"));
    assert r.Success? && r.value.entries == map[HOST_KEY := Str("slave")];
    assert pool.entries["shard_1"] == Nested(shard);
    assert shard.entries[HOST_KEY] == Str("slave");
  }
}
