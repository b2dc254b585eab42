/**
 * `Lhm::Throttler::SlaveLag`: the throttler that paces the copy of strides by the lag of
 * the replicas it discovers from the primary connection. The database is the Topology
 * value its methods are given (see module Discovery).
 */
module Throttler {
  import opened Wrappers
  import opened Backoff
  import opened Discovery

  /** The options `initialize` reads: `:stride` and `:allowed_lag`, nil when absent. */
  datatype Options = Options(stride: Option<int>, allowedLag: Option<int>)

  class SlaveLag {
    var timeoutSeconds: real
    var allowedLag: int
    var stride: int
    /** The primary connection; nil until it is assigned. */
    var connection: Option<Conn>
    /** The memoised `@slave_hosts`; nil until first computed. */
    var slaveHosts: Option<seq<Host>>

    constructor (options: Options)
      ensures timeoutSeconds == INITIAL_TIMEOUT
      ensures stride == options.stride.GetOr(DEFAULT_STRIDE)
      ensures allowedLag == options.allowedLag.GetOr(DEFAULT_MAX_ALLOWED_LAG)
      ensures connection == None && slaveHosts == None
    {
      timeoutSeconds := INITIAL_TIMEOUT;
      stride := options.stride.GetOr(DEFAULT_STRIDE);
      allowedLag := options.allowedLag.GetOr(DEFAULT_MAX_ALLOWED_LAG);
      connection := None;
      slaveHosts := None;
    }

    /**
     * `get_slave_hosts`: pop the last host of the worklist, and when it is new and a
     * connection to it opens, record it and append the replicas that connection shows.
     * The result is the discovery closure from the primary: no host twice, only hosts a
     * connection opened to, every reachable replica and nothing else (DiscoverFromSpec).
     */
    method GetSlaveHosts(topo: Topology) returns (hosts: seq<Host>)
      requires connection.Some?
      ensures hosts == DiscoverFrom(topo, connection.value)
      ensures NoDuplicates(hosts)
      ensures forall h :: h in hosts ==> h in topo.connect
    {
      hosts := [];
      var slaves := SlavesForConnection(SelectSlaveHosts(topo, connection.value));
      ChildrenInUniverse(topo, connection.value);
      while slaves != []
        invariant forall h :: h in slaves ==> h in Universe(topo)
        invariant Discover(topo, slaves, hosts) == DiscoverFrom(topo, connection.value)
        decreases |Universe(topo) - Seen(hosts)|, |slaves|
      {
        var slave := slaves[|slaves| - 1];
        slaves := slaves[..|slaves| - 1];
        if slave !in hosts && slave in topo.connect {
          var conn := topo.connect[slave];
          ChildrenInUniverse(topo, conn);
          UnseenShrinks(Universe(topo), hosts, slave);
          hosts := hosts + [slave];
          slaves := slaves + SlavesForConnection(SelectSlaveHosts(topo, conn));
        }
      }
      DiscoverFromSpec(topo, connection.value);
    }

    /**
     * `slave_hosts`: the replicas discovered on the first call, memoised; later calls
     * return them unchanged whatever the topology has become. An empty list is memoised
     * too.
     */
    method SlaveHosts(topo: Topology) returns (hosts: seq<Host>)
      requires slaveHosts.Some? || connection.Some?
      modifies this`slaveHosts
      ensures slaveHosts == Some(hosts)
      ensures old(slaveHosts).Some? ==> hosts == old(slaveHosts).value
      ensures old(slaveHosts).None? ==> hosts == DiscoverFrom(topo, connection.value)
    {
      if slaveHosts.None? {
        hosts := GetSlaveHosts(topo);
        slaveHosts := Some(hosts);
      } else {
        hosts := slaveHosts.value;
      }
    }

    /**
     * `max_current_slave_lag`: the largest lag any memoised replica reports, and 0;
     * never negative, and 0 without replicas (MaxCurrentLag).
     */
    method MaxCurrentSlaveLag(topo: Topology) returns (lag: int)
      requires slaveHosts.Some? || connection.Some?
      modifies this`slaveHosts
      ensures old(slaveHosts).Some? ==> slaveHosts == old(slaveHosts)
      ensures old(slaveHosts).None? ==> slaveHosts == Some(DiscoverFrom(topo, connection.value))
      ensures slaveHosts.Some? && lag == MaxCurrentLag(topo, slaveHosts.value)
      ensures lag >= 0
    {
      var hosts := SlaveHosts(topo);
      lag := MaxCurrentLag(topo, hosts);
    }

    /**
     * `throttle_seconds`: observe the replicas' maximum lag, then double the timeout if
     * the lag exceeds what is allowed and the timeout is below MAX_TIMEOUT, halve it if
     * the lag is within what is allowed and the timeout is above INITIAL_TIMEOUT, and keep
     * it otherwise; return the new timeout. A timeout on the ladder
     * INITIAL_TIMEOUT * 2^k, 0 <= k <= 10, stays on it.
     */
    method ThrottleSeconds(topo: Topology) returns (t: real)
      requires slaveHosts.Some? || connection.Some?
      modifies this`slaveHosts, this`timeoutSeconds
      ensures old(slaveHosts).Some? ==> slaveHosts == old(slaveHosts)
      ensures old(slaveHosts).None? ==> slaveHosts == Some(DiscoverFrom(topo, connection.value))
      ensures slaveHosts.Some?
      ensures var lag := MaxCurrentLag(topo, slaveHosts.value);
              && (lag > allowedLag && old(timeoutSeconds) < MAX_TIMEOUT ==> timeoutSeconds == old(timeoutSeconds) * 2.0)
              && (lag <= allowedLag && old(timeoutSeconds) > INITIAL_TIMEOUT ==> timeoutSeconds == old(timeoutSeconds) / 2.0)
              && (lag > allowedLag && old(timeoutSeconds) >= MAX_TIMEOUT ==> timeoutSeconds == old(timeoutSeconds))
              && (lag <= allowedLag && old(timeoutSeconds) <= INITIAL_TIMEOUT ==> timeoutSeconds == old(timeoutSeconds))
      ensures t == timeoutSeconds
      ensures OnLadder(old(timeoutSeconds)) ==> OnLadder(timeoutSeconds)
    {
      var lag := MaxCurrentSlaveLag(topo);
      timeoutSeconds := NextTimeout(timeoutSeconds, lag, allowedLag);
      t := timeoutSeconds;
    }

    /** `execute`: the pause it sleeps for before the next stride is the new timeout. */
    method Execute(topo: Topology) returns (pause: real)
      requires slaveHosts.Some? || connection.Some?
      modifies this`slaveHosts, this`timeoutSeconds
      ensures old(slaveHosts).Some? ==> slaveHosts == old(slaveHosts)
      ensures old(slaveHosts).None? ==> slaveHosts == Some(DiscoverFrom(topo, connection.value))
      ensures slaveHosts.Some?
      ensures timeoutSeconds == NextTimeout(old(timeoutSeconds), MaxCurrentLag(topo, slaveHosts.value), allowedLag)
      ensures pause == timeoutSeconds
    {
      pause := ThrottleSeconds(topo);
    }
  }

  /** A value of the connection configuration: text, or a nested hash held by reference. */
  datatype ConfigValue = Str(text: string) | Nested(hash: ConfigHash)

  /** A Ruby Hash of connection configuration, keyed by symbol name. */
  class ConfigHash {
    var entries: map<string, ConfigValue>

    constructor (entries: map<string, ConfigValue>)
      ensures this.entries == entries
    {
      this.entries := entries;
    }

    /** `Hash#dup`: a new hash with the same entries; nested hashes are shared, not copied. */
    method Dup() returns (copy: ConfigHash)
      ensures fresh(copy) && copy.entries == entries
    {
      copy := new ConfigHash(entries);
    }
  }

  const HOST_KEY: string := "host"

  /** Why `slave_config` raises: the selected shard has no hash under its name. */
  datatype ConfigError = NoShardHash(shard: string)

  /** The hash under `shard` in `config`, when there is one. */
  function ShardHash(config: map<string, ConfigValue>, shard: string): Option<ConfigHash> {
    if shard in config && config[shard].Nested? then Some(config[shard].hash) else None
  }

  /** The objects `slave_config` writes to: the shard's nested hash, when a shard is selected. */
  function Written(pool: ConfigHash, shard: Option<string>): set<ConfigHash>
    reads pool
  {
    if shard.Some? && ShardHash(pool.entries, shard.value).Some? then {ShardHash(pool.entries, shard.value).value} else {}
  }

  /**
   * `slave_config` on the pool's configuration `pool`, with `shard` the value the shard
   * selector returned (None when there is no selector or it returned nil). Without a
   * shard: a fresh copy of the configuration with :host set to the replica and every
   * other key unchanged. With a shard: the shard's nested hash with :host set, which is
   * the very object the pool's configuration holds, since `dup` is shallow.
   */
  method SlaveConfig(pool: ConfigHash, slave: Host, shard: Option<string>) returns (r: Result<ConfigHash, ConfigError>)
    modifies Written(pool, shard)
    ensures shard.None? ==>
              && r.Success? && fresh(r.value)
              && r.value.entries == old(pool.entries)[HOST_KEY := Str(slave)]
    ensures shard.Some? && ShardHash(old(pool.entries), shard.value).Some? ==>
              && r == Success(ShardHash(old(pool.entries), shard.value).value)
              && r.value.entries == old(r.value.entries)[HOST_KEY := Str(slave)]
    ensures shard.Some? && ShardHash(old(pool.entries), shard.value).None? ==>
              r == Failure(NoShardHash(shard.value))
  {
    var config := pool.Dup();
    if shard.Some? {
      var nested := ShardHash(config.entries, shard.value);
      if nested.None? {
        return Failure(NoShardHash(shard.value));
      }
      config := nested.value;
    }
    config.entries := config.entries[HOST_KEY := Str(slave)];
    r := Success(config);
  }

  /**
   * `slave_config` as evidently intended: the shard's hash is copied before :host is
   * set, so the pool's configuration is left as it was.
   */
  method SlaveConfigIsolated(pool: ConfigHash, slave: Host, shard: Option<string>) returns (r: Result<ConfigHash, ConfigError>)
    ensures shard.None? ==>
              && r.Success? && fresh(r.value)
              && r.value.entries == pool.entries[HOST_KEY := Str(slave)]
    ensures shard.Some? && ShardHash(pool.entries, shard.value).Some? ==>
              && r.Success? && fresh(r.value)
              && r.value.entries == ShardHash(pool.entries, shard.value).value.entries[HOST_KEY := Str(slave)]
    ensures shard.Some? && ShardHash(pool.entries, shard.value).None? ==>
              r == Failure(NoShardHash(shard.value))
  {
    var config := pool.Dup();
    if shard.Some? {
      var nested := ShardHash(config.entries, shard.value);
      if nested.None? {
        return Failure(NoShardHash(shard.value));
      }
      config := nested.value.Dup();
    }
    config.entries := config.entries[HOST_KEY := Str(slave)];
    r := Success(config);
  }
}
