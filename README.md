# LHM replica-lag throttler and cleanup, in Dafny

This project models two parts of LHM, the online schema migration library for MySQL, and
proves properties of them.

1. **The replica-lag throttler** `Lhm::Throttler::SlaveLag` (`lib/lhm/throttler/slave_lag.rb`).
   A copy proceeds in strides, and between strides the throttler waits. It finds the
   replicas by walking the replication tree from the primary connection, then reads the
   largest replication lag any of them reports. The pause doubles while that lag exceeds
   what is allowed and halves once the replicas have caught up. From the value `initialize`
   sets, the pause stays between `INITIAL_TIMEOUT` (0.1 s) and `MAX_TIMEOUT` (102.4 s). Each replica's connection
   configuration is the pool's configuration with the replica as host, or the configuration
   of the current shard.
2. **The cleanup of leftover tables** `Lhm.cleanup` / `Lhm.cleanup_aborted` and the
   `drop_triggers_and_tables` they share (`lib/lhm.rb`). The procedure first finds the
   tables LHM left behind:
   - archived `lhma_` tables, or
   - the `lhmn_` tables of aborted migrations.

   It can keep only the tables stamped no later than a cutoff. It then finds their
   triggers, and either drops everything (triggers first) or reports what it found and
   which call would drop it.

Modules, one per file:

| file | module | what it holds |
|---|---|---|
| `wrappers.dfy` | `Wrappers` | `Option` and `Result` |
| `text.dfy` | `Text` | the Ruby string operations the core uses: `partition(':')[0]`, `split('_').last`, and a `/^literal/` match, where `^` matches at the start of any line |
| `backoff.dfy` | `Backoff` | the control law of `throttle_seconds` as a function on exact reals, the ladder 0.1·2^k it keeps to, and its behaviour over many calls |
| `discovery.dfy` | `Discovery` | the database as a `Topology` value, `slaves_for_connection`, the worklist closure of `get_slave_hosts` as a function with its specification lemmas, and the maximum lag |
| `slave_lag.dfy` | `Throttler` | the class `SlaveLag`, whose fields its methods update in place, and `slave_config` over configuration hashes held by reference (`ConfigHash`) |
| `slave_lag_examples.dfy`, `throttler_examples.dfy` | `SlaveLagExamples`, `ThrottlerExamples` | the throttler's unit-test scenarios, stated as lemmas and as client methods |
| `cleanup.dfy` | `Lhm` | `drop_triggers_and_tables` over a `Connection` object with its tables, its triggers and the statements executed on it; the selection as written and as intended |
| `cleanup_examples.dfy` | `CleanupExamples` | where the selection as written goes wrong, and a cleanup followed by a dry run |

The database calls become plain inputs. The throttler receives a `Topology`:
- what each connection's process list shows (`select_slave_hosts`);
- which hosts a connection opens to (`slave_connection`, where a missing key is `nil`);
- the lag rows each replica reports (`slave_lag`).

The cleanup works on the names `show tables` and `show triggers` list. `Time.strptime` is a
`decode` parameter that reads a timestamp from the text after the literal, or fails.

The trigger `select` at `lib/lhm.rb:80-85` does not filter. The block's value is that of
`lhm_tables.each`, which returns its receiver, a truthy array, so with no table selected
every trigger is kept. With a table selected and any trigger present, the block calls
`trigger.name` on a `String`, which raises `NoMethodError`. `Lhm.TriggersAsWritten` and
`Lhm.SelectAsWritten` model this. `drop_triggers_and_tables` itself
(`Lhm.DropTriggersAndTables`) uses the intended selection, `Lhm.Select`, as described
under "## Findings".

## Model

| member | source | states |
|---|---|---|
| Text.Before | lib/lhm/throttler/slave_lag.rb:65 | `partition(':')[0]` is a prefix of the entry without ':', and the entry continues with ':' right after it when it is shorter |
| Text.BeforeFirst | lib/lhm/throttler/slave_lag.rb:65 | with the first ':' at index k, the host is exactly the text before k |
| Text.BeforeAbsent | lib/lhm/throttler/slave_lag.rb:65 | an entry without ':' is kept whole |
| Text.LastField | lib/lhm.rb:82 | `split('_').last` holds no '_' |
| Text.LastFieldSuffix | lib/lhm.rb:82 | the last field of `p_n` is `n` for any `n` without '_', whatever `p` holds |
| Text.SingleLineMatchIsPrefix | lib/lhm.rb:68 | on a single-line name, `/^prefix/` holds if and only if the name starts with the prefix |
| Backoff.NextTimeout | lib/lhm/throttler/slave_lag.rb:32-44 | one control step keeps a timeout on the ladder; under excess lag it never decreases a positive timeout, and without excess lag it never increases it |
| Backoff.RungTop | lib/lhm/throttler/slave_lag.rb:10 | `MAX_TIMEOUT` = `INITIAL_TIMEOUT`·1024 is the tenth rung, 0.1·2^10 |
| Backoff.LadderUp | lib/lhm/throttler/slave_lag.rb:35-37 | doubling a rung below `MAX_TIMEOUT` lands on a rung |
| Backoff.LadderDown | lib/lhm/throttler/slave_lag.rb:38-40 | halving a rung above `INITIAL_TIMEOUT` lands on a rung |
| Backoff.LadderBounds | lib/lhm/throttler/slave_lag.rb:6-10 | every rung lies within [`INITIAL_TIMEOUT`, `MAX_TIMEOUT`] |
| Backoff.RunStaysOnLadder | lib/lhm/throttler/slave_lag.rb:15-44 | from the timeout `initialize` sets, any sequence of observed lags keeps the timeout at 0.1·2^k with 0 ≤ k ≤ 10, hence within its bounds |
| Backoff.RunFromLadder | lib/lhm/throttler/slave_lag.rb:32-44 | any sequence of calls keeps a timeout that starts on the ladder on it |
| Backoff.SetterCanLeaveBounds | lib/lhm/throttler/slave_lag.rb:38-40 | the ladder holds only from `initialize`: a timeout of 0.15 set through the accessor halves to 0.075, below `INITIAL_TIMEOUT` |
| Backoff.SustainedLagBacksOff | lib/lhm/throttler/slave_lag.rb:35-43 | under sustained excess lag, n calls climb from rung k to rung min(k+n, 10) and stay at `MAX_TIMEOUT` |
| Backoff.RecoveryComesDown | lib/lhm/throttler/slave_lag.rb:38-43 | without excess lag, n calls come down from rung k to rung max(k−n, 0) and stay at `INITIAL_TIMEOUT` |
| Discovery.SlavesForConnection | lib/lhm/throttler/slave_lag.rb:64-67 | no more hosts than entries; no listed host has a port or is 'localhost' or '127.0.0.1' |
| Discovery.SlavesForConnectionAppend | lib/lhm/throttler/slave_lag.rb:65-66 | order is kept: the hosts of two runs of entries are those of the first run, then those of the second |
| Discovery.SlavesForConnectionMembers | lib/lhm/throttler/slave_lag.rb:64-67 | a host is listed if and only if some entry's text before ':' is that host and it is not a loopback address |
| Discovery.SlavesForConnectionPlain | lib/lhm/throttler/slave_lag.rb:64-67 | entries without a port that are not loopback addresses are listed unchanged |
| Discovery.UnseenShrinks | lib/lhm/throttler/slave_lag.rb:55-56 | recording a new host shrinks the set of hosts not yet seen, which is why the loop terminates |
| Discovery.Discover | lib/lhm/throttler/slave_lag.rb:53-60 | the loop as a function of the worklist and the hosts recorded so far: pop the last host, record it and append the replicas its connection shows when it is new and connectable, otherwise drop it; it terminates on every topology, and its properties are those of DiscoverNoDuplicates, DiscoverCloses and DiscoverDerives |
| Discovery.DiscoverFrom | lib/lhm/throttler/slave_lag.rb:50-62 | `get_slave_hosts` from the primary connection: the loop started on the primary's replicas with nothing recorded; DiscoverFromSpec states what it returns |
| Discovery.DiscoverVisits | lib/lhm/throttler/slave_lag.rb:54-58 | an unfolding step of `Discover`, used by the examples: a popped host that is new and connectable is recorded, and the hosts its connection shows are appended to the rest of the worklist |
| Discovery.DiscoverNoDuplicates | lib/lhm/throttler/slave_lag.rb:55-56 | the loop only appends to the hosts found so far, and never records a host twice |
| Discovery.DiscoverCloses | lib/lhm/throttler/slave_lag.rb:53-60 | the loop misses nothing: every connectable worklist host is recorded, and so is every connectable replica of a host it records |
| Discovery.ClosesRecorded | lib/lhm/throttler/slave_lag.rb:55-58 | the recording step keeps "misses nothing" |
| Discovery.ClosesSkipped | lib/lhm/throttler/slave_lag.rb:55 | the skipping step keeps "misses nothing" |
| Discovery.DiscoverDerives | lib/lhm/throttler/slave_lag.rb:53-60 | the loop invents nothing: each recorded host is connectable, and is a root or is shown by the connection of a host recorded before it |
| Discovery.ShownByExtends | lib/lhm/throttler/slave_lag.rb:56 | recording more hosts keeps every host they already show shown |
| Discovery.DerivedExtends | lib/lhm/throttler/slave_lag.rb:55-56 | recording a connectable root, or a host shown by a recorded one, keeps the list derived |
| Discovery.DerivedWithinClosed | lib/lhm/throttler/slave_lag.rb:50-62 | every derived host lies in every set that is closed under discovery |
| Discovery.DiscoverFromSpec | lib/lhm/throttler/slave_lag.rb:50-62 | `get_slave_hosts` returns no host twice and only hosts a connection opened to, each derived in order from the primary's replicas; its hosts form exactly the least closed set, so it finds every reachable replica and nothing else |
| Discovery.AllLagsMembers | lib/lhm/throttler/slave_lag.rb:74 | a value is in the flattened lag rows if and only if some replica reported it |
| Discovery.MaxOf | lib/lhm/throttler/slave_lag.rb:74 | `Array#max` is an element of the array and bounds every element |
| Discovery.MaxCurrentLag | lib/lhm/throttler/slave_lag.rb:73-77 | the max current lag is ≥ 0 and ≥ every replica's reported lag, and is 0 or the lag some replica reported, hence exactly 0 without replicas |
| Discovery.MaxOfLags | lib/lhm/throttler/slave_lag.rb:74 | the maximum of the flattened rows plus 0 has these three properties |
| Throttler.SlaveLag.constructor | lib/lhm/throttler/slave_lag.rb:14-19 | the timeout starts at `INITIAL_TIMEOUT`; stride and allowed lag come from the options or default to 40 000 and 10; no connection and no cached replicas yet |
| Throttler.SlaveLag.GetSlaveHosts | lib/lhm/throttler/slave_lag.rb:50-62 | the loop's result is the discovery closure from the primary connection, with no duplicates and only connectable hosts |
| Throttler.SlaveLag.SlaveHosts | lib/lhm/throttler/slave_lag.rb:46-48 | the first call discovers and caches the replicas, even when there are none; later calls return the cached list whatever the topology has become |
| Throttler.SlaveLag.MaxCurrentSlaveLag | lib/lhm/throttler/slave_lag.rb:73-77 | returns the max current lag of the cached replicas, never negative, and leaves an existing cache alone |
| Throttler.SlaveLag.ThrottleSeconds | lib/lhm/throttler/slave_lag.rb:32-44 | doubles the timeout when the lag exceeds what is allowed and it is below `MAX_TIMEOUT`; halves it when the lag is within what is allowed and it is above `INITIAL_TIMEOUT`; keeps it otherwise; returns the new timeout; a timeout on the ladder stays on it |
| Throttler.SlaveLag.Execute | lib/lhm/throttler/slave_lag.rb:21-23 | the pause before the next stride is the timeout after one control step on the current max lag |
| Throttler.ConfigHash.constructor | lib/lhm/throttler/slave_lag.rb:103 | a hash holds the entries it is built with |
| Throttler.ConfigHash.Dup | lib/lhm/throttler/slave_lag.rb:103 | `dup` is a fresh hash with the same entries |
| Throttler.SlaveConfig | lib/lhm/throttler/slave_lag.rb:102-107 | without a shard: a fresh copy of the pool configuration with `:host` set to the replica and every other key unchanged; with a shard: the pool's own nested shard hash, with `:host` written into it; a shard without a hash fails |
| Throttler.SlaveConfigIsolated | lib/lhm/throttler/slave_lag.rb:102-107 | as intended: the same configurations, always in a fresh hash, with the pool's configuration untouched |
| SlaveLagExamples.LoopbackReplicasAreIgnored | spec/unit/throttler/slave_lag_spec.rb:66-88 | no entries list nothing; 'localhost:1234' and '127.0.0.1:5678' list nothing |
| SlaveLagExamples.LoopbackIgnored | lib/lhm/throttler/slave_lag.rb:66 | an entry naming a loopback address before its port lists nothing |
| SlaveLagExamples.RemoteReplicaLosesItsPort | spec/unit/throttler/slave_lag_spec.rb:93 | 'server.example.com:1234' lists 'server.example.com' |
| SlaveLagExamples.RemoteReplicaWithoutPort | spec/unit/throttler/slave_lag_spec.rb:93 | 'anotherserver.example.com' is listed as it is |
| SlaveLagExamples.RemoteReplicasLoseTheirPorts | spec/unit/throttler/slave_lag_spec.rb:90-100 | the two remote entries list ['server.example.com', 'anotherserver.example.com'], in order |
| SlaveLagExamples.SlavesForConnectionPair | lib/lhm/throttler/slave_lag.rb:65-66 | two entries are listed in order, each as it would be alone |
| SlaveLagExamples.MultipleSlavesShape | spec/unit/throttler/slave_lag_spec.rb:131-150 | in the test's tree, the primary shows 1.1.1.1, whose connection shows 1.1.1.3 then 1.1.1.2, whose connections show nothing |
| SlaveLagExamples.DiscoveryIsLastInFirstOut | spec/unit/throttler/slave_lag_spec.rb:131-155 | that tree yields [1.1.1.1, 1.1.1.2, 1.1.1.3], for any three distinct plain hosts |
| SlaveLagExamples.TreeOfThree | lib/lhm/throttler/slave_lag.rb:53-60 | in any topology of that shape, the pops from the end of the worklist record h1, then h2, then h3 |
| SlaveLagExamples.TwoLeaves | lib/lhm/throttler/slave_lag.rb:54-56 | with h3 and h2 queued, h2 is recorded before h3 |
| SlaveLagExamples.RecordsLeaf | lib/lhm/throttler/slave_lag.rb:54-58 | an unfolding step of `Discover` for `TreeOfThree`: popping a new host whose connection shows nothing records it and goes on with the rest of the worklist |
| SlaveLagExamples.RecordsRoot | lib/lhm/throttler/slave_lag.rb:54-58 | an unfolding step of `Discover` for `TreeOfThree`: the first host recorded has its replicas become the worklist |
| SlaveLagExamples.DiscoveryScenarios | spec/unit/throttler/slave_lag_spec.rb:104-129 | a primary without replicas yields none; a replica whose connection shows itself is listed once |
| ThrottlerExamples.LaggingReplicaLag | lib/lhm/throttler/slave_lag.rb:74 | a single replica reporting lag L gives a max current lag of L |
| ThrottlerExamples.ThrottleScenarios | spec/unit/throttler/slave_lag_spec.rb:12-62 | a client of the class: no lag keeps the initial timeout, a large lag doubles it but not past the maximum, no lag halves it and not below the minimum on repeated runs; `execute` pauses for the timeout and keeps the cached replicas |
| ThrottlerExamples.ConstructionScenarios | lib/lhm/throttler/slave_lag.rb:14-19 | without options the stride is 40 000 and the allowed lag 10; given options are taken as they are |
| ThrottlerExamples.SlaveConfigScenarios | spec/unit/throttler/slave_lag_spec.rb:181-207 | for the pool configuration of the test, the replica's configuration has its host and keeps the shard entry, the shard's configuration is the shard's hash with its host, and an unknown shard fails |
| ThrottlerExamples.ShardConfigIsShared | lib/lhm/throttler/slave_lag.rb:103-105 | as written, the shard branch writes the replica's host into the pool's own shard hash; the isolated version leaves it as it was |
| Lhm.Filter | lib/lhm.rb:68 | `select` keeps exactly the names the block accepts, and no more names than it is given |
| Lhm.FilterRejectsAll | lib/lhm.rb:68 | a block that accepts no name selects nothing |
| Lhm.Without | lib/lhm.rb:88-93 | a drop removes exactly the named objects |
| Lhm.WithoutAll | lib/lhm.rb:88-93 | after a sequence of drops, an object remains if and only if it was there and none of the drops named it |
| Lhm.Connection.constructor | lib/lhm.rb:68-76 | the database starts with the listed tables and triggers, and nothing executed |
| Lhm.Connection.Execute | lib/lhm.rb:88-93 | executing `drop … if exists` logs the statement and removes the named trigger or table, if present, leaving the other kind alone |
| Lhm.Candidates | lib/lhm.rb:68 | a table is a candidate if and only if its name matches `/^#{pattern}/` |
| Lhm.ParseTime | lib/lhm.rb:71 | `Time.strptime(table, literal + format)`: no time unless the name opens with the literal, otherwise what `decode` reads after it |
| Lhm.KeepUntil | lib/lhm.rb:70-73 | the `select!` succeeds if and only if every candidate carries a timestamp. On success a table is kept if and only if its timestamp is no later than the cutoff. On failure it names the first table without one |
| Lhm.KeepUntilFailureStays | lib/lhm.rb:70-73 | once a prefix of the tables raises, the whole `select!` raises the same way |
| Lhm.TriggersFor | lib/lhm.rb:80-85 | as intended: a trigger is selected if and only if it matches `/^lhmt_\w{3}_name/` for the last `_`-field of a selected table |
| Lhm.TriggersAsWritten | lib/lhm.rb:80-85 | as written: it raises if and only if a table is selected and there is a trigger; otherwise it keeps every trigger |
| Lhm.TriggerMatches | lib/lhm.rb:83 | `trigger =~ /^lhmt_(\w{3})_#{name}/`: at the start of some line, `lhmt_`, three word characters, `_` and the name; CleanupExamples.TriggerOfMatches shows the triggers LHM names match |
| Lhm.Select | lib/lhm.rb:67-85 | as intended: the candidates, cut off by the timestamp after the prefix in use, and the triggers belonging to the tables kept; SelectMembers states its members and its failure |
| Lhm.SelectAsWritten | lib/lhm.rb:67-85 | as written: the cutoff reads the timestamp after the literal `lhma_` whatever the prefix, and the triggers go through TriggersAsWritten; the CleanupExamples lemmas set it against Select |
| Lhm.SelectMembers | lib/lhm.rb:68-85 | as intended: the selection fails if and only if there is a cutoff and some candidate has no timestamp. Otherwise a table is selected if and only if it matches the prefix and is stamped no later than the cutoff, and a trigger if and only if it belongs to a selected table |
| Lhm.Drops | lib/lhm.rb:87-93 | a run executes one drop per selected trigger, in order, then one drop per selected table, in order |
| Lhm.TriggersDroppedFirst | lib/lhm.rb:87-93 | no trigger is dropped after a table; a statement is a trigger drop if and only if it comes before the table drops |
| Lhm.Guidance | lib/lhm.rb:101 | the call the report names: `cleanup` for the prefix `lhma_`, `cleanup_aborted` for any other |
| Lhm.KeepStampedUntil | lib/lhm.rb:69-74 | the in-place `select!` loop computes `KeepUntil` |
| Lhm.DropTriggers | lib/lhm.rb:88-90 | the loop logs one drop per trigger, in order, and removes those triggers, leaving the tables alone |
| Lhm.DropTables | lib/lhm.rb:91-93 | the loop logs one drop per table, in order, and removes those tables, leaving the triggers alone |
| Lhm.DropSelection | lib/lhm.rb:87-94 | the run logs exactly the drops of the selection, triggers first, and removes exactly the selected tables and triggers |
| Lhm.Plan | lib/lhm.rb:68-85 | as intended: the selection phase computes the intended selection from the database's current names, or the error it raises |
| Lhm.Act | lib/lhm.rb:87-104 | with `run`, it drops the selection, triggers first, and returns true. Without `run`, it executes nothing and returns true if and only if nothing was selected; otherwise it names `cleanup` for 'lhma_' and `cleanup_aborted` for any other prefix |
| Lhm.DropTriggersAndTables | lib/lhm.rb:67-105 | as intended: when the intended selection (`Lhm.Select`) raises, nothing is executed; otherwise it acts on that selection as `Act` states |
| Lhm.Cleanup | lib/lhm.rb:59-61 | as intended: `drop_triggers_and_tables` with 'lhma_'; a report names `cleanup` |
| Lhm.CleanupAborted | lib/lhm.rb:63-65 | as intended: `drop_triggers_and_tables` with 'lhmn_'; a report names `cleanup_aborted` |
| Lhm.RunLeavesNothing | lib/lhm.rb:87-97 | as intended: without a cutoff the selection succeeds, and after a run a dry run finds nothing left to drop |
| CleanupExamples.PrefixMatches | lib/lhm.rb:68 | a name that starts with the prefix matches `/^#{pattern}/` |
| CleanupExamples.AbortedCutoffAsWrittenFails | lib/lhm.rb:69-73 | as written, `cleanup_aborted` with a cutoff raises whenever an `lhmn_` table exists |
| CleanupExamples.AbortedCutoffSelects | lib/lhm.rb:69-73 | an `lhmn_` table stamped before the cutoff: as written the call raises on it, as intended it is selected |
| CleanupExamples.ForeignTriggersAsWritten | lib/lhm.rb:80-85 | with no table selected, as written every trigger of the database is selected, and as intended none |
| CleanupExamples.TriggerNameAsWrittenFails | lib/lhm.rb:80-85 | with a table selected and any trigger present, as written the selection raises on the first trigger, and as intended it succeeds |
| CleanupExamples.TriggerOfMatches | lib/lhm.rb:83 | `lhmt_<kind>_<name>` matches `/^lhmt_(\w{3})_#{name}/` for any three word characters |
| CleanupExamples.SelectOne | lib/lhm.rb:68-85 | a table with the prefix and a trigger matching its last field are both selected |
| CleanupExamples.FilterKeepsOne | lib/lhm.rb:68 | a single name the block accepts is selected |
| CleanupExamples.ArchiveTriggersSelected | lib/lhm.rb:80-85 | as intended, the archive `lhma_<stamp>_<name>` is selected together with each trigger `lhmt_<kind>_<name>` |
| CleanupExamples.ArchiveThenClean | lib/lhm.rb:87-97 | a client of `cleanup`: a dry run executes nothing and names `cleanup`, a run drops the selection with the archive table after the triggers, and a dry run afterwards finds nothing to drop |

## Left out

- `execute`'s `sleep` (`lib/lhm/throttler/slave_lag.rb:22`) is real-time suspension. `Throttler.SlaveLag.Execute` returns the pause instead of sleeping.
- The SQL and the driver are not modelled: `select_slave_hosts`, `slave_lag`, `fetch_slave_seconds`, `exec_query` and `Mysql::Result` (`lib/lhm/throttler/slave_lag.rb:69-71,79-90,110-119`). They become the `Topology` maps: process-list entries per connection, and integer lag rows per replica, where `.to_i` has already turned NULL into 0.
- The `Lhm::Error` re-raise in `slave_lag` (`lib/lhm/throttler/slave_lag.rb:88-89`) is not modelled. Every replica's lag rows are available in the model.
- `slave_connection` (`lib/lhm/throttler/slave_lag.rb:92-100`) becomes the `connect` map, where a missing key is the `nil` its rescue returns. `Discovery.MaxCurrentLag` does not model a replica that opened a connection during discovery but fails when its lag is read, because the source opens a new connection there and the model reads `lagOf` directly.
- The topology is fixed during one call; the source queries a live database that can change between queries.
- `Throttler.SlaveLag.GetSlaveHosts` requires a primary connection. The source calls `select_values` on `nil` and raises when `@connection` was never set.
- `@get_current_shard` (`lib/lhm/throttler/slave_lag.rb:18,104`) is a lambda called twice. `Throttler.SlaveConfig` takes the shard name it returns as a parameter, with `None` for no lambda or a `nil` result, so both calls are taken to return the same value.
- `Throttler.SlaveConfig`: `ActiveRecord::Base.connection_pool.spec.config` is the `pool` argument. The missing-shard `Failure` stands for two errors: the `NoMethodError` raised by `nil[:host] = slave` when the shard key is absent, and the `TypeError` raised by `String#[]=` with a Symbol index when the shard key holds a string rather than a hash.
- Logging (`Lhm.logger.info`) and the text `puts` prints (`lib/lhm.rb:96,99-102`) are left out. Only the name of the call the report recommends is kept, as `advice`.
- `Lhm.Connection.Execute`: a statement is modelled by its effect on the name lists, not by its SQL text. The name lists do not record which table a trigger sits on, so MySQL dropping a table's triggers together with the table is not modelled: a trigger the selection misses stays in `triggers` after its table is dropped. For example, `Lhm.Select` selects the archive `lhma_s_user_profiles` but not the trigger `lhmt_ins_user_profiles`, because the trigger pattern expects the table's last `_`-field, `profiles`, right after `lhmt_ins_`; after a run the model keeps that trigger, where MySQL would have dropped it with the table.
- The `respond_to?(:trigger)` branch of the trigger `collect` (`lib/lhm.rb:76-78`) is left out. `show triggers` is read as a list of trigger names, which do not respond to `trigger`.
- `Time.strptime` (`lib/lhm.rb:71`) becomes the `decode` parameter. `Lhm.ParseTime` checks the literal prefix, and `decode` reads the timestamp after it or fails. Times are integers ordered as the times are.
- `Text.MatchesAtLineStart` and `Lhm.TriggerMatches` treat the prefix and the table's last field as literal text. Regular-expression metacharacters in table names are not modelled.
- `Lhm.TriggersFor` correlates a trigger with a table through the last `_`-field of the table's name, as the block at `lib/lhm.rb:82-83` does. It does not model a finer correlation.
- `change_table` (`lib/lhm.rb:45-51`) depends on `Table`, `Invoker` and the migrator, which are not part of this model.
- `setup`, `adapter`, `connection` and `logger` (`lib/lhm.rb:107-144`) are left out. They are process-global lazy class variables; the model passes the connection explicitly.
- The entangler, chunker, switcher and invoker are not part of this model.

## Findings

| source | as written | input that shows it | evidently intended | confidence | as-written member | corrected member |
|---|---|---|---|---|---|---|
| lib/lhm.rb:71 | the timestamp is parsed with the format `'lhma_%Y_%m_%d_%H_%M_%S'` whatever the prefix | `cleanup_aborted(true, until: t)` with a table `lhmn_2024_01_01_00_00_00_users`: `strptime` raises `ArgumentError` and nothing is cleaned | parse after the prefix in use, so `lhmn_` tables stamped before the cutoff are selected | not executed | Lhm.SelectAsWritten, CleanupExamples.AbortedCutoffAsWrittenFails, CleanupExamples.AbortedCutoffSelects | Lhm.Select, Lhm.SelectMembers |
| lib/lhm.rb:80-85 | the `select` block returns the value of `lhm_tables.each`, which is the array and always truthy, so the regular-expression test never filters anything | no `lhm_` table but a trigger `audit_insert`: the trigger is selected, and with `run` it is dropped. One `lhma_` table and any trigger: `trigger.name` is called on a `String` and raises `NoMethodError` | keep a trigger if and only if it matches `/^lhmt_\w{3}_name/` for the last field of some selected table | not executed | Lhm.TriggersAsWritten, Lhm.SelectAsWritten, CleanupExamples.ForeignTriggersAsWritten, CleanupExamples.TriggerNameAsWrittenFails | Lhm.TriggersFor, Lhm.Select, CleanupExamples.ArchiveTriggersSelected |
| lib/lhm/throttler/slave_lag.rb:103-105 | `dup` is shallow, so with a current shard the assignment of `:host` writes into the shard hash the pool's configuration holds | pool configuration `{host: 'master', shard_1: {host: 'master'}}` with shard `shard_1` and replica `slave`: afterwards the pool's `shard_1` configuration has host `slave` | copy the shard's hash before setting `:host`, leaving the pool's configuration as it was | not executed | Throttler.SlaveConfig, ThrottlerExamples.ShardConfigIsShared | Throttler.SlaveConfigIsolated |
