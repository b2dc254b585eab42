/**
 * `Lhm.cleanup`, `Lhm.cleanup_aborted` and the `drop_triggers_and_tables` they share:
 * find the tables LHM left behind (archived `lhma_` copies, or `lhmn_` copies of aborted
 * migrations), optionally only those stamped no later than a cutoff, find their
 * triggers, and either drop them all, triggers first, or report them.
 *
 * The connection is reduced to what the procedure sees of it: the names `show tables`
 * and `show triggers` list, and the statements it executes.
 */
module Lhm {
  import opened Wrappers
  import opened Text

  /** The prefix of tables archived by a finished migration (`cleanup`). */
  const ARCHIVE_PREFIX: string := "lhma_"
  /** The prefix of the new tables of migrations that did not finish (`cleanup_aborted`). */
  const ABORTED_PREFIX: string := "lhmn_"

  /** A point in time, as an ordered key. */
  type Time = int

  /** The statements the procedure executes: `drop trigger if exists` and `drop table if exists`. */
  datatype Statement = DropTrigger(trigger: string) | DropTable(table: string)

  /** Why the procedure raises before dropping anything. */
  datatype CleanupError =
    | /** `Time.strptime` cannot read a timestamp from the table's name (ArgumentError). */
      UnparsableTimestamp(table: string)
    | /** `trigger.name` is called on a String (NoMethodError). */
      UndefinedMethodName(trigger: string)

  /** The tables and triggers the procedure drops or reports, in order. */
  datatype Selection = Selection(tables: seq<string>, triggers: seq<string>)

  /** The names of `s` that `keep` accepts, in order. */
  function Filter(s: seq<string>, keep: string -> bool): (r: seq<string>)
    ensures forall x :: x in r <==> x in s && keep(x)
    ensures |r| <= |s|
  {
    if s == [] then [] else (if keep(s[0]) then [s[0]] else []) + Filter(s[1..], keep)
  }

  /** A filter that accepts none of the names keeps nothing. */
  lemma {:induction false} FilterRejectsAll(s: seq<string>, keep: string -> bool)
    requires forall x :: x in s ==> !keep(x)
    ensures Filter(s, keep) == []
  {
    if s != [] {
      FilterRejectsAll(s[1..], keep);
    }
  }

  /** `s` without the names in `gone`, in order. */
  function Without(s: seq<string>, gone: set<string>): (r: seq<string>)
    ensures forall x :: x in r <==> x in s && x !in gone
  {
    Filter(s, x => x !in gone)
  }

  /** `s` after the names of `names` are removed one after the other. */
  function WithoutAll(s: seq<string>, names: seq<string>): (r: seq<string>)
    ensures forall x :: x in r <==> x in s && x !in names
    decreases |names|
  {
    if names == [] then s
    else
      assert names == names[..|names| - 1] + [names[|names| - 1]];
      Without(WithoutAll(s, names[..|names| - 1]), {names[|names| - 1]})
  }

  /** The database behind `connection`: its tables, its triggers, and what was executed. */
  class Connection {
    var tables: seq<string>
    var triggers: seq<string>
    var log: seq<Statement>

    constructor (tables: seq<string>, triggers: seq<string>)
      ensures this.tables == tables && this.triggers == triggers && log == []
    {
      this.tables := tables;
      this.triggers := triggers;
      log := [];
    }

    /** `connection.execute`: a drop removes the named table or trigger, if it exists. */
    method Execute(s: Statement)
      modifies this
      ensures log == old(log) + [s]
      ensures s.DropTrigger? ==> triggers == Without(old(triggers), {s.trigger}) && tables == old(tables)
      ensures s.DropTable? ==> tables == Without(old(tables), {s.table}) && triggers == old(triggers)
    {
      log := log + [s];
      match s
      case DropTrigger(g) => triggers := Without(triggers, {g});
      case DropTable(t) => tables := Without(tables, {t});
    }
  }

  /** The tables whose name matches `/^#{pattern}/`, in order. */
  function Candidates(pattern: string, tables: seq<string>): (r: seq<string>)
    ensures forall t :: t in r <==> t in tables && MatchesAtLineStart(t, pattern)
    ensures |r| <= |tables|
  {
    Filter(tables, Prefixed(pattern))
  }

  /** The test `name =~ /^#{pattern}/`. */
  function Prefixed(pattern: string): string -> bool {
    t => MatchesAtLineStart(t, pattern)
  }

  /**
   * `Time.strptime(table, literal + '%Y_%m_%d_%H_%M_%S')`: the literal must open the name,
   * and `decode` reads the timestamp after it, None where strptime raises.
   */
  function ParseTime(table: string, literal: string, decode: string -> Option<Time>): Option<Time> {
    if literal <= table then decode(table[|literal|..]) else None
  }

  /**
   * The `select!` on the candidates when a cutoff is given: keep the tables stamped no
   * later than `until`, in order, or fail on the first name without a timestamp.
   */
  function KeepUntil(tables: seq<string>, literal: string, until: Time, decode: string -> Option<Time>): (r: Result<seq<string>, CleanupError>)
    ensures r.Success? <==> forall t :: t in tables ==> ParseTime(t, literal, decode).Some?
    ensures r.Success? ==> forall t :: t in r.value <==>
              t in tables && ParseTime(t, literal, decode).Some? && ParseTime(t, literal, decode).value <= until
    ensures r.Failure? ==> exists k :: (0 <= k < |tables| && r.error == UnparsableTimestamp(tables[k])
              && ParseTime(tables[k], literal, decode).None?
              && forall j :: 0 <= j < k ==> ParseTime(tables[j], literal, decode).Some?)
    decreases |tables|
  {
    if tables == [] then Success([])
    else
      var init := tables[..|tables| - 1];
      var last := tables[|tables| - 1];
      assert tables == init + [last];
      match KeepUntil(init, literal, until, decode)
      case Failure(e) => Failure(e)
      case Success(kept) =>
        match ParseTime(last, literal, decode)
        case None => Failure(UnparsableTimestamp(last))
        case Some(time) => Success(if time <= until then kept + [last] else kept)
  }

  /** Once a prefix of the tables fails, the whole list fails the same way. */
  lemma {:induction false} KeepUntilFailureStays(tables: seq<string>, k: nat, literal: string, until: Time, decode: string -> Option<Time>)
    requires k <= |tables| && KeepUntil(tables[..k], literal, until, decode).Failure?
    ensures KeepUntil(tables, literal, until, decode) == KeepUntil(tables[..k], literal, until, decode)
    decreases |tables|
  {
    if k == |tables| {
      assert tables[..k] == tables;
    } else {
      var init := tables[..|tables| - 1];
      assert init[..k] == tables[..k];
      KeepUntilFailureStays(init, k, literal, until, decode);
    }
  }

  /** A character `\w` matches. */
  predicate WordChar(c: char) {
    'a' <= c <= 'z' || 'A' <= c <= 'Z' || '0' <= c <= '9' || c == '_'
  }

  /** `s` opens with `lhmt_`, three word characters, `_` and `name`. */
  predicate TriggerAt(s: string, name: string) {
    && |s| >= 9
    && s[..5] == "lhmt_"
    && WordChar(s[5]) && WordChar(s[6]) && WordChar(s[7])
    && s[8] == '_'
    && name <= s[9..]
  }

  /** `trigger =~ /^lhmt_(\w{3})_#{name}/`, for a name without regular-expression metacharacters. */
  predicate TriggerMatches(trigger: string, name: string) {
    exists i | 0 <= i <= |trigger| :: LineStart(trigger, i) && TriggerAt(trigger[i..], name)
  }

  /** The trigger belongs to one of the tables: it matches the last `_`-field of its name. */
  predicate BelongsToSome(trigger: string, tables: seq<string>) {
    exists t | t in tables :: TriggerMatches(trigger, LastField(t))
  }

  /**
   * The trigger selection at lib/lhm.rb:80-85 as evidently intended: the triggers that
   * belong to one of the selected tables, in order; none when no table is selected.
   */
  function TriggersFor(tables: seq<string>, triggers: seq<string>): (r: seq<string>)
    ensures forall g :: g in r <==> g in triggers && BelongsToSome(g, tables)
    ensures |r| <= |triggers|
  {
    Filter(triggers, BelongingTo(tables))
  }

  function BelongingTo(tables: seq<string>): string -> bool {
    g => BelongsToSome(g, tables)
  }

  /**
   * The trigger selection as written: the block's value is that of `lhm_tables.each`,
   * the array itself, which is truthy. With no tables every trigger is kept; with tables,
   * the first trigger's block calls `name` on a String and raises.
   */
  function TriggersAsWritten(tables: seq<string>, triggers: seq<string>): (r: Result<seq<string>, CleanupError>)
    ensures r.Success? ==> r.value == triggers
    ensures r.Failure? <==> tables != [] && triggers != []
  {
    if triggers == [] || tables == [] then Success(triggers)
    else Failure(UndefinedMethodName(triggers[0]))
  }

  /** The tables left after the optional cutoff, from the candidates. */
  function Cutoff(candidates: seq<string>, literal: string, until: Option<Time>, decode: string -> Option<Time>): Result<seq<string>, CleanupError> {
    if until.Some? then KeepUntil(candidates, literal, until.value, decode) else Success(candidates)
  }

  /**
   * What the procedure selects, as evidently intended: the candidates, cut off by the
   * timestamp after the prefix itself, and the triggers belonging to the tables kept.
   */
  function Select(pattern: string, until: Option<Time>, decode: string -> Option<Time>, tables: seq<string>, triggers: seq<string>): Result<Selection, CleanupError> {
    match Cutoff(Candidates(pattern, tables), pattern, until, decode)
    case Failure(e) => Failure(e)
    case Success(kept) => Success(Selection(kept, TriggersFor(kept, triggers)))
  }

  /**
   * What lib/lhm.rb:67-85 selects as written: the timestamp is read after the literal
   * 'lhma_' whatever the prefix, and the triggers go through TriggersAsWritten.
   */
  function SelectAsWritten(pattern: string, until: Option<Time>, decode: string -> Option<Time>, tables: seq<string>, triggers: seq<string>): Result<Selection, CleanupError> {
    match Cutoff(Candidates(pattern, tables), ARCHIVE_PREFIX, until, decode)
    case Failure(e) => Failure(e)
    case Success(kept) =>
      match TriggersAsWritten(kept, triggers)
      case Failure(e) => Failure(e)
      case Success(selected) => Success(Selection(kept, selected))
  }

  /**
   * A table is selected iff its name matches the prefix and, under a cutoff, it is stamped
   * no later than the cutoff; a trigger iff it belongs to a selected table. Selection fails
   * iff, under a cutoff, some candidate carries no timestamp.
   */
  lemma SelectMembers(pattern: string, until: Option<Time>, decode: string -> Option<Time>, tables: seq<string>, triggers: seq<string>)
    ensures var plan := Select(pattern, until, decode, tables, triggers);
            && (plan.Failure? <==> until.Some? && exists t :: t in tables && MatchesAtLineStart(t, pattern) && ParseTime(t, pattern, decode).None?)
            && (plan.Success? ==> forall t :: t in plan.value.tables <==>
                  && t in tables && MatchesAtLineStart(t, pattern)
                  && (until.Some? ==> ParseTime(t, pattern, decode).Some? && ParseTime(t, pattern, decode).value <= until.value))
            && (plan.Success? ==> forall g :: g in plan.value.triggers <==> g in triggers && BelongsToSome(g, plan.value.tables))
  {
  }

  /** The drops of a selection: one per trigger, then one per table, each in order. */
  function Drops(sel: Selection): (r: seq<Statement>)
    ensures |r| == |sel.triggers| + |sel.tables|
    ensures forall i :: 0 <= i < |sel.triggers| ==> r[i] == DropTrigger(sel.triggers[i])
    ensures forall i :: 0 <= i < |sel.tables| ==> r[|sel.triggers| + i] == DropTable(sel.tables[i])
  {
    TriggerDrops(sel.triggers) + TableDrops(sel.tables)
  }

  function TriggerDrops(ts: seq<string>): seq<Statement> {
    seq(|ts|, i requires 0 <= i < |ts| => DropTrigger(ts[i]))
  }

  function TableDrops(ts: seq<string>): seq<Statement> {
    seq(|ts|, i requires 0 <= i < |ts| => DropTable(ts[i]))
  }

  /** No trigger is dropped after a table: every statement after a table drop drops a table. */
  lemma {:induction false} TriggersDroppedFirst(sel: Selection)
    ensures forall i, j :: 0 <= i < j < |Drops(sel)| && Drops(sel)[i].DropTable? ==> Drops(sel)[j].DropTable?
    ensures forall i :: 0 <= i < |Drops(sel)| ==> (Drops(sel)[i].DropTrigger? <==> i < |sel.triggers|)
  {
    var r := Drops(sel);
    forall i | 0 <= i < |r|
      ensures r[i].DropTrigger? <==> i < |sel.triggers|
    {
      if i >= |sel.triggers| {
        assert r[|sel.triggers| + (i - |sel.triggers|)] == DropTable(sel.tables[i - |sel.triggers|]);
      }
    }
  }

  /** The name the dry-run report tells the user to call with `run` set. */
  function Guidance(pattern: string): string {
    if pattern == ARCHIVE_PREFIX then "cleanup" else "cleanup_aborted"
  }

  /**
   * Acting on the selection `sel` took the database from (tables0, triggers0, log0) to
   * `conn`'s state, returning `r` and `advice`: with `run`, every selected trigger is
   * dropped, then every selected table, and the result is true; without, nothing is
   * executed, the result says whether nothing was selected, and otherwise the report
   * names the entry point to call.
   */
  ghost predicate Acted(conn: Connection, sel: Selection, pattern: string, run: bool,
                        tables0: seq<string>, triggers0: seq<string>, log0: seq<Statement>,
                        r: bool, advice: Option<string>)
    reads conn
  {
    if run then
      && r && advice == None
      && conn.log == log0 + Drops(sel)
      && conn.tables == WithoutAll(tables0, sel.tables)
      && conn.triggers == WithoutAll(triggers0, sel.triggers)
    else
      var clean := sel.tables == [] && sel.triggers == [];
      && r == clean
      && advice == (if clean then None else Some(Guidance(pattern)))
      && conn.log == log0 && conn.tables == tables0 && conn.triggers == triggers0
  }

  /**
   * One call of the procedure on a database holding `tables0` and `triggers0`: when the
   * selection fails, it raises and executes nothing; otherwise it acts on the selection.
   */
  ghost predicate Performed(conn: Connection, pattern: string, run: bool, until: Option<Time>, decode: string -> Option<Time>,
                            tables0: seq<string>, triggers0: seq<string>, log0: seq<Statement>,
                            r: Result<bool, CleanupError>, advice: Option<string>)
    reads conn
  {
    match Select(pattern, until, decode, tables0, triggers0)
    case Failure(e) =>
      r == Failure(e) && advice == None && conn.log == log0 && conn.tables == tables0 && conn.triggers == triggers0
    case Success(sel) =>
      r.Success? && Acted(conn, sel, pattern, run, tables0, triggers0, log0, r.value, advice)
  }

  /**
   * The `select!` at lib/lhm.rb:70-73: the tables stamped no later than `until`, in order,
   * or the first one whose name carries no timestamp after `literal`.
   */
  method KeepStampedUntil(tables: seq<string>, literal: string, until: Time, decode: string -> Option<Time>)
    returns (r: Result<seq<string>, CleanupError>)
    ensures r == KeepUntil(tables, literal, until, decode)
  {
    var kept: seq<string> := [];
    var i := 0;
    while i < |tables|
      invariant 0 <= i <= |tables|
      invariant KeepUntil(tables[..i], literal, until, decode) == Success(kept)
    {
      var table := tables[i];
      var time := ParseTime(table, literal, decode);
      assert tables[..i + 1][..i] == tables[..i];
      if time.None? {
        KeepUntilFailureStays(tables, i + 1, literal, until, decode);
        assert tables[..|tables|] == tables;
        return Failure(UnparsableTimestamp(table));
      }
      if time.value <= until {
        kept := kept + [table];
      }
      i := i + 1;
    }
    assert tables[..i] == tables;
    r := Success(kept);
  }

  /** The first loop of the `run` branch: drop each trigger, in order. */
  method DropTriggers(conn: Connection, triggers: seq<string>)
    modifies conn
    ensures conn.log == old(conn.log) + TriggerDrops(triggers)
    ensures conn.triggers == WithoutAll(old(conn.triggers), triggers)
    ensures conn.tables == old(conn.tables)
  {
    assert triggers[..0] == [];
    for i := 0 to |triggers|
      invariant conn.log == old(conn.log) + TriggerDrops(triggers[..i])
      invariant conn.triggers == WithoutAll(old(conn.triggers), triggers[..i])
      invariant conn.tables == old(conn.tables)
    {
      conn.Execute(DropTrigger(triggers[i]));
      assert triggers[..i + 1][..i] == triggers[..i];
      assert TriggerDrops(triggers[..i + 1]) == TriggerDrops(triggers[..i]) + [DropTrigger(triggers[i])];
    }
    assert triggers[..|triggers|] == triggers;
  }

  /** The second loop of the `run` branch: drop each table, in order. */
  method DropTables(conn: Connection, tables: seq<string>)
    modifies conn
    ensures conn.log == old(conn.log) + TableDrops(tables)
    ensures conn.tables == WithoutAll(old(conn.tables), tables)
    ensures conn.triggers == old(conn.triggers)
  {
    assert tables[..0] == [];
    for i := 0 to |tables|
      invariant conn.log == old(conn.log) + TableDrops(tables[..i])
      invariant conn.tables == WithoutAll(old(conn.tables), tables[..i])
      invariant conn.triggers == old(conn.triggers)
    {
      conn.Execute(DropTable(tables[i]));
      assert tables[..i + 1][..i] == tables[..i];
      assert TableDrops(tables[..i + 1]) == TableDrops(tables[..i]) + [DropTable(tables[i])];
    }
    assert tables[..|tables|] == tables;
  }

  /** The `run` branch (lib/lhm.rb:87-94): the selected triggers, then the selected tables. */
  method DropSelection(conn: Connection, sel: Selection)
    modifies conn
    ensures conn.log == old(conn.log) + Drops(sel)
    ensures conn.tables == WithoutAll(old(conn.tables), sel.tables)
    ensures conn.triggers == WithoutAll(old(conn.triggers), sel.triggers)
  {
    DropTriggers(conn, sel.triggers);
    DropTables(conn, sel.tables);
    assert conn.log == old(conn.log) + (TriggerDrops(sel.triggers) + TableDrops(sel.tables));
  }

  /**
   * The selection half of `drop_triggers_and_tables` (lib/lhm.rb:68-85): the candidate
   * tables, cut off by `until`, and the triggers belonging to the tables kept.
   */
  method Plan(conn: Connection, pattern: string, until: Option<Time>, decode: string -> Option<Time>)
    returns (plan: Result<Selection, CleanupError>)
    ensures plan == Select(pattern, until, decode, conn.tables, conn.triggers)
  {
    var lhmTables := Candidates(pattern, conn.tables);
    if until.Some? {
      var kept := KeepStampedUntil(lhmTables, pattern, until.value, decode);
      if kept.Failure? {
        return Failure(kept.error);
      }
      lhmTables := kept.value;
    }
    var lhmTriggers := TriggersFor(lhmTables, conn.triggers);
    plan := Success(Selection(lhmTables, lhmTriggers));
  }

  /**
   * The action half of `drop_triggers_and_tables` (lib/lhm.rb:87-104): drop the
   * selection, triggers first, or report whether there is anything to drop.
   */
  method Act(conn: Connection, sel: Selection, pattern: string, run: bool) returns (r: bool, advice: Option<string>)
    modifies conn
    ensures Acted(conn, sel, pattern, run, old(conn.tables), old(conn.triggers), old(conn.log), r, advice)
  {
    if run {
      DropSelection(conn, sel);
      return true, None;
    } else if sel.tables == [] && sel.triggers == [] {
      return true, None;
    } else {
      return false, Some(Guidance(pattern));
    }
  }

  /**
   * `drop_triggers_and_tables(pattern, run, options)`, with `until` standing for
   * `options[:until]` and `decode` for the timestamp reading of `Time.strptime`.
   */
  method DropTriggersAndTables(conn: Connection, pattern: string, run: bool, until: Option<Time>, decode: string -> Option<Time>)
    returns (r: Result<bool, CleanupError>, advice: Option<string>)
    modifies conn
    ensures Performed(conn, pattern, run, until, decode, old(conn.tables), old(conn.triggers), old(conn.log), r, advice)
  {
    var plan := Plan(conn, pattern, until, decode);
    if plan.Failure? {
      return Failure(plan.error), None;
    }
    var done;
    done, advice := Act(conn, plan.value, pattern, run);
    r := Success(done);
  }

  /** `cleanup(run, options)`: the archived `lhma_` tables; the report names `cleanup` itself. */
  method Cleanup(conn: Connection, run: bool, until: Option<Time>, decode: string -> Option<Time>)
    returns (r: Result<bool, CleanupError>, advice: Option<string>)
    modifies conn
    ensures Performed(conn, ARCHIVE_PREFIX, run, until, decode, old(conn.tables), old(conn.triggers), old(conn.log), r, advice)
    ensures advice.Some? ==> advice.value == "cleanup"
  {
    r, advice := DropTriggersAndTables(conn, ARCHIVE_PREFIX, run, until, decode);
  }

  /** `cleanup_aborted(run, options)`: the `lhmn_` tables; the report names `cleanup_aborted` itself. */
  method CleanupAborted(conn: Connection, run: bool, until: Option<Time>, decode: string -> Option<Time>)
    returns (r: Result<bool, CleanupError>, advice: Option<string>)
    modifies conn
    ensures Performed(conn, ABORTED_PREFIX, run, until, decode, old(conn.tables), old(conn.triggers), old(conn.log), r, advice)
    ensures advice.Some? ==> advice.value == "cleanup_aborted"
  {
    r, advice := DropTriggersAndTables(conn, ABORTED_PREFIX, run, until, decode);
  }

  /**
   * After a run without a cutoff, a dry run finds nothing left: no table matches the
   * prefix any more, and so no trigger is selected either.
   */
  lemma {:induction false} RunLeavesNothing(pattern: string, decode: string -> Option<Time>, tables: seq<string>, triggers: seq<string>)
    ensures Select(pattern, None, decode, tables, triggers).Success?
    ensures var sel := Select(pattern, None, decode, tables, triggers).value;
            Select(pattern, None, decode, WithoutAll(tables, sel.tables), WithoutAll(triggers, sel.triggers))
              == Success(Selection([], []))
  {
    var cands := Candidates(pattern, tables);
    var selected := TriggersFor(cands, triggers);
    assert Select(pattern, None, decode, tables, triggers) == Success(Selection(cands, selected));
    var rest := WithoutAll(tables, cands);
    FilterRejectsAll(rest, Prefixed(pattern));
    FilterRejectsAll(WithoutAll(triggers, selected), BelongingTo([]));
  }
}
