/**
 * What the cleanup selection does as written at lib/lhm.rb:67-85, set against the
 * selection the rest of the model uses, and a cleanup followed by a dry run.
 */
module CleanupExamples {
  import opened Wrappers
  import opened Text
  import opened Lhm

  /** A name that opens with `prefix` matches `/^#{prefix}/`. */
  lemma PrefixMatches(t: string, prefix: string)
    requires prefix <= t
    ensures MatchesAtLineStart(t, prefix)
  {
    assert LineStart(t, 0) && t[0..] == t;
  }

  /**
   * As written, `cleanup_aborted` with a cutoff raises as soon as there is an `lhmn_`
   * table: the timestamp is read after the literal 'lhma_', which no such name opens with.
   */
  lemma AbortedCutoffAsWrittenFails(until: Time, decode: string -> Option<Time>, tables: seq<string>, triggers: seq<string>)
    requires exists t :: t in tables && ABORTED_PREFIX <= t
    ensures SelectAsWritten(ABORTED_PREFIX, Some(until), decode, tables, triggers).Failure?
  {
    var t :| t in tables && ABORTED_PREFIX <= t;
    PrefixMatches(t, ABORTED_PREFIX);
    assert t[3] == 'n' && ARCHIVE_PREFIX[3] == 'a';
    assert ParseTime(t, ARCHIVE_PREFIX, decode) == None;
    assert t in Candidates(ABORTED_PREFIX, tables);
  }

  /**
   * One `lhmn_` table stamped before the cutoff: as written the call raises on it; read
   * after its own prefix, its timestamp selects it.
   */
  lemma AbortedCutoffSelects(until: Time, decode: string -> Option<Time>, t: string, time: Time)
    requires ABORTED_PREFIX <= t
    requires decode(t[|ABORTED_PREFIX|..]) == Some(time) && time <= until
    ensures SelectAsWritten(ABORTED_PREFIX, Some(until), decode, [t], []) == Failure(UnparsableTimestamp(t))
    ensures Select(ABORTED_PREFIX, Some(until), decode, [t], []) == Success(Selection([t], []))
  {
    PrefixMatches(t, ABORTED_PREFIX);
    assert t[3] == 'n' && ARCHIVE_PREFIX[3] == 'a';
    assert Candidates(ABORTED_PREFIX, [t]) == [t];
    assert [t][..0] == [];
    assert ParseTime(t, ABORTED_PREFIX, decode) == Some(time);
    assert [] + [t] == [t];
    assert KeepUntil([t], ABORTED_PREFIX, until, decode) == Success([t]);
    assert KeepUntil([t], ARCHIVE_PREFIX, until, decode) == Failure(UnparsableTimestamp(t));
    FilterRejectsAll([], BelongingTo([t]));
  }

  /**
   * As written, when no table is selected every trigger of the database is kept, and a
   * run drops triggers that have nothing to do with LHM; the intended selection keeps
   * none.
   */
  lemma ForeignTriggersAsWritten(pattern: string, decode: string -> Option<Time>, tables: seq<string>, triggers: seq<string>)
    requires forall t :: t in tables ==> !MatchesAtLineStart(t, pattern)
    ensures SelectAsWritten(pattern, None, decode, tables, triggers) == Success(Selection([], triggers))
    ensures Select(pattern, None, decode, tables, triggers) == Success(Selection([], []))
  {
    FilterRejectsAll(tables, Prefixed(pattern));
    FilterRejectsAll(triggers, BelongingTo([]));
  }

  /**
   * As written, once a table is selected and there is any trigger, the selection raises
   * on the first trigger, whether or not it belongs to the table; the intended selection
   * succeeds.
   */
  lemma TriggerNameAsWrittenFails(pattern: string, decode: string -> Option<Time>, tables: seq<string>, triggers: seq<string>)
    requires exists t :: t in tables && pattern <= t
    requires triggers != []
    ensures SelectAsWritten(pattern, None, decode, tables, triggers) == Failure(UndefinedMethodName(triggers[0]))
    ensures Select(pattern, None, decode, tables, triggers).Success?
  {
    var t :| t in tables && pattern <= t;
    PrefixMatches(t, pattern);
    assert t in Candidates(pattern, tables);
  }

  /** `lhmt_<kind>_<name>` matches `/^lhmt_(\w{3})_#{name}/` for a three-character `kind` of word characters. */
  lemma TriggerOfMatches(kind: string, name: string)
    requires |kind| == 3 && WordChar(kind[0]) && WordChar(kind[1]) && WordChar(kind[2])
    ensures TriggerMatches("lhmt_" + kind + "_" + name, name)
  {
    var head := "lhmt_" + kind + "_";
    var trigger := head + name;
    assert |head| == 9;
    assert trigger[..5] == head[..5] == "lhmt_";
    assert trigger[5] == kind[0] && trigger[6] == kind[1] && trigger[7] == kind[2];
    assert trigger[8] == '_';
    assert trigger[9..] == name;
    assert trigger[0..] == trigger;
    assert LineStart(trigger, 0) && TriggerAt(trigger[0..], name);
  }

  /** A table whose name opens with the prefix is selected when there is no cutoff, with its triggers. */
  lemma SelectOne(pattern: string, decode: string -> Option<Time>, table: string, trigger: string)
    requires pattern <= table && TriggerMatches(trigger, LastField(table))
    ensures Select(pattern, None, decode, [table], [trigger]) == Success(Selection([table], [trigger]))
  {
    PrefixMatches(table, pattern);
    FilterKeepsOne(table, Prefixed(pattern));
    assert BelongsToSome(trigger, [table]);
    FilterKeepsOne(trigger, BelongingTo([table]));
  }

  /** A single name the filter accepts is kept. */
  lemma FilterKeepsOne(x: string, keep: string -> bool)
    requires keep(x)
    ensures Filter([x], keep) == [x]
  {
    assert [x][1..] == [];
  }

  /**
   * The intended selection keeps the triggers LHM puts on a migrated table: for the
   * archive `lhma_<stamp>_<name>`, each trigger `lhmt_<kind>_<name>`.
   */
  lemma ArchiveTriggersSelected(stamp: string, name: string, kind: string, decode: string -> Option<Time>)
    requires name != [] && '_' !in name
    requires |kind| == 3 && WordChar(kind[0]) && WordChar(kind[1]) && WordChar(kind[2])
    ensures var table := ARCHIVE_PREFIX + stamp + "_" + name;
            var trigger := "lhmt_" + kind + "_" + name;
            Select(ARCHIVE_PREFIX, None, decode, [table], [trigger]) == Success(Selection([table], [trigger]))
  {
    var head := ARCHIVE_PREFIX + stamp;
    var table := head + "_" + name;
    assert ARCHIVE_PREFIX <= table;
    LastFieldSuffix(head, name);
    TriggerOfMatches(kind, name);
    SelectOne(ARCHIVE_PREFIX, decode, table, "lhmt_" + kind + "_" + name);
  }

  /**
   * A dry run reports what is left and names `cleanup`; a run drops it, triggers first;
   * a dry run afterwards finds everything clean.
   */
  method ArchiveThenClean(table: string, others: seq<string>, triggers: seq<string>, decode: string -> Option<Time>)
    requires ARCHIVE_PREFIX <= table
  {
    var conn := new Connection([table] + others, triggers);
    PrefixMatches(table, ARCHIVE_PREFIX);
    ghost var sel := Select(ARCHIVE_PREFIX, None, decode, conn.tables, conn.triggers).value;
    assert table in sel.tables;

    var r, advice := Cleanup(conn, false, None, decode);
    assert r == Success(false) && advice == Some("cleanup") && conn.log == [];

    r, advice := Cleanup(conn, true, None, decode);
    assert r == Success(true) && conn.log == Drops(sel);
    assert conn.log[|sel.triggers|] == DropTable(sel.tables[0]);

    RunLeavesNothing(ARCHIVE_PREFIX, decode, [table] + others, triggers);
    r, advice := Cleanup(conn, false, None, decode);
    assert r == Success(true) && advice == None;
  }
}
