/**
 * Dropping the contents of a schema in bulk (DropTablesInSchema,
 * DropRoutinesInSchema and their helpers in instance.go).
 *
 * The Go code runs one goroutine per table under a throttler; here the same
 * work is a sequential plan over the tables in sorted name order (one of the
 * orders Go's map iteration may produce). Statements are not generated as
 * SQL: each is a `DropAction`, and the server's answer to it comes from an
 * `Exec` oracle.
 */
module BulkDrop {
  import opened Outcomes
  import opened Text
  import opened Flavors
  import opened Params

  // ---------------------------------------------------------------------
  // Options (instance.go:600-608, 696-727)

  /** The option names the drop and creation options set, free of the characters a query string reserves. */
  lemma ForeignKeyChecksName()
    ensures '&' !in "foreign_key_checks" && '=' !in "foreign_key_checks"
  {
  }

  lemma SqlLogBinName()
    ensures '&' !in "sql_log_bin" && '=' !in "sql_log_bin"
  {
  }

  /** SchemaCreationOptions: only SkipBinlog affects the session parameters. */
  datatype SchemaCreationOptions = SchemaCreationOptions(defaultCharSet: string, defaultCollation: string, skipBinlog: bool) {
    /** The session turns off the binary log exactly when asked to, and sets nothing else. */
    function Params(): (p: string)
      ensures p == "" <==> !skipBinlog
      ensures DecodeParams(p) == if skipBinlog then map["sql_log_bin" := "0"] else map[]
    {
      if skipBinlog then
        SqlLogBinName();
        DecodeOnePair("sql_log_bin", "0");
        assert Pair("sql_log_bin", "0") == "sql_log_bin=0";
        "sql_log_bin=0"
      else
        assert Split("", '&') == [""];
        ""
    }
  }

  /** The parameters of a bulk drop that skips the binary log. */
  lemma DropParamsSkippingBinlog()
    ensures HasPrefix("foreign_key_checks=0&sql_log_bin=0", "foreign_key_checks=0")
    ensures DecodeParams("foreign_key_checks=0&sql_log_bin=0") ==
              map["foreign_key_checks" := "0"] + map["sql_log_bin" := "0"]
  {
    ForeignKeyChecksName();
    SqlLogBinName();
    DecodeTwoPairs("foreign_key_checks", "0", "sql_log_bin", "0");
    DropParamsText();
    DropParamsMap();
  }

  lemma DropParamsText()
    ensures Pair("foreign_key_checks", "0") + "&" + Pair("sql_log_bin", "0") == "foreign_key_checks=0&sql_log_bin=0"
  {
  }

  lemma DropParamsMap()
    ensures map["sql_log_bin" := "0"]["foreign_key_checks" := "0"] ==
            map["foreign_key_checks" := "0"] + map["sql_log_bin" := "0"]
  {
  }

  /** The parameters of a bulk drop that keeps the binary log. */
  lemma DropParamsKeepingBinlog()
    ensures DecodeParams("foreign_key_checks=0") == map["foreign_key_checks" := "0"] + map[]
  {
    assert map["foreign_key_checks" := "0"] + map[] == map["foreign_key_checks" := "0"];
    ForeignKeyChecksName();
    DecodeOnePair("foreign_key_checks", "0");
    assert Pair("foreign_key_checks", "0") == "foreign_key_checks=0";
  }

  datatype BulkDropOptions = BulkDropOptions(onlyIfEmpty: bool, maxConcurrency: int, skipBinlog: bool, partitionsFirst: bool) {
    /** Foreign key checks are always off; the binary log is skipped exactly when asked to. */
    function Params(): (p: string)
      ensures HasPrefix(p, "foreign_key_checks=0")
      ensures DecodeParams(p) ==
                map["foreign_key_checks" := "0"] + (if skipBinlog then map["sql_log_bin" := "0"] else map[])
    {
      if skipBinlog then
        DropParamsSkippingBinlog();
        "foreign_key_checks=0&sql_log_bin=0"
      else
        DropParamsKeepingBinlog();
        "foreign_key_checks=0"
    }

    /** The requested concurrency, never below 1. */
    function Concurrency(): (c: int)
      ensures c >= 1
      ensures c == maxConcurrency || (maxConcurrency < 1 && c == 1)
    {
      if maxConcurrency < 1 then 1 else maxConcurrency
    }
  }

  /** 32 GiB, the buffer pool size from which drops are serialised. */
  const LargeBufferPool: int := 32 * 1024 * 1024 * 1024

  /**
   * The drop concurrency: one at a time on a large buffer pool unless the
   * server has the faster DROP TABLE of MySQL 8.0.23 and Percona 8.0.23.
   */
  function EffectiveConcurrency(opts: BulkDropOptions, bufferPoolSize: int, flavor: Flavor): (c: int)
    ensures c >= 1
    ensures c <= opts.Concurrency()
    ensures c == 1 || c == opts.Concurrency()
    ensures bufferPoolSize >= LargeBufferPool && !flavor.MySQLishMinVersion(8, 0, 23) ==> c == 1
    ensures bufferPoolSize < LargeBufferPool || flavor.MySQLishMinVersion(8, 0, 23) ==> c == opts.Concurrency()
  {
    if bufferPoolSize >= LargeBufferPool && !flavor.MySQLishMinVersion(8, 0, 23) then 1
    else opts.Concurrency()
  }

  // ---------------------------------------------------------------------
  // tablesToPartitions (instance.go:832-874)

  /**
   * A row of information_schema.partitions. A NULL partition name reads as
   * "" (sql.NullString's String field); the other NULLable columns are options.
   */
  datatype PartitionRow = PartitionRow(
    tableName: string,
    partitionName: string,
    partitionMethod: Option<string>,
    subpartitionMethod: Option<string>,
    position: Option<int>)

  /** The row that (re)starts a table's entry: unpartitioned, or the first partition. */
  predicate StartsTable(r: PartitionRow) {
    r.position.None? || r.position.value == 1
  }

  /** A partition that DROP PARTITION can remove: RANGE or LIST, without subpartitions. */
  predicate IsDroppable(r: PartitionRow) {
    r.partitionMethod.Some? && r.subpartitionMethod.None? &&
    (HasPrefix(r.partitionMethod.value, "RANGE") || HasPrefix(r.partitionMethod.value, "LIST"))
  }

  /** One iteration of the loop: reset the entry on a starting row, then append a droppable partition. */
  function AddRow(m: map<string, seq<string>>, r: PartitionRow): map<string, seq<string>> {
    var t := r.tableName;
    var m1 := if StartsTable(r) then m[t := []] else m;
    if IsDroppable(r) then m1[t := (if t in m1 then m1[t] else []) + [r.partitionName]] else m1
  }

  /** The map the loop builds from the rows, as a fold from the left. */
  function PartitionMap(rows: seq<PartitionRow>): map<string, seq<string>> {
    if rows == [] then map[] else AddRow(PartitionMap(rows[..|rows| - 1]), rows[|rows| - 1])
  }

  /** tablesToPartitions, after the query: the loop over the ordered rows. */
  method TablesToPartitions(rows: seq<PartitionRow>) returns (m: map<string, seq<string>>)
    ensures m == PartitionMap(rows)
  {
    m := map[];
    var i := 0;
    while i < |rows|
      invariant 0 <= i <= |rows|
      invariant m == PartitionMap(rows[..i])
    {
      assert rows[..i + 1][..i] == rows[..i];
      m := AddRow(m, rows[i]);
      i := i + 1;
    }
    assert rows[..|rows|] == rows;
  }

  /** Rows that put a table into the map. */
  predicate Registers(r: PartitionRow) {
    StartsTable(r) || IsDroppable(r)
  }

  /** A table has an entry exactly when one of its rows starts it or holds a droppable partition. */
  lemma {:induction false} PartitionMapKeys(rows: seq<PartitionRow>, t: string)
    ensures t in PartitionMap(rows) <==> exists i :: 0 <= i < |rows| && rows[i].tableName == t && Registers(rows[i])
    decreases |rows|
  {
    if rows != [] {
      var init := rows[..|rows| - 1];
      PartitionMapKeys(init, t);
      if exists i :: 0 <= i < |init| && init[i].tableName == t && Registers(init[i]) {
        var i :| 0 <= i < |init| && init[i].tableName == t && Registers(init[i]);
        assert rows[i] == init[i];
      }
      if exists i :: 0 <= i < |rows| && rows[i].tableName == t && Registers(rows[i]) {
        var i :| 0 <= i < |rows| && rows[i].tableName == t && Registers(rows[i]);
        if i < |init| {
          assert init[i] == rows[i];
        }
      }
    }
  }

  /** The names of a table's droppable partitions, in row order. */
  function DroppableNames(rows: seq<PartitionRow>, t: string): (names: seq<string>)
    ensures |names| <= |rows|
  {
    if rows == [] then []
    else
      var r := rows[|rows| - 1];
      DroppableNames(rows[..|rows| - 1], t) + (if r.tableName == t && IsDroppable(r) then [r.partitionName] else [])
  }

  /** Without rows for `t`, there is no entry and no partition for it. */
  lemma {:induction false} NoRowsNoEntry(rows: seq<PartitionRow>, t: string)
    requires forall i :: 0 <= i < |rows| ==> rows[i].tableName != t
    ensures t !in PartitionMap(rows)
    ensures DroppableNames(rows, t) == []
    decreases |rows|
  {
    if rows != [] {
      NoRowsNoEntry(rows[..|rows| - 1], t);
    }
  }

  /**
   * As the query orders rows by table and position: when a table's first row
   * is its only starting row, its entry lists its droppable partitions in order.
   */
  lemma {:induction false} PartitionMapLists(rows: seq<PartitionRow>, t: string, j: nat)
    requires j < |rows| && rows[j].tableName == t && StartsTable(rows[j])
    requires forall i :: 0 <= i < j ==> rows[i].tableName != t
    requires forall i :: j < i < |rows| && rows[i].tableName == t ==> !StartsTable(rows[i])
    ensures t in PartitionMap(rows)
    ensures PartitionMap(rows)[t] == DroppableNames(rows, t)
    decreases |rows|
  {
    var init := rows[..|rows| - 1];
    if j == |rows| - 1 {
      NoRowsNoEntry(init, t);
    } else {
      PartitionMapLists(init, t, j);
    }
  }

  // ---------------------------------------------------------------------
  // Statements and their outcomes

  datatype DropAction =
    | DropPartition(table: string, partition: string)  // ALTER TABLE t DROP PARTITION p
    | DropTable(table: string)                          // DROP TABLE t
    | DropRoutine(kind: string, name: string)           // DROP FUNCTION|PROCEDURE r

  /** The server's answer to each statement: None for success. */
  type Exec = DropAction -> Option<Error>

  /** The first failure among `actions`, run in order. */
  function FirstError(actions: seq<DropAction>, exec: Exec): (err: Option<Error>)
    ensures err.None? <==> forall i :: 0 <= i < |actions| ==> exec(actions[i]).None?
  {
    if actions == [] then None
    else if exec(actions[0]).Some? then exec(actions[0])
    else FirstError(actions[1..], exec)
  }

  /** A failure reported by FirstError is the answer to a statement all of whose predecessors succeeded. */
  lemma {:induction false} FirstErrorWitness(actions: seq<DropAction>, exec: Exec)
    requires FirstError(actions, exec).Some?
    ensures exists i :: 0 <= i < |actions| && exec(actions[i]) == FirstError(actions, exec) &&
                        forall j :: 0 <= j < i ==> exec(actions[j]).None?
    decreases |actions|
  {
    if exec(actions[0]).None? {
      var tail := actions[1..];
      FirstErrorWitness(tail, exec);
      var i :| 0 <= i < |tail| && exec(tail[i]) == FirstError(tail, exec) &&
               forall j :: 0 <= j < i ==> exec(tail[j]).None?;
      assert actions[i + 1] == tail[i];
      forall j | 0 <= j < i + 1 ensures exec(actions[j]).None? {
        if j > 0 { assert actions[j] == tail[j - 1]; }
      }
    } else {
      assert exec(actions[0]) == FirstError(actions, exec);
    }
  }

  /** The statements that run when `actions` are run in order and stopped at the first failure. */
  function Attempted(actions: seq<DropAction>, exec: Exec): (done: seq<DropAction>)
    ensures |done| <= |actions| && done == actions[..|done|]
    ensures FirstError(actions, exec).None? ==> done == actions
    ensures FirstError(actions, exec).Some? ==> |done| > 0 && exec(done[|done| - 1]) == FirstError(actions, exec)
  {
    if actions == [] then []
    else if exec(actions[0]).Some? then [actions[0]]
    else [actions[0]] + Attempted(actions[1..], exec)
  }

  /** ALTER TABLE ... DROP PARTITION for each named partition, in order. */
  function PartitionDrops(table: string, partitions: seq<string>): (actions: seq<DropAction>)
    ensures |actions| == |partitions|
    ensures forall i :: 0 <= i < |partitions| ==> actions[i] == DropPartition(table, partitions[i])
  {
    if partitions == [] then [] else [DropPartition(table, partitions[0])] + PartitionDrops(table, partitions[1..])
  }

  /** The statement at `i` is the first to fail. */
  lemma {:induction false} FailsFirstAt(actions: seq<DropAction>, exec: Exec, i: nat)
    requires i < |actions| && exec(actions[i]).Some?
    requires forall j :: 0 <= j < i ==> exec(actions[j]).None?
    ensures FirstError(actions, exec) == exec(actions[i])
    ensures Attempted(actions, exec) == actions[..i + 1]
    decreases i
  {
    if i > 0 {
      assert actions[1..][i - 1] == actions[i];
      FailsFirstAt(actions[1..], exec, i - 1);
      assert actions[..i + 1] == [actions[0]] + actions[1..][..i];
    }
  }

  /** Run statements in order and stop at the first failure, as dropPartitions and the retry loop do. */
  method RunInOrder(actions: seq<DropAction>, exec: Exec) returns (err: Option<Error>, log: seq<DropAction>)
    ensures err == FirstError(actions, exec)
    ensures log == Attempted(actions, exec)
  {
    var i := 0;
    while i < |actions|
      invariant 0 <= i <= |actions|
      invariant forall j :: 0 <= j < i ==> exec(actions[j]).None?
    {
      err := exec(actions[i]);
      if err.Some? {
        FailsFirstAt(actions, exec, i);
        return err, actions[..i + 1];
      }
      i := i + 1;
    }
    return None, actions;
  }

  /** dropPartitions (instance.go:876-886): drop the partitions in order, stop at the first failure. */
  method DropPartitions(table: string, partitions: seq<string>, exec: Exec) returns (err: Option<Error>, log: seq<DropAction>)
    ensures err == FirstError(PartitionDrops(table, partitions), exec)
    ensures log == Attempted(PartitionDrops(table, partitions), exec)
  {
    err, log := RunInOrder(PartitionDrops(table, partitions), exec);
  }

  // ---------------------------------------------------------------------
  // One table (instance.go:765-781)

  /** What one table's goroutine did: its statements, whether it was deferred, its error. */
  datatype TableOutcome = TableOutcome(log: seq<DropAction>, deferred: bool, err: Option<Error>)

  /** With PartitionsFirst, every partition of a multi-partition table but the last. */
  function PartitionsToDrop(partitions: seq<string>, partitionsFirst: bool): (drop: seq<string>)
    ensures partitionsFirst && |partitions| > 1 ==> drop == partitions[..|partitions| - 1]
    ensures !partitionsFirst || |partitions| <= 1 ==> drop == []
  {
    if |partitions| > 1 && partitionsFirst then partitions[..|partitions| - 1] else []
  }

  /**
   * The goroutine as written: the DROP TABLE result is assigned to a second
   * `err` declared with `:=` inside the `if` block, which shadows the one
   * passed to th.Done, so a failure other than a deadlock is lost.
   */
  function DropOneTableAsWritten(name: string, partitions: seq<string>, partitionsFirst: bool, exec: Exec): TableOutcome {
    var drops := PartitionDrops(name, PartitionsToDrop(partitions, partitionsFirst));
    var perr := FirstError(drops, exec);
    if perr.Some? then TableOutcome(Attempted(drops, exec), false, perr)
    else
      var terr := exec(DropTable(name));
      TableOutcome(drops + [DropTable(name)], terr.Some? && terr.value.IsDeadlock(), None)
  }

  /** A table that DROP TABLE fails to drop, for a reason other than a deadlock, yet reports no error. */
  lemma LostDropTableError()
    ensures var exec: Exec := a => if a == DropTable("t") then Some(ServerError(1146, "")) else None;
            var o := DropOneTableAsWritten("t", [], false, exec);
            exec(DropTable("t")).Some? && !exec(DropTable("t")).value.IsDeadlock() &&
            !o.deferred && o.err == None
  {
  }

  /** The goroutine as intended: a deadlock defers the table, any other failure is its error. */
  function DropOneTable(name: string, partitions: seq<string>, partitionsFirst: bool, exec: Exec): (o: TableOutcome)
    ensures o.deferred ==> o.err.None?
  {
    var drops := PartitionDrops(name, PartitionsToDrop(partitions, partitionsFirst));
    var perr := FirstError(drops, exec);
    if perr.Some? then TableOutcome(Attempted(drops, exec), false, perr)
    else
      var terr := exec(DropTable(name));
      if terr.Some? && terr.value.IsDeadlock() then TableOutcome(drops + [DropTable(name)], true, None)
      else TableOutcome(drops + [DropTable(name)], false, terr)
  }

  /**
   * A table's outcome: all but its last partition go first, in order, then
   * DROP TABLE; no error means the table was dropped or deferred on a deadlock.
   */
  lemma DropOneTableSpec(name: string, partitions: seq<string>, partitionsFirst: bool, exec: Exec)
    ensures var o := DropOneTable(name, partitions, partitionsFirst, exec);
            var drops := PartitionDrops(name, PartitionsToDrop(partitions, partitionsFirst));
            (o.err.None? ==> o.log == drops + [DropTable(name)]) &&
            (o.err.None? && !o.deferred <==> FirstError(drops, exec).None? && exec(DropTable(name)).None?) &&
            (o.deferred <==> FirstError(drops, exec).None? && exec(DropTable(name)).Some? && exec(DropTable(name)).value.IsDeadlock())
  {
  }

  // ---------------------------------------------------------------------
  // The main pass and the retry pass (instance.go:758-789)

  /** Statements run, tables deferred, errors reported, over the tables so far. */
  datatype Pass = Pass(log: seq<DropAction>, retries: seq<string>, errs: seq<Error>)

  /** The pass so far, followed by one more table's outcome. */
  function AddOutcome(p: Pass, name: string, o: TableOutcome): Pass {
    Pass(p.log + o.log,
         p.retries + (if o.deferred then [name] else []),
         p.errs + (if o.err.Some? then [o.err.value] else []))
  }

  /** Every table of `order` through DropOneTable, in order, none stopping the others. */
  function MainPass(tables: map<string, seq<string>>, order: seq<string>, partitionsFirst: bool, exec: Exec): Pass
    requires forall n :: n in order ==> n in tables
  {
    if order == [] then Pass([], [], [])
    else
      var name := order[|order| - 1];
      AddOutcome(MainPass(tables, order[..|order| - 1], partitionsFirst, exec), name,
                 DropOneTable(name, tables[name], partitionsFirst, exec))
  }

  /** The retry pass: DROP TABLE again for each deferred table, in order, stopping at a failure. */
  function RetryDrops(retries: seq<string>): (actions: seq<DropAction>)
    ensures |actions| == |retries|
    ensures forall i :: 0 <= i < |retries| ==> actions[i] == DropTable(retries[i])
  {
    if retries == [] then [] else [DropTable(retries[0])] + RetryDrops(retries[1..])
  }

  /** The whole plan for a non-empty table map: its statements and its result. */
  function DropPlan(tables: map<string, seq<string>>, partitionsFirst: bool, exec: Exec, retryExec: Exec): (seq<DropAction>, Option<Error>) {
    var main := MainPass(tables, SortedKeys(tables.Keys), partitionsFirst, exec);
    var retry := RetryDrops(main.retries);
    var rerr := FirstError(retry, retryExec);
    (main.log + Attempted(retry, retryExec),
     if rerr.Some? then rerr else if main.errs != [] then Some(main.errs[0]) else None)
  }

  /** The body of one table's goroutine, with the shadowed `err` read as intended. */
  method DropOneTableTask(name: string, partitions: seq<string>, partitionsFirst: bool, exec: Exec) returns (o: TableOutcome)
    ensures o == DropOneTable(name, partitions, partitionsFirst, exec)
  {
    var err, log := DropPartitions(name, PartitionsToDrop(partitions, partitionsFirst), exec);
    if err.Some? {
      return TableOutcome(log, false, err);
    }
    log := log + [DropTable(name)];
    var e := exec(DropTable(name));
    if e.Some? && e.value.IsDeadlock() {
      return TableOutcome(log, true, None);
    }
    return TableOutcome(log, false, e);
  }

  /** Every prefix of an order drawn from the table map is drawn from it too. */
  lemma PrefixInTables(tables: map<string, seq<string>>, order: seq<string>, i: nat)
    requires i <= |order|
    requires forall n :: n in order ==> n in tables
    ensures forall n :: n in order[..i] ==> n in tables
  {
    assert forall n :: n in order[..i] ==> n in order;
  }

  /** One more table of `order` extends the main pass by that table's outcome. */
  lemma MainPassStep(tables: map<string, seq<string>>, order: seq<string>, i: nat, partitionsFirst: bool, exec: Exec)
    requires i < |order|
    requires forall n :: n in order ==> n in tables
    ensures forall n :: n in order[..i] ==> n in tables
    ensures forall n :: n in order[..i + 1] ==> n in tables
    ensures MainPass(tables, order[..i + 1], partitionsFirst, exec)
            == AddOutcome(MainPass(tables, order[..i], partitionsFirst, exec), order[i],
                          DropOneTable(order[i], tables[order[i]], partitionsFirst, exec))
  {
    PrefixInTables(tables, order, i);
    PrefixInTables(tables, order, i + 1);
    assert order[..i + 1][..i] == order[..i];
  }

  /** The main loop of DropTablesInSchema: one task per table, none stopping the others. */
  method MainLoop(tables: map<string, seq<string>>, partitionsFirst: bool, exec: Exec) returns (pass: Pass)
    ensures pass == MainPass(tables, SortedKeys(tables.Keys), partitionsFirst, exec)
  {
    pass := RunTasks(tables, SortedKeys(tables.Keys), partitionsFirst, exec);
  }

  /** The tasks of the main loop, started in the given order. */
  method RunTasks(tables: map<string, seq<string>>, order: seq<string>, partitionsFirst: bool, exec: Exec) returns (pass: Pass)
    requires forall n :: n in order ==> n in tables
    ensures pass == MainPass(tables, order, partitionsFirst, exec)
  {
    pass := Pass([], [], []);
    var i := 0;
    while i < |order|
      invariant 0 <= i <= |order|
      invariant forall n :: n in order[..i] ==> n in tables
      invariant pass == MainPass(tables, order[..i], partitionsFirst, exec)
    {
      var name := order[i];
      var o := DropOneTableTask(name, tables[name], partitionsFirst, exec);
      MainPassStep(tables, order, i, partitionsFirst, exec);
      pass := AddOutcome(pass, name, o);
      i := i + 1;
    }
    assert order[..|order|] == order;
  }

  /** The main loop, the retry loop and the final error of DropTablesInSchema. */
  method DropTables(tables: map<string, seq<string>>, partitionsFirst: bool, exec: Exec, retryExec: Exec)
    returns (err: Option<Error>, log: seq<DropAction>)
    ensures (log, err) == DropPlan(tables, partitionsFirst, exec, retryExec)
  {
    var pass := MainLoop(tables, partitionsFirst, exec);
    var rerr, rlog := RunInOrder(RetryDrops(pass.retries), retryExec);
    log := pass.log + rlog;
    err := if rerr.Some? then rerr else if pass.errs != [] then Some(pass.errs[0]) else None;
  }

  /** Deferred tables are exactly those whose DROP TABLE deadlocked in the main pass. */
  lemma {:induction false} RetriesAreDeadlocks(tables: map<string, seq<string>>, order: seq<string>, partitionsFirst: bool, exec: Exec)
    requires forall n :: n in order ==> n in tables
    ensures forall n :: n in MainPass(tables, order, partitionsFirst, exec).retries ==>
              n in order && DropOneTable(n, tables[n], partitionsFirst, exec).deferred
    decreases |order|
  {
    if order != [] {
      var init := order[..|order| - 1];
      assert forall n :: n in init ==> n in order;
      RetriesAreDeadlocks(tables, init, partitionsFirst, exec);
    }
  }

  /** The main pass reports no error only when every table was dropped or deferred. */
  lemma {:induction false} MainPassClean(tables: map<string, seq<string>>, order: seq<string>, partitionsFirst: bool, exec: Exec)
    requires forall n :: n in order ==> n in tables
    ensures MainPass(tables, order, partitionsFirst, exec).errs == [] <==>
            forall n :: n in order ==> DropOneTable(n, tables[n], partitionsFirst, exec).err.None?
    ensures forall n :: n in order && DropOneTable(n, tables[n], partitionsFirst, exec).deferred ==>
              n in MainPass(tables, order, partitionsFirst, exec).retries
    decreases |order|
  {
    if order != [] {
      var init := order[..|order| - 1];
      var last := order[|order| - 1];
      assert forall n :: n in init ==> n in order;
      assert forall n :: n in order <==> n in init || n == last;
      MainPassClean(tables, init, partitionsFirst, exec);
    }
  }

  /**
   * A clean drop: when the plan reports no error, every table's partitions
   * and DROP TABLE succeeded, or its DROP TABLE deadlocked and the single
   * retry succeeded.
   */
  lemma DropPlanClean(tables: map<string, seq<string>>, partitionsFirst: bool, exec: Exec, retryExec: Exec, n: string)
    requires n in tables
    requires DropPlan(tables, partitionsFirst, exec, retryExec).1.None?
    ensures var o := DropOneTable(n, tables[n], partitionsFirst, exec);
            o.err.None? && (o.deferred ==> retryExec(DropTable(n)).None?)
  {
    var order := SortedKeys(tables.Keys);
    MainPassClean(tables, order, partitionsFirst, exec);
    var main := MainPass(tables, order, partitionsFirst, exec);
    var retry := RetryDrops(main.retries);
    var o := DropOneTable(n, tables[n], partitionsFirst, exec);
    if o.deferred {
      var k :| 0 <= k < |main.retries| && main.retries[k] == n;
      assert retry[k] == DropTable(n);
    }
  }

  /**
   * The converse: when every table's partitions and DROP TABLE succeed, or
   * its DROP TABLE deadlocks and the retry succeeds, the plan reports no error.
   */
  lemma DropPlanSucceeds(tables: map<string, seq<string>>, partitionsFirst: bool, exec: Exec, retryExec: Exec)
    requires forall n :: n in tables ==>
               DropOneTable(n, tables[n], partitionsFirst, exec).err.None? &&
               (DropOneTable(n, tables[n], partitionsFirst, exec).deferred ==> retryExec(DropTable(n)).None?)
    ensures DropPlan(tables, partitionsFirst, exec, retryExec).1.None?
  {
    var order := SortedKeys(tables.Keys);
    MainPassClean(tables, order, partitionsFirst, exec);
    RetriesAreDeadlocks(tables, order, partitionsFirst, exec);
    RetryPassClean(MainPass(tables, order, partitionsFirst, exec).retries, retryExec);
  }

  /** The retry pass reports nothing when every retried DROP TABLE succeeds. */
  lemma RetryPassClean(retries: seq<string>, retryExec: Exec)
    requires forall n :: n in retries ==> retryExec(DropTable(n)).None?
    ensures FirstError(RetryDrops(retries), retryExec).None?
  {
    forall i | 0 <= i < |retries| ensures retryExec(RetryDrops(retries)[i]).None? {
      assert retries[i] in retries;
    }
  }

  // ---------------------------------------------------------------------
  // DropRoutinesInSchema (instance.go:797-831)

  /** A stored routine: its name and its upper-cased type (FUNCTION or PROCEDURE). */
  datatype Routine = Routine(name: string, kind: string)

  function RoutineDrops(routines: seq<Routine>): (actions: seq<DropAction>)
    ensures |actions| == |routines|
    ensures forall i :: 0 <= i < |routines| ==> actions[i] == DropRoutine(routines[i].kind, routines[i].name)
  {
    if routines == [] then [] else [DropRoutine(routines[0].kind, routines[0].name)] + RoutineDrops(routines[1..])
  }

  /**
   * Every routine is dropped, none stopping the others; the result is the
   * first failure. An empty schema needs no statement.
   */
  method DropRoutines(routines: seq<Routine>, exec: Exec) returns (err: Option<Error>, log: seq<DropAction>)
    ensures log == RoutineDrops(routines)
    ensures err == FirstError(log, exec)
    ensures routines == [] ==> log == [] && err.None?
  {
    log := [];
    err := None;
    var i := 0;
    while i < |routines|
      invariant 0 <= i <= |routines|
      invariant log == RoutineDrops(routines)[..i]
      invariant err == FirstError(log, exec)
    {
      var a := DropRoutine(routines[i].kind, routines[i].name);
      FirstErrorAppend(log, a, exec);
      log := log + [a];
      if err.None? {
        err := exec(a);
      }
      i := i + 1;
    }
    assert RoutineDrops(routines)[..i] == RoutineDrops(routines);
  }

  /** Adding a statement at the end only matters when the earlier ones all succeeded. */
  lemma {:induction false} FirstErrorAppend(actions: seq<DropAction>, a: DropAction, exec: Exec)
    ensures FirstError(actions + [a], exec) == if FirstError(actions, exec).Some? then FirstError(actions, exec) else exec(a)
    decreases |actions|
  {
    if actions == [] {
      assert [] + [a] == [a];
    } else {
      assert (actions + [a])[1..] == actions[1..] + [a];
      FirstErrorAppend(actions[1..], a, exec);
    }
  }

  // ---------------------------------------------------------------------
  // tableHasRows and confirmTablesEmpty (instance.go:569-593)

  /**
   * tableHasRows from the outcome of SELECT 1 ... LIMIT 1 (the number of rows
   * returned): a failed query counts as having rows, the safer mistake.
   */
  function TableHasRows(query: Result<nat>): (r: (bool, Option<Error>))
    ensures r.1 == query.ToError()
    ensures !r.0 <==> query == Ok(0)
  {
    match query
    case Err(e) => (true, Some(e))
    case Ok(n) => (n != 0, None)
  }

  /** The error one table contributes to confirmTablesEmpty. */
  function EmptinessError(name: string, query: Result<nat>): (err: Option<Error>)
    ensures err.None? <==> query == Ok(0)
  {
    var (hasRows, err) := TableHasRows(query);
    if err.None? && hasRows then Some(TableNotEmpty(name)) else err
  }

  /** confirmTablesEmpty: check the tables in order, stopping at the first one with rows or a failure. */
  method ConfirmTablesEmpty(names: seq<string>, rowsOf: string -> Result<nat>) returns (err: Option<Error>)
    ensures err.None? <==> forall i :: 0 <= i < |names| ==> rowsOf(names[i]) == Ok(0)
    ensures err.Some? ==> exists i :: 0 <= i < |names| && err == EmptinessError(names[i], rowsOf(names[i]))
  {
    var i := 0;
    while i < |names|
      invariant 0 <= i <= |names|
      invariant forall j :: 0 <= j < i ==> rowsOf(names[j]) == Ok(0)
    {
      err := EmptinessError(names[i], rowsOf(names[i]));
      if err.Some? {
        return;
      }
      i := i + 1;
    }
    err := None;
  }
}
