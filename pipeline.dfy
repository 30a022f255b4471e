/**
 * What one run of the searcher computes, stated on values: the table listing, the
 * Table-mode rows, the row-count index, the statement plan built by `__sub_run`, the
 * rows its execution appends, and the outcome of `search()` as a whole. The class in
 * module Searcher is proved to follow these definitions step by step.
 */
module Pipeline {
  import opened Wrappers
  import opened PyValues
  import opened Configuration
  import opened Driver
  import opened Statements
  import opened ColumnFilter

  /** One entry of the local `sqlStringList`: the statement, the table, and the column's description fields. */
  datatype PlanItem = PlanItem(sql: string, table: string, column: string,
                               typeText: string, displayText: string, internalText: string)

  /** Python exceptions that escape `search()` or `configure()`. */
  datatype Crash =
    | ValidationKeyError    // the `'self.__internal_table_list'` lookup in the validator
    | UnboundPassConnection // `passConnection` read although validation did not pass
    | UnboundPassTable      // `passTable` read although the connection failed
    | RowCountIndexError    // `table_info[0]` on an empty table name in the row-count handler
    | UnboundValueList      // `valueList` read although the mode set none of the headers
    | UnhashableIndex       // a list given as the key to `configure`

  /** `__df_out`: still the empty list, or a data frame with its column names and rows. */
  datatype DfOut = NoFrame | Frame(header: seq<string>, rows: seq<seq<string>>)

  datatype SearchOutcome = Returned(df: DfOut) | Crashed(why: Crash)

  const TableHeader: seq<string> := ["Database", "Schema", "Table", "Type", "Row Count", "SQL"]
  const SearchHeader: seq<string> := ["Table", "Column", "Type", "Display Size", "Internal Size", "SQL", "Output Sample"]
  const ColumnHeader: seq<string> := ["Table", "Column", "Type", "Display Size", "Internal Size"]
  const MstHeader: seq<string> := ["Table", "Column", "Type", "Value", "Count"]

  type Executor = string -> Option<QueryResult>

  // ---- __pull_tables ----

  /** `cursor.tables(schema='%<db_name>%')`, with the constructor's database name. */
  function SchemaPattern(ctorDb: PyVal): (p: string)
    ensures |p| == |PyStr(ctorDb)| + 2 && p[0] == '%' && p[|p| - 1] == '%' && p[1..|p| - 1] == PyStr(ctorDb)
  {
    "%" + PyStr(ctorDb) + "%"
  }

  /** The table names of a listing, in listing order. */
  function TableNames(infos: seq<TableInfo>): (names: seq<string>)
    ensures |names| == |infos|
    ensures forall k :: 0 <= k < |infos| ==> names[k] == infos[k].name
  {
    if infos == [] then [] else [infos[0].name] + TableNames(infos[1..])
  }

  /** `__internal_reference[name] = []` for each listed name in turn. */
  function FreshReference(reference: map<string, seq<string>>, names: seq<string>): (r: map<string, seq<string>>)
    ensures forall t :: t in r <==> t in reference || t in names
    ensures forall t :: t in names ==> r[t] == []
    ensures forall t :: t in reference && t !in names ==> r[t] == reference[t]
    decreases |names|
  {
    if names == [] then reference else FreshReference(reference[names[0] := []], names[1..])
  }

  /** The listing is recorded for later modes only when both halves of the AND clause are set. */
  predicate WantsReference(c: Config) {
    c.andColumn != PNone && c.likeVal != PNone
  }

  // ---- __db_Table ----

  /** The Table-mode row of one listed table, or nothing when its COUNT statement raises. */
  function CountRow(info: TableInfo, exec: Executor, db: string): (rows: seq<seq<string>>)
    ensures |rows| <= 1
    ensures rows != [] <==> exec(CountStatement(db, info.name)).Some?
    ensures rows != [] ==> |rows[0]| == 6 && rows[0][2] == info.name && rows[0][5] == CountStatement(db, info.name)
  {
    var sql := CountStatement(db, info.name);
    match exec(sql)
    case None => []
    case Some(q) => [[info.catalog, info.schema, info.name, info.kind, FetchVal(q).text, sql]]
  }

  /** The rows `__db_Table` appends for the recorded table data, in listing order. */
  function TableRows(infos: seq<TableInfo>, exec: Executor, db: string): (rows: seq<seq<string>>)
    ensures |rows| <= |infos|
    decreases |infos|
  {
    if infos == [] then []
    else TableRows(infos[..|infos| - 1], exec, db) + CountRow(infos[|infos| - 1], exec, db)
  }

  /** One more listed table adds its own row, if any, at the end. */
  lemma TableRowsStep(infos: seq<TableInfo>, i: nat, exec: Executor, db: string)
    requires i < |infos|
    ensures TableRows(infos[..i + 1], exec, db) == TableRows(infos[..i], exec, db) + CountRow(infos[i], exec, db)
  {
    assert infos[..i + 1][..i] == infos[..i];
  }

  lemma {:induction false} TableRowsAppend(a: seq<TableInfo>, b: seq<TableInfo>, exec: Executor, db: string)
    ensures TableRows(a + b, exec, db) == TableRows(a, exec, db) + TableRows(b, exec, db)
    decreases |b|
  {
    if b == [] {
      assert a + b == a;
    } else {
      var b' := b[..|b| - 1];
      assert (a + b)[..|a + b| - 1] == a + b';
      assert (a + b)[|a + b| - 1] == b[|b| - 1];
      TableRowsAppend(a, b', exec, db);
    }
  }

  /** At most one row per table, each of them six fields wide: failures add nothing. */
  lemma {:induction false} TableRowsShape(infos: seq<TableInfo>, exec: Executor, db: string)
    ensures |TableRows(infos, exec, db)| <= |infos|
    ensures forall row :: row in TableRows(infos, exec, db) ==> |row| == |TableHeader|
    decreases |infos|
  {
    if infos != [] {
      TableRowsShape(infos[..|infos| - 1], exec, db);
    }
  }

  /**
   * When every COUNT succeeds there is exactly one row per listed table, in listing
   * order: catalog, schema, name, type, the fetched count and the statement.
   */
  lemma {:induction false} TableRowsAllSucceed(infos: seq<TableInfo>, exec: Executor, db: string)
    requires forall k :: 0 <= k < |infos| ==> exec(CountStatement(db, infos[k].name)).Some?
    ensures var rows := TableRows(infos, exec, db);
            && |rows| == |infos|
            && forall k :: 0 <= k < |infos| ==>
                 var sql := CountStatement(db, infos[k].name);
                 rows[k] == [infos[k].catalog, infos[k].schema, infos[k].name, infos[k].kind,
                             FetchVal(exec(sql).value).text, sql]
    decreases |infos|
  {
    if infos != [] {
      var n := |infos| - 1;
      var init := infos[..n];
      assert forall k :: 0 <= k < n ==> init[k] == infos[k];
      TableRowsAllSucceed(init, exec, db);
      var rows, rows' := TableRows(infos, exec, db), TableRows(init, exec, db);
      var sql := CountStatement(db, infos[n].name);
      var last := [infos[n].catalog, infos[n].schema, infos[n].name, infos[n].kind, FetchVal(exec(sql).value).text, sql];
      assert rows == rows' + [last];
      forall k | 0 <= k < |infos|
        ensures rows[k] == [infos[k].catalog, infos[k].schema, infos[k].name, infos[k].kind,
                            FetchVal(exec(CountStatement(db, infos[k].name)).value).text,
                            CountStatement(db, infos[k].name)]
      {
        if k < n {
          assert rows[k] == rows'[k] && init[k] == infos[k];
        }
      }
    }
  }

  // ---- __row_Count ----

  /** `int(fetchval())` of the COUNT statement for `table`, or None when that raises. */
  function CountOf(exec: Executor, db: string, table: string): (r: Option<int>)
    ensures exec(CountStatement(db, table)).None? ==> r.None?
  {
    match exec(CountStatement(db, table))
    case None => None
    case Some(q) => FetchVal(q).asInt
  }

  /**
   * The row-count index after the tables `tables`, starting from `counts`; None when a
   * failing table has an empty name, whose `table_info[0]` in the handler raises.
   */
  function RowCountsFrom(tables: seq<string>, exec: Executor, db: string, counts: map<string, int>): (r: Option<map<string, int>>)
    ensures r.Some? ==> counts.Keys <= r.value.Keys
    decreases |tables|
  {
    if tables == [] then Some(counts)
    else
      var t := tables[0];
      match CountOf(exec, db, t)
      case Some(n) => RowCountsFrom(tables[1..], exec, db, counts[t := n])
      case None => if t == "" then None else RowCountsFrom(tables[1..], exec, db, counts)
  }

  /** The prefetch runs `__row_Count`'s loop only in these cases. */
  predicate CountsRows(c: Config)
    // only in the modes where the column filter runs, and only with a row ceiling to compare with
    ensures CountsRows(c) ==> Active(c) && c.maxRowCount != PNone
  {
    c.maxRowCount != PNone && (c.searchType == PStr("MST") || c.searchType == PStr("Search"))
  }

  /** The run crashes exactly when an empty name is listed and its count fails. */
  lemma {:induction false} RowCountsCrash(tables: seq<string>, exec: Executor, db: string, counts: map<string, int>)
    ensures RowCountsFrom(tables, exec, db, counts).None? <==> ("" in tables && CountOf(exec, db, "").None?)
    decreases |tables|
  {
    if tables != [] {
      RowCountsCrash(tables[1..], exec, db, if CountOf(exec, db, tables[0]).Some? then counts[tables[0] := CountOf(exec, db, tables[0]).value] else counts);
      assert tables == [tables[0]] + tables[1..];
    }
  }

  /**
   * Without a crash, the index holds a count for exactly the tables whose COUNT
   * succeeded (besides what it held before), and that count is the fetched one.
   */
  lemma {:induction false} RowCountsContent(tables: seq<string>, exec: Executor, db: string, counts: map<string, int>)
    requires RowCountsFrom(tables, exec, db, counts).Some?
    ensures var r := RowCountsFrom(tables, exec, db, counts).value;
            && (forall t :: t in r <==> t in counts || (t in tables && CountOf(exec, db, t).Some?))
            && (forall t :: t in tables && CountOf(exec, db, t).Some? ==> r[t] == CountOf(exec, db, t).value)
            && (forall t :: t in counts && !(t in tables && CountOf(exec, db, t).Some?) ==> r[t] == counts[t])
    decreases |tables|
  {
    if tables != [] {
      var t := tables[0];
      var next := if CountOf(exec, db, t).Some? then counts[t := CountOf(exec, db, t).value] else counts;
      RowCountsContent(tables[1..], exec, db, next);
      assert forall u :: u in tables <==> u == t || u in tables[1..];
    }
  }

  /** The count a table is filtered with: tables missing from the index count as 0. */
  function RowValue(counts: map<string, int>, table: string): int {
    if table in counts then counts[table] else 0
  }

  // ---- __sub_run, planning phase ----

  /** The MST plan entry for a kept column. */
  function MstItem(c: Config, table: string, col: ColumnDesc): (item: PlanItem)
    ensures |item.sql| >= 7 && item.sql[..7] == "SELECT " && item.table == table && item.column == col.name
    // the entry's query is the dialect's distinct-value statement for this column
    ensures item.sql == MstStatement(c.connType, PyStr(c.dbName), table, col.name)
    // and it carries the column's description fields unchanged
    ensures ColumnFields(item) == [table, col.name, col.typeText, col.displayText, col.internalSize.text]
  {
    PlanItem(MstStatement(c.connType, PyStr(c.dbName), table, col.name), table, col.name,
             col.typeText, col.displayText, col.internalSize.text)
  }

  /**
   * The columns of one sampled table, from the first: a dropped column is passed over;
   * a kept one is planned when the constructor asked for MST, and otherwise raises the
   * AttributeError of `self.sqlStringList`, as does a raising filter: either abandons
   * the rest of the table.
   */
  function ColumnsPlan(c: Config, ctorType: PyVal, table: string, cols: seq<ColumnDesc>, rowval: int,
                       reference: map<string, seq<string>>, plan: seq<PlanItem>): (r: seq<PlanItem>)
    ensures |plan| <= |r| <= |plan| + |cols| && r[..|plan|] == plan
    ensures ctorType != PStr("MST") ==> r == plan
    decreases |cols|
  {
    if cols == [] then plan
    else
      match ColumnVerdict(c, table, cols[0], rowval, reference)
      case Raise => plan
      case Drop => ColumnsPlan(c, ctorType, table, cols[1..], rowval, reference, plan)
      case Keep =>
        if ctorType != PStr("MST") then plan
        else
          var next := plan + [MstItem(c, table, cols[0])];
          var r := ColumnsPlan(c, ctorType, table, cols[1..], rowval, reference, next);
          assert r[..|plan|] == r[..|next|][..|plan|] == next[..|plan|] == plan;
          r
  }

  /** Outside Search and MST mode nothing is filtered: an MST constructor plans every column. */
  lemma {:induction false} ColumnsPlanAll(c: Config, table: string, cols: seq<ColumnDesc>, rowval: int,
                                          reference: map<string, seq<string>>, plan: seq<PlanItem>)
    requires !Active(c)
    ensures |ColumnsPlan(c, PStr("MST"), table, cols, rowval, reference, plan)| == |plan| + |cols|
    decreases |cols|
  {
    if cols != [] {
      ColumnsPlanAll(c, table, cols[1..], rowval, reference, plan + [MstItem(c, table, cols[0])]);
    }
  }

  /** Every entry a table adds is the MST entry of one of its columns that the filter keeps. */
  lemma {:induction false} ColumnsPlanKept(c: Config, ctorType: PyVal, table: string, cols: seq<ColumnDesc>, rowval: int,
                                           reference: map<string, seq<string>>, plan: seq<PlanItem>)
    ensures var r := ColumnsPlan(c, ctorType, table, cols, rowval, reference, plan);
            forall k :: |plan| <= k < |r| ==>
              exists j :: 0 <= j < |cols| && r[k] == MstItem(c, table, cols[j])
                          && ColumnVerdict(c, table, cols[j], rowval, reference) == Keep
    decreases |cols|
  {
    var r := ColumnsPlan(c, ctorType, table, cols, rowval, reference, plan);
    if cols == [] || ColumnVerdict(c, table, cols[0], rowval, reference) == Raise || ctorType != PStr("MST") {
      assert r == plan;
    } else {
      var keep := ColumnVerdict(c, table, cols[0], rowval, reference) == Keep;
      var next := if keep then plan + [MstItem(c, table, cols[0])] else plan;
      ColumnsPlanKept(c, ctorType, table, cols[1..], rowval, reference, next);
      assert r == ColumnsPlan(c, ctorType, table, cols[1..], rowval, reference, next);
      assert r[..|next|] == next;
      forall k | |plan| <= k < |r|
        ensures exists j :: 0 <= j < |cols| && r[k] == MstItem(c, table, cols[j])
                            && ColumnVerdict(c, table, cols[j], rowval, reference) == Keep
      {
        if k < |next| {
          assert r[k] == r[..|next|][k] == MstItem(c, table, cols[0]);
        } else {
          var j :| 0 <= j < |cols[1..]| && r[k] == MstItem(c, table, cols[1..][j])
                   && ColumnVerdict(c, table, cols[1..][j], rowval, reference) == Keep;
          assert cols[1..][j] == cols[j + 1];
        }
      }
    }
  }

  /** The columns before the first one whose filter raises, in order. */
  function BeforeRaise(c: Config, table: string, cols: seq<ColumnDesc>, rowval: int,
                       reference: map<string, seq<string>>): (r: seq<ColumnDesc>)
    ensures r <= cols
    ensures forall j :: 0 <= j < |r| ==> ColumnVerdict(c, table, r[j], rowval, reference) != Raise
    ensures |r| < |cols| ==> ColumnVerdict(c, table, cols[|r|], rowval, reference) == Raise
    decreases |cols|
  {
    if cols == [] || ColumnVerdict(c, table, cols[0], rowval, reference) == Raise then []
    else
      var rest := BeforeRaise(c, table, cols[1..], rowval, reference);
      assert |rest| < |cols[1..]| ==> cols[1..][|rest|] == cols[|rest| + 1];
      [cols[0]] + rest
  }

  /** The columns the filter keeps, in order. */
  function Kept(c: Config, table: string, cols: seq<ColumnDesc>, rowval: int,
                reference: map<string, seq<string>>): (r: seq<ColumnDesc>)
    ensures |r| <= |cols|
    ensures forall j :: 0 <= j < |r| ==> ColumnVerdict(c, table, r[j], rowval, reference) == Keep
    ensures forall j :: 0 <= j < |cols| && ColumnVerdict(c, table, cols[j], rowval, reference) == Keep ==>
              cols[j] in r
    decreases |cols|
  {
    if cols == [] then []
    else
      var rest := Kept(c, table, cols[1..], rowval, reference);
      assert forall j :: 1 <= j < |cols| ==> cols[j] == cols[1..][j - 1];
      if ColumnVerdict(c, table, cols[0], rowval, reference) == Keep then [cols[0]] + rest else rest
  }

  /** The MST plan entries of some columns, in order. */
  function MstItems(c: Config, table: string, cols: seq<ColumnDesc>): (r: seq<PlanItem>)
    ensures |r| == |cols| && forall j :: 0 <= j < |cols| ==> r[j] == MstItem(c, table, cols[j])
    decreases |cols|
  {
    if cols == [] then [] else [MstItem(c, table, cols[0])] + MstItems(c, table, cols[1..])
  }

  /** One column of an MST constructor's planning, by the column's verdict. */
  lemma ColumnsPlanMstStep(c: Config, table: string, cols: seq<ColumnDesc>, rowval: int,
                           reference: map<string, seq<string>>, plan: seq<PlanItem>)
    requires cols != []
    ensures var v := ColumnVerdict(c, table, cols[0], rowval, reference);
            var r := ColumnsPlan(c, PStr("MST"), table, cols, rowval, reference, plan);
            && (v == Raise ==> r == plan)
            && (v == Drop ==> r == ColumnsPlan(c, PStr("MST"), table, cols[1..], rowval, reference, plan))
            && (v == Keep ==> r == ColumnsPlan(c, PStr("MST"), table, cols[1..], rowval, reference,
                                               plan + [MstItem(c, table, cols[0])]))
  {
  }

  /** One column of the kept columns before the first raising one, by the column's verdict. */
  lemma KeptBeforeRaiseStep(c: Config, table: string, cols: seq<ColumnDesc>, rowval: int,
                            reference: map<string, seq<string>>)
    requires cols != []
    ensures var v := ColumnVerdict(c, table, cols[0], rowval, reference);
            var k := Kept(c, table, BeforeRaise(c, table, cols, rowval, reference), rowval, reference);
            var rest := Kept(c, table, BeforeRaise(c, table, cols[1..], rowval, reference), rowval, reference);
            && (v == Raise ==> k == [])
            && (v == Drop ==> k == rest)
            && (v == Keep ==> k == [cols[0]] + rest)
  {
    var v := ColumnVerdict(c, table, cols[0], rowval, reference);
    var before := BeforeRaise(c, table, cols, rowval, reference);
    if v != Raise {
      assert before == [cols[0]] + BeforeRaise(c, table, cols[1..], rowval, reference);
      assert before[1..] == BeforeRaise(c, table, cols[1..], rowval, reference);
    }
  }

  /**
   * An MST constructor plans exactly the kept columns that come before the first
   * raising one, in their order, after what was planned already.
   */
  lemma {:induction false} ColumnsPlanComplete(c: Config, table: string, cols: seq<ColumnDesc>, rowval: int,
                                               reference: map<string, seq<string>>, plan: seq<PlanItem>)
    ensures ColumnsPlan(c, PStr("MST"), table, cols, rowval, reference, plan)
            == plan + MstItems(c, table, Kept(c, table, BeforeRaise(c, table, cols, rowval, reference), rowval, reference))
    decreases |cols|
  {
    if cols != [] {
      var v := ColumnVerdict(c, table, cols[0], rowval, reference);
      ColumnsPlanMstStep(c, table, cols, rowval, reference, plan);
      KeptBeforeRaiseStep(c, table, cols, rowval, reference);
      var rest := Kept(c, table, BeforeRaise(c, table, cols[1..], rowval, reference), rowval, reference);
      if v == Drop {
        ColumnsPlanComplete(c, table, cols[1..], rowval, reference, plan);
      } else if v == Keep {
        var item := MstItem(c, table, cols[0]);
        var tail := MstItems(c, table, rest);
        assert ([cols[0]] + rest)[1..] == rest;
        assert MstItems(c, table, [cols[0]] + rest) == [item] + tail;
        ColumnsPlanComplete(c, table, cols[1..], rowval, reference, plan + [item]);
        assert plan + [item] + tail == plan + ([item] + tail);
      }
    }
  }

  /**
   * With `and_column` set but no recorded column names, every filtered column raises
   * or is dropped, so the table adds nothing.
   */
  lemma {:induction false} AndColumnNeedsReference(c: Config, ctorType: PyVal, table: string, cols: seq<ColumnDesc>,
                                                   rowval: int, plan: seq<PlanItem>)
    requires Active(c) && c.andColumn != PNone
    ensures ColumnsPlan(c, ctorType, table, cols, rowval, map[], plan) == plan
    decreases |cols|
  {
    if cols != [] {
      assert !Passes(c, table, cols[0], rowval, map[]);
      AndColumnNeedsReference(c, ctorType, table, cols[1..], rowval, plan);
    }
  }

  /** What planning threads from table to table: the reference map and the plan so far. */
  datatype PlanState = PlanState(reference: map<string, seq<string>>, plan: seq<PlanItem>)

  /**
   * One table of `__sub_run`'s first loop: sample it, record its column names when the
   * reference map is non-empty, then filter and plan its columns. A failing sample, and
   * a table missing from a non-empty reference map, skip the table.
   */
  function TableStep(c: Config, ctorType: PyVal, exec: Executor, counts: map<string, int>,
                     table: string, st: PlanState): (r: PlanState)
    ensures |st.plan| <= |r.plan| && r.plan[..|st.plan|] == st.plan
    ensures ctorType != PStr("MST") ==> r.plan == st.plan
    ensures exec(SampleStatement(c.searchType, PyStr(c.dbName), table)).None? ==> r == st
    // a table missing from a non-empty reference map raises the KeyError at the append and is skipped
    ensures st.reference != map[] && table !in st.reference ==> r == st
    ensures r.reference.Keys == st.reference.Keys
    ensures table in st.reference && exec(SampleStatement(c.searchType, PyStr(c.dbName), table)).Some? ==>
              r.reference[table] == st.reference[table]
                + ColumnNames(exec(SampleStatement(c.searchType, PyStr(c.dbName), table)).value.description)
  {
    match exec(SampleStatement(c.searchType, PyStr(c.dbName), table))
    case None => st
    case Some(q) =>
      if st.reference != map[] && table !in st.reference then st
      else
        var ref := if st.reference != map[] then st.reference[table := st.reference[table] + ColumnNames(q.description)]
                   else st.reference;
        PlanState(ref, ColumnsPlan(c, ctorType, table, q.description, RowValue(counts, table), ref, st.plan))
  }

  /** `__sub_run`'s first loop over the listed tables, from the first. */
  function PlanFrom(c: Config, ctorType: PyVal, exec: Executor, counts: map<string, int>,
                    tables: seq<string>, st: PlanState): (r: PlanState)
    ensures |st.plan| <= |r.plan| && r.plan[..|st.plan|] == st.plan
    ensures ctorType != PStr("MST") ==> r.plan == st.plan
    decreases |tables|
  {
    if tables == [] then st
    else PlanFrom(c, ctorType, exec, counts, tables[1..], TableStep(c, ctorType, exec, counts, tables[0], st))
  }

  /** The loop over the tables from the i-th on: the i-th table's step, then the rest. */
  lemma PlanFromStep(c: Config, ctorType: PyVal, exec: Executor, counts: map<string, int>,
                     tables: seq<string>, i: nat, st: PlanState)
    requires i < |tables|
    ensures PlanFrom(c, ctorType, exec, counts, tables[i..], st)
         == PlanFrom(c, ctorType, exec, counts, tables[i + 1..], TableStep(c, ctorType, exec, counts, tables[i], st))
  {
    assert tables[i..][0] == tables[i] && tables[i..][1..] == tables[i + 1..];
  }

  /**
   * What one successfully sampled table adds for an MST constructor: the entries of its
   * kept columns before the first raising one, filtered against the updated reference map.
   */
  lemma TableStepPlans(c: Config, exec: Executor, counts: map<string, int>, table: string, st: PlanState)
    requires exec(SampleStatement(c.searchType, PyStr(c.dbName), table)).Some?
    requires st.reference == map[] || table in st.reference
    ensures var q := exec(SampleStatement(c.searchType, PyStr(c.dbName), table)).value;
            var r := TableStep(c, PStr("MST"), exec, counts, table, st);
            r.plan == st.plan + MstItems(c, table, Kept(c, table, BeforeRaise(c, table, q.description, RowValue(counts, table), r.reference),
                                                          RowValue(counts, table), r.reference))
  {
    var q := exec(SampleStatement(c.searchType, PyStr(c.dbName), table)).value;
    var r := TableStep(c, PStr("MST"), exec, counts, table, st);
    ColumnsPlanComplete(c, table, q.description, RowValue(counts, table), r.reference, st.plan);
  }

  /** The table loop over two lists in turn is the loop over their concatenation. */
  lemma {:induction false} PlanFromAppend(c: Config, ctorType: PyVal, exec: Executor, counts: map<string, int>,
                                          a: seq<string>, b: seq<string>, st: PlanState)
    ensures PlanFrom(c, ctorType, exec, counts, a + b, st)
         == PlanFrom(c, ctorType, exec, counts, b, PlanFrom(c, ctorType, exec, counts, a, st))
    decreases |a|
  {
    if a == [] {
      assert a + b == b;
    } else {
      assert (a + b)[0] == a[0] && (a + b)[1..] == a[1..] + b;
      PlanFromAppend(c, ctorType, exec, counts, a[1..], b, TableStep(c, ctorType, exec, counts, a[0], st));
    }
  }

  /** A table whose sample fails is passed over: the other tables plan as if it were not listed. */
  lemma PlanFromSkipsFailedSample(c: Config, ctorType: PyVal, exec: Executor, counts: map<string, int>,
                                  a: seq<string>, table: string, b: seq<string>, st: PlanState)
    requires exec(SampleStatement(c.searchType, PyStr(c.dbName), table)).None?
    ensures PlanFrom(c, ctorType, exec, counts, a + [table] + b, st) == PlanFrom(c, ctorType, exec, counts, a + b, st)
  {
    var mid := PlanFrom(c, ctorType, exec, counts, a, st);
    PlanFromAppend(c, ctorType, exec, counts, a, [table] + b, st);
    assert a + [table] + b == a + ([table] + b);
    assert ([table] + b)[0] == table && ([table] + b)[1..] == b;
    assert PlanFrom(c, ctorType, exec, counts, [table] + b, mid)
        == PlanFrom(c, ctorType, exec, counts, b, TableStep(c, ctorType, exec, counts, table, mid));
    PlanFromAppend(c, ctorType, exec, counts, a, b, st);
  }

  /** With `and_column` set and no reference map (no `like_val`), the Search and MST modes plan nothing. */
  lemma {:induction false} PlanWithoutReference(c: Config, ctorType: PyVal, exec: Executor, counts: map<string, int>,
                                                tables: seq<string>, plan: seq<PlanItem>)
    requires Active(c) && c.andColumn != PNone
    ensures PlanFrom(c, ctorType, exec, counts, tables, PlanState(map[], plan)) == PlanState(map[], plan)
    decreases |tables|
  {
    if tables != [] {
      var st := PlanState(map[], plan);
      var sample := exec(SampleStatement(c.searchType, PyStr(c.dbName), tables[0]));
      if sample.Some? {
        AndColumnNeedsReference(c, ctorType, tables[0], sample.value.description, RowValue(counts, tables[0]), plan);
      }
      assert TableStep(c, ctorType, exec, counts, tables[0], st) == st;
      PlanWithoutReference(c, ctorType, exec, counts, tables[1..], plan);
    }
  }

  // ---- __sub_run, execution phase ----

  /** `valueList`: the header the last executed item's mode assigned, None when it stays unbound. */
  function ModeHeader(mode: PyVal): (h: Option<seq<string>>)
    ensures h.Some? <==> mode in [PStr("Search"), PStr("Column"), PStr("MST")]
  {
    if mode == PStr("Search") then Some(SearchHeader)
    else if mode == PStr("Column") then Some(ColumnHeader)
    else if mode == PStr("MST") then Some(MstHeader)
    else None
  }

  /** The Column-mode row of a plan entry: the description fields without a query. */
  function ColumnFields(item: PlanItem): seq<string> {
    [item.table, item.column, item.typeText, item.displayText, item.internalText]
  }

  /** The MST rows of one entry, one per fetched row; a row with fewer than two cells raises and ends the entry. */
  function MstRows(item: PlanItem, rows: seq<Row>): (out: seq<seq<string>>)
    ensures |out| <= |rows|
    decreases |rows|
  {
    if rows == [] || |rows[0].cells| < 2 then []
    else [[item.table, item.column, item.typeText, rows[0].cells[0].text, rows[0].cells[1].text]] + MstRows(item, rows[1..])
  }

  /** The rows one plan entry contributes in the configured mode. */
  function ItemRows(mode: PyVal, exec: Executor, item: PlanItem): (rows: seq<seq<string>>)
    ensures mode == PStr("Search") ==> |rows| <= 1 && (exec(item.sql).None? ==> rows == [])
    ensures mode == PStr("Column") ==> rows == [ColumnFields(item)]
    ensures mode == PStr("MST") ==> rows == if exec(item.sql).None? then [] else MstRows(item, exec(item.sql).value.rows)
    ensures mode !in [PStr("Search"), PStr("Column"), PStr("MST")] ==> rows == []
  {
    if mode == PStr("Search") then
      match exec(item.sql)
      case None => []
      case Some(q) =>
        match FetchOne(q)
        case None => []
        case Some(row) =>
          // a row with no cells is falsy
          if row.cells == [] then []
          else [[item.table, item.column, item.typeText, item.displayText, item.internalText, item.sql, row.text]]
    else if mode == PStr("Column") then [ColumnFields(item)]
    else if mode == PStr("MST") then
      match exec(item.sql)
      case None => []
      case Some(q) => MstRows(item, q.rows)
    else []
  }

  /** The rows `__sub_run`'s second loop appends for a plan, in plan order. */
  function ExecRows(mode: PyVal, exec: Executor, plan: seq<PlanItem>): (rows: seq<seq<string>>)
    ensures plan == [] ==> rows == []
  {
    FlatMap(plan, item => ItemRows(mode, exec, item))
  }

  /** The rows of every element in turn, concatenated. */
  function FlatMap<T>(xs: seq<T>, f: T -> seq<seq<string>>): seq<seq<string>>
    decreases |xs|
  {
    if xs == [] then [] else FlatMap(xs[..|xs| - 1], f) + f(xs[|xs| - 1])
  }

  lemma {:induction false} FlatMapAppend<T>(a: seq<T>, b: seq<T>, f: T -> seq<seq<string>>)
    ensures FlatMap(a + b, f) == FlatMap(a, f) + FlatMap(b, f)
    decreases |b|
  {
    if b == [] {
      assert a + b == a;
    } else {
      var b' := b[..|b| - 1];
      assert (a + b)[..|a + b| - 1] == a + b';
      assert (a + b)[|a + b| - 1] == b[|b| - 1];
      FlatMapAppend(a, b', f);
    }
  }

  lemma ExecRowsAppend(mode: PyVal, exec: Executor, a: seq<PlanItem>, b: seq<PlanItem>)
    ensures ExecRows(mode, exec, a + b) == ExecRows(mode, exec, a) + ExecRows(mode, exec, b)
  {
    FlatMapAppend(a, b, item => ItemRows(mode, exec, item));
  }

  /** Every MST row has the header's five fields, and there is at most one per fetched row. */
  lemma {:induction false} MstRowsShape(item: PlanItem, rows: seq<Row>)
    ensures |MstRows(item, rows)| <= |rows|
    ensures forall row :: row in MstRows(item, rows) ==> |row| == |MstHeader|
    decreases |rows|
  {
    if rows != [] && |rows[0].cells| >= 2 {
      MstRowsShape(item, rows[1..]);
    }
  }

  /** When every fetched row has a value and a count, MST mode appends exactly one row per fetched row, in fetch order. */
  lemma {:induction false} MstRowsAll(item: PlanItem, rows: seq<Row>)
    requires forall k :: 0 <= k < |rows| ==> |rows[k].cells| >= 2
    ensures var out := MstRows(item, rows);
            && |out| == |rows|
            && forall k :: 0 <= k < |rows| ==>
                 out[k] == [item.table, item.column, item.typeText, rows[k].cells[0].text, rows[k].cells[1].text]
    decreases |rows|
  {
    if rows != [] {
      assert forall k :: 0 <= k < |rows| - 1 ==> rows[1..][k] == rows[k + 1];
      MstRowsAll(item, rows[1..]);
    }
  }

  /** Every row the execution phase appends is as wide as the mode's header. */
  lemma {:induction false} ExecRowsWidth(mode: PyVal, exec: Executor, plan: seq<PlanItem>)
    requires ModeHeader(mode).Some?
    ensures forall row :: row in ExecRows(mode, exec, plan) ==> |row| == |ModeHeader(mode).value|
    decreases |plan|
  {
    if plan != [] {
      var n := |plan| - 1;
      ExecRowsWidth(mode, exec, plan[..n]);
      ItemRowsWidth(mode, exec, plan[n]);
      assert ExecRows(mode, exec, plan) == ExecRows(mode, exec, plan[..n]) + ItemRows(mode, exec, plan[n]);
    }
  }

  /** The rows of one entry are as wide as the mode's header. */
  lemma ItemRowsWidth(mode: PyVal, exec: Executor, item: PlanItem)
    requires ModeHeader(mode).Some?
    ensures forall row :: row in ItemRows(mode, exec, item) ==> |row| == |ModeHeader(mode).value|
  {
    if mode == PStr("MST") && exec(item.sql).Some? {
      MstRowsShape(item, exec(item.sql).value.rows);
    }
  }

  /** Search mode appends at most one row per entry, only for an entry whose query fetched a row. */
  lemma {:induction false} SearchRowsBound(exec: Executor, plan: seq<PlanItem>)
    ensures |ExecRows(PStr("Search"), exec, plan)| <= |plan|
    ensures (forall k :: 0 <= k < |plan| ==> exec(plan[k].sql).None?) ==> ExecRows(PStr("Search"), exec, plan) == []
    decreases |plan|
  {
    if plan != [] {
      var init := plan[..|plan| - 1];
      assert forall k :: 0 <= k < |init| ==> init[k] == plan[k];
      SearchRowsBound(exec, init);
    }
  }

  /** Column mode runs no query: one row per entry, in plan order. */
  lemma {:induction false} ColumnRowsExact(exec: Executor, plan: seq<PlanItem>)
    ensures var rows := ExecRows(PStr("Column"), exec, plan);
            |rows| == |plan| && forall k :: 0 <= k < |plan| ==> rows[k] == ColumnFields(plan[k])
    decreases |plan|
  {
    if plan != [] {
      var init := plan[..|plan| - 1];
      assert forall k :: 0 <= k < |init| ==> init[k] == plan[k];
      ColumnRowsExact(exec, init);
    }
  }

  /** A column holding the value x three times and y five times gives the rows `x 3` and `y 5`. */
  lemma MstExample(item: PlanItem)
    ensures var fetched := [Row([DriverValue("x", None), DriverValue("3", Some(3))], "('x', 3)"),
                            Row([DriverValue("y", None), DriverValue("5", Some(5))], "('y', 5)")];
            MstRows(item, fetched) == [[item.table, item.column, item.typeText, "x", "3"],
                                       [item.table, item.column, item.typeText, "y", "5"]]
  {
  }

  lemma RowsAssoc(a: seq<seq<string>>, b: seq<seq<string>>, c: seq<seq<string>>)
    ensures a + b + c == a + (b + c)
  {
  }

  /** One more entry appends its rows after those of the entries before it. */
  lemma ExecRowsSnoc(mode: PyVal, exec: Executor, plan: seq<PlanItem>, k: nat)
    requires k < |plan|
    ensures ExecRows(mode, exec, plan[..k + 1]) == ExecRows(mode, exec, plan[..k]) + ItemRows(mode, exec, plan[k])
  {
    assert plan[..k + 1][..k] == plan[..k];
  }

  /** The outcome of `__sub_run` and of `search()` after it. */
  function SubRunOutcome(c: Config, ctorType: PyVal, exec: Executor, counts: map<string, int>,
                         tables: seq<string>, reference: map<string, seq<string>>): (r: SearchOutcome)
    ensures ctorType != PStr("MST") ==> r == Returned(NoFrame)
    ensures r.Crashed? ==> r.why == UnboundValueList
  {
    var st := PlanFrom(c, ctorType, exec, counts, tables, PlanState(reference, []));
    if st.plan == [] then Returned(NoFrame)
    else match ModeHeader(c.searchType)
      case None => Crashed(UnboundValueList)
      case Some(h) => Returned(Frame(h, ExecRows(c.searchType, exec, st.plan)))
  }

  /**
   * An empty plan returns the empty result; a non-empty one is executed, and the frame
   * holds its rows under the mode's header, unless `valueList` stays unbound.
   */
  lemma SubRunOutcomeFrame(c: Config, ctorType: PyVal, exec: Executor, counts: map<string, int>,
                           tables: seq<string>, reference: map<string, seq<string>>)
    ensures var st := PlanFrom(c, ctorType, exec, counts, tables, PlanState(reference, []));
            var r := SubRunOutcome(c, ctorType, exec, counts, tables, reference);
            && (st.plan == [] ==> r == Returned(NoFrame))
            && (st.plan != [] && ModeHeader(c.searchType).Some? ==>
                  r == Returned(Frame(ModeHeader(c.searchType).value, ExecRows(c.searchType, exec, st.plan))))
            && (st.plan != [] && ModeHeader(c.searchType).None? ==> r == Crashed(UnboundValueList))
  {
  }

  /**
   * The rest of `search()` once the tables are listed, from the recorded names, table
   * data and reference map: Table mode, or the row-count prefetch and `__sub_run`.
   */
  function ListingOutcome(ctorDb: PyVal, ctorType: PyVal, c: Config, exec: Executor, names: seq<string>,
                          data: seq<TableInfo>, reference: map<string, seq<string>>): (r: SearchOutcome)
    ensures c.searchType == PStr("Table") ==> r == Returned(Frame(TableHeader, TableRows(data, exec, PyStr(c.dbName))))
    ensures r.Crashed? ==> r.why == RowCountIndexError || r.why == UnboundValueList
  {
    if c.searchType == PStr("Table") then
      Returned(Frame(TableHeader, TableRows(data, exec, PyStr(c.dbName))))
    else
      var counts := if CountsRows(c) then RowCountsFrom(names, exec, PyStr(ctorDb), map[]) else Some(map[]);
      match counts
      case None => Crashed(RowCountIndexError)
      case Some(m) => SubRunOutcome(c, ctorType, exec, m, names, reference)
  }

  // ---- search() ----

  /** The rest of `search()` once the connection succeeded: list the tables, then run the mode. */
  function ConnectedOutcome(ctorDb: PyVal, ctorType: PyVal, c: Config, server: Server): (r: SearchOutcome)
    ensures server.tables(SchemaPattern(ctorDb)).None? ==> r == Returned(NoFrame)
  {
    match server.tables(SchemaPattern(ctorDb))
    case None => Returned(NoFrame)
    case Some(infos) =>
      var names := TableNames(infos);
      ListingOutcome(ctorDb, ctorType, c, server.execute, names,
                     if c.searchType == PStr("Table") then infos else [],
                     if WantsReference(c) then FreshReference(map[], names) else map[])
  }

  /**
   * `search()` on a configuration `c`, for a searcher constructed with database name
   * `ctorDb` and search type `ctorType`, against `server`. It depends on nothing a
   * previous run left behind.
   */
  function SearchSpec(ctorDb: PyVal, ctorType: PyVal, c: Config, server: Server): (r: SearchOutcome)
    // only a configuration that passes validation gets past the unbound `passConnection`
    ensures Validate(c) != Accepted ==> r.Crashed?
    ensures c.searchType == PStr("Search") ==> r.Crashed?
    ensures Validate(c) == Accepted && !server.connects ==> r == Crashed(UnboundPassTable)
    // outside Table mode, only a searcher constructed for MST ever produces a frame
    ensures ctorType != PStr("MST") && c.searchType != PStr("Table") ==> !(r.Returned? && r.df.Frame?)
  {
    match Validate(c)
    case TableListKeyError => Crashed(ValidationKeyError)
    case Rejected(_) => Crashed(UnboundPassConnection)
    case SilentPass => Crashed(UnboundPassConnection)
    case Accepted =>
      if !server.connects then Crashed(UnboundPassTable)
      else ConnectedOutcome(ctorDb, ctorType, c, server)
  }

  /** Every returned frame's rows are as wide as its header, as the data-frame constructor needs. */
  lemma FrameRowsFitHeader(ctorDb: PyVal, ctorType: PyVal, c: Config, server: Server)
    ensures var r := SearchSpec(ctorDb, ctorType, c, server);
            r.Returned? && r.df.Frame? ==> forall row :: row in r.df.rows ==> |row| == |r.df.header|
  {
    var r := SearchSpec(ctorDb, ctorType, c, server);
    if r.Returned? && r.df.Frame? {
      var infos := server.tables(SchemaPattern(ctorDb)).value;
      if c.searchType == PStr("Table") {
        TableRowsShape(infos, server.execute, PyStr(c.dbName));
      } else {
        var names := TableNames(infos);
        var reference: map<string, seq<string>> := if WantsReference(c) then FreshReference(map[], names) else map[];
        var m := (if CountsRows(c) then RowCountsFrom(names, server.execute, PyStr(ctorDb), map[]) else Some(map[])).value;
        var st := PlanFrom(c, ctorType, server.execute, m, names, PlanState(reference, []));
        ExecRowsWidth(c.searchType, server.execute, st.plan);
      }
    }
  }
}
