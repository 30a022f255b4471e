/**
 * The `DbSearcher` object: its configuration dictionary and the internal fields that
 * each run clears and refills. Every method is proved to leave the fields as the
 * value-level definitions of module Pipeline say; `Search` returns `SearchSpec`.
 */
module Searcher {
  import opened Wrappers
  import opened PyValues
  import opened Configuration
  import opened Driver
  import opened Statements
  import opened ColumnFilter
  import opened Pipeline

  class DbSearcher {
    /** `self.__db_name` and `self.__search_type`: the constructor's values, which `configure` never updates. */
    const ctorDbName: PyVal
    const ctorSearchType: PyVal

    var config: Config
    var dfOut: DfOut
    var dataArray: seq<seq<string>>
    var isValid: bool
    var tableList: seq<string>
    var tableData: seq<TableInfo>
    var reference: map<string, seq<string>>
    var rowCount: map<string, int>
    var tableCount: int
    var parseValue: int
    var progressVar: int

    /** The constructor records its keyword arguments without validating them. */
    constructor (initial: Config)
      ensures config == initial && ctorDbName == initial.dbName && ctorSearchType == initial.searchType
      ensures dfOut == NoFrame && dataArray == [] && !isValid
      ensures tableList == [] && tableData == [] && reference == map[] && rowCount == map[]
      ensures tableCount == 0 && parseValue == 0 && progressVar == 0
    {
      ctorDbName := initial.dbName;
      ctorSearchType := initial.searchType;
      config := initial;
      dfOut := NoFrame;
      dataArray := [];
      isValid := false;
      tableList := [];
      tableData := [];
      reference := map[];
      rowCount := map[];
      tableCount := 0;
      parseValue := 0;
      progressVar := 0;
    }

    /**
     * `__internal_validation`: only a passing configuration sets `__is_valid`, and
     * nothing clears it here. The table-list check raises instead of returning.
     */
    method InternalValidation() returns (crashed: bool)
      modifies this`isValid
      ensures crashed <==> Validate(config) == TableListKeyError
      ensures isValid == (old(isValid) || Validate(config) == Accepted)
    {
      var verdict := Validate(config);
      if verdict == TableListKeyError {
        return true;
      }
      if verdict == Accepted {
        isValid := true;
      }
      return false;
    }

    /**
     * `configure(index, replacement)`: a known key is updated and the configuration
     * revalidated; any other hashable index changes nothing, and a list raises.
     */
    method Configure(index: PyVal, replacement: PyVal) returns (crash: Option<Crash>)
      modifies this`config, this`isValid
      ensures index.PList? ==> crash == Some(UnhashableIndex) && config == old(config) && isValid == old(isValid)
      ensures !index.PList? && !(index.PStr? && KeyNamed(index.s).Some?) ==>
                crash == None && config == old(config) && isValid == old(isValid)
      ensures index.PStr? && KeyNamed(index.s).Some? ==>
                && config == Set(old(config), KeyNamed(index.s).value, replacement)
                && isValid == (old(isValid) || Validate(config) == Accepted)
                && (crash == if Validate(config) == TableListKeyError then Some(ValidationKeyError) else None)
    {
      if index.PList? {
        return Some(UnhashableIndex);
      }
      if !index.PStr? || KeyNamed(index.s).None? {
        return None;
      }
      config := Set(config, KeyNamed(index.s).value, replacement);
      var crashed := InternalValidation();
      crash := if crashed then Some(ValidationKeyError) else None;
    }

    /** `__clean_internal`: empties every accumulator; `__progressVar` is left alone. */
    method CleanInternal()
      modifies this`tableList, this`tableData, this`dataArray, this`dfOut, this`reference,
               this`rowCount, this`tableCount, this`parseValue
      ensures tableList == [] && tableData == [] && dataArray == [] && dfOut == NoFrame
      ensures reference == map[] && rowCount == map[] && tableCount == 0 && parseValue == 0
    {
      tableList := [];
      tableData := [];
      dataArray := [];
      dfOut := NoFrame;
      reference := map[];
      rowCount := map[];
      tableCount := 0;
      parseValue := 0;
    }

    /**
     * `__pull_tables`: records every listed table's name, its full entry in Table mode,
     * and an empty column list per name when both halves of the AND clause are set.
     * A listing that raises returns False.
     */
    method PullTables(server: Server) returns (ok: bool)
      modifies this`tableList, this`tableData, this`reference, this`tableCount
      ensures var listing := server.tables(SchemaPattern(ctorDbName));
              && ok == listing.Some?
              && (!ok ==> tableList == old(tableList) && tableData == old(tableData)
                          && reference == old(reference) && tableCount == old(tableCount))
              && (ok ==>
                    && tableList == old(tableList) + TableNames(listing.value)
                    && tableData == old(tableData) + (if config.searchType == PStr("Table") then listing.value else [])
                    && reference == (if WantsReference(config) then FreshReference(old(reference), TableNames(listing.value))
                                     else old(reference))
                    && tableCount == |tableList|)
    {
      var listing := server.tables(SchemaPattern(ctorDbName));
      if listing.None? {
        return false;
      }
      var infos := listing.value;
      var c := config;
      ghost var names := TableNames(infos);
      ghost var keepData := c.searchType == PStr("Table");
      var i := 0;
      while i < |infos|
        invariant 0 <= i <= |infos|
        invariant tableList == old(tableList) + names[..i]
        invariant keepData ==> tableData == old(tableData) + infos[..i]
        invariant !keepData ==> tableData == old(tableData)
        invariant WantsReference(c) ==>
                    FreshReference(old(reference), names) == FreshReference(reference, names[i..])
        invariant !WantsReference(c) ==> reference == old(reference)
      {
        var table := infos[i];
        tableList := tableList + [table.name];
        if c.searchType == PStr("Table") {
          tableData := tableData + [table];
        }
        if c.andColumn != PNone && c.likeVal != PNone {
          assert names[i..][0] == table.name && names[i..][1..] == names[i + 1..];
          reference := reference[table.name := []];
        }
        assert names[..i + 1] == names[..i] + [table.name];
        assert infos[..i + 1] == infos[..i] + [table];
        i := i + 1;
      }
      assert names[..i] == names && infos[..i] == infos;
      tableCount := |tableList|;
      return true;
    }

    /** `__db_Table`: in Table mode, one row per recorded table whose COUNT succeeds, then the frame. */
    method DbTable(server: Server)
      modifies this`parseValue, this`dataArray, this`dfOut
      ensures config.searchType == PStr("Table") ==>
                && dataArray == old(dataArray) + TableRows(tableData, server.execute, PyStr(config.dbName))
                && parseValue == old(parseValue) + |tableData|
                && dfOut == Frame(TableHeader, dataArray)
      ensures config.searchType != PStr("Table") ==>
                dataArray == old(dataArray) && parseValue == old(parseValue) && dfOut == old(dfOut)
    {
      if config.searchType == PStr("Table") {
        var db := PyStr(config.dbName);
        var data, start, exec := tableData, dataArray, server.execute;
        var i := 0;
        while i < |data|
          invariant 0 <= i <= |data|
          invariant parseValue == old(parseValue) + i
          invariant dataArray == start + TableRows(data[..i], exec, db)
          invariant dfOut == old(dfOut)
        {
          parseValue := parseValue + 1;
          TableRowsStep(data, i, exec, db);
          AppendCountRow(data[i], exec, db);
          i := i + 1;
        }
        assert data[..i] == data;
        dfOut := Frame(TableHeader, dataArray);
      }
    }

    /** One table of `__db_Table`'s loop: its COUNT, and the row appended when that succeeds. */
    method AppendCountRow(info: TableInfo, exec: Executor, db: string)
      modifies this`dataArray
      ensures dataArray == old(dataArray) + CountRow(info, exec, db)
    {
      var sql := CountStatement(db, info.name);
      var result := exec(sql);
      if result.Some? {
        var x := FetchVal(result.value);
        dataArray := dataArray + [[info.catalog, info.schema, info.name, info.kind, x.text, sql]];
      } else {
        assert dataArray == dataArray + [];
      }
    }

    /**
     * `__row_Count`: with `max_row_count` set in Search or MST mode, the count of every
     * listed table whose COUNT statement (on the constructor's database name) succeeds.
     */
    method RowCount(server: Server) returns (crashed: bool)
      modifies this`parseValue, this`rowCount
      ensures !CountsRows(config) ==> !crashed && rowCount == old(rowCount) && parseValue == 0
      ensures CountsRows(config) ==>
                var r := RowCountsFrom(tableList, server.execute, PyStr(ctorDbName), old(rowCount));
                && (crashed <==> r.None?)
                && (!crashed ==> rowCount == r.value && parseValue == |tableList|)
                && (crashed ==> 0 < parseValue <= |tableList|)
    {
      parseValue := 0;
      if config.maxRowCount != PNone {
        if config.searchType == PStr("MST") || config.searchType == PStr("Search") {
          var db := PyStr(ctorDbName);
          var i := 0;
          while i < |tableList|
            invariant 0 <= i <= |tableList|
            invariant parseValue == i
            invariant RowCountsFrom(tableList, server.execute, db, old(rowCount))
                   == RowCountsFrom(tableList[i..], server.execute, db, rowCount)
          {
            parseValue := parseValue + 1;
            var table := tableList[i];
            assert tableList[i..][0] == table && tableList[i..][1..] == tableList[i + 1..];
            var result := server.execute(CountStatement(db, table));
            var n: Option<int> := None;
            if result.Some? {
              n := FetchVal(result.value).asInt;
            }
            assert n == CountOf(server.execute, db, table);
            if n.Some? {
              rowCount := rowCount[table := n.value];
            } else if table == "" {
              // the handler's message takes `table_info[0]` of the empty name
              return true;
            }
            i := i + 1;
          }
        }
      }
      return false;
    }

    /** `__internal_reference[table].append(row[0])` for every column of the sampled description. */
    method RecordColumns(table: string, cols: seq<ColumnDesc>)
      requires table in reference
      modifies this`reference
      ensures reference == old(reference)[table := old(reference)[table] + ColumnNames(cols)]
    {
      ghost var before := reference[table];
      assert ColumnNames(cols[..0]) == [] && before + [] == before;
      var j := 0;
      while j < |cols|
        invariant 0 <= j <= |cols|
        invariant reference == old(reference)[table := before + ColumnNames(cols[..j])]
      {
        ColumnNamesStep(before, cols, j);
        reference := reference[table := reference[table] + [cols[j].name]];
        j := j + 1;
      }
      assert cols[..j] == cols;
    }

    /**
     * One table of `__sub_run`'s first loop, adding to the plan `plan` (the local
     * `sqlStringList`) and to the table's recorded column names.
     */
    method PlanTable(server: Server, table: string, plan: seq<PlanItem>) returns (r: seq<PlanItem>)
      modifies this`reference
      ensures PlanState(reference, r)
           == TableStep(config, ctorSearchType, server.execute, rowCount, table, PlanState(old(reference), plan))
    {
      var rowval := if table in rowCount then rowCount[table] else 0;
      var sample := server.execute(SampleStatement(config.searchType, PyStr(config.dbName), table));
      if sample.None? {
        return plan;
      }
      var cols := sample.value.description;
      if reference != map[] {
        if table !in reference {
          return plan;
        }
        RecordColumns(table, cols);
      }
      r := PlanColumns(table, cols, rowval, plan);
    }

    /** The inner loop over the sampled columns of `table`, whose row count is `rowval`. */
    method PlanColumns(table: string, cols: seq<ColumnDesc>, rowval: int, plan: seq<PlanItem>) returns (r: seq<PlanItem>)
      ensures r == ColumnsPlan(config, ctorSearchType, table, cols, rowval, reference, plan)
    {
      r := plan;
      var k := 0;
      while k < |cols|
        invariant 0 <= k <= |cols|
        invariant ColumnsPlan(config, ctorSearchType, table, cols, rowval, reference, plan)
               == ColumnsPlan(config, ctorSearchType, table, cols[k..], rowval, reference, r)
      {
        var col := cols[k];
        assert cols[k..][0] == col && cols[k..][1..] == cols[k + 1..];
        var verdict := ColumnVerdict(config, table, col, rowval, reference);
        if verdict == Raise {
          return;
        }
        if verdict == Keep && ctorSearchType != PStr("MST") {
          // the search statement is built, and appending it to `self.sqlStringList` raises
          return;
        }
        if verdict == Keep && ctorSearchType == PStr("MST") {
          r := r + [MstItem(config, table, col)];
        }
        k := k + 1;
      }
    }

    /** The rows one plan entry appends in the configured mode. */
    method ExecuteItem(server: Server, item: PlanItem)
      modifies this`dataArray
      ensures dataArray == old(dataArray) + ItemRows(config.searchType, server.execute, item)
    {
      var mode := config.searchType;
      assert old(dataArray) + [] == old(dataArray);
      if mode == PStr("Search") {
        var result := server.execute(item.sql);
        if result.Some? {
          var x := FetchOne(result.value);
          if x.Some? && x.value.cells != [] {
            dataArray := dataArray + [[item.table, item.column, item.typeText, item.displayText,
                                       item.internalText, item.sql, x.value.text]];
          }
        }
      }
      if mode == PStr("Column") {
        dataArray := dataArray + [[item.table, item.column, item.typeText, item.displayText, item.internalText]];
      }
      if mode == PStr("MST") {
        var result := server.execute(item.sql);
        if result.Some? {
          AppendMstRows(item, result.value.rows);
        }
      }
    }

    /** The MST branch of `__sub_run`'s second loop over the fetched rows of one entry. */
    method AppendMstRows(item: PlanItem, rows: seq<Row>)
      modifies this`dataArray
      ensures dataArray == old(dataArray) + MstRows(item, rows)
    {
      ghost var goal := old(dataArray) + MstRows(item, rows);
      assert rows[0..] == rows;
      var j := 0;
      while j < |rows|
        invariant 0 <= j <= |rows|
        invariant dataArray + MstRows(item, rows[j..]) == goal
      {
        assert rows[j..][0] == rows[j] && rows[j..][1..] == rows[j + 1..];
        if |rows[j].cells| < 2 {
          // `values[1]` raises and ends this entry
          assert MstRows(item, rows[j..]) == [];
          assert dataArray + [] == dataArray;
          return;
        }
        var row := [item.table, item.column, item.typeText, rows[j].cells[0].text, rows[j].cells[1].text];
        assert MstRows(item, rows[j..]) == [row] + MstRows(item, rows[j + 1..]);
        RowsAssoc(dataArray, [row], MstRows(item, rows[j + 1..]));
        dataArray := dataArray + [row];
        j := j + 1;
      }
      assert rows[j..] == [] && dataArray + [] == dataArray;
    }

    /** `__sub_run`'s first loop: every listed table in turn, from an empty `sqlStringList`. */
    method PlanAll(server: Server) returns (plan: seq<PlanItem>)
      modifies this`parseValue, this`reference
      ensures PlanState(reference, plan)
           == PlanFrom(config, ctorSearchType, server.execute, rowCount, tableList, PlanState(old(reference), []))
      ensures parseValue == old(parseValue) + |tableList|
    {
      var c, counts, tables := config, rowCount, tableList;
      ghost var goal := PlanFrom(c, ctorSearchType, server.execute, counts, tables, PlanState(reference, []));
      plan := [];
      var i := 0;
      while i < |tables|
        invariant 0 <= i <= |tables|
        invariant parseValue == old(parseValue) + i
        invariant goal == PlanFrom(c, ctorSearchType, server.execute, counts, tables[i..], PlanState(reference, plan))
      {
        parseValue := parseValue + 1;
        PlanFromStep(c, ctorSearchType, server.execute, counts, tables, i, PlanState(reference, plan));
        plan := PlanTable(server, tables[i], plan);
        i := i + 1;
      }
    }

    /** `__sub_run`'s second loop over a non-empty plan; `header` is what `valueList` ends up as. */
    method ExecutePlan(server: Server, plan: seq<PlanItem>) returns (header: Option<seq<string>>)
      requires plan != []
      modifies this`dataArray, this`progressVar
      ensures header == ModeHeader(config.searchType)
      ensures dataArray == old(dataArray) + ExecRows(config.searchType, server.execute, plan)
      ensures progressVar == |plan|
    {
      progressVar := 0;
      header := None;
      assert ExecRows(config.searchType, server.execute, plan[..0]) == [] && dataArray + [] == dataArray;
      var k := 0;
      while k < |plan|
        invariant 0 <= k <= |plan|
        invariant progressVar == k
        invariant header == if k == 0 then None else ModeHeader(config.searchType)
        invariant dataArray == old(dataArray) + ExecRows(config.searchType, server.execute, plan[..k])
      {
        progressVar := progressVar + 1;
        if config.searchType == PStr("Search") {
          header := Some(SearchHeader);
        }
        if config.searchType == PStr("Column") {
          header := Some(ColumnHeader);
        }
        if config.searchType == PStr("MST") {
          header := Some(MstHeader);
        }
        ghost var before := dataArray;
        ExecuteItem(server, plan[k]);
        ExecRowsSnoc(config.searchType, server.execute, plan, k);
        ghost var item := ItemRows(config.searchType, server.execute, plan[k]);
        assert dataArray == before + item;
        RowsAssoc(old(dataArray), ExecRows(config.searchType, server.execute, plan[..k]), item);
        k := k + 1;
      }
      assert plan[..k] == plan;
    }

    /**
     * `__sub_run`: plan every listed table, then execute the plan when it is non-empty
     * and build the frame with the header the mode assigned.
     */
    method SubRun(server: Server) returns (crashed: bool)
      modifies this`parseValue, this`reference, this`dataArray, this`dfOut, this`progressVar
      ensures var st := PlanFrom(config, ctorSearchType, server.execute, rowCount, tableList, PlanState(old(reference), []));
              && reference == st.reference
              && parseValue == old(parseValue) + |tableList|
              && (st.plan == [] ==> !crashed && dataArray == old(dataArray) && dfOut == old(dfOut)
                                    && progressVar == old(progressVar))
              && (st.plan != [] ==>
                    && progressVar == |st.plan|
                    && dataArray == old(dataArray) + ExecRows(config.searchType, server.execute, st.plan)
                    && (crashed <==> ModeHeader(config.searchType).None?)
                    && dfOut == (if crashed then old(dfOut) else Frame(ModeHeader(config.searchType).value, dataArray)))
      // from freshly cleaned accumulators, the outcome `search()` returns
      ensures old(dataArray) == [] && old(dfOut) == NoFrame ==>
                var o := SubRunOutcome(config, ctorSearchType, server.execute, rowCount, tableList, old(reference));
                (crashed <==> o.Crashed?) && (!crashed ==> o == Returned(dfOut))
    {
      var plan := PlanAll(server);
      if plan != [] {
        var header := ExecutePlan(server, plan);
        if header.None? {
          return true;
        }
        dfOut := Frame(header.value, dataArray);
        assert old(dataArray) == [] ==> dataArray == ExecRows(config.searchType, server.execute, plan);
      }
      return false;
    }

    /** The body of `search()`'s `if passTable:`, run on freshly cleaned accumulators. */
    method RunMode(server: Server) returns (outcome: SearchOutcome)
      requires dataArray == [] && dfOut == NoFrame && rowCount == map[]
      modifies this`dataArray, this`dfOut, this`reference, this`rowCount, this`parseValue, this`progressVar
      ensures outcome == ListingOutcome(ctorDbName, ctorSearchType, config, server.execute, tableList, tableData, old(reference))
      ensures outcome.Returned? ==> dfOut == outcome.df
    {
      if config.searchType == PStr("Table") {
        DbTable(server);
        return Returned(dfOut);
      }
      ghost var goal := ListingOutcome(ctorDbName, ctorSearchType, config, server.execute, tableList, tableData, reference);
      var countCrashed := RowCount(server);
      if countCrashed {
        return Crashed(RowCountIndexError);
      }
      assert goal == SubRunOutcome(config, ctorSearchType, server.execute, rowCount, tableList, reference);
      var runCrashed := SubRun(server);
      if runCrashed {
        return Crashed(UnboundValueList);
      }
      return Returned(dfOut);
    }

    /** The part of `search()` after a successful connection, on freshly cleaned accumulators. */
    method Connected(server: Server) returns (outcome: SearchOutcome)
      requires tableList == [] && tableData == [] && reference == map[]
      requires dataArray == [] && dfOut == NoFrame && rowCount == map[]
      modifies this`tableList, this`tableData, this`dataArray, this`dfOut, this`reference,
               this`rowCount, this`tableCount, this`parseValue, this`progressVar
      ensures outcome == ConnectedOutcome(ctorDbName, ctorSearchType, config, server)
      ensures outcome.Returned? ==> dfOut == outcome.df
    {
      var passTable := PullTables(server);
      if !passTable {
        return Returned(dfOut);
      }
      ghost var infos := server.tables(SchemaPattern(ctorDbName)).value;
      assert tableList == TableNames(infos);
      assert tableData == if config.searchType == PStr("Table") then infos else [];
      assert reference == if WantsReference(config) then FreshReference(map[], TableNames(infos)) else map[];
      ghost var goal := ListingOutcome(ctorDbName, ctorSearchType, config, server.execute, tableList, tableData, reference);
      assert ConnectedOutcome(ctorDbName, ctorSearchType, config, server) == goal;
      outcome := RunMode(server);
      assert outcome == goal;
    }

    /**
     * `search()`: reset, validate, connect, list the tables and run the configured mode.
     * The outcome is `SearchSpec` of the configuration, the constructor's values and the
     * server, whatever an earlier run left in the fields.
     */
    method Search(server: Server) returns (outcome: SearchOutcome)
      modifies this`isValid, this`tableList, this`tableData, this`dataArray, this`dfOut, this`reference,
               this`rowCount, this`tableCount, this`parseValue, this`progressVar
      ensures outcome == SearchSpec(ctorDbName, ctorSearchType, config, server)
      ensures outcome.Returned? ==> dfOut == outcome.df
    {
      isValid := false;
      CleanInternal();
      var validationCrashed := InternalValidation();
      if validationCrashed {
        return Crashed(ValidationKeyError);
      }
      var passConnection: Option<bool> := None;
      if isValid {
        // `__test_connection`
        passConnection := Some(server.connects);
      }
      if passConnection.None? {
        return Crashed(UnboundPassConnection);
      }
      if !passConnection.value {
        // `passTable` is read unbound
        return Crashed(UnboundPassTable);
      }
      outcome := Connected(server);
    }
  }
}
