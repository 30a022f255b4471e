/**
 * The per-column filter of `__sub_run`: the `elif` chain that decides, in Search
 * and MST mode, whether a sampled column takes part in the run.
 */
module ColumnFilter {
  import opened Wrappers
  import opened PyValues
  import opened Configuration
  import opened Driver

  /**
   * The outcome for one column: kept (`sortSignal` stays 0), dropped (`sortSignal`
   * becomes 1), or an exception, which abandons the rest of the table.
   */
  datatype Verdict = Keep | Drop | Raise

  /** The filter only runs in these two modes. */
  predicate Active(c: Config) {
    c.searchType == PStr("Search") || c.searchType == PStr("MST")
  }

  // Each branch condition of the chain: None when evaluating it raises,
  // Some(true) when it holds (the column is dropped).

  function DataTypeExcludes(c: Config, col: ColumnDesc): Option<bool> {
    if c.dataType == PNone then Some(false)
    else if c.dataType.PStr? && c.dataType.s in Translate then Some(Translate[c.dataType.s] != col.typeText)
    else None
  }

  function RowCountExcludes(c: Config, rowval: int): Option<bool> {
    if c.maxRowCount == PNone then Some(false) else LessThan(c.maxRowCount, rowval)
  }

  function MinSizeExcludes(c: Config, col: ColumnDesc): Option<bool> {
    if c.minColSize == PNone then Some(false)
    else if col.internalSize.asInt.None? then None
    else GreaterThan(c.minColSize, col.internalSize.asInt.value)
  }

  function MaxSizeExcludes(c: Config, col: ColumnDesc): Option<bool> {
    if c.maxColSize == PNone then Some(false)
    else if col.internalSize.asInt.None? then None
    else LessThan(c.maxColSize, col.internalSize.asInt.value)
  }

  function Absent(container: PyVal, needle: string): Option<bool> {
    match Contains(container, needle)
    case None => None
    case Some(b) => Some(!b)
  }

  function TableListExcludes(c: Config, table: string): Option<bool> {
    if c.tableList == PNone then Some(false) else Absent(c.tableList, table)
  }

  function ColumnListExcludes(c: Config, col: ColumnDesc): Option<bool> {
    if c.columnList == PNone then Some(false) else Absent(c.columnList, col.name)
  }

  /** `and_column not in __internal_reference[table] or and_column == row[0]`. */
  function AndColumnExcludes(c: Config, table: string, col: ColumnDesc, reference: map<string, seq<string>>): Option<bool> {
    if c.andColumn == PNone then Some(false)
    else if table !in reference then None
    else Some(!(c.andColumn.PStr? && c.andColumn.s in reference[table]) || c.andColumn == PStr(col.name))
  }

  /** Every active predicate holds, stated on the values themselves. */
  predicate Passes(c: Config, table: string, col: ColumnDesc, rowval: int, reference: map<string, seq<string>>) {
    var size := col.internalSize.asInt;
    && (c.dataType == PNone || (c.dataType.PStr? && c.dataType.s in Translate && Translate[c.dataType.s] == col.typeText))
    && (c.maxRowCount == PNone || (AsInt(c.maxRowCount).Some? && rowval <= AsInt(c.maxRowCount).value))
    && (c.minColSize == PNone || (AsInt(c.minColSize).Some? && size.Some? && AsInt(c.minColSize).value <= size.value))
    && (c.maxColSize == PNone || (AsInt(c.maxColSize).Some? && size.Some? && size.value <= AsInt(c.maxColSize).value))
    && (c.tableList == PNone || Contains(c.tableList, table) == Some(true))
    && (c.columnList == PNone || Contains(c.columnList, col.name) == Some(true))
    && (c.andColumn == PNone ||
          (table in reference && c.andColumn.PStr? && c.andColumn.s in reference[table] && c.andColumn.s != col.name))
  }

  /** No predicate can raise: every set entry has a type its comparison accepts. */
  predicate Typed(c: Config, table: string, col: ColumnDesc, reference: map<string, seq<string>>) {
    var size := col.internalSize.asInt;
    && (c.dataType == PNone || (c.dataType.PStr? && c.dataType.s in Translate))
    && (c.maxRowCount == PNone || AsInt(c.maxRowCount).Some?)
    && (c.minColSize == PNone || (AsInt(c.minColSize).Some? && size.Some?))
    && (c.maxColSize == PNone || (AsInt(c.maxColSize).Some? && size.Some?))
    && (c.tableList == PNone || c.tableList.PStr? || c.tableList.PList?)
    && (c.columnList == PNone || c.columnList.PStr? || c.columnList.PList?)
    && (c.andColumn == PNone || table in reference)
  }

  /**
   * The `elif` chain for one column of `table`, whose row count is `rowval`, with the
   * column names `reference` recorded so far. It adds at most one to `sortSignal`.
   */
  function ColumnVerdict(c: Config, table: string, col: ColumnDesc, rowval: int,
                         reference: map<string, seq<string>>): (v: Verdict)
    ensures !Active(c) ==> v == Keep
    ensures Active(c) ==> (v == Keep <==> Passes(c, table, col, rowval, reference))
    ensures Active(c) && Typed(c, table, col, reference) ==> v != Raise
    // a column cannot qualify itself
    ensures Active(c) && c.andColumn == PStr(col.name) ==> v != Keep
  {
    if !Active(c) then Keep
    else
      var e1 := DataTypeExcludes(c, col);
      if e1.None? then Raise else if e1.value then Drop else
      var e2 := RowCountExcludes(c, rowval);
      if e2.None? then Raise else if e2.value then Drop else
      var e3 := MinSizeExcludes(c, col);
      if e3.None? then Raise else if e3.value then Drop else
      var e4 := MaxSizeExcludes(c, col);
      if e4.None? then Raise else if e4.value then Drop else
      var e5 := TableListExcludes(c, table);
      if e5.None? then Raise else if e5.value then Drop else
      var e6 := ColumnListExcludes(c, col);
      if e6.None? then Raise else if e6.value then Drop else
      var e7 := AndColumnExcludes(c, table, col, reference);
      if e7.None? then Raise else if e7.value then Drop else
      Keep
  }

  /** The row-count ceiling is inclusive: a table with exactly that many rows is kept, one more is dropped. */
  lemma RowCountBoundary(c: Config, table: string, col: ColumnDesc, n: int, reference: map<string, seq<string>>)
    requires c.searchType == PStr("MST") && c.maxRowCount == PInt(n)
    requires c.dataType == PNone && c.minColSize == PNone && c.maxColSize == PNone
    requires c.tableList == PNone && c.columnList == PNone && c.andColumn == PNone
    ensures ColumnVerdict(c, table, col, n, reference) == Keep
    ensures ColumnVerdict(c, table, col, n + 1, reference) == Drop
  {
  }

  /**
   * The two column-size bounds make an inclusive window: with only them set, a column
   * whose internal size is an integer is kept exactly when the size lies between them,
   * and otherwise dropped, never raising.
   */
  lemma SizeWindow(c: Config, table: string, col: ColumnDesc, rowval: int, reference: map<string, seq<string>>,
                   lo: int, hi: int)
    requires Active(c) && c.minColSize == PInt(lo) && c.maxColSize == PInt(hi)
    requires c.dataType == PNone && c.maxRowCount == PNone
    requires c.tableList == PNone && c.columnList == PNone && c.andColumn == PNone
    requires col.internalSize.asInt.Some?
    ensures var s := col.internalSize.asInt.value;
            ColumnVerdict(c, table, col, rowval, reference) == if lo <= s <= hi then Keep else Drop
  {
  }
}
