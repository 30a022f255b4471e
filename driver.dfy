/**
 * What the searcher sees of the ODBC driver. The driver itself is not modelled:
 * a Server value is an oracle that answers each call the searcher makes.
 */
module Driver {
  import opened Wrappers

  /** An opaque value produced by the driver, known only through `str()` and `int()` (None: `int()` raises). */
  datatype DriverValue = DriverValue(text: string, asInt: Option<int>)

  /** Python's None as a driver result (`fetchval()` on an empty result). */
  const NoneValue: DriverValue := DriverValue("None", None)

  /** One entry of `cursor.description`: name, `str()` of the type code, display size, internal size. */
  datatype ColumnDesc = ColumnDesc(name: string, typeText: string, displayText: string, internalSize: DriverValue)

  /** A fetched row: its cells and the `str()` of the whole row object. */
  datatype Row = Row(cells: seq<DriverValue>, text: string)

  /** The outcome of an `execute` that did not raise. */
  datatype QueryResult = QueryResult(description: seq<ColumnDesc>, rows: seq<Row>)

  /** One entry of `cursor.tables(...)`: table_name, and the `str()` of table_schem, table_cat, table_type. */
  datatype TableInfo = TableInfo(name: string, schema: string, catalog: string, kind: string)

  /**
   * The database as the searcher observes it: whether connecting succeeds, the table
   * listing for a schema pattern, and the result of executing a statement text
   * (None: the driver call raised).
   */
  datatype Server = Server(
    connects: bool,
    tables: string -> Option<seq<TableInfo>>,
    execute: string -> Option<QueryResult>)

  /** `cursor.fetchval()`: the first cell of the first row, or None when there is no row. */
  function FetchVal(q: QueryResult): (v: DriverValue)
    ensures q.rows == [] ==> v == NoneValue
    ensures q.rows != [] && q.rows[0].cells != [] ==> v == q.rows[0].cells[0]
  {
    if q.rows != [] && q.rows[0].cells != [] then q.rows[0].cells[0] else NoneValue
  }

  /** `cursor.fetchone()`: the first row, or None. */
  function FetchOne(q: QueryResult): (r: Option<Row>)
    ensures r.Some? <==> q.rows != []
    ensures r.Some? ==> r.value == q.rows[0]
  {
    if q.rows != [] then Some(q.rows[0]) else None
  }

  /** `fetchval()` is the first cell of what `fetchone()` returns, or None when there is no row. */
  lemma FetchValOfFetchOne(q: QueryResult)
    ensures FetchOne(q).None? ==> FetchVal(q) == NoneValue
    ensures FetchOne(q).Some? && FetchOne(q).value.cells != [] ==> FetchVal(q) == FetchOne(q).value.cells[0]
  {
  }

  /** The names in a description, in order. */
  function ColumnNames(cols: seq<ColumnDesc>): (names: seq<string>)
    ensures |names| == |cols|
    ensures forall k :: 0 <= k < |cols| ==> names[k] == cols[k].name
  {
    if cols == [] then [] else [cols[0].name] + ColumnNames(cols[1..])
  }

  /** The names of one more column of the description: the previous names, then its own. */
  lemma ColumnNamesStep(before: seq<string>, cols: seq<ColumnDesc>, j: nat)
    requires j < |cols|
    ensures before + ColumnNames(cols[..j + 1]) == before + ColumnNames(cols[..j]) + [cols[j].name]
  {
    assert ColumnNames(cols[..j + 1]) == ColumnNames(cols[..j]) + [cols[j].name];
  }
}
