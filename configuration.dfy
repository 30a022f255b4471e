/**
 * The searcher's configuration dictionary and its validator (`__internal_validation`),
 * including the translation table of data-type names.
 */
module Configuration {
  import opened Wrappers
  import opened PyValues

  /** The thirteen entries of `DbSearcher.config`. */
  datatype Config = Config(
    connString: PyVal, connType: PyVal, dbName: PyVal, searchType: PyVal,
    maxRowCount: PyVal, dataType: PyVal, minColSize: PyVal, maxColSize: PyVal,
    tableList: PyVal, columnList: PyVal, searchVal: PyVal, andColumn: PyVal, likeVal: PyVal)

  /** The names under which the entries are stored. */
  datatype Key =
    | ConnString | ConnType | DbName | SearchType | MaxRowCount | DataType
    | MinColSize | MaxColSize | TableList | ColumnList | SearchVal | AndColumn | LikeVal

  /** The dictionary key of an entry. */
  function KeyName(k: Key): string {
    match k
    case ConnString => "conn_string"
    case ConnType => "conn_type"
    case DbName => "db_name"
    case SearchType => "search_type"
    case MaxRowCount => "max_row_count"
    case DataType => "data_type"
    case MinColSize => "min_col_size"
    case MaxColSize => "max_col_size"
    case TableList => "table_list"
    case ColumnList => "column_list"
    case SearchVal => "search_val"
    case AndColumn => "and_column"
    case LikeVal => "like_val"
  }

  /** `name in config.keys()`, and which entry it names. */
  function KeyNamed(name: string): (r: Option<Key>)
    ensures r.Some? ==> KeyName(r.value) == name
    ensures r.None? ==> forall k :: KeyName(k) != name
  {
    if name == "conn_string" then Some(ConnString)
    else if name == "conn_type" then Some(ConnType)
    else if name == "db_name" then Some(DbName)
    else if name == "search_type" then Some(SearchType)
    else if name == "max_row_count" then Some(MaxRowCount)
    else if name == "data_type" then Some(DataType)
    else if name == "min_col_size" then Some(MinColSize)
    else if name == "max_col_size" then Some(MaxColSize)
    else if name == "table_list" then Some(TableList)
    else if name == "column_list" then Some(ColumnList)
    else if name == "search_val" then Some(SearchVal)
    else if name == "and_column" then Some(AndColumn)
    else if name == "like_val" then Some(LikeVal)
    else None
  }

  /** Every entry is found under its own key, so distinct entries have distinct keys. */
  lemma KeyNamedKeyName(k: Key)
    ensures KeyNamed(KeyName(k)) == Some(k)
  {
  }

  function Get(c: Config, k: Key): PyVal {
    match k
    case ConnString => c.connString
    case ConnType => c.connType
    case DbName => c.dbName
    case SearchType => c.searchType
    case MaxRowCount => c.maxRowCount
    case DataType => c.dataType
    case MinColSize => c.minColSize
    case MaxColSize => c.maxColSize
    case TableList => c.tableList
    case ColumnList => c.columnList
    case SearchVal => c.searchVal
    case AndColumn => c.andColumn
    case LikeVal => c.likeVal
  }

  /** `config[key] = v`: that entry changes and every other entry keeps its value. */
  function Set(c: Config, k: Key, v: PyVal): (r: Config)
    ensures Get(r, k) == v
    ensures forall j :: j != k ==> Get(r, j) == Get(c, j)
  {
    match k
    case ConnString => c.(connString := v)
    case ConnType => c.(connType := v)
    case DbName => c.(dbName := v)
    case SearchType => c.(searchType := v)
    case MaxRowCount => c.(maxRowCount := v)
    case DataType => c.(dataType := v)
    case MinColSize => c.(minColSize := v)
    case MaxColSize => c.(maxColSize := v)
    case TableList => c.(tableList := v)
    case ColumnList => c.(columnList := v)
    case SearchVal => c.(searchVal := v)
    case AndColumn => c.(andColumn := v)
    case LikeVal => c.(likeVal := v)
  }

  /** `__translate`: a data-type name to the `str()` of the Python class the driver reports. */
  const Translate: map<string, string> := map[
    "" := "",
    "Bit" := "<class 'bool'>",
    "Blob" := "<class 'bytearray'>",
    "DateTime" := "<class 'datetime.datetime'>",
    "Date" := "<class 'datetime.date'>",
    "Time" := "<class 'datetime.time'>",
    "Decimal" := "<class 'decimal.Decimal'>",
    "Float" := "<class 'float'>",
    "Integer" := "<class 'int'>",
    "String" := "<class 'str'>"]

  /** The text of `f'{self.__translate.keys()}'`. */
  const TranslateKeysText: string :=
    "dict_keys(['', 'Bit', 'Blob', 'DateTime', 'Date', 'Time', 'Decimal', 'Float', 'Integer', 'String'])"

  /** The check that failed, in the order the validator runs them. */
  datatype Problem =
    | ConnStringEmpty | ConnStringNotString
    | ConnTypeEmpty | ConnTypeNotString | ConnTypeUnknown
    | DbNameEmpty | DbNameNotString
    | SearchTypeEmpty | SearchTypeNotString
    | MaxRowCountNotInt | MaxRowCountNotPositive
    | DataTypeNotString | DataTypeUnknown
    | MinColSizeNotInt | MinColSizeNotPositive
    | MaxColSizeNotInt | MaxColSizeNotPositive
    | ColumnListNotList
    | SearchValEmpty | SearchValNotString
    | AndColumnNotString | AndColumnWithoutLikeVal
    | LikeValNotString | LikeValWithAndColumn

  /** The error message the validator returns for each failed check. */
  function Message(p: Problem): string {
    match p
    case ConnStringEmpty => "Connection String Must Not Be Empty"
    case ConnStringNotString => "Connection String must be a String"
    case ConnTypeEmpty => "Connection Type Must Not Be Empty // Options: (SQL, OTH)"
    case ConnTypeNotString => "Connection Type must be a String // Options: (SQL, OTH)"
    case ConnTypeUnknown => "Connection Type Must be one of the Options // Options: (SQL, OTH)"
    case DbNameEmpty => "Database Name Must Not Be Empty"
    case DbNameNotString => "Database Name must be a String"
    case SearchTypeEmpty => "Search Type must not be empty // Options: (Column, Table, Search, MST)"
    case SearchTypeNotString => "Search Type must be a String // Options: (Column, Table, Search, MST)"
    case MaxRowCountNotInt => "Max Row Count must be an Integer"
    case MaxRowCountNotPositive => "Max Row Count must be greater than 0"
    case DataTypeNotString => "Data Type must be String"
    case DataTypeUnknown => "Data Type Must be One of " + TranslateKeysText
    case MinColSizeNotInt => "Min Column Size must be an Integer"
    case MinColSizeNotPositive => "Min Column Size must be greater than 0"
    case MaxColSizeNotInt => "Max Column Size must be an Integer"
    case MaxColSizeNotPositive => "Max Column Size must be greater than 0"
    case ColumnListNotList => "Column List Must be a List"
    case SearchValEmpty => "Search Value must not be empty for this Search Type"
    case SearchValNotString => "Search Value must be a String"
    case AndColumnNotString => "And Column must be a String"
    case AndColumnWithoutLikeVal => "Both And Column AND Like Value are required (or both None)"
    case LikeValNotString => "Like Val must be a String"
    case LikeValWithAndColumn => "Both And Column AND Like Value are required (or both None)"
  }

  /**
   * What one call of `__internal_validation` does: report a failed check, report
   * the pass message and set `__is_valid`, fall off the end of the Search-mode branch
   * without a message, or raise the KeyError of the `'self.__internal_table_list'` lookup.
   */
  datatype Validation = Rejected(problem: Problem) | Accepted | SilentPass | TableListKeyError

  /** `isinstance(['and_column'], str)`: the check applies to a list literal, not to the entry. */
  const AndColumnCheckSubject: PyVal := PList([PStr("and_column")])

  /** A falsy entry, or an int (bool included) greater than zero. */
  predicate PositiveIfSet(v: PyVal) {
    !Truthy(v) || (AsInt(v).Some? && AsInt(v).value > 0)
  }

  /** Every configuration the validator accepts, stated entry by entry. */
  predicate WellFormed(c: Config) {
    && c.connString.PStr? && c.connString.s != ""
    && (c.connType == PStr("SQL") || c.connType == PStr("OTH"))
    && c.dbName.PStr? && c.dbName.s != ""
    && c.searchType.PStr? && c.searchType.s != "" && c.searchType != PStr("Search")
    && PositiveIfSet(c.maxRowCount)
    && (!Truthy(c.dataType) || (c.dataType.PStr? && c.dataType.s in Translate))
    && PositiveIfSet(c.minColSize)
    && PositiveIfSet(c.maxColSize)
    && !Truthy(c.tableList)
    && (!Truthy(c.columnList) || c.columnList.PList?)
  }

  /** The checks before the table-list entry all pass. */
  predicate PassesUpToTableList(c: Config) {
    && c.connString.PStr? && c.connString.s != ""
    && (c.connType == PStr("SQL") || c.connType == PStr("OTH"))
    && c.dbName.PStr? && c.dbName.s != ""
    && c.searchType.PStr? && c.searchType.s != ""
    && PositiveIfSet(c.maxRowCount)
    && (!Truthy(c.dataType) || (c.dataType.PStr? && c.dataType.s in Translate))
    && PositiveIfSet(c.minColSize)
    && PositiveIfSet(c.maxColSize)
  }

  /** The position of each check in the validator's chain. */
  function Rank(p: Problem): nat {
    match p
    case ConnStringEmpty => 0
    case ConnStringNotString => 1
    case ConnTypeEmpty => 2
    case ConnTypeNotString => 3
    case ConnTypeUnknown => 4
    case DbNameEmpty => 5
    case DbNameNotString => 6
    case SearchTypeEmpty => 7
    case SearchTypeNotString => 8
    case MaxRowCountNotInt => 9
    case MaxRowCountNotPositive => 10
    case DataTypeNotString => 11
    case DataTypeUnknown => 12
    case MinColSizeNotInt => 13
    case MinColSizeNotPositive => 14
    case MaxColSizeNotInt => 15
    case MaxColSizeNotPositive => 16
    case ColumnListNotList => 17
    case SearchValEmpty => 18
    case SearchValNotString => 19
    case AndColumnNotString => 20
    case AndColumnWithoutLikeVal => 21
    case LikeValNotString => 22
    case LikeValWithAndColumn => 23
  }

  /** A non-zero int (bool included) not greater than zero. */
  predicate NotPositive(v: PyVal) {
    Truthy(v) && AsInt(v).Some? && AsInt(v).value <= 0
  }

  /**
   * Whether one check, taken on its own, objects to the configuration; the checks of
   * the Search-mode branch apply only when the search type is "Search".
   */
  predicate Fails(c: Config, p: Problem) {
    match p
    case ConnStringEmpty => !Truthy(c.connString)
    case ConnStringNotString => !c.connString.PStr?
    case ConnTypeEmpty => !Truthy(c.connType)
    case ConnTypeNotString => !c.connString.PStr?
    case ConnTypeUnknown => c.connType != PStr("SQL") && c.connType != PStr("OTH")
    case DbNameEmpty => !Truthy(c.dbName)
    case DbNameNotString => !c.dbName.PStr?
    case SearchTypeEmpty => !Truthy(c.searchType)
    case SearchTypeNotString => !c.searchType.PStr?
    case MaxRowCountNotInt => Truthy(c.maxRowCount) && AsInt(c.maxRowCount).None?
    case MaxRowCountNotPositive => NotPositive(c.maxRowCount)
    case DataTypeNotString => Truthy(c.dataType) && !c.dataType.PStr?
    case DataTypeUnknown => c.dataType.PStr? && c.dataType.s != "" && c.dataType.s !in Translate
    case MinColSizeNotInt => Truthy(c.minColSize) && AsInt(c.minColSize).None?
    case MinColSizeNotPositive => NotPositive(c.minColSize)
    case MaxColSizeNotInt => Truthy(c.maxColSize) && AsInt(c.maxColSize).None?
    case MaxColSizeNotPositive => NotPositive(c.maxColSize)
    case ColumnListNotList => Truthy(c.columnList) && !c.columnList.PList?
    case SearchValEmpty => c.searchType == PStr("Search") && !Truthy(c.searchVal)
    case SearchValNotString => c.searchType == PStr("Search") && !c.searchVal.PStr?
    case AndColumnNotString =>
      c.searchType == PStr("Search") && Truthy(c.andColumn) && !AndColumnCheckSubject.PStr?
    case AndColumnWithoutLikeVal =>
      c.searchType == PStr("Search") && Truthy(c.andColumn) && !Truthy(c.likeVal)
    case LikeValNotString => c.searchType == PStr("Search") && Truthy(c.likeVal) && !c.likeVal.PStr?
    case LikeValWithAndColumn =>
      c.searchType == PStr("Search") && Truthy(c.likeVal) && Truthy(c.andColumn)
  }

  /** `__internal_validation`: a fixed chain of checks in which the first failure returns. */
  function Validate(c: Config): (r: Validation)
    // precedence: an empty connection string is reported whatever else is wrong
    ensures !Truthy(c.connString) ==> r == Rejected(ConnStringEmpty)
    ensures c.connString.PStr? && c.connString.s != "" && !Truthy(c.connType) ==>
              r == Rejected(ConnTypeEmpty)
    ensures r == Accepted <==> WellFormed(c)
    ensures r == Accepted ==> c.connType == PStr("SQL") || c.connType == PStr("OTH")
    ensures c.searchType == PStr("Search") ==> r != Accepted
    ensures r == TableListKeyError <==> PassesUpToTableList(c) && Truthy(c.tableList)
    ensures r == SilentPass ==> c.searchType == PStr("Search") && !Truthy(c.andColumn)
  {
    if !Truthy(c.connString) then Rejected(ConnStringEmpty)
    else if !c.connString.PStr? then Rejected(ConnStringNotString)
    else if !Truthy(c.connType) then Rejected(ConnTypeEmpty)
    else if !c.connString.PStr? then Rejected(ConnTypeNotString)
    else if c.connType != PStr("SQL") && c.connType != PStr("OTH") then
      Rejected(ConnTypeUnknown)
    else if !Truthy(c.dbName) then Rejected(DbNameEmpty)
    else if !c.dbName.PStr? then Rejected(DbNameNotString)
    else if !Truthy(c.searchType) then
      Rejected(SearchTypeEmpty)
    else if !c.searchType.PStr? then
      Rejected(SearchTypeNotString)
    else if Truthy(c.maxRowCount) && AsInt(c.maxRowCount).None? then Rejected(MaxRowCountNotInt)
    else if Truthy(c.maxRowCount) && AsInt(c.maxRowCount).value <= 0 then
      Rejected(MaxRowCountNotPositive)
    else if Truthy(c.dataType) && !c.dataType.PStr? then Rejected(DataTypeNotString)
    else if Truthy(c.dataType) && c.dataType.s !in Translate then
      Rejected(DataTypeUnknown)
    else if Truthy(c.minColSize) && AsInt(c.minColSize).None? then Rejected(MinColSizeNotInt)
    else if Truthy(c.minColSize) && AsInt(c.minColSize).value <= 0 then
      Rejected(MinColSizeNotPositive)
    else if Truthy(c.maxColSize) && AsInt(c.maxColSize).None? then Rejected(MaxColSizeNotInt)
    else if Truthy(c.maxColSize) && AsInt(c.maxColSize).value <= 0 then
      Rejected(MaxColSizeNotPositive)
    // the key 'self.__internal_table_list' is not in the configuration
    else if Truthy(c.tableList) then TableListKeyError
    else if Truthy(c.columnList) && !c.columnList.PList? then Rejected(ColumnListNotList)
    else if c.searchType == PStr("Search") then
      if !Truthy(c.searchVal) then Rejected(SearchValEmpty)
      else if !c.searchVal.PStr? then Rejected(SearchValNotString)
      else if Truthy(c.andColumn) && !AndColumnCheckSubject.PStr? then Rejected(AndColumnNotString)
      else if Truthy(c.andColumn) && !Truthy(c.likeVal) then
        Rejected(AndColumnWithoutLikeVal)
      else if Truthy(c.likeVal) && !c.likeVal.PStr? then Rejected(LikeValNotString)
      else if Truthy(c.likeVal) && Truthy(c.andColumn) then
        Rejected(LikeValWithAndColumn)
      else SilentPass
    else Accepted
  }

  /** The check the validator reports objects, and no earlier check of the chain does. */
  lemma ValidateReportsFirstFailure(c: Config)
    ensures Validate(c).Rejected? ==>
              && Fails(c, Validate(c).problem)
              && forall p :: Rank(p) < Rank(Validate(c).problem) ==> !Fails(c, p)
    ensures Validate(c).Rejected? && Rank(Validate(c).problem) > Rank(MaxColSizeNotPositive) ==>
              !Truthy(c.tableList)
  {
  }

  /**
   * No objecting check goes unreported: the validator reports it or an earlier one,
   * unless the table-list lookup, which sits between the column-size checks and the
   * column-list check, raises first.
   */
  lemma ValidateMissesNoFailure(c: Config, p: Problem)
    requires Fails(c, p)
    ensures Rank(p) <= Rank(MaxColSizeNotPositive) || !Truthy(c.tableList) ==>
              Validate(c).Rejected? && Rank(Validate(c).problem) <= Rank(p)
    ensures Rank(p) > Rank(MaxColSizeNotPositive) && Truthy(c.tableList) ==>
              Validate(c) == TableListKeyError || (Validate(c).Rejected? && Rank(Validate(c).problem) < Rank(p))
  {
  }

  /**
   * The type check written for the connection type tests the connection string,
   * which the second check already established to be a string: it never fires.
   */
  lemma ConnTypeTypeCheckNeverFires(c: Config)
    ensures Validate(c) != Rejected(ConnTypeNotString)
  {
  }

  /** In Search mode a set `and_column` is always refused, whatever its type. */
  lemma SearchAndColumnAlwaysRefused(c: Config)
    requires PassesUpToTableList(c) && !Truthy(c.tableList)
    requires !Truthy(c.columnList) || c.columnList.PList?
    requires c.searchType == PStr("Search") && c.searchVal.PStr? && c.searchVal.s != ""
    requires Truthy(c.andColumn)
    ensures Validate(c) == Rejected(AndColumnNotString)
  {
  }
}
