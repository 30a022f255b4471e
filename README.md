# DbSearcher, modelled and verified in Dafny

`DbSearcher` searches through an ODBC database in one of four modes:
- **Table** lists the tables with their row counts.
- **Column** lists the columns with their type and sizes.
- **Search** looks for a value with one `LIKE` probe per column.
- **MST** counts every distinct value of every column.

A run validates the configuration dictionary and connects. It then lists the tables of the database and optionally counts their rows. It samples each table for its column descriptions, filters the columns and builds one SQL statement per kept column. Finally it executes those statements and collects the results into a data frame.

This project models that class. The database driver is an oracle value (`Driver.Server`), and the data frame is a header plus rows of strings. The class `Searcher.DbSearcher` is proved to follow the `Pipeline` specification functions, stage by stage. That those functions follow the Python code rests on reading the two side by side, with the cited lines below. The code's defects are kept in the functions and stated as proved properties of them rather than corrected.

Module layout:
- `Configuration`: the configuration record, the `configure` key lookup and the validator.
- `PyValues`: the Python values a configuration entry can hold. It covers truthiness, `isinstance`, `str()`, and the `<`, `>` and `in` operators the class uses.
- `Decimal`: decimal text of integers, with its parser.
- `Driver`: what the searcher sees of the ODBC driver.
- `ColumnFilter`: the per-column `elif` chain.
- `Statements`: every SQL text the class builds. Bracket-stripping lemmas relate the two dialects.
- `Pipeline`: each stage of a run as a value-level specification function, and `SearchSpec`, the outcome of a whole `search()`.
- `Searcher`: the class `DbSearcher`. Its fields are those of the Python object, with three exceptions. `__cursor` is replaced by the `Server` parameter of each method. The `__translate` table is the constant `Configuration.Translate`. Of the private copies of the keyword arguments, only `__db_name` and `__search_type` are ever read again; they are the constants `ctorDbName` and `ctorSearchType`, and the others are not modelled. Its methods change the fields with loops like the Python class, and each is proved against the `Pipeline` function for its stage.
- `DateTimeOffset`: the output converter for SQL Server `datetimeoffset` values. It unpacks 20 little-endian bytes, with pack/unpack round trips, and formats the text. A parser reads the text back.

### Behaviour as written

The model keeps the following behaviours of the code, each backed by a proved property:
- The connection-type type check tests the connection string (`ConnTypeTypeCheckNeverFires`).
- A truthy `table_list` makes validation raise a KeyError. It looks up the key `'self.__internal_table_list'`, which is not in the dictionary (`Validate`, `SearchSpec`).
- In Search mode a truthy `and_column` is always rejected, because `isinstance` is applied to a list literal (`SearchAndColumnAlwaysRefused`).
- The final `else` belongs to the Search-mode `if`. So a Search configuration never becomes valid, and `search()` then reads `passConnection` unbound (`Validate`, `SearchSpec`).
- A failed connection leaves `passTable` unbound (`SearchSpec`).
- A failed table listing returns the empty result, not an error (`ConnectedOutcome`).
- The sampling statement picks its dialect by comparing the *search type* with `'SQL'` (`SampleStatement`).
- The MST/Search decision reads the constructor's search type. The schema pattern and the row-count statements use the constructor's database name (`TableStep`, `PullTables`, `RowCount`).
- A kept column in a non-MST run builds its search statement and then appends it to the undefined `self.sqlStringList`. The AttributeError abandons the table, so outside Table mode only a searcher constructed for MST produces a frame (`ColumnsPlan`, `SearchSpec`).
- The two halves of a search statement are joined with no blank before `AND` (`AndClauseExtends`).
- A failed row count on a table with the empty name raises inside its own handler (`RowCountsCrash`).

## Model

| member | source | states |
|---|---|---|
| Configuration.KeyNamed | DbSearch.py:121 | a name is recognised exactly when it is the dictionary key of some entry, and then the entry returned is the one it names |
| Configuration.KeyNamedKeyName | DbSearch.py:121 | every entry is found under its own key |
| Configuration.Set | DbSearch.py:123 | `config[index] = replacement` changes exactly that entry and keeps every other one |
| Configuration.Validate | DbSearch.py:127-219 | first-failure precedence, e.g. a falsy connection string is always reported first. The result is Accepted iff every entry is well formed (`WellFormed`). A Search configuration is never accepted. The KeyError happens iff the checks before it pass and `table_list` is truthy. |
| Configuration.ValidateReportsFirstFailure | DbSearch.py:127-219 | the reported check objects on its own terms (`Fails`) and no check earlier in the chain (`Rank`) does; a check after the column-size checks is reported only when `table_list` is falsy |
| Configuration.ValidateMissesNoFailure | DbSearch.py:127-219 | an objecting check is reported, or an earlier one is; only a truthy `table_list` can pre-empt a check after the column-size checks, by raising the KeyError or by an earlier report |
| Configuration.ConnTypeTypeCheckNeverFires | DbSearch.py:140-141 | the message "Connection Type must be a String" is never produced |
| Configuration.SearchAndColumnAlwaysRefused | DbSearch.py:203-205 | in Search mode, once the earlier checks pass, a truthy `and_column` is rejected whatever its type |
| PyValues.Contains | DbSearch.py:336-339 | `in` is defined only on str and list containers; on a str it holds iff the needle occurs at some position, on a list iff some element is that str |
| PyValues.IsSubstringSlice | DbSearch.py:336-339 | the recursive substring test holds iff the needle is a contiguous slice of the text |
| Decimal.IntToDecimal | DbSearch.py:240 | `str()` of an int parses back to that int |
| Decimal.FormatInt | DbSearch.py:463 | the zero-padded (optionally signed) numeral is exactly as wide as asked, unless sign and digits need more |
| Decimal.FormatIntReadsBack | DbSearch.py:463 | the padded numeral parses back to the number it was made from |
| Decimal.FormatIntWidth | DbSearch.py:463 | a number below 10^w fills exactly w characters |
| Decimal.FormatSignedWidth | DbSearch.py:463 | with `+03d` a number of magnitude below 100 takes exactly three characters |
| Decimal.TwoDigits | DbSearch.py:463 | `02d` writes the tens digit and then the units digit |
| Driver.FetchValOfFetchOne | DbSearch.py:267 | `fetchval()` is the first cell of the row `fetchone()` returns, and None when there is no row |
| Driver.ColumnNames | DbSearch.py:320-321 | the recorded column names are the description's names, in order |
| ColumnFilter.ColumnVerdict | DbSearch.py:325-342 | outside Search/MST every column is kept. In those modes a column is kept iff every set predicate holds (`Passes`), a filter with well-typed entries never raises, and a column named like `and_column` is never kept. |
| ColumnFilter.SizeWindow | DbSearch.py:332-335 | with only the two column-size bounds set, a column of integer size is kept iff `min_col_size <= size <= max_col_size`, and dropped otherwise, never raising |
| ColumnFilter.RowCountBoundary | DbSearch.py:330-331 | the row-count ceiling is inclusive: N rows kept, N+1 dropped |
| Statements.CountStatement | DbSearch.py:265 | the statement is `SELECT COUNT(*) FROM ` followed by the double-quoted qualified name, five characters longer than the prefix and both names |
| Statements.QuotedInjective | DbSearch.py:265 | for quote-free names, the double-quoted qualified name determines the database and the table |
| Statements.CountStatementInjective | DbSearch.py:265 | for quote-free names, distinct tables get distinct row-count statements |
| Statements.SampleStatement | DbSearch.py:312-315 | the exact text: when the search type is 'SQL', `SELECT TOP 1 * FROM "db"."table"`; otherwise `SELECT * FROM "db"."table" LIMIT 1` |
| Statements.SearchStatement | DbSearch.py:347-356 | the exact text of both dialects. SQL: `SELECT TOP 1 * FROM db.table WHERE UPPER([db].[table].[col]) LIKE UPPER('value')`, with `AND [db].[table].[and_col] LIKE 'like'` appended directly when the AND half is set. Otherwise: `SELECT * FROM ` and the same body with every identifier dotted, then ` LIMIT 1`. It starts with `SELECT TOP 1 ` iff the connection type is 'SQL'. |
| Statements.MstStatement | DbSearch.py:360-363 | the exact text of both dialects: `SELECT c, COUNT(c) FROM t GROUP BY c`, where c is `[db].[table].[col]` and t is `[db].[table]` when the connection type is 'SQL', and c is `db.table.col` and t is `db.table` otherwise |
| Statements.MstDialectsAgree | DbSearch.py:360-363 | for bracket-free names, the SQL-dialect MST statement with its brackets removed is the plain one |
| Statements.SearchDialectsAgree | DbSearch.py:347-356 | for bracket-free names and values, the SQL-dialect search statement without brackets is `SELECT TOP 1 * FROM` plus exactly what the plain one has between its prefix and ` LIMIT 1` |
| Statements.AndClauseExtends | DbSearch.py:349-356 | the statement with the AND clause is the one without it with `AND … LIKE '…'` inserted right after the closing `')`, with no blank |
| Pipeline.SchemaPattern | DbSearch.py:240 | the `LIKE` pattern is the constructor's db_name as `str()` writes it, between two `%` |
| Pipeline.TableNames | DbSearch.py:240-241 | the table list is the listing's names, in order |
| Pipeline.FreshReference | DbSearch.py:244-245 | every listed name maps to an empty list; other entries are kept |
| Pipeline.CountRow | DbSearch.py:260-271 | a table gives a row iff its COUNT statement executes, and then at most that one row, six fields wide, holding the table name and the COUNT statement |
| Pipeline.TableRows | DbSearch.py:260-271 | at most one row per listed table; `TableRowsAppend`, `TableRowsShape` and `TableRowsAllSucceed` characterise it |
| Pipeline.TableRowsAppend | DbSearch.py:260-271 | the Table-mode rows of two listings are the rows of each, concatenated |
| Pipeline.TableRowsShape | DbSearch.py:260-271 | at most one row per table, each six fields wide |
| Pipeline.TableRowsAllSucceed | DbSearch.py:260-271 | when every COUNT succeeds, exactly one row `[catalog, schema, name, type, count, sql]` per table, in listing order |
| Pipeline.CountOf | DbSearch.py:281-291 | a table whose COUNT statement fails gets no count |
| Pipeline.RowCountsFrom | DbSearch.py:281-291 | the index only ever gains entries; `RowCountsCrash` and `RowCountsContent` characterise it |
| Pipeline.CountsRows | DbSearch.py:438-439 | rows are counted in advance only in the Search and MST modes, where the column filter compares them, and only with `max_row_count` set |
| Pipeline.RowCountsCrash | DbSearch.py:281-291 | the row-count stage crashes iff an empty table name is listed and its COUNT fails |
| Pipeline.RowCountsContent | DbSearch.py:281-291 | otherwise the index holds exactly the tables whose COUNT succeeded, with the fetched counts |
| Pipeline.MstItem | DbSearch.py:359-364 | an MST plan entry is a `SELECT` for that table and column: its query is the dialect's distinct-value statement, and its Column-mode fields are the column's description fields unchanged |
| Pipeline.ColumnsPlan | DbSearch.py:323-364 | a table only extends the plan, by at most one entry per column, and never for a non-MST constructor |
| Pipeline.ColumnsPlanAll | DbSearch.py:323-364 | outside Search/MST an MST constructor plans every column |
| Pipeline.BeforeRaise | DbSearch.py:325-342 | the columns before the first raising one: a prefix of the description with no raising column, followed by a raising column or by the end |
| Pipeline.Kept | DbSearch.py:325-342 | the kept columns: every one of them is kept, and every kept column is among them |
| Pipeline.MstItems | DbSearch.py:359-364 | one MST entry per column, in order |
| Pipeline.ColumnsPlanComplete | DbSearch.py:323-364 | an MST constructor adds exactly the entries of the kept columns before the first raising one, in their order |
| Pipeline.ColumnsPlanKept | DbSearch.py:325-364 | every added entry is the MST entry of a column the filter keeps |
| Pipeline.AndColumnNeedsReference | DbSearch.py:340-342 | with `and_column` set and no recorded names, the table adds nothing |
| Pipeline.TableStep | DbSearch.py:303-367 | a table extends the plan; a failed sample changes nothing; a table missing from a non-empty reference map is skipped altogether; the reference keys are unchanged; a recorded table gets its sampled column names appended |
| Pipeline.TableStepPlans | DbSearch.py:303-367 | for an MST constructor, a sampled table that is recorded (or any table when nothing is recorded) adds exactly the MST entries of its kept columns before the first raising one, in order |
| Pipeline.PlanFrom | DbSearch.py:300-367 | the planning loop only extends the plan, and leaves it empty for a non-MST constructor |
| Pipeline.PlanFromAppend | DbSearch.py:300-367 | planning over two table lists in a row is planning over their concatenation |
| Pipeline.PlanFromSkipsFailedSample | DbSearch.py:303-317 | a table whose sample fails can be dropped from the table list without changing the reference map or the plan |
| Pipeline.PlanWithoutReference | DbSearch.py:319-342 | `and_column` without `like_val` plans nothing in Search/MST mode |
| Pipeline.ModeHeader | DbSearch.py:376-395 | `valueList` is bound iff the mode is Search, Column or MST |
| Pipeline.ItemRows | DbSearch.py:376-404 | Search: at most one row, none when the query fails. Column: exactly the entry's description fields. MST: `MstRows` of the fetched rows, none when the query fails. Any other mode: no rows. |
| Pipeline.MstRows | DbSearch.py:399-402 | at most one row per fetched row; `MstRowsShape` and `MstRowsAll` characterise it |
| Pipeline.ExecRows | DbSearch.py:373-404 | an empty plan gives no rows; `ExecRowsAppend`, `ExecRowsSnoc`, `ExecRowsWidth`, `ColumnRowsExact` and `SearchRowsBound` characterise it |
| Pipeline.ExecRowsAppend | DbSearch.py:373-404 | the rows of two plans are the rows of each, concatenated |
| Pipeline.MstRowsShape | DbSearch.py:399-402 | at most one MST row per fetched row, each five fields wide |
| Pipeline.MstRowsAll | DbSearch.py:399-402 | when every fetched row has two cells, exactly one `[table, column, type, value, count]` per fetched row, in order |
| Pipeline.MstExample | DbSearch.py:399-402 | a worked example of `MstRowsAll`: values x (3 times) and y (5 times) give exactly the two rows `x 3` and `y 5` |
| Pipeline.ExecRowsWidth | DbSearch.py:373-404 | every appended row is as wide as the mode's header |
| Pipeline.ItemRowsWidth | DbSearch.py:376-404 | the rows of one entry are as wide as the mode's header |
| Pipeline.SearchRowsBound | DbSearch.py:376-387 | Search adds at most one row per entry, and none when every query fails |
| Pipeline.ColumnRowsExact | DbSearch.py:390-392 | Column mode adds exactly one row of description fields per entry, in order |
| Pipeline.ExecRowsSnoc | DbSearch.py:373-404 | one more entry appends its own rows after the earlier ones |
| Pipeline.SubRunOutcome | DbSearch.py:294-405 | a non-MST constructor returns the empty result; the only crash is the unbound `valueList` |
| Pipeline.SubRunOutcomeFrame | DbSearch.py:294-405 | an empty plan returns the empty result; a non-empty plan returns the frame of the mode's header over `ExecRows` of the plan, or crashes on the unbound `valueList` when the mode has no header |
| Pipeline.ListingOutcome | DbSearch.py:436-441 | Table mode returns the Table header and rows; the only crashes are the row-count IndexError and the unbound `valueList` |
| Pipeline.ConnectedOutcome | DbSearch.py:433-441 | a failed listing returns the empty result |
| Pipeline.SearchSpec | DbSearch.py:422-443 | an unaccepted configuration crashes, and so does any Search configuration. An accepted one with a failed connection crashes on `passTable`. Outside Table mode a non-MST constructor never returns a frame. |
| Pipeline.FrameRowsFitHeader | DbSearch.py:272 | every returned frame's rows are as wide as its header |
| Searcher.DbSearcher.constructor | DbSearch.py:25-113 | the configuration is recorded, every accumulator is empty and nothing is valid |
| Searcher.DbSearcher.InternalValidation | DbSearch.py:127-219 | raises iff the table-list KeyError occurs; sets `__is_valid` only when accepted, never clears it |
| Searcher.DbSearcher.Configure | DbSearch.py:116-124 | a list index raises; an unknown key changes nothing; a known key is updated and revalidated |
| Searcher.DbSearcher.CleanInternal | DbSearch.py:407-420 | every accumulator is emptied and the counters are zero |
| Searcher.DbSearcher.PullTables | DbSearch.py:235-252 | a failed listing changes nothing. Otherwise names are appended, and table data in Table mode. Each name gets an empty reference entry when both AND halves are set, and the table count is the list length. |
| Searcher.DbSearcher.DbTable | DbSearch.py:254-272 | in Table mode appends `TableRows` of the table data and sets the frame; otherwise changes nothing |
| Searcher.DbSearcher.AppendCountRow | DbSearch.py:260-271 | appends exactly `CountRow` of the table |
| Searcher.DbSearcher.RowCount | DbSearch.py:274-291 | the index becomes `RowCountsFrom` of the table list, or the run crashes exactly when that is undefined |
| Searcher.DbSearcher.RecordColumns | DbSearch.py:319-321 | the table's recorded names grow by the sampled column names |
| Searcher.DbSearcher.PlanTable | DbSearch.py:303-367 | the reference map and the plan become `TableStep` |
| Searcher.DbSearcher.PlanColumns | DbSearch.py:323-364 | the per-column loop of one table gives the plan `ColumnsPlan`, stopping at the first AttributeError |
| Searcher.DbSearcher.ExecuteItem | DbSearch.py:376-404 | appends exactly `ItemRows` for the entry |
| Searcher.DbSearcher.AppendMstRows | DbSearch.py:399-402 | appends exactly `MstRows` of the fetched rows, stopping at the first row with fewer than two cells |
| Searcher.DbSearcher.PlanAll | DbSearch.py:299-368 | the reference map and plan become `PlanFrom` over the table list |
| Searcher.DbSearcher.ExecutePlan | DbSearch.py:370-404 | appends `ExecRows` of the plan; the header is `ModeHeader`; progress equals the plan length |
| Searcher.DbSearcher.SubRun | DbSearch.py:294-405 | from cleaned accumulators the crash and the frame are those of `SubRunOutcome` |
| Searcher.DbSearcher.RunMode | DbSearch.py:436-441 | the run's outcome is `ListingOutcome` of the recorded listing |
| Searcher.DbSearcher.Connected | DbSearch.py:433-441 | the outcome is `ConnectedOutcome` |
| Searcher.DbSearcher.Search | DbSearch.py:422-443 | the outcome is `SearchSpec` of the configuration, the constructor's values and the server, whatever earlier runs left behind; a returned frame is `__df_out` |
| DateTimeOffset.Unpack | DbSearch.py:461 | defined iff the buffer is 20 bytes; the nine fields fit `<6hI2h` |
| DateTimeOffset.UnpackPack | DbSearch.py:461 | packing representable fields and unpacking gives them back |
| DateTimeOffset.PackUnpack | DbSearch.py:461 | every 20-byte buffer is the packing of what it unpacks to |
| DateTimeOffset.Tweak | DbSearch.py:462 | field 6 is floor-divided by 100, the others are unchanged |
| DateTimeOffset.HandleDateTimeOffset | DbSearch.py:460-463 | text is produced iff the buffer is 20 bytes |
| DateTimeOffset.FieldWidths | DbSearch.py:463 | for calendar-range values each of the nine fields fills exactly its width in the format string |
| DateTimeOffset.FieldsReadBack | DbSearch.py:463 | each of the nine formatted fields parses back to its value |
| DateTimeOffset.SplitAssemble | DbSearch.py:463 | fixed-width fields joined by the separators are cut apart again exactly |
| DateTimeOffset.ParseFieldsAll | DbSearch.py:463 | fields that each parse as a number parse as the sequence of those numbers |
| DateTimeOffset.FieldTexts | DbSearch.py:463 | each of the nine field texts is at least as wide as its format width; `FieldWidths` and `FieldsReadBack` characterise them |
| DateTimeOffset.Format | DbSearch.py:463 | the text is at least 34 characters; `FormatReadsBack` gives its exact content |
| DateTimeOffset.FormatReadsBack | DbSearch.py:463 | for calendar-range values the text is 34 characters and reads back as the nine fields |
| DateTimeOffset.DecodeReadsBack | DbSearch.py:460-463 | decoding a packed record reads back as the unpacked fields with the fraction divided by 100 |
| DateTimeOffset.Example | DbSearch.py:461-463 | bytes of (2017, 3, 16, 10, 35, 18, 0, -6, 0) give `2017-03-16 10:35:18.0000000 -06:00` |

## Left out

- The pyodbc connection, cursor and output-converter registration (`__test_connection`) are foreign I/O. They become `Server.connects` and the oracle functions `Server.tables` and `Server.execute`.
- The data frame is represented by its header and rows. The pandas constructor itself is a library call.
- Printing, the `display_msg` decorator and the message helpers are a console side channel. The model keeps only their effect: the decorated methods return nothing.
- The progress percentages are computed with float division and only logged.
- `str()` of driver objects (rows, type objects, sizes) is opaque text supplied by the oracle (`DriverValue`, `Row.text`).
- The model does not give SQL any meaning (LIKE, UPPER, COUNT). It builds statement text and consumes oracle answers.
- `repr` escaping of quotes inside strings is not modelled. A string's repr is the string between single quotes.
- Hashability: only list values are unhashable. Other unhashable objects given to `configure` are not modelled.
- A listing that raises part-way is all or nothing. The oracle either returns the whole listing or raises before the first table, so the tables appended before a mid-listing failure are not modelled.
- Keys other than the thirteen entries cannot be added to the configuration. Writing `config[...]` directly with a new key is outside the class, so the key `'self.__internal_table_list'` is never present.
- The constructor takes the thirteen keyword arguments as one `Config` record.
- Searcher.DbSearcher.PlanTable: the search statement a kept column builds in a non-MST run is not stored. The append to `self.sqlStringList` raises before it is used. Its text is modelled by `Statements.SearchStatement` alone.
- Searcher.DbSearcher.RowCount: after the IndexError the fields are left as they were at that point, which `search()` never reads.
- `__progressVar` starts at 0. The Python constructor never sets it, but nothing reads it before `__sub_run` assigns it.
- `PyValues.PObject` stands for every other Python value and is always truthy. Falsy values of other types (`0.0`, `{}`, an empty tuple) cannot be represented. So a configuration such as `max_row_count = 0.0` is not modelled: validation skips it as falsy, and the filter then compares it with the row count.
- Sizes and counts are unbounded integers. Python ints have no width, and `int()` of a driver value is given by the oracle.
