# Parquet viewer core in Dafny

This project models the logic of a browser-based Parquet viewer. The viewer:

- loads a dropped or picked `.parquet` file into an embedded analytical SQL engine;
- shows its schema and rows page by page in a data grid;
- runs the user's own SQL against it.

The model covers four parts of the viewer:

- **SQL request builder** (`src/lib/sqlBuilder.ts`). It turns a grid block request into SQL. A block request is a row range plus the grid's sort model and filter model. The output is a bounded `SELECT` and a matching `COUNT(*)` query. Its Dafny module is `SqlBuilder`.
- **Application root** (`src/App.tsx`). This covers the state the page keeps and the handlers that change it:
  - engine start-up;
  - loading a file, which registers it, recreates the `parquet_file` view, runs `DESCRIBE`, counts the rows and fetches the first page;
  - fetching a page, and the Previous/Next pager;
  - running a custom query, including the quoting tip added to missing-column errors;
  - "Load Another File", and the sidebar toggle;
  - which screen, results pane, empty-result texts and footer the page shows.

  This is the `App` module. Its `AppState` class holds the fields the handlers update in place.
- **Results grid** (`src/components/DataGrid.tsx`). This covers the column definitions derived from the schema, the timestamp-column heuristic, the numeric part of the timestamp formatter, and the choice between the grid and the empty-result message. Its module is `DataGrid`.
- **Drop zone** (`src/components/DropZone.tsx`). This covers which dropped or picked file is handed on, when the "Please upload a .parquet file" alert is raised, and the `isDragging` highlight flag. Its module is `DropZone`, with the `DropZoneState` class.

The engine itself is not modelled. Every call to it is represented by its reply (`Engine.Result` or `Engine.Outcome`), passed to the handler as a parameter. Each handler returns the SQL text it sends, so contracts can speak about it. The JavaScript string built-ins the code uses live in `Text`:

- `endsWith` and `includes`;
- `join`;
- decimal rendering of integral numbers;
- ASCII `toUpperCase`.

Details of the code the model keeps as written:

- The count query is `SELECT COUNT(*) as total FROM …`, with a lower-case `as`.
- Column names are wrapped in double quotes verbatim. Embedded double quotes are not doubled (`SqlBuilder.QuoteIdentIsDelimitedIff` states exactly when that still gives a proper delimited identifier).
- The application paginates the `parquet_file` view with its own `LIMIT 1000 OFFSET …` statements. Nothing in the application calls `buildSql`.
- The file name is put between single quotes in `CREATE VIEW` without escaping.

## Model

| member | source | states |
|---|---|---|
| SqlBuilder.DoubleCharLength | src/lib/sqlBuilder.ts:15 | escaping adds exactly one character per single quote of the value |
| SqlBuilder.DoubleCharUnchangedIff | src/lib/sqlBuilder.ts:15 | escaping leaves a value unchanged exactly when it holds no single quote |
| SqlBuilder.DoubleCharAppend | src/lib/sqlBuilder.ts:15 | the global quote replacement works piece by piece: escaping distributes over concatenation |
| SqlBuilder.EscapeQuotesPaired | src/lib/sqlBuilder.ts:15 | after escaping, every single quote is immediately followed by a second one, so none can close the literal early |
| SqlBuilder.ReadEscapedLiteral | src/lib/sqlBuilder.ts:15-29 | reading an escaped literal back (ISO/IEC 9075-2 section 5.3 rules) gives the original value and stops at the closing quote: escaping round-trips |
| SqlBuilder.QuoteIdentIsDelimitedIff | src/lib/sqlBuilder.ts:16 | the column quoting equals a delimited identifier of ISO/IEC 9075-2 section 5.2 exactly when the column name has no double quote |
| SqlBuilder.FilterClause | src/lib/sqlBuilder.ts:12-50 | one pass of the loop body: an entry pushes a clause exactly when it is a text filter with one of six operators or a number filter with one of six operators; other filter types and operators push nothing (the clause text is given by `TextClauseForm`, `NumberClauseForm` and `FilterClauseColumn`) |
| SqlBuilder.TextClauseForm | src/lib/sqlBuilder.ts:14-30 | a text clause is the quoted column, the operator's SQL keyword and a single-quoted literal of the pattern's wildcards around the escaped value (contains, notContains, equals, notEqual, startsWith, endsWith) |
| SqlBuilder.TextClauseLiteral | src/lib/sqlBuilder.ts:14-30 | the literal in a text clause reads back as the wildcard pattern around the original, unescaped value |
| SqlBuilder.NumberClauseForm | src/lib/sqlBuilder.ts:33-49 | a number clause is the quoted column, the comparison for the operator and the number, and the number reads back unchanged |
| SqlBuilder.FilterClauseColumn | src/lib/sqlBuilder.ts:16-47 | every clause starts with its own key in double quotes followed by a space |
| SqlBuilder.Clauses | src/lib/sqlBuilder.ts:8-51 | the walk pushes at most one clause per filter entry |
| SqlBuilder.ClausesAppend | src/lib/sqlBuilder.ts:11-51 | clauses follow the entries' order: the clauses of a concatenation are the clauses of each part, in order |
| SqlBuilder.ClausesOnePerEntryIff | src/lib/sqlBuilder.ts:11-51 | one clause per entry exactly when every entry is supported |
| SqlBuilder.ClausesEmptyIff | src/lib/sqlBuilder.ts:11-53 | no clause at all exactly when no entry is supported |
| SqlBuilder.ClauseOrigin | src/lib/sqlBuilder.ts:11-51 | every clause is the clause of some entry and starts with that entry's quoted key |
| SqlBuilder.WhereSql | src/lib/sqlBuilder.ts:53 | the WHERE part is empty exactly when there are no clauses, and otherwise starts with `WHERE ` (the join is stated by `WhereSqlAddFilter`) |
| SqlBuilder.WhereSqlAddFilter | src/lib/sqlBuilder.ts:11-53 | clauses are joined with ` AND `: a supported entry appended to the filter model opens the WHERE part with `WHERE ` and its clause, or appends ` AND ` and its clause |
| SqlBuilder.WhereSqlSkipsUnsupported | src/lib/sqlBuilder.ts:11-53 | an unsupported entry appended to the filter model leaves the WHERE part unchanged |
| SqlBuilder.WhereSqlEmptyIff | src/lib/sqlBuilder.ts:53 | the WHERE part is empty exactly when no filter entry is supported, and otherwise starts with `WHERE ` |
| SqlBuilder.ValidSortModel | src/lib/sqlBuilder.ts:56 | filtering the sort model never lengthens it |
| SqlBuilder.ValidSortModelMembers | src/lib/sqlBuilder.ts:56 | an entry survives exactly when it is in the sort model and its direction is exactly `asc` or `desc` |
| SqlBuilder.ValidSortModelAppend | src/lib/sqlBuilder.ts:56 | filtering keeps the sort model's order: it distributes over concatenation |
| SqlBuilder.ValidSortModelKeepsAllIff | src/lib/sqlBuilder.ts:56 | nothing is dropped exactly when every direction is valid |
| SqlBuilder.SortTermForm | src/lib/sqlBuilder.ts:58 | a sort term is the quoted column and ` ASC` or ` DESC`, the upper-cased direction |
| SqlBuilder.OrderBySql | src/lib/sqlBuilder.ts:57-59 | the ORDER BY part is empty exactly when the filtered sort model is empty, and otherwise starts with `ORDER BY ` (the join is stated by `OrderByAddEntry`) |
| SqlBuilder.OrderByAddEntry | src/lib/sqlBuilder.ts:56-59 | sort terms are joined with `, `: a valid entry appended to the sort model opens the ORDER BY part with `ORDER BY ` and its term, or appends `, ` and its term |
| SqlBuilder.OrderBySkipsInvalid | src/lib/sqlBuilder.ts:56-59 | an entry of any other direction appended to the sort model leaves the ORDER BY part unchanged |
| SqlBuilder.OrderByEmptyIff | src/lib/sqlBuilder.ts:56-59 | the ORDER BY part is empty exactly when no sort entry has a valid direction |
| SqlBuilder.Query | src/lib/sqlBuilder.ts:65 | the bounded SELECT, with no contract of its own: `CountQuerySharesWhere` states how it begins, `QuerySortSlot` that the ORDER BY part follows, `QueryPaging` how it ends, `EmptyRequest` its shape without filters or sort |
| SqlBuilder.QuerySortSlot | src/lib/sqlBuilder.ts:65 | after `SELECT * FROM <table> <where> ` the query is exactly the ORDER BY part followed by the LIMIT/OFFSET part |
| SqlBuilder.CountQuery | src/lib/sqlBuilder.ts:66 | the count query, with no contract of its own: `CountQuerySharesWhere` states it exactly and shows that sort model and row range do not reach it |
| SqlBuilder.BuildSql | src/lib/sqlBuilder.ts:2-69 | the method's loop over the filter model, then the assembly, returns exactly the query and the count query that the pieces above define |
| SqlBuilder.QueryPaging | src/lib/sqlBuilder.ts:62-65 | the query always ends with `LIMIT endRow-startRow OFFSET startRow`, both numbers read back; the LIMIT is negative exactly when endRow < startRow |
| SqlBuilder.CountQuerySharesWhere | src/lib/sqlBuilder.ts:65-66 | the count query has the same WHERE text as the query and ends there; the sort model and the row range do not change it |
| SqlBuilder.EmptyRequest | src/lib/sqlBuilder.ts:53-66 | with no filters and no sort, the query has three spaces before LIMIT and the count query ends in a space |
| SqlBuilder.EscapeExample | src/lib/sqlBuilder.ts:15 | `O'Brien` is escaped as `O''Brien` |
| SqlBuilder.ContainsExample | src/lib/sqlBuilder.ts:18-19 | a contains filter on `O'Brien` gives `"name" ILIKE '%O''Brien%'` |
| DataGrid.ColDefs | src/components/DataGrid.tsx:16-48 | the column definitions are the schema mapped entry by entry: same length, and the i-th definition is that of the i-th schema entry |
| DataGrid.ColDefsDescribeSchema | src/components/DataGrid.tsx:16-48 | an empty schema gives no columns; each definition's field and header are the column name, filter and sort are on, and exactly the timestamp columns get a formatter |
| DataGrid.IsTimestamp | src/components/DataGrid.tsx:19 | the timestamp test, with no contract of its own: `TimestampExamples` shows each of its five cases on its own, `NonTimestampExamples` its case-sensitivity, `ColDefsDescribeSchema` ties it to the formatter |
| DataGrid.TimestampExamples | src/components/DataGrid.tsx:19 | each test alone is enough: a TIMESTAMP type with a plain name, and names ending `_time`, `Time`, `_date` or equal to `date` with a non-timestamp type |
| DataGrid.NonTimestampExamples | src/components/DataGrid.tsx:19 | the tests are case-sensitive and exact: `id`/INTEGER, `datetime`/VARCHAR and `DATE`/DATE are not timestamp columns |
| DataGrid.FormatTimestamp | src/components/DataGrid.tsx:28-41 | falsy values format blank; values above 10^13 are divided by 1000, others are used as milliseconds |
| DataGrid.MicrosAndMillisAgree | src/components/DataGrid.tsx:30-38 | an instant after 10^10 ms past the epoch and up to 10^13 formats the same from microseconds as from milliseconds |
| DataGrid.FormatTimestampExample | src/components/DataGrid.tsx:36-38 | the microsecond example 1767155612954000 and its millisecond value give the same instant; 0 is blank |
| DataGrid.Render | src/components/DataGrid.tsx:15-63 | absent or empty rows show the given empty message, or "No data to display." when none is given, and the given sub-message unchanged exactly when it is non-empty; otherwise the grid gets the rows and the schema's column definitions |
| DropZone.FindParquet | src/components/DropZone.tsx:29 | the result is the first file whose name ends in `.parquet`, none exactly when no file does |
| DropZone.DropChoice | src/components/DropZone.tsx:24-36 | the drop handler's decision, with no contract of its own: `DropSelectsFirstParquet` states it |
| DropZone.PickerChoice | src/components/DropZone.tsx:38-47 | an empty selection does nothing; a selection is only ever the first file, and only when its name ends in `.parquet` |
| DropZone.DropSelectsFirstParquet | src/components/DropZone.tsx:24-36 | a drop never does nothing: it selects the first parquet file, or raises the alert exactly when there is none |
| DropZone.PickerLooksAtFirstOnly | src/components/DropZone.tsx:38-47 | the picker looks at the first file only: it alerts on a non-parquet first file and otherwise agrees with a drop |
| DropZone.PickerIgnoresLaterFiles | src/components/DropZone.tsx:29-44 | a later parquet file is taken by a drop and not by the picker |
| DropZone.UpperCaseExtensionRejected | src/components/DropZone.tsx:41 | the extension test is case-sensitive |
| DropZone.DropZoneState.constructor | src/components/DropZone.tsx:12 | the highlight starts off |
| DropZone.DropZoneState.DragOver | src/components/DropZone.tsx:14-17 | a drag over the zone turns the highlight on |
| DropZone.DropZoneState.DragLeave | src/components/DropZone.tsx:19-22 | leaving turns it off |
| DropZone.DropZoneState.Drop | src/components/DropZone.tsx:24-36 | a drop turns the highlight off and makes the drop choice |
| App.PageCount | src/App.tsx:227 | the footer's page count is the least number of pages of 1000 that holds all rows |
| App.PagesPartitionRows | src/App.tsx:57 | pages tile the rows: row r lies on page n exactly when n = r div 1000 + 1 |
| App.PrevDisabled | src/App.tsx:237 | Previous's disabled test, with no contract of its own: `PrevEnabledStaysInRange` and `AppState.ClickPrevious` state its effect |
| App.NextDisabled | src/App.tsx:244 | Next's disabled test, with no contract of its own: `NextEnabledIffNotLastPage` states it exactly |
| App.PagerShown | src/App.tsx:233 | the pager's visibility test, with no contract of its own: `PageCountOfRows` states it in pages |
| App.PageQuery | src/App.tsx:57-58 | the page fetch's statement, with no contract of its own: `FirstPageAtOffsetZero` spells it out for page 1 and `AppState.FetchPage` sends it |
| App.NextEnabledIffNotLastPage | src/App.tsx:243-244 | when idle, Next is enabled exactly when the page is not the last, and the page it fetches starts before the last row |
| App.PrevEnabledStaysInRange | src/App.tsx:236-237 | when Previous is enabled, the page it fetches is at least 1 and starts 1000 rows earlier |
| App.PageCountOfRows | src/App.tsx:227-233 | the page count is 0 exactly for an empty file, and the pager is shown exactly when the file view spans two pages or more |
| App.QueryErrorMessage | src/App.tsx:124-129 | a failed query shows "Query error: " and the engine message, with the quoting tip appended exactly when the message contains all of "Binder Error", "Referenced column" and "not found" |
| App.QuotingTipExample | src/App.tsx:125-128 | the engine's missing-column message for a double-quoted value earns the tip |
| App.IngestStatements | src/App.tsx:84-102 | the statements of a file load, with no contract of its own: `AppState.HandleFileSelect` states which prefix of them is sent, `FirstPageAtOffsetZero` the last one |
| App.FirstPageAtOffsetZero | src/App.tsx:57-58 | the first page a load fetches, written with a literal offset 0, is what fetching page 1 sends |
| App.FooterText | src/App.tsx:224-231 | the footer line, with no contract of its own: `FooterShowsPosition` states what it shows |
| App.FooterShowsPosition | src/App.tsx:224-231 | in the file view the footer starts with the page and the page count, the least number of 1000-row pages holding every row, and does not depend on the rows on screen; in the query view it depends only on those |
| App.ScreenOf | src/App.tsx:135-177 | the start-up screen shows exactly while loading; the workspace shows exactly when loading is over and the file name is non-empty |
| App.EmptyTexts | src/App.tsx:218-221 | both empty-result texts are non-empty, and the message is "Query returned 0 results" exactly in the query view |
| App.ResultsPaneOf | src/App.tsx:210-222 | the spinner shows exactly while processing; otherwise the grid shows the rows, or the view's empty message and sub-message when there are none |
| App.AppState.constructor | src/App.tsx:19-34 | the initial state: no engine, loading, no error or file, empty schema and rows, sidebar open, page 1, 0 rows, file view |
| App.AppState.Initialize | src/App.tsx:37-51 | start-up sets both handles on success or the fixed error otherwise, and always ends loading |
| App.AppState.FetchPage | src/App.tsx:53-67 | without a connection nothing happens; otherwise it sends the page's LIMIT/OFFSET query and ends not busy. Success replaces the rows and moves the page. Failure keeps them and sets "Failed to fetch page: " and the message |
| App.AppState.ClickPrevious | src/App.tsx:233-240 | when hidden, disabled or without a connection nothing happens. Otherwise it sends the query of the page before, at a non-negative offset, and ends not busy. Success moves to that page with its rows and keeps the error; failure keeps page and rows and sets "Failed to fetch page: " and the message. File, schema, row count and view are untouched |
| App.AppState.ClickNext | src/App.tsx:233-247 | when hidden, disabled or without a connection nothing happens. Otherwise it sends the query of the page after, which starts before the last row and is at most the last page, and ends not busy. Success moves to that page with its rows and keeps the error; failure keeps page and rows and sets "Failed to fetch page: " and the message. File, schema, row count and view are untouched |
| App.AppState.HandleFileSelect | src/App.tsx:69-112 | without both handles nothing happens. Otherwise the resets happen first and the steps run in order, stopping at the first failure. The schema is kept once DESCRIBE answers, the row count once COUNT answers, and the rows and page 1 only on full success. A failure sets "Failed to process parquet file: " and the message. The statements sent are the prefix of the load's statements that was reached |
| App.AppState.RunIngestSteps | src/App.tsx:79-104 | the body of the load: the statements sent are the prefix reached before the first failure, whose engine message is returned; the schema, row count, rows and page change only when their step answers, and nothing else changes |
| App.AppState.HandleRunQuery | src/App.tsx:114-133 | without a connection nothing happens. Otherwise the query is sent verbatim and the view becomes the query view. Success replaces the rows and clears the error, failure sets the enriched message. Schema, file name and pagination are untouched |
| App.AppState.LoadAnotherFile | src/App.tsx:191-196 | clears exactly the file name, the rows and the schema, so the workspace is left |
| App.AppState.ToggleSidebar | src/App.tsx:202-203 | flips the sidebar and nothing else |

## Left out

- The engine (`initDuckDB`, `registerFileBuffer`, `conn.query`, `toArray`/`toJSON`) is not modelled. Each call is a reply passed in as a parameter, and a row is a map from column name to rendered value.
- Reading the file's bytes (`file.arrayBuffer`) is folded into the register step's reply.
- Concurrency: each handler runs to completion in one step. Overlapping async handlers, and React's batched state updates, are not modelled.
- Rendering markup, CSS classes, icons, ag-grid itself (`defaultColDef`, resizing) and the alert dialog are left out. Only the choices the page makes are modelled: screen, results pane, texts.
- The SQL editor, schema viewer and spinner components are not part of this model.
- `Object.keys` order: the filter model is taken as an ordered sequence of (key, entry) pairs.
- The filter model's untyped `any` values are narrowed. A text filter carries a string and a number filter an integer. Every other `filterType` is one constructor holding that type (never `text` or `number`) and the operator, and carries no `filter` value. A missing or non-string `filter` field, which would throw, is not modelled.
- SqlBuilder.NumberClauseForm: the number is an integer rendered in plain decimal. JavaScript numbers are floats and print with an exponent from 10^21 upwards.
- SqlBuilder.QueryPaging: `startRow` and `endRow` are integers, so a fractional or missing value is not modelled.
- SqlBuilder.CountQuerySharesWhere: the absence of ORDER BY and LIMIT from the count query is stated structurally, as "the count query ends right after the WHERE text". It is not stated as "the text does not contain LIMIT", which a filter value containing that word would falsify.
- DataGrid.FormatTimestamp: its input `CellValue` is not drawn from `Engine.Row`, whose cells are rendered strings; the link between a row's cell and the number ag-grid hands the formatter is not modelled.
- DataGrid.FormatTimestamp: the date's locale rendering (`toLocaleString` in New York time with " ET") and its `try`/`catch` are left out. The formatter yields the millisecond instant it would render, and cell values are integral numbers or absent.
- DropZone: the duplicated `endsWith` test in the drop handler is one test. A `null` file list from the picker is an empty sequence.
- The row count `Number(countResult...total)` is modelled as a non-negative integer reply. A count beyond 2^53 losing precision is not modelled.
- `console.error` logging is left out.
