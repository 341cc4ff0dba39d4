/** The application root: the state the page keeps (engine handles, busy flag, error
    banner, loaded file, schema, rows, pagination, view mode), the handlers that update
    it, and the pagination arithmetic behind the Previous/Next buttons. Every engine call
    is represented by its reply, passed in as a parameter. */
module App {
  import opened Wrappers
  import opened Text
  import opened Engine
  import opened DataGrid
  import opened DropZone

  /** Rows per page. */
  const PageSize: int := 1000

  /** What the results area shows: the loaded file page by page, or a custom query's rows. */
  datatype ViewMode = FileView | QueryView

  // ---------------------------------------------------------------------------
  // Pagination arithmetic

  /** The first row of page `pageNum` (pages count from 1). */
  function PageOffset(pageNum: int): int
  {
    (pageNum - 1) * PageSize
  }

  /** Pages tile the rows: row `row` lies on page `pageNum` exactly when `pageNum` is
      `row / PageSize + 1`. */
  lemma PagesPartitionRows(row: int, pageNum: int)
    requires row >= 0
    ensures PageOffset(pageNum) <= row < PageOffset(pageNum) + PageSize <==> pageNum == row / PageSize + 1
  {
    var q := row / PageSize;
    assert q * PageSize <= row < q * PageSize + PageSize;
    if pageNum <= q {
      assert PageOffset(pageNum) + PageSize <= q * PageSize;
    } else if pageNum >= q + 2 {
      assert PageOffset(pageNum) >= (q + 1) * PageSize;
    }
  }

  /** The statement a page fetch sends. */
  function PageQuery(pageNum: int): string
  {
    "SELECT * FROM parquet_file LIMIT " + IntToDecimal(PageSize)
      + " OFFSET " + IntToDecimal(PageOffset(pageNum))
  }

  /** `Math.ceil(totalRows / pageSize)`, the page count the footer shows. */
  function PageCount(totalRows: int): (r: int)
    ensures (r - 1) * PageSize < totalRows <= r * PageSize
  {
    (totalRows + PageSize - 1) / PageSize
  }

  /** `page === 1 || processing`. */
  predicate PrevDisabled(page: int, processing: bool)
  {
    page == 1 || processing
  }

  /** `page * pageSize >= totalRows || processing`. */
  predicate NextDisabled(page: int, totalRows: int, processing: bool)
  {
    page * PageSize >= totalRows || processing
  }

  /** The pager is rendered only for a file view with more than one page of rows. */
  predicate PagerShown(viewMode: ViewMode, totalRows: int)
  {
    viewMode == FileView && totalRows > PageSize
  }

  /** When idle, Next is enabled exactly when the current page is not the last one, and
      the page it fetches starts before the end of the rows. */
  lemma NextEnabledIffNotLastPage(page: int, totalRows: int)
    requires page >= 1
    ensures !NextDisabled(page, totalRows, false) <==> page < PageCount(totalRows)
    ensures !NextDisabled(page, totalRows, false) ==> 0 <= PageOffset(page + 1) < totalRows
  {
    var n := PageCount(totalRows);
    if page < n {
      assert page * PageSize <= (n - 1) * PageSize;
    } else {
      assert page * PageSize >= n * PageSize;
    }
  }

  /** Previous, when enabled on a valid page, fetches a page that is itself valid. */
  lemma PrevEnabledStaysInRange(page: int)
    requires page >= 1
    requires !PrevDisabled(page, false)
    ensures page - 1 >= 1 && PageOffset(page - 1) >= 0
    ensures PageOffset(page - 1) == PageOffset(page) - PageSize
  {
  }

  // ---------------------------------------------------------------------------
  // Error messages

  /** Appended to a query error that looks like a string written in double quotes. */
  const QuotingTip: string :=
    " \nTip: Double check your quotes. String literals in SQL must be wrapped in single quotes (e.g. 'value'), not double quotes."

  /** The engine's complaint about an unknown column: all three phrases, case-sensitive. */
  predicate IsMissingColumnError(message: string)
  {
    Contains(message, "Binder Error") && Contains(message, "Referenced column") && Contains(message, "not found")
  }

  /** The banner text for a failed query: the raw engine message after "Query error: ",
      with the quoting tip exactly when the message has the missing-column pattern. */
  function QueryErrorMessage(message: string): (r: string)
    ensures "Query error: " + message <= r
    ensures r == "Query error: " + message + QuotingTip <==> IsMissingColumnError(message)
    ensures r == "Query error: " + message <==> !IsMissingColumnError(message)
  {
    var errorMessage := "Query error: " + message;
    if IsMissingColumnError(message) then errorMessage + QuotingTip else errorMessage
  }

  /** The engine's usual wording for a string literal written with double quotes,
      spelled out piece by piece. */
  const MissingColumnSample: string :=
    "Binder Error" + ": " + "Referenced column" + " \"Alice\" " + "not found" + " in FROM clause!"

  lemma SampleHasPrefixPhrase()
    ensures Contains(MissingColumnSample, "Binder Error")
  {
    var q := ": " + "Referenced column" + " \"Alice\" " + "not found" + " in FROM clause!";
    assert MissingColumnSample == [] + "Binder Error" + q;
    ContainsMiddle([], "Binder Error", q);
  }

  lemma SampleHasColumnPhrase()
    ensures Contains(MissingColumnSample, "Referenced column")
  {
    var p := "Binder Error" + ": ";
    var q := " \"Alice\" " + "not found" + " in FROM clause!";
    assert MissingColumnSample == p + "Referenced column" + q;
    ContainsMiddle(p, "Referenced column", q);
  }

  lemma SampleHasNotFoundPhrase()
    ensures Contains(MissingColumnSample, "not found")
  {
    var p := "Binder Error" + ": " + "Referenced column" + " \"Alice\" ";
    var q := " in FROM clause!";
    assert MissingColumnSample == p + "not found" + q;
    ContainsMiddle(p, "not found", q);
  }

  /** A double-quoted string literal read as a column name earns the tip. */
  lemma QuotingTipExample()
    ensures QueryErrorMessage(MissingColumnSample) == "Query error: " + MissingColumnSample + QuotingTip
  {
    SampleHasPrefixPhrase();
    SampleHasColumnPhrase();
    SampleHasNotFoundPhrase();
  }

  // ---------------------------------------------------------------------------
  // File ingestion

  /** The engine's replies to the steps of loading a file, in the order they are made. */
  datatype IngestReplies = IngestReplies(
    register: Outcome,                    // read the file and register its bytes
    dropView: Outcome,                    // DROP VIEW IF EXISTS parquet_file
    createView: Outcome,                  // CREATE VIEW parquet_file AS ...
    describe: Result<seq<SchemaItem>>,    // DESCRIBE parquet_file
    count: Result<nat>,                   // SELECT COUNT(*) ...
    firstPage: Result<seq<Row>>)          // the first page of rows

  /** How many steps succeed before the first failure; 6 when all do. */
  function StepsPassed(r: IngestReplies): (k: nat)
    ensures k <= 6
  {
    if r.register.Fail? then 0
    else if r.dropView.Fail? then 1
    else if r.createView.Fail? then 2
    else if r.describe.Err? then 3
    else if r.count.Err? then 4
    else if r.firstPage.Err? then 5
    else 6
  }

  /** The engine message of the step that failed. */
  function FailureMessage(r: IngestReplies): string
    requires StepsPassed(r) < 6
  {
    if r.register.Fail? then r.register.message
    else if r.dropView.Fail? then r.dropView.message
    else if r.createView.Fail? then r.createView.message
    else if r.describe.Err? then r.describe.message
    else if r.count.Err? then r.count.message
    else r.firstPage.message
  }

  /** The SQL statements of a file load, in order. The file name goes between single
      quotes as it is, without doubling. */
  function IngestStatements(fileName: string): seq<string>
  {
    [ "DROP VIEW IF EXISTS parquet_file",
      "CREATE VIEW parquet_file AS SELECT * FROM '" + fileName + "'",
      "DESCRIBE parquet_file",
      "SELECT COUNT(*) as total FROM parquet_file",
      FirstPageSql() ]
  }

  /** The first page of a load, written with a literal offset of 0. */
  function FirstPageSql(): string
  {
    "SELECT * FROM parquet_file LIMIT " + IntToDecimal(PageSize) + " OFFSET 0"
  }

  /** The first page a file load fetches is the page `fetchPage(1)` would fetch: the
      one at offset 0. */
  lemma FirstPageAtOffsetZero(fileName: string)
    ensures PageOffset(1) == 0
    ensures IngestStatements(fileName)[4] == PageQuery(1)
    ensures PageQuery(1) == "SELECT * FROM parquet_file LIMIT 1000 OFFSET 0"
  {
    assert IntToDecimal(0) == "0";
    assert IntToDecimal(1000) == "1000" by {
      assert NatToDecimal(1) == "1";
      assert NatToDecimal(10) == "10";
      assert NatToDecimal(100) == "100";
    }
  }

  // ---------------------------------------------------------------------------
  // What the page shows

  /** The whole page: the start-up spinner, the drop zone, or the workspace (sidebar,
      grid and footer) once a file name is set. An empty name counts as none. */
  datatype Screen = StartingUp | FilePrompt | Workspace

  function ScreenOf(loading: bool, fileName: Option<string>): (r: Screen)
    ensures r == StartingUp <==> loading
    ensures r == Workspace <==> !loading && fileName.Some? && fileName.value != ""
  {
    if loading then StartingUp
    else if fileName.None? || fileName.value == "" then FilePrompt
    else Workspace
  }

  /** The empty-result message and sub-message handed to the grid in each view. */
  const QueryEmptyMessage: string := "Query returned 0 results"
  const QueryEmptySubMessage: string :=
    "Check your WHERE clause. Text values must match exactly (case-sensitive) and have no hidden whitespace. Try using LIKE '%value%' to find it."
  const FileEmptyMessage: string := "No data on this page"
  const FileEmptySubMessage: string := "Try navigating to another page."

  function EmptyTexts(viewMode: ViewMode): (r: (string, string))
    ensures |r.0| > 0 && |r.1| > 0
    ensures r.0 == QueryEmptyMessage <==> viewMode == QueryView
  {
    assert |FileEmptyMessage| == 20 && |QueryEmptyMessage| == 24;
    match viewMode
    case QueryView => (QueryEmptyMessage, QueryEmptySubMessage)
    case FileView => (FileEmptyMessage, FileEmptySubMessage)
  }

  /** The results area: a spinner while a handler waits on the engine, else the grid. */
  datatype ResultsPane = Spinner | GridPane(view: GridView)

  function ResultsPaneOf(processing: bool, data: seq<Row>, schema: seq<SchemaItem>, viewMode: ViewMode): (r: ResultsPane)
    ensures r.Spinner? <==> processing
    ensures !processing && |data| > 0 ==> r == GridPane(Grid(data, ColDefs(schema)))
    ensures !processing && |data| == 0 ==>
      r == GridPane(EmptyView(EmptyTexts(viewMode).0, Some(EmptyTexts(viewMode).1)))
  {
    if processing then Spinner
    else GridPane(Render(Some(data), schema, Some(EmptyTexts(viewMode).0), Some(EmptyTexts(viewMode).1)))
  }

  /** The footer line: the page position in the file view, the row count of a query. */
  function FooterText(viewMode: ViewMode, page: int, totalRows: int, shownRows: int): string
  {
    match viewMode
    case FileView =>
      "Showing page " + IntToDecimal(page) + " of " + IntToDecimal(PageCount(totalRows))
        + " (" + IntToDecimal(totalRows) + " total rows)"
    case QueryView => "Showing " + IntToDecimal(shownRows) + " rows (Custom Query)"
  }

  /** In the file view the footer names the current page and the page count, the latter
      reading back as the least number of pages that holds every row; the number of
      rows on screen plays no part. In the query view only that number does. */
  lemma FooterShowsPosition(page: int, totalRows: int, shownRows: int, otherPage: int, otherTotal: int, otherShown: int)
    ensures var pages := PageCount(totalRows);
      && "Showing page " + IntToDecimal(page) + " of " + IntToDecimal(pages) <= FooterText(FileView, page, totalRows, shownRows)
      && ParseInt(IntToDecimal(pages)) == pages
      && (pages - 1) * PageSize < totalRows <= pages * PageSize
    ensures FooterText(FileView, page, totalRows, shownRows) == FooterText(FileView, page, totalRows, otherShown)
    ensures FooterText(QueryView, page, totalRows, shownRows) == FooterText(QueryView, otherPage, otherTotal, shownRows)
  {
    FooterFileViewHead(page, totalRows, shownRows);
    ParseIntToDecimal(PageCount(totalRows));
  }

  /** The file-view footer opens with the page position. */
  lemma FooterFileViewHead(page: int, totalRows: int, shownRows: int)
    ensures "Showing page " + IntToDecimal(page) + " of " + IntToDecimal(PageCount(totalRows))
      <= FooterText(FileView, page, totalRows, shownRows)
  {
    var head := "Showing page " + IntToDecimal(page) + " of " + IntToDecimal(PageCount(totalRows));
    var tail := " (" + IntToDecimal(totalRows) + " total rows)";
    assert FooterText(FileView, page, totalRows, shownRows) == head + tail;
    assert (head + tail)[..|head|] == head;
  }

  /** The footer's page count is 0 exactly for an empty file, and the pager appears
      exactly when the file view spans at least two pages. */
  lemma PageCountOfRows(viewMode: ViewMode, totalRows: int)
    requires totalRows >= 0
    ensures PageCount(totalRows) >= 0
    ensures PageCount(totalRows) == 0 <==> totalRows == 0
    ensures PagerShown(viewMode, totalRows) <==> viewMode == FileView && PageCount(totalRows) >= 2
  {
    var n := PageCount(totalRows);
    if n >= 2 {
      assert (n - 1) * PageSize >= PageSize;
    }
  }

  // ---------------------------------------------------------------------------
  // The application state

  class AppState {
    var hasDb: bool                 // the engine handle is set
    var hasConn: bool               // the connection handle is set
    var loading: bool               // engine start-up not finished
    var processing: bool            // a handler is waiting on the engine
    var error: Option<string>       // the error banner
    var fileName: Option<string>
    var schema: seq<SchemaItem>
    var data: seq<Row>
    var isSidebarOpen: bool
    var page: int
    var totalRows: int
    var viewMode: ViewMode

    ghost predicate Valid()
      reads this
    {
      page >= 1 && totalRows >= 0
    }

    /** The state before anything has happened. */
    constructor ()
      ensures Valid()
      ensures !hasDb && !hasConn && loading && !processing
      ensures error == None && fileName == None && schema == [] && data == []
      ensures isSidebarOpen && page == 1 && totalRows == 0 && viewMode == FileView
    {
      hasDb, hasConn := false, false;
      loading, processing := true, false;
      error, fileName := None, None;
      schema, data := [], [];
      isSidebarOpen := true;
      page, totalRows := 1, 0;
      viewMode := FileView;
    }

    /** The pager buttons are on screen. */
    predicate PagerVisible()
      reads this
    {
      ScreenOf(loading, fileName) == Workspace && PagerShown(viewMode, totalRows)
    }

    /** Engine start-up: both handles on success, a fixed banner on failure; loading ends
        either way. */
    method Initialize(reply: Outcome)
      requires Valid()
      modifies this
      ensures Valid()
      ensures !loading
      ensures reply.Pass? ==> hasDb && hasConn && error == old(error)
      ensures reply.Fail? ==> (hasDb == old(hasDb) && hasConn == old(hasConn)
        && error == Some("Failed to initialize database engine."))
      ensures processing == old(processing) && fileName == old(fileName) && schema == old(schema)
      ensures data == old(data) && isSidebarOpen == old(isSidebarOpen) && page == old(page)
      ensures totalRows == old(totalRows) && viewMode == old(viewMode)
    {
      if reply.Pass? {
        hasDb := true;
        hasConn := true;
      } else {
        error := Some("Failed to initialize database engine.");
      }
      loading := false;
    }

    /** `fetchPage`: one page of the file view. The page number moves only when the rows
        arrive; a failure leaves rows and page as they were and sets the banner, and a
        success leaves the banner alone. Without a connection nothing happens. */
    method FetchPage(pageNum: int, reply: Result<seq<Row>>) returns (sent: Option<string>)
      requires Valid()
      requires pageNum >= 1
      modifies this
      ensures Valid()
      ensures !old(hasConn) ==> sent == None && unchanged(this)
      ensures old(hasConn) ==> sent == Some(PageQuery(pageNum)) && !processing
      ensures old(hasConn) && reply.Ok? ==>
        data == reply.value && page == pageNum && error == old(error)
      ensures old(hasConn) && reply.Err? ==>
        data == old(data) && page == old(page) && error == Some("Failed to fetch page: " + reply.message)
      ensures hasDb == old(hasDb) && hasConn == old(hasConn) && loading == old(loading)
      ensures fileName == old(fileName) && schema == old(schema) && isSidebarOpen == old(isSidebarOpen)
      ensures totalRows == old(totalRows) && viewMode == old(viewMode)
    {
      if !hasConn {
        return None;
      }
      processing := true;
      sent := Some(PageQuery(pageNum));
      match reply {
        case Ok(rows) =>
          data := rows;
          page := pageNum;
        case Err(message) =>
          error := Some("Failed to fetch page: " + message);
      }
      processing := false;
    }

    /** The Previous button: when shown and enabled it fetches the page before, whose
        offset is never negative, exactly as `fetchPage(page - 1)` does; otherwise
        nothing happens. */
    method ClickPrevious(reply: Result<seq<Row>>) returns (sent: Option<string>)
      requires Valid()
      modifies this
      ensures Valid()
      ensures !old(PagerVisible()) || old(PrevDisabled(page, processing)) || !old(hasConn) ==>
        unchanged(this) && sent == None
      ensures old(PagerVisible()) && !old(PrevDisabled(page, processing)) && old(hasConn) ==>
        && old(page) >= 2 && PageOffset(old(page) - 1) >= 0
        && sent == Some(PageQuery(old(page) - 1)) && !processing
        && (reply.Ok? ==> page == old(page) - 1 && data == reply.value && error == old(error))
        && (reply.Err? ==>
              page == old(page) && data == old(data) && error == Some("Failed to fetch page: " + reply.message))
      ensures hasDb == old(hasDb) && hasConn == old(hasConn) && loading == old(loading)
      ensures fileName == old(fileName) && schema == old(schema) && isSidebarOpen == old(isSidebarOpen)
      ensures totalRows == old(totalRows) && viewMode == old(viewMode)
    {
      if PagerVisible() && !PrevDisabled(page, processing) {
        PrevEnabledStaysInRange(page);
        sent := FetchPage(page - 1, reply);
      } else {
        sent := None;
      }
    }

    /** The Next button: when shown and enabled it fetches the page after, which starts
        before the last row and is at most the last page, exactly as
        `fetchPage(page + 1)` does; otherwise nothing happens. */
    method ClickNext(reply: Result<seq<Row>>) returns (sent: Option<string>)
      requires Valid()
      modifies this
      ensures Valid()
      ensures !old(PagerVisible()) || old(NextDisabled(page, totalRows, processing)) || !old(hasConn) ==>
        unchanged(this) && sent == None
      ensures old(PagerVisible()) && !old(NextDisabled(page, totalRows, processing)) && old(hasConn) ==>
        && 0 <= PageOffset(old(page) + 1) < old(totalRows)
        && old(page) + 1 <= PageCount(old(totalRows))
        && sent == Some(PageQuery(old(page) + 1)) && !processing
        && (reply.Ok? ==> page == old(page) + 1 && data == reply.value && error == old(error))
        && (reply.Err? ==>
              page == old(page) && data == old(data) && error == Some("Failed to fetch page: " + reply.message))
      ensures hasDb == old(hasDb) && hasConn == old(hasConn) && loading == old(loading)
      ensures fileName == old(fileName) && schema == old(schema) && isSidebarOpen == old(isSidebarOpen)
      ensures totalRows == old(totalRows) && viewMode == old(viewMode)
    {
      if PagerVisible() && !NextDisabled(page, totalRows, processing) {
        NextEnabledIffNotLastPage(page, totalRows);
        sent := FetchPage(page + 1, reply);
      } else {
        sent := None;
      }
    }

    /** `handleFileSelect`: the busy flag, an empty banner, the file name, empty rows and
        schema and the file view are set before the engine is asked anything and stay
        set whatever happens next. Each step then runs only if the ones before it
        succeeded: the schema is kept once DESCRIBE answers, the row count once COUNT
        answers, and the first page and page 1 only when everything succeeded. A failure
        puts the engine's message in the banner. Without both handles nothing happens. */
    method HandleFileSelect(file: File, replies: IngestReplies) returns (sent: seq<string>)
      requires Valid()
      modifies this
      ensures Valid()
      ensures !old(hasConn && hasDb) ==> sent == [] && unchanged(this)
      ensures old(hasConn && hasDb) ==>
        var k := StepsPassed(replies);
        && sent == IngestStatements(file.name)[..if k < 5 then k else 5]
        && fileName == Some(file.name) && viewMode == FileView && !processing
        && error == (if k == 6 then None else Some("Failed to process parquet file: " + FailureMessage(replies)))
        && schema == (if k >= 4 then replies.describe.value else [])
        && totalRows == (if k >= 5 then replies.count.value else old(totalRows))
        && data == (if k == 6 then replies.firstPage.value else [])
        && page == (if k == 6 then 1 else old(page))
      ensures hasDb == old(hasDb) && hasConn == old(hasConn) && loading == old(loading)
      ensures isSidebarOpen == old(isSidebarOpen)
      ensures old(hasConn && hasDb) && !loading && file.name != "" ==> ScreenOf(loading, fileName) == Workspace
    {
      if !hasConn || !hasDb {
        return [];
      }
      processing := true;
      error := None;
      fileName := Some(file.name);
      data := [];
      schema := [];
      viewMode := FileView;

      var failure;
      sent, failure := RunIngestSteps(file.name, replies);
      if failure.Some? {
        error := Some("Failed to process parquet file: " + failure.value);
      }
      processing := false;
      assert fileName == Some(file.name);
    }

    /** The body of the load: register the file, then the five statements in order,
        stopping at the first failure, whose message is returned. The schema is set once
        DESCRIBE answers, the row count once COUNT answers, and the rows and page 1 once
        the first page arrives; nothing else is touched. */
    method RunIngestSteps(fileName: string, replies: IngestReplies) returns (sent: seq<string>, failure: Option<string>)
      requires Valid()
      modifies this
      ensures Valid()
      ensures var k := StepsPassed(replies);
        && sent == IngestStatements(fileName)[..if k < 5 then k else 5]
        && failure == (if k == 6 then None else Some(FailureMessage(replies)))
        && schema == (if k >= 4 then replies.describe.value else old(schema))
        && totalRows == (if k >= 5 then replies.count.value else old(totalRows))
        && data == (if k == 6 then replies.firstPage.value else old(data))
        && page == (if k == 6 then 1 else old(page))
      ensures hasDb == old(hasDb) && hasConn == old(hasConn) && loading == old(loading)
      ensures processing == old(processing) && error == old(error) && this.fileName == old(this.fileName)
      ensures viewMode == old(viewMode) && isSidebarOpen == old(isSidebarOpen)
    {
      var statements := IngestStatements(fileName);
      ghost var k := StepsPassed(replies);
      failure := None;
      sent := [];
      if replies.register.Fail? {
        failure := Some(replies.register.message);
      }
      if failure.None? {
        sent := sent + [statements[0]];
        if replies.dropView.Fail? {
          failure := Some(replies.dropView.message);
        }
      }
      if failure.None? {
        sent := sent + [statements[1]];
        if replies.createView.Fail? {
          failure := Some(replies.createView.message);
        }
      }
      assert failure.None? <==> k > 2;
      assert sent == statements[..if k < 2 then k else 2];
      if failure.None? {
        sent := sent + [statements[2]];
        match replies.describe {
          case Ok(columns) => schema := columns;
          case Err(message) => failure := Some(message);
        }
      }
      if failure.None? {
        sent := sent + [statements[3]];
        match replies.count {
          case Ok(total) => totalRows := total;
          case Err(message) => failure := Some(message);
        }
      }
      if failure.None? {
        sent := sent + [statements[4]];
        match replies.firstPage {
          case Ok(rows) =>
            data := rows;
            page := 1;
          case Err(message) => failure := Some(message);
        }
      }
    }

    /** `handleRunQuery`: the user's SQL goes to the engine verbatim. The view mode
        becomes the query view and the banner is cleared before the engine answers;
        rows arrive on success, the enriched message on failure. The schema, the file
        name and the pagination are never touched. */
    method HandleRunQuery(query: string, reply: Result<seq<Row>>) returns (sent: Option<string>)
      requires Valid()
      modifies this
      ensures Valid()
      ensures !old(hasConn) ==> sent == None && unchanged(this)
      ensures old(hasConn) ==> sent == Some(query) && viewMode == QueryView && !processing
      ensures old(hasConn) && reply.Ok? ==> data == reply.value && error == None
      ensures old(hasConn) && reply.Err? ==>
        data == old(data) && error == Some(QueryErrorMessage(reply.message))
      ensures hasDb == old(hasDb) && hasConn == old(hasConn) && loading == old(loading)
      ensures schema == old(schema) && fileName == old(fileName) && isSidebarOpen == old(isSidebarOpen)
      ensures page == old(page) && totalRows == old(totalRows)
    {
      if !hasConn {
        return None;
      }
      processing := true;
      error := None;
      viewMode := QueryView;
      sent := Some(query);
      match reply {
        case Ok(rows) => data := rows;
        case Err(message) => error := Some(QueryErrorMessage(message));
      }
      processing := false;
    }

    /** "Load Another File": back to the drop zone; only the file name, the rows and the
        schema are cleared. */
    method LoadAnotherFile()
      requires Valid()
      modifies this
      ensures Valid()
      ensures fileName == None && data == [] && schema == []
      ensures ScreenOf(loading, fileName) != Workspace
      ensures hasDb == old(hasDb) && hasConn == old(hasConn) && loading == old(loading)
      ensures processing == old(processing) && error == old(error) && isSidebarOpen == old(isSidebarOpen)
      ensures page == old(page) && totalRows == old(totalRows) && viewMode == old(viewMode)
    {
      fileName := None;
      data := [];
      schema := [];
    }

    /** The sidebar toggle button. */
    method ToggleSidebar()
      requires Valid()
      modifies this
      ensures Valid()
      ensures isSidebarOpen == !old(isSidebarOpen)
      ensures hasDb == old(hasDb) && hasConn == old(hasConn) && loading == old(loading)
      ensures processing == old(processing) && error == old(error) && fileName == old(fileName)
      ensures schema == old(schema) && data == old(data)
      ensures page == old(page) && totalRows == old(totalRows) && viewMode == old(viewMode)
    {
      isSidebarOpen := !isSidebarOpen;
    }
  }
}
