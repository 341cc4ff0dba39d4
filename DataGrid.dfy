/** The results grid: column definitions derived from the schema, the timestamp
    heuristic, the timestamp cell formatter's numeric part, and the choice between
    the grid and the empty-result message. */
module DataGrid {
  import opened Wrappers
  import opened Text
  import opened Engine

  /** One column of the active view as `DESCRIBE` reports it. */
  datatype SchemaItem = SchemaItem(name: string, colType: string)

  /** The value formatter a column gets: only timestamp columns have one. */
  datatype ValueFormatter = TimestampFormatter

  /** One ag-grid column definition. */
  datatype ColDef = ColDef(
    field: string,
    headerName: string,
    filter: bool,
    sortable: bool,
    flex: int,
    minWidth: int,
    valueFormatter: Option<ValueFormatter>)

  /** A column holds timestamps when its type mentions TIMESTAMP or its name looks like
      a time or date column; every test is case-sensitive. */
  predicate IsTimestamp(col: SchemaItem)
  {
    || Contains(col.colType, "TIMESTAMP")
    || EndsWith(col.name, "_time")
    || EndsWith(col.name, "Time")
    || EndsWith(col.name, "_date")
    || col.name == "date"
  }

  function ColDefOf(col: SchemaItem): ColDef
  {
    ColDef(
      field := col.name,
      headerName := col.name,
      filter := true,
      sortable := true,
      flex := 1,
      minWidth := 150,
      valueFormatter := if IsTimestamp(col) then Some(TimestampFormatter) else None)
  }

  /** `colDefs`: no schema gives no columns, otherwise the schema mapped entry by entry. */
  function ColDefs(schema: seq<SchemaItem>): (r: seq<ColDef>)
    ensures |r| == |schema|
    ensures forall i :: 0 <= i < |schema| ==> r[i] == ColDefOf(schema[i])
  {
    if |schema| == 0 then [] else [ColDefOf(schema[0])] + ColDefs(schema[1..])
  }

  /** One definition per schema entry, in schema order: field and header are the column
      name, filtering and sorting are on, and exactly the timestamp columns get a
      formatter. */
  lemma ColDefsDescribeSchema(schema: seq<SchemaItem>)
    ensures |ColDefs(schema)| == |schema|
    ensures schema == [] ==> ColDefs(schema) == []
    ensures forall i :: 0 <= i < |schema| ==>
      var d := ColDefs(schema)[i];
      && d.field == schema[i].name
      && d.headerName == schema[i].name
      && d.filter && d.sortable
      && (d.valueFormatter.Some? <==> IsTimestamp(schema[i]))
  {
  }

  /** Typical names and types, and the case-sensitivity of the tests. */
  lemma TimestampExamples()
    ensures IsTimestamp(SchemaItem("ts", "TIMESTAMP"))
    ensures IsTimestamp(SchemaItem("sale_time", "VARCHAR"))
    ensures IsTimestamp(SchemaItem("created_at", "TIMESTAMP WITH TIME ZONE"))
    ensures IsTimestamp(SchemaItem("startTime", "BIGINT"))
    ensures IsTimestamp(SchemaItem("order_date", "VARCHAR"))
    ensures IsTimestamp(SchemaItem("date", "VARCHAR"))
  {
    assert "TIMESTAMP" <= "TIMESTAMP";
    assert "TIMESTAMP" <= "TIMESTAMP WITH TIME ZONE";
    assert "sale_time" == "sale" + "_time";
    EndsWithAppend("sale", "_time");
    assert "startTime" == "start" + "Time";
    EndsWithAppend("start", "Time");
    assert "order_date" == "order" + "_date";
    EndsWithAppend("order", "_date");
  }

  /** Columns the heuristic leaves as they are: a plain name and type, a name that only
      starts like a date, and an upper-case `DATE` name and type. */
  lemma NonTimestampExamples()
    ensures !IsTimestamp(SchemaItem("id", "INTEGER"))
    ensures !IsTimestamp(SchemaItem("datetime", "VARCHAR"))
    ensures !IsTimestamp(SchemaItem("DATE", "DATE"))
  {
    NotContainsShorter("INTEGER", "TIMESTAMP");
    NotContainsShorter("VARCHAR", "TIMESTAMP");
    NotContainsShorter("DATE", "TIMESTAMP");
  }

  // ---------------------------------------------------------------------------
  // The timestamp formatter

  /** A cell value handed to the formatter: absent (null or undefined) or an integral number. */
  datatype CellValue = Missing | Number(n: int)

  /** JavaScript falsiness of a cell value. */
  predicate IsFalsy(v: CellValue)
  {
    v.Missing? || v.n == 0
  }

  /** Values above this are taken to be microseconds. */
  const MicrosThreshold: int := 10000000000000

  /** What the formatter produces: the empty string, or a date built from this many
      milliseconds since the epoch (its locale rendering is not modelled). */
  datatype Formatted = Blank | DateAt(millis: real)

  function FormatTimestamp(v: CellValue): (r: Formatted)
    ensures r.Blank? <==> IsFalsy(v)
    ensures r.DateAt? && v.n > MicrosThreshold ==> r.millis * 1000.0 == v.n as real
    ensures r.DateAt? && v.n <= MicrosThreshold ==> r.millis == v.n as real
  {
    if IsFalsy(v) then Blank
    else
      var val := v.n as real;
      if val > MicrosThreshold as real then DateAt(val / 1000.0) else DateAt(val)
  }

  /** The point of the heuristic: an instant after 10^10 ms past the epoch formats the
      same whether the engine hands it over in microseconds or in milliseconds. */
  lemma MicrosAndMillisAgree(ms: int)
    requires 10000000000 < ms <= MicrosThreshold
    ensures FormatTimestamp(Number(ms * 1000)) == FormatTimestamp(Number(ms))
  {
  }

  /** The example in the source: a microsecond value becomes its millisecond instant. */
  lemma FormatTimestampExample()
    ensures FormatTimestamp(Number(1767155612954000)) == DateAt(1767155612954.0)
    ensures FormatTimestamp(Number(1767155612954)) == DateAt(1767155612954.0)
    ensures FormatTimestamp(Number(0)) == Blank
  {
  }

  // ---------------------------------------------------------------------------
  // What the component shows

  datatype GridView =
    | EmptyView(message: string, subMessage: Option<string>)
    | Grid(rows: seq<Row>, columns: seq<ColDef>)

  /** No rows (absent or empty) shows the empty message, defaulting to
      "No data to display."; a sub-message shows only when it is a non-empty string.
      Otherwise the grid shows the rows with the schema's column definitions. */
  function Render(rowData: Option<seq<Row>>, schema: seq<SchemaItem>,
                  emptyMessage: Option<string>, emptySubMessage: Option<string>): (r: GridView)
    ensures r.Grid? <==> rowData.Some? && |rowData.value| > 0
    ensures r.Grid? ==> r.rows == rowData.value && r.columns == ColDefs(schema)
    ensures r.EmptyView? ==> r.message == (if emptyMessage.Some? then emptyMessage.value else "No data to display.")
    ensures r.EmptyView? ==> (r.subMessage.Some? <==> emptySubMessage.Some? && emptySubMessage.value != "")
    ensures r.EmptyView? && r.subMessage.Some? ==> r.subMessage == emptySubMessage
  {
    if rowData.None? || |rowData.value| == 0 then
      EmptyView(
        if emptyMessage.Some? then emptyMessage.value else "No data to display.",
        if emptySubMessage.Some? && emptySubMessage.value != "" then emptySubMessage else None)
    else Grid(rowData.value, ColDefs(schema))
  }
}
