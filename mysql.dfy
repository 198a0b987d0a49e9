/** The MySQL adapter (`MySQLExchange`): pagination, read hint, DDL
    fragments, type map, lookups, and the comma-separated text that its
    bulk loader reads. */
module MySQLExchange {
  import opened Results
  import opened Text
  import opened Domain
  import opened Streams

  const PaginationTemplate: seq<string> := ["LIMIT ", " OFFSET ", ""]

  /** `LIMIT {ProducerLineMax} OFFSET {current}`: always present; the page
      size comes first and the offset second. */
  function QueryPagination(pageSize: int, current: int): (q: Option<string>)
    ensures q.Some?
  {
    Some("LIMIT " + IntToString(pageSize) + " OFFSET " + IntToString(current))
  }

  /** The numbers are read back from the clause: pageSize and current, in that order. */
  lemma PaginationReadBack(pageSize: int, current: int)
    ensures MatchTemplate(PaginationTemplate, QueryPagination(pageSize, current).value) == Some([pageSize, current])
  {
    MatchPair("LIMIT ", " OFFSET ", "", pageSize, current);
    assert QueryPagination(pageSize, current).value + "" == QueryPagination(pageSize, current).value;
  }

  /** The shared-lock clause used as the read hint. */
  function QueryNonLocking(): Option<string> {
    Some("LOCK IN SHARE MODE")
  }

  function PrimaryKeyText(index: string, tableName: string, file: Option<string>): string {
    var indexGroup := if file.None? then index + " ASC" else index + " ASC, " + tableName + "_EMPRESA ASC";
    " PRIMARY KEY (" + indexGroup + "),"
  }

  /** The key constraint lists the key columns, separated by commas. */
  lemma PrimaryKeyColumns(index: string, tableName: string, file: Option<string>)
    ensures PrimaryKeyText(index, tableName, file)
      == " PRIMARY KEY (" + Join(", ", Suffixed(KeyColumns(index, tableName, file), " ASC")) + "),"
  {
    assert Suffixed(KeyColumns(index, tableName, file), " ASC")[1..]
      == if file.None? then [] else [TenantColumn(tableName) + " ASC"];
  }
  /** The key constraint closes its column group and ends with a comma. */
  lemma PrimaryKeyClosed(index: string, tableName: string, file: Option<string>)
    ensures |PrimaryKeyText(index, tableName, file)| >= 2
    ensures PrimaryKeyText(index, tableName, file)[|PrimaryKeyText(index, tableName, file)| - 2..] == "),"
  {
    var key := PrimaryKeyText(index, tableName, file);
    EndsWith(key[..|key| - 2], "),");
    assert key == key[..|key| - 2] + "),";
  }


  function ChangeColumnText(tableName: string): string {
    " DT_UPDATE_" + tableName + " DATETIME NOT NULL DEFAULT CURRENT_TIMESTAMP ON UPDATE CURRENT_TIMESTAMP,"
  }

  method AddPrimaryKey(sb: StringBuilder, index: string, tableName: string, file: Option<string>)
    returns (r: StringBuilder)
    modifies sb
    ensures r == sb
    ensures sb.contents == old(sb.contents) + PrimaryKeyText(index, tableName, file)
  {
    var indexGroup := if file.None? then index + " ASC" else index + " ASC, " + tableName + "_EMPRESA ASC";
    sb.Append(" PRIMARY KEY (" + indexGroup + "),");
    r := sb;
  }

  method AddChangeColumn(sb: StringBuilder, tableName: string) returns (r: StringBuilder)
    modifies sb
    ensures r == sb
    ensures sb.contents == old(sb.contents) + ChangeColumnText(tableName) + NewLine
  {
    sb.AppendLine(ChangeColumnText(tableName));
    r := sb;
  }

  /** No columnar index clause: the builder is left as it is. */
  method AddColumnarStructure(sb: StringBuilder, tableName: string) returns (r: StringBuilder)
    modifies sb
    ensures r == sb
    ensures sb.contents == old(sb.contents)
  {
    sb.Append("");
    r := sb;
  }

  /** The .NET-to-MySQL type switch: defined for exactly the listed types,
      NotSupportedException naming any other; a positive string length
      gives VARCHAR(n), any other length TEXT. */
  function GetSqlType(t: ClrType, length: Option<int>): (r: Completion<string>)
    ensures r.Returned? <==> AdapterSupported(t)
    ensures r.Threw? ==> r.exception == UnsupportedType(t)
    ensures t == String && !PositiveLength(length) ==> r == Returned("TEXT")
  {
    match t
    case Int64 => Returned("BIGINT")
    case Int32 => Returned("INT")
    case Int16 => Returned("SMALLINT")
    case String =>
      if PositiveLength(length) then
        Returned(SizedTypeName("VARCHAR", length.value))
      else Returned("TEXT")
    case Boolean => Returned("TINYINT(1)")
    case DateTime => Returned("DATETIME")
    case Double => Returned("DOUBLE")
    case Decimal => Returned("DECIMAL(18,2)")
    case Byte => Returned("TINYINT UNSIGNED")
    case SByte => Returned("TINYINT")
    case UInt16 => Returned("SMALLINT UNSIGNED")
    case UInt32 => Returned("INT UNSIGNED")
    case UInt64 => Returned("BIGINT UNSIGNED")
    case Single => Returned("FLOAT")
    case Char => Returned("CHAR(1)")
    case Guid => Returned("CHAR(36)")
    case TimeSpan => Returned("TIME")
    case ByteArray => Returned("BLOB")
    case Object => Returned("JSON")
    case _ => Threw(UnsupportedType(t))
  }

  /** A positive length is written into the string type, and read back
      from it. */
  lemma StringLength(length: Option<int>)
    requires PositiveLength(length)
    ensures GetSqlType(String, length).Returned?
    ensures MatchTemplate(LengthTemplate("VARCHAR"), GetSqlType(String, length).value) == Some([length.value])
  {
    SizedTypeNameLength("VARCHAR", length.value);
  }

  lemma LengthOnlyForStrings(t: ClrType, a: Option<int>, b: Option<int>)
    requires t != String
    ensures GetSqlType(t, a) == GetSqlType(t, b)
  {
  }

  /** The signed type of the same width (sbyte for byte). */
  function SignedCounterpart(t: ClrType): ClrType {
    match t
    case Byte => SByte
    case UInt16 => Int16
    case UInt32 => Int32
    case UInt64 => Int64
    case _ => t
  }

  /** Each unsigned type is its signed counterpart with the UNSIGNED
      attribute. */
  lemma UnsignedVariants(t: ClrType, length: Option<int>)
    requires t == Byte || t == UInt16 || t == UInt32 || t == UInt64
    ensures GetSqlType(t, length).Returned? && GetSqlType(SignedCounterpart(t), length).Returned?
    ensures GetSqlType(t, length).value == GetSqlType(SignedCounterpart(t), length).value + " UNSIGNED"
  {
    match t
    case Byte => assert "TINYINT" + " UNSIGNED" == "TINYINT UNSIGNED";
    case UInt16 => assert "SMALLINT" + " UNSIGNED" == "SMALLINT UNSIGNED";
    case UInt32 => assert "INT" + " UNSIGNED" == "INT UNSIGNED";
    case UInt64 => assert "BIGINT" + " UNSIGNED" == "BIGINT UNSIGNED";
  }

  function LookupTableCommand(tableName: string): Command {
    Command("SHOW TABLES LIKE '" + tableName + "'", [])
  }

  /** `res != null`: the table counts as found unless the query returned no
      row; unlike the other adapters a NULL cell counts as found. */
  function LookupTable(res: Scalar): (found: bool)
    ensures found <==> res != NoRow
  {
    res != NoRow
  }

  function SchemaLookupCommand(system: string): Command {
    Command("SELECT SCHEMA_NAME FROM INFORMATION_SCHEMA.SCHEMATA WHERE SCHEMA_NAME = '" + system + "'", [])
  }

  /** The schema is created only when its lookup returned no row. */
  function SchemaMissing(res: Scalar): (missing: bool)
    ensures missing <==> res == NoRow
  {
    res == NoRow
  }

  function CreateSchemaCommand(system: string): Command {
    Command("CREATE SCHEMA " + system, [])
  }

  lemma SchemaRuleMatchesTableRule(res: Scalar)
    ensures SchemaMissing(res) <==> !LookupTable(res)
  {
  }

  // -------------------------------------------------------------------
  // Bulk loading.

  /** `field?.ToString()` for each item of a row; string.Join writes a null
      item as nothing. */
  function FieldTexts(row: Row): (texts: seq<string>)
    ensures |texts| == |row|
    ensures forall i :: 0 <= i < |row| ==> texts[i] == ValueText(row[i])
  {
    if row == [] then [] else [ValueText(row[0])] + FieldTexts(row[1..])
  }

  function CsvLine(row: Row): string {
    Join(",", FieldTexts(row))
  }

  function CsvLines(rows: seq<Row>): (lines: seq<string>)
    ensures |lines| == |rows|
    ensures forall i :: 0 <= i < |rows| ==> lines[i] == CsvLine(rows[i])
  {
    if rows == [] then [] else [CsvLine(rows[0])] + CsvLines(rows[1..])
  }

  lemma {:induction false} CsvLinesAppend(rows: seq<Row>, row: Row)
    ensures CsvLines(rows + [row]) == CsvLines(rows) + [CsvLine(row)]
  {
    if rows != [] {
      assert (rows + [row])[1..] == rows[1..] + [row];
      CsvLinesAppend(rows[1..], row);
    } else {
      assert CsvLines([row]) == [CsvLine(row)] + CsvLines([]);
    }
  }

  /** The text the row loop gives the writer: each row's CSV line, each
      followed by the line end. */
  function CsvText(rows: seq<Row>): string {
    Terminated(CsvLines(rows), '\n')
  }

  /** The loader's settings: the target table, the terminators and the
      column list. */
  datatype LoaderSettings = LoaderSettings(
    tableName: string,
    fieldTerminator: string,
    lineTerminator: string,
    columns: seq<string>)

  /** The calls the bulk insert makes on the destination, in order: open
      the connection, begin the transaction, run the loader on what is left
      of the stream (`Load(stream)`, then `LoadAsync()` on the same
      stream), commit, close. */
  datatype LoaderStep =
    | Open
    | BeginTransaction
    | Load(settings: LoaderSettings, stream: seq<Unit>)
    | Commit
    | Close

  /** The column loop: the loader's column list is the table's column
      names, in column order. */
  method LoaderColumns(data: Table) returns (columns: seq<string>)
    ensures columns == ColumnNames(data.columns)
  {
    columns := [];
    var i := 0;
    while i < |data.columns|
      invariant 0 <= i <= |data.columns|
      invariant columns == ColumnNames(data.columns[..i])
    {
      assert ColumnNames(data.columns[..i + 1]) == ColumnNames(data.columns[..i]) + [data.columns[i].name];
      columns := columns + [data.columns[i].name];
      i := i + 1;
    }
    assert data.columns[..i] == data.columns;
  }

  /** The settings `BulkInsert` gives the loader: the qualified table, `,`
      between fields, a line end after each row, the table's columns. */
  function SettingsOf(data: Table, job: Job): (s: LoaderSettings)
    ensures s.tableName == QualifiedName(job) && s.fieldTerminator == "," && s.lineTerminator == "\n"
    ensures s.columns == ColumnNames(data.columns)
  {
    LoaderSettings(QualifiedName(job), ",", "\n", ColumnNames(data.columns))
  }

  lemma CsvTextAppend(rows: seq<Row>, i: nat)
    requires i < |rows|
    ensures CsvText(rows[..i + 1]) == CsvText(rows[..i]) + (CsvLine(rows[i]) + "\n")
  {
    assert rows[..i + 1] == rows[..i] + [rows[i]];
    CsvLinesAppend(rows[..i], rows[i]);
    TerminatedAppend(CsvLines(rows[..i]), CsvLine(rows[i]), '\n');
  }

  /** The row loop: each row's field texts joined by commas, written
      through the writer with `WriteLine`. */
  method WriteRows(writer: StreamWriter, rows: seq<Row>)
    requires writer.Valid()
    modifies writer, writer.stream
    ensures writer.Valid() && writer.text == old(writer.text) + CsvText(rows)
    ensures old(writer.Lazy()) ==> writer.Lazy()
  {
    ghost var text0, lazy0 := writer.text, writer.Lazy();
    var i := 0;
    while i < |rows|
      invariant 0 <= i <= |rows|
      invariant writer.Valid() && writer.text == text0 + CsvText(rows[..i])
      invariant lazy0 ==> writer.Lazy()
    {
      var line := Join(",", FieldTexts(rows[i]));
      CsvTextAppend(rows, i);
      writer.WriteLine(line);
      ConcatAssoc(text0, CsvText(rows[..i]), line + "\n");
      i := i + 1;
    }
    assert rows[..i] == rows;
  }

  /** How the server splits the loaded text: lines on the line terminator,
      fields on the field terminator; None when the text does not end with
      a line terminator. */
  function DecodeCsv(stream: string): Option<seq<seq<string>>> {
    var pieces := Split(stream, '\n');
    if pieces[|pieces| - 1] != "" then None
    else Some(SplitEach(pieces[..|pieces| - 1], ','))
  }

  function SplitEach(lines: seq<string>, c: char): (r: seq<seq<string>>)
    ensures |r| == |lines|
    ensures forall i :: 0 <= i < |lines| ==> r[i] == Split(lines[i], c)
  {
    if lines == [] then [] else [Split(lines[0], c)] + SplitEach(lines[1..], c)
  }

  /** No field text holds a comma or a line end, and every row has a
      field. */
  predicate PlainRows(rows: seq<Row>) {
    forall i :: 0 <= i < |rows| ==> PlainRow(rows[i])
  }

  predicate PlainRow(row: Row) {
    |row| >= 1 &&
    forall j :: 0 <= j < |row| ==> Free(ValueText(row[j]), ',') && Free(ValueText(row[j]), '\n')
  }

  lemma {:induction false} JoinKeepsFree(sep: string, parts: seq<string>, c: char)
    requires Free(sep, c)
    requires forall i :: 0 <= i < |parts| ==> Free(parts[i], c)
    ensures Free(Join(sep, parts), c)
  {
    if |parts| > 1 {
      JoinKeepsFree(sep, parts[1..], c);
      var tail := Join(sep, parts[1..]);
      assert Join(sep, parts) == parts[0] + sep + tail;
      forall k | 0 <= k < |parts[0] + sep + tail|
        ensures (parts[0] + sep + tail)[k] != c
      {
        if k < |parts[0]| {
          assert (parts[0] + sep + tail)[k] == parts[0][k];
        } else if k < |parts[0]| + |sep| {
          assert (parts[0] + sep + tail)[k] == sep[k - |parts[0]|];
        } else {
          assert (parts[0] + sep + tail)[k] == tail[k - |parts[0]| - |sep|];
        }
      }
    }
  }

  /** The field texts of each row. */
  function RowTexts(rows: seq<Row>): (r: seq<seq<string>>)
    ensures |r| == |rows|
    ensures forall i :: 0 <= i < |rows| ==> r[i] == FieldTexts(rows[i])
  {
    if rows == [] then [] else [FieldTexts(rows[0])] + RowTexts(rows[1..])
  }

  lemma LinesFree(rows: seq<Row>)
    requires PlainRows(rows)
    ensures forall i :: 0 <= i < |rows| ==> Free(CsvLines(rows)[i], '\n')
  {
    forall i | 0 <= i < |rows|
      ensures Free(CsvLines(rows)[i], '\n')
    {
      var texts := FieldTexts(rows[i]);
      assert forall j :: 0 <= j < |texts| ==> Free(texts[j], '\n');
      JoinKeepsFree(",", texts, '\n');
    }
  }

  lemma FieldsRecovered(rows: seq<Row>)
    requires PlainRows(rows)
    ensures SplitEach(CsvLines(rows), ',') == RowTexts(rows)
  {
    forall i | 0 <= i < |rows|
      ensures Split(CsvLines(rows)[i], ',') == FieldTexts(rows[i])
    {
      var texts := FieldTexts(rows[i]);
      assert forall j :: 0 <= j < |texts| ==> Free(texts[j], ',');
      SplitJoin(texts, ',');
    }
  }

  /** When no field holds a comma or a line end and no row is empty, the
      server reads back exactly the field texts of every row, in order. */
  lemma CsvRoundTrip(rows: seq<Row>)
    requires PlainRows(rows)
    ensures DecodeCsv(CsvText(rows)) == Some(RowTexts(rows))
  {
    var lines := CsvLines(rows);
    LinesFree(rows);
    SplitTerminated(lines, '\n');
    var pieces := Split(Terminated(lines, '\n'), '\n');
    assert pieces[..|pieces| - 1] == lines;
    FieldsRecovered(rows);
  }

  /** The steps of `plan` the driver runs: every step up to and including
      the first one that raises, and what it raised. */
  datatype Outcome = Outcome(ran: seq<LoaderStep>, fault: Option<Exception>)

  function RunPlan(driver: (string, LoaderStep) -> Option<Exception>, cs: string, plan: seq<LoaderStep>): (o: Outcome)
    ensures |o.ran| <= |plan| && o.ran == plan[..|o.ran|]
    ensures o.fault.None? <==> forall i :: 0 <= i < |plan| ==> driver(cs, plan[i]).None?
    ensures o.fault.None? ==> o.ran == plan
    ensures o.fault.Some? ==> |o.ran| >= 1 && driver(cs, o.ran[|o.ran| - 1]) == o.fault
    ensures o.fault.Some? ==> forall i :: 0 <= i < |o.ran| - 1 ==> driver(cs, o.ran[i]).None?
  {
    if plan == [] then Outcome([], None)
    else
      match driver(cs, plan[0])
      case Some(ex) => Outcome([plan[0]], Some(ex))
      case None =>
        var rest := RunPlan(driver, cs, plan[1..]);
        assert forall i :: 1 <= i < |plan| ==> plan[i] == plan[1..][i - 1];
        Outcome([plan[0]] + rest.ran, rest.fault)
  }

  /** A run that got through the first k steps and stopped at step k
      (because it raised, or because it was the last). */
  lemma RanUpTo(driver: (string, LoaderStep) -> Option<Exception>, cs: string, plan: seq<LoaderStep>, k: nat)
    requires k < |plan|
    requires forall i :: 0 <= i < k ==> driver(cs, plan[i]).None?
    requires driver(cs, plan[k]).Some? || k == |plan| - 1
    ensures RunPlan(driver, cs, plan) == Outcome(plan[..k + 1], driver(cs, plan[k]))
  {
    var o := RunPlan(driver, cs, plan);
    if o.fault.Some? {
      var last := |o.ran| - 1;
      assert o.ran[last] == plan[last];
      assert k <= last;
      assert forall i :: 0 <= i < |o.ran| ==> o.ran[i] == plan[i];
    } else {
      assert plan[..|plan|] == plan;
    }
  }

  /** A plan run in two parts: the second part runs only when the first
      raised nothing. */
  lemma {:induction false} RunPlanAppend(driver: (string, LoaderStep) -> Option<Exception>, cs: string,
                                         head: seq<LoaderStep>, tail: seq<LoaderStep>)
    ensures RunPlan(driver, cs, head + tail)
      == if RunPlan(driver, cs, head).fault.Some? then RunPlan(driver, cs, head)
         else Outcome(head + RunPlan(driver, cs, tail).ran, RunPlan(driver, cs, tail).fault)
  {
    if head == [] {
      assert head + tail == tail;
    } else {
      assert (head + tail)[0] == head[0];
      assert (head + tail)[1..] == head[1..] + tail;
      RunPlanAppend(driver, cs, head[1..], tail);
      if driver(cs, head[0]).None? {
        var ran := RunPlan(driver, cs, tail).ran;
        ConcatAssoc([head[0]], head[1..], ran);
        assert [head[0]] + head[1..] == head;
      }
    }
  }

  /** The steps after the transaction has begun: the loader on the
      stream, as written a second load on what the first left of it
      (nothing), then the commit and the close. */
  function Loads(settings: LoaderSettings, stream: seq<Unit>, twice: bool): seq<LoaderStep> {
    [Load(settings, stream)] + (if twice then [Load(settings, [])] else []) + [Commit, Close]
  }

  /** What the bulk insert as written asks of the destination: the loader
      is given the stream with only what the writer flushed by itself, and
      then `LoadAsync` runs it again. */
  function AsWrittenPlan(data: Table, job: Job): seq<LoaderStep> {
    [Open, BeginTransaction] + Loads(SettingsOf(data, job), LazyStream(CsvText(data.rows)), true)
  }

  /** What the corrected insert asks: the loader is given the whole text,
      after the preamble, once. */
  function IntendedPlan(data: Table, job: Job): seq<LoaderStep> {
    [Open, BeginTransaction] + Loads(SettingsOf(data, job), [Preamble] + Encode(CsvText(data.rows)), false)
  }

  /** The error the bulk insert as written returns: a failure to open the
      connection or to begin the transaction is reported as such; past
      that point, whatever the driver does, leaving the block disposes the
      reader, which closes the stream, and then the writer, whose final
      flush raises StreamClosed in place of any exception in flight. */
  function AsWrittenError(data: Table, job: Job, driver: (string, LoaderStep) -> Option<Exception>): Error {
    var run := RunPlan(driver, job.destination.dbString, AsWrittenPlan(data, job));
    ErrorFrom(if run.fault.Some? && |run.ran| <= 2 then run.fault.value else StreamClosed, "BulkInsert")
  }

  /** `OpenAsync`, then `BeginTransactionAsync`, unless the first raised. */
  method OpenTransaction(cs: string, driver: (string, LoaderStep) -> Option<Exception>)
    returns (steps: seq<LoaderStep>, fault: Option<Exception>)
    ensures Outcome(steps, fault) == RunPlan(driver, cs, [Open, BeginTransaction])
  {
    steps := [Open];
    fault := driver(cs, Open);
    if fault.Some? {
      RanUpTo(driver, cs, [Open, BeginTransaction], 0);
      return;
    }
    steps := steps + [BeginTransaction];
    fault := driver(cs, BeginTransaction);
    RanUpTo(driver, cs, [Open, BeginTransaction], 1);
  }

  /** The memory stream and the writer over it, the rows written and the
      stream rewound. Unless the writer is flushed before the rewind (as
      only the corrected insert does), the stream holds just what the
      writer flushed by itself, and the writer still has the preamble or
      some characters to write. */
  method WriteCsv(rows: seq<Row>, flush: bool) returns (memoryStream: MemoryStream, writer: StreamWriter)
    ensures fresh(memoryStream) && fresh(writer) && writer.stream == memoryStream
    ensures memoryStream.Valid() && !memoryStream.closed && memoryStream.position == 0
    ensures memoryStream.data == if flush then [Preamble] + Encode(CsvText(rows)) else LazyStream(CsvText(rows))
    ensures flush ==> writer.buffer == [] && writer.preambleWritten
    ensures !flush ==> writer.buffer != [] || !writer.preambleWritten
  {
    memoryStream := new MemoryStream();
    writer := new StreamWriter(memoryStream);
    WriteRows(writer, rows);
    assert writer.text == CsvText(rows);
    writer.LazyContents();
    FlushedLengthBounds(|writer.text|);
    if flush {
      writer.Flush();
    }
    var _ := memoryStream.Rewind();
  }

  /** The loads, the commit and the close on a rewound stream, each only
      when the one before raised nothing. */
  method RunLoads(cs: string, settings: LoaderSettings, memoryStream: MemoryStream, twice: bool,
                  driver: (string, LoaderStep) -> Option<Exception>)
    returns (steps: seq<LoaderStep>, fault: Option<Exception>)
    requires memoryStream.Valid() && !memoryStream.closed && memoryStream.position == 0
    modifies memoryStream
    ensures memoryStream.Valid() && !memoryStream.closed
    ensures Outcome(steps, fault) == RunPlan(driver, cs, Loads(settings, old(memoryStream.data), twice))
  {
    ghost var plan := Loads(settings, memoryStream.data, twice);
    var first, _ := memoryStream.ReadToEnd();
    steps := [Load(settings, first)];
    fault := driver(cs, Load(settings, first));
    if fault.Some? {
      RanUpTo(driver, cs, plan, 0);
      return;
    }
    if twice {
      var rest, _ := memoryStream.ReadToEnd();
      steps := steps + [Load(settings, rest)];
      fault := driver(cs, Load(settings, rest));
      if fault.Some? {
        RanUpTo(driver, cs, plan, 1);
        return;
      }
    }
    steps := steps + [Commit];
    fault := driver(cs, Commit);
    if fault.Some? {
      RanUpTo(driver, cs, plan, |steps| - 1);
      return;
    }
    steps := steps + [Close];
    fault := driver(cs, Close);
    assert steps == plan;
    RanUpTo(driver, cs, plan, |steps| - 1);
  }

  /** `BulkInsert` as written: open, begin, write the rows through a
      writer that is never flushed, rewind, load twice, commit, close; the
      using declarations then dispose the reader (closing the stream) and
      the writer (whose flush throws on the closed stream). It never
      succeeds. */
  method BulkInsert(data: Table, job: Job, driver: (string, LoaderStep) -> Option<Exception>)
    returns (r: Result<bool, Error>, steps: seq<LoaderStep>)
    ensures steps == RunPlan(driver, job.destination.dbString, AsWrittenPlan(data, job)).ran
    ensures r == Failure(AsWrittenError(data, job, driver))
  {
    var cs := job.destination.dbString;
    var fault;
    steps, fault := OpenTransaction(cs, driver);
    RunPlanAppend(driver, cs, [Open, BeginTransaction],
                  Loads(SettingsOf(data, job), LazyStream(CsvText(data.rows)), true));
    if fault.Some? {
      return Failure(ErrorFrom(fault.value, "BulkInsert")), steps;
    }
    var columns := LoaderColumns(data);
    var settings := LoaderSettings(QualifiedName(job), ",", "\n", columns);
    var memoryStream, writer := WriteCsv(data.rows, false);
    // `using StreamReader reader`: from here on, leaving the block
    // disposes the reader and then the writer.
    var loaded;
    loaded, fault := RunLoads(cs, settings, memoryStream, true, driver);
    steps := steps + loaded;
    memoryStream.Close();
    var disposed := writer.Dispose();
    if disposed.Some? {
      fault := disposed;
    }
    r := if fault.Some? then Failure(ErrorFrom(fault.value, "BulkInsert")) else Success(true);
  }

  /** The bulk insert as evidently intended: the writer is flushed before
      the stream is rewound, the loader runs once, and the writer's
      Dispose has nothing left to write. It succeeds exactly when no step
      raised, and otherwise reports the step's exception. */
  method IntendedBulkInsert(data: Table, job: Job, driver: (string, LoaderStep) -> Option<Exception>)
    returns (r: Result<bool, Error>, steps: seq<LoaderStep>)
    ensures var run := RunPlan(driver, job.destination.dbString, IntendedPlan(data, job));
      steps == run.ran &&
      (r.IsSuccessful() <==> run.fault.None?) &&
      (r.IsSuccessful() ==> r.value && steps == IntendedPlan(data, job)) &&
      (!r.IsSuccessful() ==> r.error == ErrorFrom(run.fault.value, "BulkInsert"))
  {
    var cs := job.destination.dbString;
    var fault;
    steps, fault := OpenTransaction(cs, driver);
    RunPlanAppend(driver, cs, [Open, BeginTransaction],
                  Loads(SettingsOf(data, job), [Preamble] + Encode(CsvText(data.rows)), false));
    if fault.Some? {
      return Failure(ErrorFrom(fault.value, "BulkInsert")), steps;
    }
    var columns := LoaderColumns(data);
    var settings := LoaderSettings(QualifiedName(job), ",", "\n", columns);
    var memoryStream, writer := WriteCsv(data.rows, true);
    var loaded;
    loaded, fault := RunLoads(cs, settings, memoryStream, false, driver);
    steps := steps + loaded;
    memoryStream.Close();
    var disposed := writer.Dispose();
    if disposed.Some? {
      fault := disposed;
    }
    r := if fault.Some? then Failure(ErrorFrom(fault.value, "BulkInsert")) else Success(true);
  }

  /** The load hands the loader the table's columns and, when no field
      holds a comma or a line end, the preamble followed by text that the
      server reads back as every field of every row. */
  predicate LoadsTable(step: LoaderStep, data: Table) {
    step.Load? && step.settings.columns == ColumnNames(data.columns) &&
    (PlainRows(data.rows) ==>
       |step.stream| >= 1 && step.stream[0] == Preamble &&
       DecodeCsv(TextOf(step.stream[1..])) == Some(RowTexts(data.rows)))
  }

  /** The corrected insert loads the whole table. */
  lemma IntendedLoadCarriesRows(data: Table, job: Job)
    ensures |IntendedPlan(data, job)| == 5
    ensures LoadsTable(IntendedPlan(data, job)[2], data)
  {
    var text := CsvText(data.rows);
    assert ([Preamble] + Encode(text))[1..] == Encode(text);
    TextOfEncode(text);
    if PlainRows(data.rows) {
      CsvRoundTrip(data.rows);
    }
  }

  lemma CsvTextNonEmpty(rows: seq<Row>)
    requires rows != []
    ensures |CsvText(rows)| >= 1
  {
  }

  /** As written, the first load gets the preamble and the text up to the
      last buffer the writer flushed by itself, so a table's last 1 to
      1024 characters are never loaded; the second load gets nothing. */
  lemma AsWrittenLoadMissesTail(data: Table, job: Job)
    ensures |AsWrittenPlan(data, job)| == 6
    ensures AsWrittenPlan(data, job)[2].Load? && AsWrittenPlan(data, job)[3] == Load(SettingsOf(data, job), [])
    ensures var text := CsvText(data.rows);
      var sent := AsWrittenPlan(data, job)[2].stream;
      var f := FlushedLength(|text|);
      (data.rows != [] ==> 1 <= |text| - f <= BufferSize) &&
      (f == 0 ==> sent == []) &&
      (f > 0 ==> |sent| >= 1 && sent[0] == Preamble && TextOf(sent[1..]) == text[..f])
  {
    var text := CsvText(data.rows);
    var f := FlushedLength(|text|);
    if data.rows != [] {
      CsvTextNonEmpty(data.rows);
      FlushedLengthBounds(|text|);
    }
    if f > 0 {
      assert ([Preamble] + Encode(text[..f]))[1..] == Encode(text[..f]);
      TextOfEncode(text[..f]);
    }
  }

  /** A table whose CSV text fits in one buffer (up to 1024 characters)
      sends the loader an empty stream: none of its rows is loaded. */
  lemma ShortTableLoadsNothing(data: Table, job: Job)
    requires |CsvText(data.rows)| <= BufferSize
    ensures AsWrittenPlan(data, job)[2] == Load(SettingsOf(data, job), [])
    ensures data.rows != [] && PlainRows(data.rows) ==> !LoadsTable(AsWrittenPlan(data, job)[2], data)
  {
    FlushedLengthBounds(|CsvText(data.rows)|);
  }

  /** The one-row table holding the integer 1: its text is "1" and a line
      end, and the loader receives nothing. */
  lemma OneRowLoadsNothing(columns: seq<Column>, job: Job)
    ensures var data := Table(columns, [[Int(1)]]);
      CsvText(data.rows) == "1\n" &&
      AsWrittenPlan(data, job)[2] == Load(SettingsOf(data, job), []) &&
      !LoadsTable(AsWrittenPlan(data, job)[2], data)
  {
    var data := Table(columns, [[Int(1)]]);
    assert ValueText(Int(1)) == "1";
    assert FieldTexts([Int(1)]) == ["1"];
    assert CsvLine([Int(1)]) == "1";
    assert CsvLines(data.rows) == ["1"];
    assert CsvText(data.rows) == "1" + "\n" + "";
    assert PlainRows(data.rows);
    ShortTableLoadsNothing(data, job);
  }

  /** Even when the driver raises nothing at any step, so that both loads
      and the commit go through, the bulk insert as written reports the
      closed-stream error. */
  lemma CommittedLoadReportsFailure(data: Table, job: Job, driver: (string, LoaderStep) -> Option<Exception>)
    requires forall i :: 0 <= i < |AsWrittenPlan(data, job)| ==>
      driver(job.destination.dbString, AsWrittenPlan(data, job)[i]).None?
    ensures RunPlan(driver, job.destination.dbString, AsWrittenPlan(data, job)).ran == AsWrittenPlan(data, job)
    ensures AsWrittenPlan(data, job)[4] == Commit
    ensures AsWrittenError(data, job, driver) == ErrorFrom(StreamClosed, "BulkInsert")
  {
  }
}
