/** The PostgreSQL adapter (`PostgreSQLExchange`): pagination, read hint,
    DDL fragments, type map, lookups, and the binary COPY stream that its
    bulk insert writes. */
module PostgreSQLExchange {
  import opened Results
  import opened Text
  import opened Domain

  const PaginationTemplate: seq<string> := ["OFFSET ", " LIMIT ", ""]

  /** `OFFSET {current} LIMIT {ProducerLineMax}`: always present; offset and
      page size are read back from it in that order. */
  function QueryPagination(pageSize: int, current: int): (q: Option<string>)
    ensures q.Some?
  {
    Some("OFFSET " + IntToString(current) + " LIMIT " + IntToString(pageSize))
  }

  /** The numbers are read back from the clause: current and pageSize, in that order. */
  lemma PaginationReadBack(pageSize: int, current: int)
    ensures MatchTemplate(PaginationTemplate, QueryPagination(pageSize, current).value) == Some([current, pageSize])
  {
    MatchPair("OFFSET ", " LIMIT ", "", current, pageSize);
    assert QueryPagination(pageSize, current).value + "" == QueryPagination(pageSize, current).value;
  }

  /** The row-lock clause used as the read hint. */
  function QueryNonLocking(): Option<string> {
    Some("FOR SHARE")
  }

  function PrimaryKeyText(index: string, tableName: string, file: Option<string>): string {
    var indexGroup := if file.None? then index else index + ", " + tableName + "_EMPRESA";
    " PRIMARY KEY (" + indexGroup + "),"
  }

  /** The key constraint lists the key columns, separated by commas. */
  lemma PrimaryKeyColumns(index: string, tableName: string, file: Option<string>)
    ensures PrimaryKeyText(index, tableName, file)
      == " PRIMARY KEY (" + Join(", ", KeyColumns(index, tableName, file)) + "),"
  {
    assert KeyColumns(index, tableName, file)[1..] == if file.None? then [] else [TenantColumn(tableName)];
  }
  /** The key constraint closes its column group and ends with a comma. */
  lemma PrimaryKeyClosed(index: string, tableName: string, file: Option<string>)
    ensures |PrimaryKeyText(index, tableName, file)| >= 2
    ensures PrimaryKeyText(index, tableName, file)[|PrimaryKeyText(index, tableName, file)| - 2..] == "),"
  {
    var key := PrimaryKeyText(index, tableName, file);
    EndsWith(key[..|key| - 2], "),");
    assert key == key[..|key| - 2] + "),";
  }


  function ChangeColumnText(tableName: string): string {
    " DT_UPDATE_" + tableName + " TIMESTAMPTZ NOT NULL DEFAULT NOW(),"
  }

  /** Appends the primary key: the index column, then the tenant column
      when the job is sharded, without a sort direction. */
  method AddPrimaryKey(sb: StringBuilder, index: string, tableName: string, file: Option<string>)
    returns (r: StringBuilder)
    modifies sb
    ensures r == sb
    ensures sb.contents == old(sb.contents) + PrimaryKeyText(index, tableName, file)
  {
    var indexGroup := if file.None? then index else index + ", " + tableName + "_EMPRESA";
    sb.Append(" PRIMARY KEY (" + indexGroup + "),");
    r := sb;
  }

  method AddChangeColumn(sb: StringBuilder, tableName: string) returns (r: StringBuilder)
    modifies sb
    ensures r == sb
    ensures sb.contents == old(sb.contents) + ChangeColumnText(tableName) + NewLine
  {
    sb.AppendLine(ChangeColumnText(tableName));
    r := sb;
  }

  /** PostgreSQL has no columnar index here: the builder is left as it is. */
  method AddColumnarStructure(sb: StringBuilder, tableName: string) returns (r: StringBuilder)
    modifies sb
    ensures r == sb
    ensures sb.contents == old(sb.contents)
  {
    sb.Append("");
    r := sb;
  }

  /** The .NET-to-PostgreSQL type switch: defined for exactly the listed
      types, NotSupportedException naming any other; a positive string
      length gives VARCHAR(n), any other length TEXT. */
  function GetSqlType(t: ClrType, length: Option<int>): (r: Completion<string>)
    ensures r.Returned? <==> AdapterSupported(t)
    ensures r.Threw? ==> r.exception == UnsupportedType(t)
    ensures t == String && !PositiveLength(length) ==> r == Returned("TEXT")
  {
    match t
    case Int64 => Returned("BIGINT")
    case Int32 => Returned("INTEGER")
    case Int16 => Returned("SMALLINT")
    case String =>
      if PositiveLength(length) then
        Returned(SizedTypeName("VARCHAR", length.value))
      else Returned("TEXT")
    case Boolean => Returned("BOOLEAN")
    case DateTime => Returned("TIMESTAMPTZ")
    case Double => Returned("DOUBLE PRECISION")
    case Decimal => Returned("NUMERIC(18,2)")
    case Byte => Returned("SMALLINT")
    case SByte => Returned("SMALLINT")
    case UInt16 => Returned("INTEGER")
    case UInt32 => Returned("BIGINT")
    case UInt64 => Returned("NUMERIC")
    case Single => Returned("REAL")
    case Char => Returned("CHAR(1)")
    case Guid => Returned("UUID")
    case TimeSpan => Returned("INTERVAL")
    case ByteArray => Returned("BYTEA")
    case Object => Returned("JSONB")
    case _ => Threw(UnsupportedType(t))
  }

  /** A positive length is written into the string type, and read back
      from it. */
  lemma StringLength(length: Option<int>)
    requires PositiveLength(length)
    ensures GetSqlType(String, length).Returned?
    ensures MatchTemplate(LengthTemplate("VARCHAR"), GetSqlType(String, length).value) == Some([length.value])
  {
    SizedTypeNameLength("VARCHAR", length.value);
  }

  lemma LengthOnlyForStrings(t: ClrType, a: Option<int>, b: Option<int>)
    requires t != String
    ensures GetSqlType(t, a) == GetSqlType(t, b)
  {
  }

  /** The signed type one size up from an unsigned type (both 8-bit types
      take the 16-bit one); any other type is its own. */
  function Widened(t: ClrType): ClrType {
    match t
    case Byte => Int16
    case SByte => Int16
    case UInt16 => Int32
    case UInt32 => Int64
    case _ => t
  }

  /** PostgreSQL has no unsigned integers: byte and sbyte take SMALLINT,
      and each other unsigned type the signed type one size up (ulong,
      which has none, NUMERIC). */
  lemma UnsignedWidened(t: ClrType, length: Option<int>)
    ensures t != UInt64 ==> GetSqlType(t, length) == GetSqlType(Widened(t), length)
    ensures t == UInt64 ==> GetSqlType(t, length) == Returned("NUMERIC")
  {
    match t
    case Byte => assert GetSqlType(Int16, length) == Returned("SMALLINT");
    case SByte => assert GetSqlType(Int16, length) == Returned("SMALLINT");
    case UInt16 => assert GetSqlType(Int32, length) == Returned("INTEGER");
    case UInt32 => assert GetSqlType(Int64, length) == Returned("BIGINT");
    case _ =>
  }

  function LookupTableCommand(tableName: string): Command {
    Command("SELECT to_regclass(@table)", [("@table", tableName)])
  }

  /** `to_regclass` names the table or is NULL: found iff the scalar is
      neither null nor DBNull. */
  function LookupTable(res: Scalar): (found: bool)
    ensures found <==> res != NoRow && res != NullCell
  {
    res != NullCell && res != NoRow
  }

  function SchemaLookupCommand(system: string): Command {
    Command("SELECT schema_name FROM information_schema.schemata WHERE schema_name = @schema", [("@schema", system)])
  }

  function SchemaMissing(res: Scalar): (missing: bool)
    ensures missing <==> res == NoRow || res == NullCell
  {
    res == NullCell || res == NoRow
  }

  function CreateSchemaCommand(system: string): Command {
    Command("CREATE SCHEMA " + system, [])
  }

  lemma SchemaRuleMatchesTableRule(res: Scalar)
    ensures SchemaMissing(res) <==> !LookupTable(res)
  {
  }

  // -------------------------------------------------------------------
  // Binary COPY.

  /** The calls made on the binary importer. */
  datatype CopyEvent = StartRow | Write(value: Value)

  function Writes(row: Row): (events: seq<CopyEvent>)
    ensures |events| == |row|
    ensures forall i :: 0 <= i < |row| ==> events[i] == Write(row[i])
  {
    if row == [] then [] else [Write(row[0])] + Writes(row[1..])
  }

  /** A row on the wire: StartRow, then one Write per item. */
  function RowEvents(row: Row): seq<CopyEvent> {
    [StartRow] + Writes(row)
  }

  function CopyEvents(rows: seq<Row>): seq<CopyEvent> {
    if rows == [] then [] else RowEvents(rows[0]) + CopyEvents(rows[1..])
  }

  lemma {:induction false} CopyEventsAppend(rows: seq<Row>, row: Row)
    ensures CopyEvents(rows + [row]) == CopyEvents(rows) + RowEvents(row)
  {
    if rows != [] {
      assert (rows + [row])[1..] == rows[1..] + [row];
      CopyEventsAppend(rows[1..], row);
    } else {
      assert CopyEvents([row]) == RowEvents(row) + CopyEvents([]);
    }
  }

  /** The values written before the next StartRow, and what follows. */
  function TakeWrites(events: seq<CopyEvent>): (r: (Row, seq<CopyEvent>))
    ensures |r.1| <= |events|
    ensures r.1 == [] || r.1[0] == StartRow
  {
    if events == [] || events[0] == StartRow then ([], events)
    else
      var rest := TakeWrites(events[1..]);
      ([events[0].value] + rest.0, rest.1)
  }

  /** Reads rows back from a stream of importer calls; None when the stream
      does not begin with StartRow. */
  function DecodeCopy(events: seq<CopyEvent>): Option<seq<Row>>
    decreases |events|
  {
    if events == [] then Some([])
    else if events[0] != StartRow then None
    else
      var (row, rest) := TakeWrites(events[1..]);
      match DecodeCopy(rest)
      case None => None
      case Some(rows) => Some([row] + rows)
  }

  lemma {:induction false} TakeWritesOf(row: Row, rest: seq<CopyEvent>)
    requires rest == [] || rest[0] == StartRow
    ensures TakeWrites(Writes(row) + rest) == (row, rest)
  {
    if row != [] {
      assert (Writes(row) + rest)[1..] == Writes(row[1..]) + rest;
      TakeWritesOf(row[1..], rest);
      assert [row[0]] + row[1..] == row;
    } else {
      assert Writes(row) + rest == rest;
    }
  }

  /** The COPY stream decodes back to exactly the table's rows, each with
      its values in column order. */
  lemma {:induction false} DecodeCopyEvents(rows: seq<Row>)
    ensures DecodeCopy(CopyEvents(rows)) == Some(rows)
  {
    if rows != [] {
      var rest := CopyEvents(rows[1..]);
      DecodeCopyEvents(rows[1..]);
      assert rest == [] || rest[0] == StartRow;
      assert CopyEvents(rows) == [StartRow] + (Writes(rows[0]) + rest);
      assert CopyEvents(rows)[1..] == Writes(rows[0]) + rest;
      TakeWritesOf(rows[0], rest);
      assert [rows[0]] + rows[1..] == rows;
    }
  }

  /** What the bulk insert hands to the driver: the COPY command and the
      importer calls. */
  datatype CopyRequest = CopyRequest(command: string, events: seq<CopyEvent>)

  function CopyCommand(job: Job): string {
    "COPY " + QualifiedName(job) + " FROM STDIN (FORMAT BINARY)"
  }

  /** The item loop of one row: a Write per item, in column order. */
  lemma CopyEventsStep(rows: seq<Row>, i: int)
    requires 0 <= i < |rows|
    ensures CopyEvents(rows[..i + 1]) == CopyEvents(rows[..i]) + RowEvents(rows[i])
  {
    assert rows[..i + 1] == rows[..i] + [rows[i]];
    CopyEventsAppend(rows[..i], rows[i]);
  }

  method WriteItems(events: seq<CopyEvent>, row: Row) returns (r: seq<CopyEvent>)
    ensures r == events + Writes(row)
  {
    r := events;
    var j := 0;
    while j < |row|
      invariant 0 <= j <= |row|
      invariant r == events + Writes(row[..j])
    {
      assert Writes(row[..j + 1]) == Writes(row[..j]) + [Write(row[j])];
      r := r + [Write(row[j])];
      j := j + 1;
    }
    assert row[..j] == row;
  }

  /** The row loop of `BulkInsert`: StartRow before each row, then one
      Write per item. */
  method BulkInsertRequest(data: Table, job: Job) returns (req: CopyRequest)
    ensures req.command == CopyCommand(job)
    ensures req.events == CopyEvents(data.rows)
  {
    var rows := data.rows;
    var events: seq<CopyEvent> := [];
    var i := 0;
    while i < |rows|
      invariant 0 <= i <= |rows|
      invariant events == CopyEvents(rows[..i])
    {
      var row := rows[i];
      CopyEventsStep(rows, i);
      ConcatAssoc(events, [StartRow], Writes(row));
      events := WriteItems(events + [StartRow], row);
      i := i + 1;
    }
    assert rows[..i] == rows;
    req := CopyRequest(CopyCommand(job), events);
  }

  /** `BulkInsert`: the importer's calls, then `CompleteAsync`; the driver's
      `copyIn` reports what opening, importing or completing raised. */
  method BulkInsert(data: Table, job: Job, copyIn: (string, CopyRequest) -> Option<Exception>)
    returns (r: Result<bool, Error>)
    ensures r.IsSuccessful() <==>
      copyIn(job.destination.dbString, CopyRequest(CopyCommand(job), CopyEvents(data.rows))).None?
    ensures r.IsSuccessful() ==> r.value
    ensures !r.IsSuccessful() ==>
      r.error == ErrorFrom(copyIn(job.destination.dbString, CopyRequest(CopyCommand(job), CopyEvents(data.rows))).value, "BulkInsert")
  {
    var request := BulkInsertRequest(data, job);
    var fault := copyIn(job.destination.dbString, request);
    r := Guarded(fault, "BulkInsert");
  }
}
