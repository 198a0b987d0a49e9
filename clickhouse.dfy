/** The ClickHouse adapter (`ClickhouseExchange`): pagination, DDL
    fragments, type map, the boolean lookups, and the row list of its bulk
    insert. ClickHouse gets no read hint. */
module ClickhouseExchange {
  import opened Results
  import opened Text
  import opened Domain

  const PaginationTemplate: seq<string> := ["LIMIT ", " OFFSET ", ""]

  /** `LIMIT {ProducerLineMax} OFFSET {current}`: always present; the page
      size comes first and the offset second. */
  function QueryPagination(pageSize: int, current: int): (q: Option<string>)
    ensures q.Some?
  {
    Some("LIMIT " + IntToString(pageSize) + " OFFSET " + IntToString(current))
  }

  /** The numbers are read back from the clause: pageSize and current, in that order. */
  lemma PaginationReadBack(pageSize: int, current: int)
    ensures MatchTemplate(PaginationTemplate, QueryPagination(pageSize, current).value) == Some([pageSize, current])
  {
    MatchPair("LIMIT ", " OFFSET ", "", pageSize, current);
    assert QueryPagination(pageSize, current).value + "" == QueryPagination(pageSize, current).value;
  }

  /** No read hint: the query gets an empty string in its place. */
  function QueryNonLocking(): Option<string> {
    None
  }

  function PrimaryKeyText(index: string, tableName: string, file: Option<string>): string {
    var indexGroup := if file.None? then index else index + ", " + tableName + "_EMPRESA";
    " PRIMARY KEY (" + indexGroup + "),"
  }

  /** The key constraint lists the key columns, separated by commas. */
  lemma PrimaryKeyColumns(index: string, tableName: string, file: Option<string>)
    ensures PrimaryKeyText(index, tableName, file)
      == " PRIMARY KEY (" + Join(", ", KeyColumns(index, tableName, file)) + "),"
  {
    assert KeyColumns(index, tableName, file)[1..] == if file.None? then [] else [TenantColumn(tableName)];
  }
  /** The key constraint closes its column group and ends with a comma. */
  lemma PrimaryKeyClosed(index: string, tableName: string, file: Option<string>)
    ensures |PrimaryKeyText(index, tableName, file)| >= 2
    ensures PrimaryKeyText(index, tableName, file)[|PrimaryKeyText(index, tableName, file)| - 2..] == "),"
  {
    var key := PrimaryKeyText(index, tableName, file);
    EndsWith(key[..|key| - 2], "),");
    assert key == key[..|key| - 2] + "),";
  }


  function ChangeColumnText(tableName: string): string {
    " DT_UPDATE_" + tableName + " DateTime DEFAULT now(),"
  }

  method AddPrimaryKey(sb: StringBuilder, index: string, tableName: string, file: Option<string>)
    returns (r: StringBuilder)
    modifies sb
    ensures r == sb
    ensures sb.contents == old(sb.contents) + PrimaryKeyText(index, tableName, file)
  {
    var indexGroup := if file.None? then index else index + ", " + tableName + "_EMPRESA";
    sb.Append(" PRIMARY KEY (" + indexGroup + "),");
    r := sb;
  }

  method AddChangeColumn(sb: StringBuilder, tableName: string) returns (r: StringBuilder)
    modifies sb
    ensures r == sb
    ensures sb.contents == old(sb.contents) + ChangeColumnText(tableName) + NewLine
  {
    sb.AppendLine(ChangeColumnText(tableName));
    r := sb;
  }

  /** No columnar index clause: the builder is left as it is. */
  method AddColumnarStructure(sb: StringBuilder, tableName: string) returns (r: StringBuilder)
    modifies sb
    ensures r == sb
    ensures sb.contents == old(sb.contents)
  {
    sb.Append("");
    r := sb;
  }

  /** The .NET-to-ClickHouse type switch: defined for exactly the listed
      types, NotSupportedException naming any other; a positive string
      length gives String(n), any other length String. */
  function GetSqlType(t: ClrType, length: Option<int>): (r: Completion<string>)
    ensures r.Returned? <==> AdapterSupported(t)
    ensures r.Threw? ==> r.exception == UnsupportedType(t)
    ensures t == String && !PositiveLength(length) ==> r == Returned("String")
  {
    match t
    case Int64 => Returned("Int64")
    case Int32 => Returned("Int32")
    case Int16 => Returned("Int16")
    case String =>
      if PositiveLength(length) then
        Returned(SizedTypeName("String", length.value))
      else Returned("String")
    case Boolean => Returned("UInt8")
    case DateTime => Returned("DateTime")
    case Double => Returned("Float64")
    case Decimal => Returned("Decimal(18,2)")
    case Byte => Returned("UInt8")
    case SByte => Returned("Int8")
    case UInt16 => Returned("UInt16")
    case UInt32 => Returned("UInt32")
    case UInt64 => Returned("UInt64")
    case Single => Returned("Float32")
    case Char => Returned("FixedString(1)")
    case Guid => Returned("UUID")
    case TimeSpan => Returned("Interval")
    case ByteArray => Returned("Array(UInt8)")
    case Object => Returned("String")
    case _ => Threw(UnsupportedType(t))
  }

  /** A positive length is written into the string type, and read back
      from it. */
  lemma StringLength(length: Option<int>)
    requires PositiveLength(length)
    ensures GetSqlType(String, length).Returned?
    ensures MatchTemplate(LengthTemplate("String"), GetSqlType(String, length).value) == Some([length.value])
  {
    SizedTypeNameLength("String", length.value);
  }

  lemma LengthOnlyForStrings(t: ClrType, a: Option<int>, b: Option<int>)
    requires t != String
    ensures GetSqlType(t, a) == GetSqlType(t, b)
  {
  }

  /** Booleans are stored as bytes, and objects as unsized strings. */
  lemma SharedStorageTypes(length: Option<int>)
    ensures GetSqlType(Boolean, length) == GetSqlType(Byte, length) == Returned("UInt8")
    ensures GetSqlType(Object, length) == GetSqlType(String, None)
  {
  }

  function LookupTableCommand(tableName: string): Command {
    Command("EXISTS TABLE @table", [("@table", tableName)])
  }

  /** `(bool)res`: unboxing anything but a boolean throws. */
  function CastToBool(res: Scalar): (r: Completion<bool>)
    ensures r.Returned? <==> res.BoolCell?
    ensures r.Returned? ==> r.value == res.b
    ensures r.Threw? ==> r.exception.kind == InvalidCast
  {
    if res.BoolCell? then Returned(res.b) else Threw(Exception(InvalidCast, "Specified cast is not valid."))
  }

  /** `res != DBNull && res != null && (bool)res`: absent on null or DBNull
      without casting; otherwise the boolean itself, and a cell of another
      type makes the cast throw. */
  function LookupTable(res: Scalar): (r: Completion<bool>)
    ensures res == NoRow || res == NullCell ==> r == Returned(false)
    ensures res.BoolCell? ==> r == Returned(res.b)
    ensures r.Threw? <==> (res.IntCell? || res.TextCell?)
  {
    if res == NullCell || res == NoRow then Returned(false) else CastToBool(res)
  }

  function SchemaLookupCommand(system: string): Command {
    Command("EXISTS DATABASE @schema", [("@schema", system)])
  }

  /** `res == DBNull || res == null || !(bool)res`. */
  function SchemaMissing(res: Scalar): (r: Completion<bool>)
    ensures res == NoRow || res == NullCell ==> r == Returned(true)
    ensures res.BoolCell? ==> r == Returned(!res.b)
    ensures r.Threw? <==> (res.IntCell? || res.TextCell?)
  {
    if res == NullCell || res == NoRow then Returned(true)
    else match CastToBool(res)
      case Threw(ex) => Threw(ex)
      case Returned(b) => Returned(!b)
  }

  /** `CREATE DATABASE`: ClickHouse has databases where the others have
      schemas. */
  function CreateSchemaCommand(system: string): Command {
    Command("CREATE DATABASE " + system, [])
  }

  /** The database is created exactly when a table lookup reading the same
      scalar would say "absent", and both throw on the same scalars. */
  lemma SchemaRuleMatchesTableRule(res: Scalar)
    ensures SchemaMissing(res).Returned? <==> LookupTable(res).Returned?
    ensures SchemaMissing(res).Returned? ==> (SchemaMissing(res).value <==> !LookupTable(res).value)
  {
  }

  /** The INSERT command with its `@bulk` parameter: one item array per
      row. */
  datatype InsertRequest = InsertRequest(command: string, bulk: seq<Row>)

  function InsertCommand(job: Job): string {
    "INSERT INTO " + QualifiedName(job) + " VALUES @bulk"
  }

  /** The row loop of `BulkInsert`: the parameter list holds exactly one
      item array per data row, in row order. */
  method BulkInsertRequest(data: Table, job: Job) returns (req: InsertRequest)
    ensures req.command == InsertCommand(job)
    ensures |req.bulk| == |data.rows|
    ensures forall i :: 0 <= i < |data.rows| ==> req.bulk[i] == data.rows[i]
  {
    var bulk: seq<Row> := [];
    var i := 0;
    while i < |data.rows|
      invariant 0 <= i <= |data.rows|
      invariant bulk == data.rows[..i]
    {
      bulk := bulk + [data.rows[i]];
      assert data.rows[..i + 1] == data.rows[..i] + [data.rows[i]];
      i := i + 1;
    }
    req := InsertRequest(InsertCommand(job), bulk);
  }

  /** `BulkInsert`: the driver's `execute` runs the INSERT with its `@bulk`
      parameter and reports what it raised. */
  method BulkInsert(data: Table, job: Job, execute: (string, InsertRequest) -> Option<Exception>)
    returns (r: Result<bool, Error>)
    ensures r.IsSuccessful() <==>
      execute(job.destination.dbString, InsertRequest(InsertCommand(job), data.rows)).None?
    ensures r.IsSuccessful() ==> r.value
    ensures !r.IsSuccessful() ==>
      r.error == ErrorFrom(execute(job.destination.dbString, InsertRequest(InsertCommand(job), data.rows)).value, "BulkInsert")
  {
    var request := BulkInsertRequest(data, job);
    assert request.bulk == data.rows;
    var fault := execute(job.destination.dbString, request);
    r := Guarded(fault, "BulkInsert");
  }
}
