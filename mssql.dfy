/** The SQL Server adapter (`MSSQLExchange`): its pagination clause, read
    hint, DDL fragments, type map, table and schema lookups, and the bulk
    copy request it sends. */
module MSSQLExchange {
  import opened Results
  import opened Text
  import opened Domain

  /** The literal text around the offset and the page size. */
  const PaginationTemplate: seq<string> := ["OFFSET ", " ROWS FETCH NEXT ", " ROWS ONLY"]

  /** `OFFSET {current} ROWS FETCH NEXT {ProducerLineMax} ROWS ONLY`: the
      clause always exists, and the offset and page size are read back from
      it in that order. */
  function QueryPagination(pageSize: int, current: int): (q: Option<string>)
    ensures q.Some?
  {
    Some("OFFSET " + IntToString(current) + " ROWS FETCH NEXT " + IntToString(pageSize) + " ROWS ONLY")
  }

  /** The numbers are read back from the clause: current and pageSize, in that order. */
  lemma PaginationReadBack(pageSize: int, current: int)
    ensures MatchTemplate(PaginationTemplate, QueryPagination(pageSize, current).value) == Some([current, pageSize])
  {
    MatchPair("OFFSET ", " ROWS FETCH NEXT ", " ROWS ONLY", current, pageSize);
  }

  /** The table hint that keeps the paged read from taking shared locks. */
  function QueryNonLocking(): Option<string> {
    Some("WITH(NOLOCK)")
  }

  function PrimaryKeyText(index: string, tableName: string, file: Option<string>): string {
    var indexGroup := if file.None? then index + " ASC" else index + " ASC, " + tableName + "_EMPRESA ASC";
    " CONSTRAINT IX_" + tableName + "_SK PRIMARY KEY NONCLUSTERED (" + indexGroup + "),"
  }

  /** The key constraint lists the key columns, separated by commas. */
  lemma PrimaryKeyColumns(index: string, tableName: string, file: Option<string>)
    ensures PrimaryKeyText(index, tableName, file)
      == " CONSTRAINT IX_" + tableName + "_SK PRIMARY KEY NONCLUSTERED ("
        + Join(", ", Suffixed(KeyColumns(index, tableName, file), " ASC")) + "),"
  {
    assert Suffixed(KeyColumns(index, tableName, file), " ASC")[1..]
      == if file.None? then [] else [TenantColumn(tableName) + " ASC"];
  }
  /** The key constraint closes its column group and ends with a comma. */
  lemma PrimaryKeyClosed(index: string, tableName: string, file: Option<string>)
    ensures |PrimaryKeyText(index, tableName, file)| >= 2
    ensures PrimaryKeyText(index, tableName, file)[|PrimaryKeyText(index, tableName, file)| - 2..] == "),"
  {
    var key := PrimaryKeyText(index, tableName, file);
    EndsWith(key[..|key| - 2], "),");
    assert key == key[..|key| - 2] + "),";
  }


  function ChangeColumnText(tableName: string): string {
    " DT_UPDATE_" + tableName + " DATETIME NOT NULL CONSTRAINT CK_UPDATE_" + tableName + " DEFAULT (GETDATE()),"
  }

  function ColumnarText(tableName: string): string {
    " INDEX IX_" + tableName + "_CCI CLUSTERED COLUMNSTORE"
  }

  /** The columnar clause is not empty and does not end with a comma. */
  lemma ColumnarClosed(tableName: string)
    ensures |ColumnarText(tableName)| >= 1 && ColumnarText(tableName)[|ColumnarText(tableName)| - 1] == 'E'
  {
    EndsWith(" INDEX IX_" + tableName + "_CCI CLUSTERED COLUMNSTOR", "E");
  }

  /** Appends the primary-key constraint; the key is the index column, and
      the tenant column too when the job is sharded. */
  method AddPrimaryKey(sb: StringBuilder, index: string, tableName: string, file: Option<string>)
    returns (r: StringBuilder)
    modifies sb
    ensures r == sb
    ensures sb.contents == old(sb.contents) + PrimaryKeyText(index, tableName, file)
  {
    var indexGroup := if file.None? then index + " ASC" else index + " ASC, " + tableName + "_EMPRESA ASC";
    sb.Append(" CONSTRAINT IX_" + tableName + "_SK PRIMARY KEY NONCLUSTERED (" + indexGroup + "),");
    r := sb;
  }

  /** Appends the change-tracking column as a line of its own. */
  method AddChangeColumn(sb: StringBuilder, tableName: string) returns (r: StringBuilder)
    modifies sb
    ensures r == sb
    ensures sb.contents == old(sb.contents) + ChangeColumnText(tableName) + NewLine
  {
    sb.AppendLine(ChangeColumnText(tableName));
    r := sb;
  }

  /** Appends the clustered columnstore index. */
  method AddColumnarStructure(sb: StringBuilder, tableName: string) returns (r: StringBuilder)
    modifies sb
    ensures r == sb
    ensures sb.contents == old(sb.contents) + ColumnarText(tableName)
  {
    sb.Append(ColumnarText(tableName));
    r := sb;
  }

  /** The .NET-to-SQL Server type switch. It is defined for exactly the
      listed types and throws NotSupportedException naming any other; only
      the string case looks at the length. */
  function GetSqlType(t: ClrType, length: Option<int>): (r: Completion<string>)
    ensures r.Returned? <==> AdapterSupported(t)
    ensures r.Threw? ==> r.exception == UnsupportedType(t)
    ensures t == String && !PositiveLength(length) ==> r == Returned("VARCHAR(MAX)")
  {
    match t
    case Int64 => Returned("BIGINT")
    case Int32 => Returned("INT")
    case Int16 => Returned("SMALLINT")
    case String =>
      if PositiveLength(length) then
        Returned(SizedTypeName("VARCHAR", length.value))
      else Returned("VARCHAR(MAX)")
    case Boolean => Returned("BIT")
    case DateTime => Returned("DATETIME")
    case Double => Returned("FLOAT")
    case Decimal => Returned("DECIMAL(18,2)")
    case Byte => Returned("TINYINT")
    case SByte => Returned("TINYINT")
    case UInt16 => Returned("SMALLINT")
    case UInt32 => Returned("INT")
    case UInt64 => Returned("BIGINT")
    case Single => Returned("REAL")
    case Char => Returned("NCHAR(1)")
    case Guid => Returned("UNIQUEIDENTIFIER")
    case TimeSpan => Returned("TIME")
    case ByteArray => Returned("VARBINARY(MAX)")
    case Object => Returned("SQL_VARIANT")
    case _ => Threw(UnsupportedType(t))
  }

  /** A positive length is written into the string type, and read back
      from it. */
  lemma StringLength(length: Option<int>)
    requires PositiveLength(length)
    ensures GetSqlType(String, length).Returned?
    ensures MatchTemplate(LengthTemplate("VARCHAR"), GetSqlType(String, length).value) == Some([length.value])
  {
    SizedTypeNameLength("VARCHAR", length.value);
  }

  /** The length matters only for strings. */
  lemma LengthOnlyForStrings(t: ClrType, a: Option<int>, b: Option<int>)
    requires t != String
    ensures GetSqlType(t, a) == GetSqlType(t, b)
  {
  }

  /** The signed type of the same width as an unsigned one (byte for
      sbyte); any other type is its own. */
  function Signed(t: ClrType): ClrType {
    match t
    case UInt16 => Int16
    case UInt32 => Int32
    case UInt64 => Int64
    case SByte => Byte
    case _ => t
  }

  /** The unsigned types share the SQL type of a signed type of the same
      width; sbyte and byte share TINYINT. */
  lemma UnsignedShareSignedTypes(t: ClrType, length: Option<int>)
    ensures GetSqlType(t, length) == GetSqlType(Signed(t), length)
  {
    match t
    case UInt16 => assert GetSqlType(Int16, length) == Returned("SMALLINT");
    case UInt32 => assert GetSqlType(Int32, length) == Returned("INT");
    case UInt64 => assert GetSqlType(Int64, length) == Returned("BIGINT");
    case SByte => assert GetSqlType(Byte, length) == Returned("TINYINT");
    case _ =>
  }

  function LookupTableCommand(tableName: string): Command {
    Command("SELECT TABLE_NAME FROM INFORMATION_SCHEMA.TABLES WHERE TABLE_NAME = @table", [("@table", tableName)])
  }

  /** The table exists unless the lookup returned no row or a NULL cell. */
  function LookupTable(res: Scalar): (found: bool)
    ensures !found <==> res == NoRow || res == NullCell
  {
    !(res == NullCell || res == NoRow)
  }

  function SchemaLookupCommand(system: string): Command {
    Command("SELECT SCHEMA_NAME FROM INFORMATION_SCHEMA.SCHEMATA WHERE SCHEMA_NAME = @schema", [("@schema", system)])
  }

  /** The schema is created exactly when its lookup returned no row or a
      NULL cell. */
  function SchemaMissing(res: Scalar): (missing: bool)
    ensures missing <==> res == NoRow || res == NullCell
  {
    res == NullCell || res == NoRow
  }

  function CreateSchemaCommand(system: string): Command {
    Command("CREATE SCHEMA " + system, [])
  }

  /** Schema and table lookups read the scalar the same way: a schema is
      created exactly when a table lookup with that result would say
      "absent". */
  lemma SchemaRuleMatchesTableRule(res: Scalar)
    ensures SchemaMissing(res) <==> !LookupTable(res)
  {
  }

  /** The request handed to SqlBulkCopy: the destination
      `{Origin.Name}.{Name}`, the timeout and the whole table. */
  datatype BulkCopy = BulkCopy(destinationTableName: string, timeout: int, data: Table)

  function BulkInsertRequest(data: Table, job: Job, bulkCopyTimeout: int): (req: BulkCopy)
    ensures req.destinationTableName == QualifiedName(job)
    ensures req.data == data && req.timeout == bulkCopyTimeout
  {
    BulkCopy(QualifiedName(job), bulkCopyTimeout, data)
  }

  /** `BulkInsert`: opening the destination and `WriteToServerAsync` are
      the driver's `writeToServer`, which reports what it raised. */
  method BulkInsert(data: Table, job: Job, bulkCopyTimeout: int,
                    writeToServer: (string, BulkCopy) -> Option<Exception>)
    returns (r: Result<bool, Error>)
    ensures r.IsSuccessful() <==>
      writeToServer(job.destination.dbString, BulkInsertRequest(data, job, bulkCopyTimeout)).None?
    ensures r.IsSuccessful() ==> r.value
    ensures !r.IsSuccessful() ==>
      r.error == ErrorFrom(writeToServer(job.destination.dbString, BulkInsertRequest(data, job, bulkCopyTimeout)).value, "BulkInsert")
  {
    var bulk := BulkInsertRequest(data, job, bulkCopyTimeout);
    var fault := writeToServer(job.destination.dbString, bulk);
    r := Guarded(fault, "BulkInsert");
  }
}
