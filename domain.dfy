/** The values the extraction engine passes around: .NET column types,
    exceptions, the engine's Error record, in-memory tables, scalar query
    results, and the extraction job with its origin and destination. */
module Domain {
  import opened Results
  import opened Text

  /** The .NET types a DataColumn can carry, as far as the type switches of
      the adapters distinguish them; `Other` is any further type, with its
      `Type.Name`. */
  datatype ClrType =
    | Int64 | Int32 | Int16 | String | Boolean | DateTime | Double | Decimal
    | Byte | SByte | UInt16 | UInt32 | UInt64 | Single | Char | Guid
    | TimeSpan | ByteArray | Object | ReadOnlyMemoryOfByte
    | Other(name: string)

  /** `Type.Name` of each type. */
  function TypeName(t: ClrType): string {
    match t
    case Int64 => "Int64"
    case Int32 => "Int32"
    case Int16 => "Int16"
    case String => "String"
    case Boolean => "Boolean"
    case DateTime => "DateTime"
    case Double => "Double"
    case Decimal => "Decimal"
    case Byte => "Byte"
    case SByte => "SByte"
    case UInt16 => "UInt16"
    case UInt32 => "UInt32"
    case UInt64 => "UInt64"
    case Single => "Single"
    case Char => "Char"
    case Guid => "Guid"
    case TimeSpan => "TimeSpan"
    case ByteArray => "Byte[]"
    case Object => "Object"
    case ReadOnlyMemoryOfByte => "ReadOnlyMemory`1"
    case Other(name) => name
  }

  /** The exception classes the modelled code throws or lets through;
      `Driver` is anything a database driver or the runtime raises that the
      model does not look into. */
  datatype ExceptionKind =
    | NotSupported | Argument | ArgumentOutOfRange | NullReference
    | InvalidCast | Format | Cryptographic | Driver | ObjectDisposed

  datatype Exception = Exception(kind: ExceptionKind, message: string)

  /** How a call ends: with a value, or by throwing. */
  datatype Completion<+T> = Returned(value: T) | Threw(exception: Exception)

  /** `ITCentral.Types.Error` without its stack trace and reflection data:
      the exception message, the name of the method that built it
      (`[CallerMemberName]`) and the partial-success flag. */
  datatype Error = Error(exceptionMessage: string, faultedMethod: string, isPartialSuccess: bool)

  /** `new Error(ex.Message, ex.StackTrace, false)` inside `member`. */
  function ErrorFrom(ex: Exception, member: string): (e: Error)
    ensures e.exceptionMessage == ex.message && e.faultedMethod == member
    ensures !e.isPartialSuccess
  {
    Error(ex.message, member, false)
  }

  /** The shape `try { ...; return AppCommon.Success; } catch (Exception ex)
      { return new Error(ex.Message, ex.StackTrace, false); }` inside
      `member`: success (true) when the guarded calls raise nothing, else
      the error built from what they raised. */
  function Guarded(fault: Option<Exception>, member: string): (r: Result<bool, Error>)
    ensures r.IsSuccessful() <==> fault.None?
    ensures r.IsSuccessful() ==> r.value
    ensures !r.IsSuccessful() ==> r.error == ErrorFrom(fault.value, member)
  {
    match fault
    case None => Success(true)
    case Some(ex) => Failure(ErrorFrom(ex, member))
  }

  /** A cell of a DataRow. */
  datatype Value = DBNull | Int(i: int) | Str(s: string) | Bool(b: bool)

  /** `object.ToString()` of a cell, as the MySQL loader writes it. */
  function ValueText(v: Value): string {
    match v
    case DBNull => ""
    case Int(i) => IntToString(i)
    case Str(s) => s
    case Bool(b) => if b then "True" else "False"
  }

  /** A DataColumn: its name, its .NET type and its MaxLength (-1 when
      unbounded). */
  datatype Column = Column(name: string, dataType: ClrType, maxLength: int)

  type Row = seq<Value>

  /** A DataTable reduced to its schema and its rows; row i holds one value
      per column, in column order. */
  datatype Table = Table(columns: seq<Column>, rows: seq<Row>)

  predicate WellFormed(t: Table) {
    forall i :: 0 <= i < |t.rows| ==> |t.rows[i]| == |t.columns|
  }

  function ColumnNames(cols: seq<Column>): (names: seq<string>)
    ensures |names| == |cols|
    ensures forall i :: 0 <= i < |cols| ==> names[i] == cols[i].name
  {
    if cols == [] then [] else [cols[0].name] + ColumnNames(cols[1..])
  }

  /** What `ExecuteScalarAsync` hands back: `null` when the query returned
      no row, `DBNull.Value` for a NULL cell, or the cell's value. */
  datatype Scalar = NoRow | NullCell | BoolCell(b: bool) | IntCell(i: int) | TextCell(s: string)

  /** The parts of an origin system, a destination and an extraction that
      the engine reads. */
  datatype Origin = Origin(name: string, connectionString: string, dbType: string)

  datatype Destination = Destination(dbString: string, dbType: string)

  /** An extraction job. `fileStructure` is the optional `|`-separated list
      of shard suffixes. */
  datatype Job = Job(
    name: string,
    indexName: string,
    fileStructure: Option<string>,
    origin: Origin,
    destination: Destination)

  /** The four concrete `DBExchange` adapters. */
  datatype Engine = MSSQL | PostgreSQL | ClickHouse | MySQL

  /** `{Name}_EMPRESA`: the tenant column added to every sharded table. */
  function TenantColumn(tableName: string): string {
    tableName + "_EMPRESA"
  }

  /** The key columns of a destination table: the job's index column, and
      the tenant column as well when the job is sharded (`file` non-null). */
  function KeyColumns(index: string, tableName: string, file: Option<string>): (keys: seq<string>)
    ensures |keys| >= 1 && keys[0] == index
    ensures |keys| == 2 <==> file.Some?
    ensures |keys| == 2 ==> keys[1] == TenantColumn(tableName)
  {
    [index] + (if file.Some? then [TenantColumn(tableName)] else [])
  }

  /** Each name followed by `suffix` (" ASC" for an ascending key). */
  function Suffixed(names: seq<string>, suffix: string): (r: seq<string>)
    ensures |r| == |names|
    ensures forall i :: 0 <= i < |names| ==> r[i] == names[i] + suffix
  {
    if names == [] then [] else [names[0] + suffix] + Suffixed(names[1..], suffix)
  }

  /** The types that every adapter's `GetSqlType` switch lists. */
  predicate AdapterSupported(t: ClrType) {
    !t.Other? && t != ReadOnlyMemoryOfByte
  }

  /** The exception the adapters' `GetSqlType` throws for an unlisted type. */
  function UnsupportedType(t: ClrType): Exception {
    Exception(NotSupported, "Type '" + TypeName(t) + "' is not supported")
  }

  /** The literal pieces around the length in `VARCHAR({n})`-style names. */
  function LengthTemplate(prefix: string): seq<string> {
    [prefix + "(", ")"]
  }

  /** `length > 0` on a C# `int?`: false for null. */
  predicate PositiveLength(length: Option<int>) {
    length.Some? && length.value > 0
  }

  /** `{Origin.Name}.{Name}`: the destination table that the bulk loaders
      write to; its schema is named after the origin system. */
  function QualifiedName(job: Job): string {
    job.origin.name + "." + job.name
  }

  /** `{prefix}({n})`, the sized form of a type name. */
  function SizedTypeName(prefix: string, n: int): string {
    prefix + "(" + IntToString(n) + ")"
  }

  /** The length written into a sized type name is read back from it. */
  lemma SizedTypeNameLength(prefix: string, n: int)
    ensures MatchTemplate(LengthTemplate(prefix), SizedTypeName(prefix, n)) == Some([n])
  {
    var segments := LengthTemplate(prefix);
    assert Render(segments[1..], []) == ")";
    assert Render(segments, [n]) == SizedTypeName(prefix, n);
    MatchRender(segments, [n]);
  }

  /** A database command: its text and its named parameters. */
  datatype Command = Command(text: string, parameters: seq<(string, string)>)

  /** Puts `xs` in front of the list a computation returned; a throw stays
      a throw. */
  function Prepend<T>(xs: seq<T>, c: Completion<seq<T>>): (r: Completion<seq<T>>)
    ensures c.Threw? ==> r == c
    ensures c.Returned? ==> r == Returned(xs + c.value)
  {
    match c
    case Threw(ex) => Threw(ex)
    case Returned(ys) => Returned(xs + ys)
  }

  lemma PrependNest<T>(xs: seq<T>, ys: seq<T>, c: Completion<seq<T>>)
    ensures Prepend(xs, Prepend(ys, c)) == Prepend(xs + ys, c)
  {
    if c.Returned? {
      assert xs + (ys + c.value) == (xs + ys) + c.value;
    }
  }
}
