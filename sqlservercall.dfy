/** `ITCentral.Data.SqlServerCall`: the SQL Server dialect of the metadata
    store: its table lookup query, the identity primary key it puts on a
    model table, and its .NET-to-SQL type switch. */
module SqlServerCall {
  import opened Results
  import opened Domain
  import opened Text
  import MSSQLExchange

  const LookupPrefix: string := "SELECT 1 FROM INFORMATION_SCHEMA.TABLES WHERE TABLE_NAME = '"
  const LookupSuffix: string := "';"

  /** `GenerateSyncLookupQueryAsync(tableName)`. */
  function GenerateSyncLookupQuery(tableName: string): string {
    LookupPrefix + tableName + LookupSuffix
  }

  /** The query names exactly the table it was built for. */
  lemma LookupNamesTable(tableName: string)
    ensures Between(GenerateSyncLookupQuery(tableName), LookupPrefix, LookupSuffix) == Some(tableName)
  {
    BetweenOf(LookupPrefix, tableName, LookupSuffix);
  }

  const Identity: string := " IDENTITY(1,1)"
  const ConstraintPrefix: string := " CONSTRAINT IX_"
  const KeySuffix: string := "_PK PRIMARY KEY CLUSTERED"

  /** What `AddPrimaryKeyConstraint` appends. */
  function PrimaryKeyText(tableName: string): string {
    Identity + (ConstraintPrefix + ToUpper(tableName) + KeySuffix)
  }

  /** `AddPrimaryKeyConstraint(query, tableName)`: an identity column
      carrying the clustered primary key `IX_{TABLE}_PK`. */
  method AddPrimaryKeyConstraint(query: StringBuilder, tableName: string)
    modifies query
    ensures query.contents == old(query.contents) + PrimaryKeyText(tableName)
  {
    query.Append(Identity);
    query.Append(ConstraintPrefix + ToUpper(tableName) + KeySuffix);
    ConcatAssoc(old(query.contents), Identity, ConstraintPrefix + ToUpper(tableName) + KeySuffix);
  }

  /** The constraint is named after the upper-cased table name. */
  lemma PrimaryKeyName(tableName: string)
    ensures Between(PrimaryKeyText(tableName), Identity + ConstraintPrefix, KeySuffix) == Some(ToUpper(tableName))
  {
    var u := ToUpper(tableName);
    assert PrimaryKeyText(tableName) == Identity + ConstraintPrefix + u + KeySuffix;
    BetweenOf(Identity + ConstraintPrefix, u, KeySuffix);
  }

  /** The name holds no lower-case letter, so tables whose names differ
      only in case get the same constraint name. */
  lemma PrimaryKeyNameUpper(tableName: string)
    ensures forall i :: 0 <= i < |tableName| ==> !('a' <= ToUpper(tableName)[i] <= 'z')
  {
    forall i | 0 <= i < |tableName|
      ensures !('a' <= ToUpper(tableName)[i] <= 'z')
    {
      UpperCharNotLower(tableName[i]);
    }
  }

  /** `GetSqlType(type)`: defined for exactly the listed types, throwing
      NotSupportedException naming any other. */
  function GetSqlType(t: ClrType): (r: Completion<string>)
    ensures r.Returned? <==> AdapterSupported(t)
    ensures r.Threw? ==> r.exception == UnsupportedType(t)
  {
    match t
    case Int64 => Returned("BIGINT")
    case Int32 => Returned("INT")
    case Int16 => Returned("SMALLINT")
    case String => Returned("NVARCHAR(MAX)")
    case Boolean => Returned("BIT")
    case DateTime => Returned("DATETIME")
    case Double => Returned("FLOAT")
    case Decimal => Returned("DECIMAL(18,2)")
    case Byte => Returned("TINYINT")
    case SByte => Returned("TINYINT")
    case UInt16 => Returned("SMALLINT")
    case UInt32 => Returned("INT")
    case UInt64 => Returned("BIGINT")
    case Single => Returned("REAL")
    case Char => Returned("NCHAR(1)")
    case Guid => Returned("UNIQUEIDENTIFIER")
    case TimeSpan => Returned("TIME")
    case ByteArray => Returned("VARBINARY(MAX)")
    case Object => Returned("SQL_VARIANT")
    case _ => Threw(UnsupportedType(t))
  }

  /** SQL Server has no unsigned integers: an unsigned type (and `sbyte`)
      gets the SQL type of the signed type of its width. */
  lemma UnsignedShareSigned(t: ClrType)
    ensures GetSqlType(t) == GetSqlType(MSSQLExchange.Signed(t))
  {
    match t
    case UInt16 => assert GetSqlType(Int16) == Returned("SMALLINT");
    case UInt32 => assert GetSqlType(Int32) == Returned("INT");
    case UInt64 => assert GetSqlType(Int64) == Returned("BIGINT");
    case SByte => assert GetSqlType(Byte) == Returned("TINYINT");
    case _ =>
  }

  /** The metadata tables and the exchanged tables get the same SQL type
      for every type but `string`: the metadata store always writes
      NVARCHAR(MAX), the exchange writes VARCHAR. */
  lemma AgreesWithExchange(t: ClrType, length: Option<int>)
    ensures t != String ==> GetSqlType(t) == MSSQLExchange.GetSqlType(t, length)
    ensures GetSqlType(String) == Returned("NVARCHAR(MAX)")
    ensures MSSQLExchange.GetSqlType(String, length).Returned?
    ensures "VARCHAR" <= MSSQLExchange.GetSqlType(String, length).value
  {
    if PositiveLength(length) {
      ConcatAssoc("VARCHAR", "(", IntToString(length.value));
      PrefixOfConcat("VARCHAR", "(" + IntToString(length.value) + ")");
      ConcatAssoc("VARCHAR", "(" + IntToString(length.value), ")");
    } else {
      PrefixOfConcat("VARCHAR", "(MAX)");
    }
  }
}
