/** `ITCentral.Data.SqlLiteCall`: the SQLite dialect of the metadata store:
    its table lookup query, the key clauses it writes into a model table's
    DDL, and the storage class it gives each .NET type. */
module SqlLiteCall {
  import opened Results
  import opened Domain
  import opened Text

  const LookupPrefix: string := "SELECT name FROM sqlite_master WHERE type='table' AND name='"
  const LookupSuffix: string := "';"

  /** `GenerateSyncLookupQueryAsync(tableName)`. */
  function GenerateSyncLookupQuery(tableName: string): string {
    LookupPrefix + tableName + LookupSuffix
  }

  /** The query names exactly the table it was built for. */
  lemma LookupNamesTable(tableName: string)
    ensures Between(GenerateSyncLookupQuery(tableName), LookupPrefix, LookupSuffix) == Some(tableName)
  {
    BetweenOf(LookupPrefix, tableName, LookupSuffix);
  }

  const PrimaryKeyText: string := " PRIMARY KEY AUTOINCREMENT"

  /** `AddPrimaryKeyConstraint(query, tableName)`: the same clause whatever
      the table. */
  method AddPrimaryKeyConstraint(query: StringBuilder, tableName: string)
    modifies query
    ensures query.contents == old(query.contents) + PrimaryKeyText
  {
    query.Append(" PRIMARY KEY AUTOINCREMENT");
  }

  // ---------------------------------------------------------------------
  // Foreign keys.

  const FkOpen: string := " FOREIGN KEY (["
  const FkReferences: string := ") REFERENCES ["
  const FkColumn: string := "(["

  /** `AddForeignKeyConstraint(tableName, columnName, fkTable, fkColumn)`:
      ` FOREIGN KEY ([column]) REFERENCES [fkTable]([fkColumn])`; the owning
      table's name takes no part. */
  function AddForeignKeyConstraint(tableName: string, columnName: string, fkTable: string, fkColumn: string): string {
    FkOpen + columnName + "]" + FkReferences + fkTable + "]" + FkColumn + fkColumn + "]" + ")"
  }

  /** The text of `s` up to its first `c`, and what follows that `c`. */
  function UpTo(s: string, c: char): (r: Option<(string, string)>)
    ensures r.Some? ==> s == r.value.0 + [c] + r.value.1 && c !in r.value.0
    ensures r.None? ==> c !in s
  {
    if s == [] then None
    else if s[0] == c then Some(([], s[1..]))
    else match UpTo(s[1..], c)
      case None => None
      case Some((front, back)) => Some(([s[0]] + front, back))
  }

  lemma UpToOf(front: string, c: char, back: string)
    requires c !in front
    ensures UpTo(front + [c] + back, c) == Some((front, back))
  {
    if front == [] {
      assert front + [c] + back == [c] + back;
    } else {
      assert (front + [c] + back)[1..] == front[1..] + [c] + back;
      UpToOf(front[1..], c, back);
      assert [front[0]] + front[1..] == front;
    }
  }

  /** Reads back the column, referenced table and referenced column of a
      foreign-key clause, or None when `s` is not one. A name read back
      never holds the `]` that closes it. */
  function ReadForeignKey(s: string): (r: Option<(string, string, string)>)
    ensures r.Some? ==> ']' !in r.value.0 && ']' !in r.value.1 && ']' !in r.value.2
  {
    match Expect(s, FkOpen)
    case None => None
    case Some(s1) =>
      match UpTo(s1, ']')
      case None => None
      case Some((column, s2)) =>
        match Expect(s2, FkReferences)
        case None => None
        case Some(s3) =>
          match UpTo(s3, ']')
          case None => None
          case Some((table, s4)) =>
            match Expect(s4, FkColumn)
            case None => None
            case Some(s5) =>
              match UpTo(s5, ']')
              case None => None
              case Some((fkColumn, s6)) =>
                if s6 == ")" then Some((column, table, fkColumn)) else None
  }

  /** The clause, its pieces grouped from the right. */
  lemma ForeignKeyNested(tableName: string, columnName: string, fkTable: string, fkColumn: string)
    ensures AddForeignKeyConstraint(tableName, columnName, fkTable, fkColumn)
      == FkOpen + (columnName + "]" + (FkReferences + (fkTable + "]" + (FkColumn + (fkColumn + "]" + ")")))))
  {
  }

  /** Names without a `]` survive the bracket quoting: the clause reads back
      as the column and the column it references. */
  lemma {:induction false} ForeignKeyRoundTrip(tableName: string, columnName: string, fkTable: string, fkColumn: string)
    requires ']' !in columnName && ']' !in fkTable && ']' !in fkColumn
    ensures ReadForeignKey(AddForeignKeyConstraint(tableName, columnName, fkTable, fkColumn))
            == Some((columnName, fkTable, fkColumn))
  {
    var t5 := fkColumn + "]" + ")";
    var t4 := FkColumn + t5;
    var t3 := fkTable + "]" + t4;
    var t2 := FkReferences + t3;
    var t1 := columnName + "]" + t2;
    ForeignKeyNested(tableName, columnName, fkTable, fkColumn);
    ExpectOf(FkOpen, t1);
    UpToOf(columnName, ']', t2);
    ExpectOf(FkReferences, t3);
    UpToOf(fkTable, ']', t4);
    ExpectOf(FkColumn, t5);
    UpToOf(fkColumn, ']', ")");
  }

  /** A `]` in any of the three names ends its quoted name early: the
      clause then never reads back as those names. */
  lemma BracketBreaksQuoting(tableName: string, columnName: string, fkTable: string, fkColumn: string)
    requires ']' in columnName || ']' in fkTable || ']' in fkColumn
    ensures ReadForeignKey(AddForeignKeyConstraint(tableName, columnName, fkTable, fkColumn))
            != Some((columnName, fkTable, fkColumn))
  {
  }

  // ---------------------------------------------------------------------
  // Storage classes.

  const NotSupportedSuffix: string := "' is not supported by SQLite."

  /** `GetSqlType(type)`: every listed type, `ReadOnlyMemory<byte>`
      included, has a storage class; any other type is refused. */
  function GetSqlType(t: ClrType): (r: Completion<string>)
    ensures r.Returned? <==> !t.Other?
    ensures r.Threw? ==> r.exception == Exception(NotSupported, "Type '" + TypeName(t) + NotSupportedSuffix)
  {
    match t
    case Int64 => Returned("INTEGER")
    case Int32 => Returned("INTEGER")
    case Int16 => Returned("INTEGER")
    case Byte => Returned("INTEGER")
    case SByte => Returned("INTEGER")
    case UInt64 => Returned("INTEGER")
    case UInt32 => Returned("INTEGER")
    case UInt16 => Returned("INTEGER")
    case Boolean => Returned("INTEGER")
    case Single => Returned("REAL")
    case Double => Returned("REAL")
    case Decimal => Returned("REAL")
    case String => Returned("TEXT")
    case Char => Returned("TEXT")
    case DateTime => Returned("TEXT")
    case Guid => Returned("TEXT")
    case ByteArray => Returned("BLOB")
    case ReadOnlyMemoryOfByte => Returned("BLOB")
    case Object => Returned("BLOB")
    case TimeSpan => Returned("TEXT")
    case Other(_) => Threw(Exception(NotSupported, "Type '" + TypeName(t) + NotSupportedSuffix))
  }

  /** The .NET types SQLite stores in each of its storage classes. */
  const IntegerTypes: set<ClrType> := {Int64, Int32, Int16, Byte, SByte, UInt64, UInt32, UInt16, Boolean}
  const RealTypes: set<ClrType> := {Single, Double, Decimal}
  const TextTypes: set<ClrType> := {String, Char, DateTime, Guid, TimeSpan}
  const BlobTypes: set<ClrType> := {ByteArray, ReadOnlyMemoryOfByte, Object}

  /** Whole numbers and booleans are stored as INTEGER. */
  lemma IntegerClass(t: ClrType)
    ensures GetSqlType(t) == Returned("INTEGER") <==> t in IntegerTypes
  {
  }

  /** Floating and decimal numbers are stored as REAL, so `decimal` loses
      its exactness. */
  lemma RealClass(t: ClrType)
    ensures GetSqlType(t) == Returned("REAL") <==> t in RealTypes
  {
  }

  /** Text, characters, dates, GUIDs and time spans are stored as TEXT. */
  lemma TextClass(t: ClrType)
    ensures GetSqlType(t) == Returned("TEXT") <==> t in TextTypes
  {
  }

  /** Binary data and untyped values are stored as BLOB. */
  lemma BlobClass(t: ClrType)
    ensures GetSqlType(t) == Returned("BLOB") <==> t in BlobTypes
  {
  }
}
