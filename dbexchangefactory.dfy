/** The engine tags of `ITCentral.Types.DbTypes`. */
module DbTypes {
  const PostgreSQL: string := "PostgreSQL"
  const MySQL: string := "MySQL"
  const MSSQL: string := "MSSQL"
  const Sqlite: string := "Sqlite"
  const Clickhouse: string := "Clickhouse"

  /** `DbTypes.All`: ClickHouse and SQLite are not listed. */
  const All: seq<string> := [PostgreSQL, MySQL, MSSQL]
}

/** `ITCentral.App.DBExchangeFactory`: the adapter for a `DbTypes` tag, the
    factory the extraction pipeline uses. */
module DBExchangeFactory {
  import opened Domain
  import DbTypes

  /** The exception a tag without an adapter raises. */
  function Unsupported(tag: string): Exception {
    Exception(NotSupported, "Database type '" + tag + "' is not supported")
  }

  function Create(tag: string): (r: Completion<Engine>)
    ensures r.Threw? ==> r.exception == Unsupported(tag)
  {
    if tag == DbTypes.PostgreSQL then Returned(PostgreSQL)
    else if tag == DbTypes.MySQL then Returned(MySQL)
    else if tag == DbTypes.MSSQL then Returned(MSSQL)
    else if tag == DbTypes.Clickhouse then Returned(ClickHouse)
    else Threw(Unsupported(tag))
  }

  /** The tag naming each adapter. */
  function TagOf(e: Engine): string {
    match e
    case PostgreSQL => DbTypes.PostgreSQL
    case MySQL => DbTypes.MySQL
    case MSSQL => DbTypes.MSSQL
    case ClickHouse => DbTypes.Clickhouse
  }

  /** Every adapter is created from its own tag, and a created adapter is
      the one its tag names: `Create` and `TagOf` are inverse. */
  lemma CreateInvertsTagOf(e: Engine, tag: string)
    ensures Create(TagOf(e)) == Returned(e)
    ensures Create(tag).Returned? ==> TagOf(Create(tag).value) == tag
  {
  }

  /** Exactly the four tags with an adapter are accepted. */
  lemma AcceptedTags(tag: string)
    ensures Create(tag).Returned? <==>
      tag == DbTypes.PostgreSQL || tag == DbTypes.MySQL || tag == DbTypes.MSSQL || tag == DbTypes.Clickhouse
  {
  }

  /** `Sqlite` is a declared tag without an adapter. */
  lemma SqliteRejected()
    ensures Create(DbTypes.Sqlite) == Threw(Unsupported(DbTypes.Sqlite))
  {
  }

  /** Every tag of `DbTypes.All` has an adapter. */
  lemma AllAccepted()
    ensures forall i :: 0 <= i < |DbTypes.All| ==> Create(DbTypes.All[i]).Returned?
  {
  }
}
