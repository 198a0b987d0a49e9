/** The LinqToDB `ProviderName` values the second factory switches on. */
module ProviderName {
  const PostgreSQL: string := "PostgreSQL"
  const MySql: string := "MySql"
  const SqlServer: string := "SqlServer"
  const ClickHouse: string := "ClickHouse"
}

/** `ITCentral.App.Database.DBExchangeFactory`: the adapter for a LinqToDB
    provider name. */
module DatabaseDBExchangeFactory {
  import opened Domain
  import ProviderName
  import DBExchangeFactory

  function Create(provider: string): (r: Completion<Engine>)
    ensures r.Threw? ==> r.exception == DBExchangeFactory.Unsupported(provider)
  {
    if provider == ProviderName.PostgreSQL then Returned(PostgreSQL)
    else if provider == ProviderName.MySql then Returned(MySQL)
    else if provider == ProviderName.SqlServer then Returned(MSSQL)
    else if provider == ProviderName.ClickHouse then Returned(ClickHouse)
    else Threw(DBExchangeFactory.Unsupported(provider))
  }

  /** The provider name of each adapter. */
  function ProviderOf(e: Engine): string {
    match e
    case PostgreSQL => ProviderName.PostgreSQL
    case MySQL => ProviderName.MySql
    case MSSQL => ProviderName.SqlServer
    case ClickHouse => ProviderName.ClickHouse
  }

  /** `Create` and `ProviderOf` are inverse. */
  lemma CreateInvertsProviderOf(e: Engine, provider: string)
    ensures Create(ProviderOf(e)) == Returned(e)
    ensures Create(provider).Returned? ==> ProviderOf(Create(provider).value) == provider
  {
  }

  /** Exactly the four provider names are accepted. */
  lemma AcceptedProviders(provider: string)
    ensures Create(provider).Returned? <==>
      provider == ProviderName.PostgreSQL || provider == ProviderName.MySql ||
      provider == ProviderName.SqlServer || provider == ProviderName.ClickHouse
  {
  }

  /** The two factories agree except on the names that differ in spelling:
      `PostgreSQL` means the same adapter to both, while the tags `MySQL`,
      `MSSQL` and `Clickhouse` are unknown provider names, and the provider
      names `MySql`, `SqlServer` and `ClickHouse` unknown tags. */
  lemma FactoriesDiffer()
    ensures Create("PostgreSQL") == DBExchangeFactory.Create("PostgreSQL")
    ensures Create("MySQL").Threw? && DBExchangeFactory.Create("MySQL") == Returned(MySQL)
    ensures Create("MSSQL").Threw? && DBExchangeFactory.Create("MSSQL") == Returned(MSSQL)
    ensures Create("Clickhouse").Threw? && DBExchangeFactory.Create("Clickhouse") == Returned(ClickHouse)
    ensures Create("MySql") == Returned(MySQL) && DBExchangeFactory.Create("MySql").Threw?
  {
  }
}
