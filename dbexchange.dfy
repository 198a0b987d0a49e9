/** `DBExchange`, the base of the four adapters: the paged, sharded SELECT
    that reads a page of an extraction, the CREATE TABLE that prepares its
    destination, and the bulk write. The adapter-specific pieces are looked
    up by engine. */
module DBExchange {
  import opened Results
  import opened Text
  import opened Domain
  import opened DataTables
  import Converter
  import MSSQLExchange
  import PostgreSQLExchange
  import ClickhouseExchange
  import MySQLExchange
  import Streams

  // -------------------------------------------------------------------
  // The abstract members.

  /** The members `DBExchange` leaves abstract and each adapter overrides,
      as the base class calls them: the pagination clause for a page size
      and an offset, the read hint, the type map, the DDL fragments, and
      the lookup commands with the adapter's reading of their answers. */
  datatype Adapter = Adapter(
    queryPagination: (int, int) -> Option<string>,
    queryNonLocking: Option<string>,
    getSqlType: (ClrType, Option<int>) -> Completion<string>,
    primaryKeyText: (string, string, Option<string>) -> string,
    changeColumnText: string -> string,
    columnarText: string -> string,
    lookupTableCommand: string -> Command,
    lookupTable: Scalar -> Completion<bool>,
    schemaLookupCommand: string -> Command,
    schemaMissing: Scalar -> Completion<bool>,
    createSchemaCommand: string -> Command)

  /** The overrides of each concrete adapter. Only SQL Server appends a
      columnar clause; only the ClickHouse readings can throw. */
  function AdapterOf(e: Engine): Adapter {
    match e
    case MSSQL =>
      Adapter(MSSQLExchange.QueryPagination, MSSQLExchange.QueryNonLocking(), MSSQLExchange.GetSqlType,
              MSSQLExchange.PrimaryKeyText, MSSQLExchange.ChangeColumnText, MSSQLExchange.ColumnarText,
              MSSQLExchange.LookupTableCommand, res => Returned(MSSQLExchange.LookupTable(res)),
              MSSQLExchange.SchemaLookupCommand, res => Returned(MSSQLExchange.SchemaMissing(res)),
              MSSQLExchange.CreateSchemaCommand)
    case PostgreSQL =>
      Adapter(PostgreSQLExchange.QueryPagination, PostgreSQLExchange.QueryNonLocking(), PostgreSQLExchange.GetSqlType,
              PostgreSQLExchange.PrimaryKeyText, PostgreSQLExchange.ChangeColumnText, _ => "",
              PostgreSQLExchange.LookupTableCommand, res => Returned(PostgreSQLExchange.LookupTable(res)),
              PostgreSQLExchange.SchemaLookupCommand, res => Returned(PostgreSQLExchange.SchemaMissing(res)),
              PostgreSQLExchange.CreateSchemaCommand)
    case ClickHouse =>
      Adapter(ClickhouseExchange.QueryPagination, ClickhouseExchange.QueryNonLocking(), ClickhouseExchange.GetSqlType,
              ClickhouseExchange.PrimaryKeyText, ClickhouseExchange.ChangeColumnText, _ => "",
              ClickhouseExchange.LookupTableCommand, ClickhouseExchange.LookupTable,
              ClickhouseExchange.SchemaLookupCommand, ClickhouseExchange.SchemaMissing,
              ClickhouseExchange.CreateSchemaCommand)
    case MySQL =>
      Adapter(MySQLExchange.QueryPagination, MySQLExchange.QueryNonLocking(), MySQLExchange.GetSqlType,
              MySQLExchange.PrimaryKeyText, MySQLExchange.ChangeColumnText, _ => "",
              MySQLExchange.LookupTableCommand, res => Returned(MySQLExchange.LookupTable(res)),
              MySQLExchange.SchemaLookupCommand, res => Returned(MySQLExchange.SchemaMissing(res)),
              MySQLExchange.CreateSchemaCommand)
  }

  /** The contract every type map keeps: defined for exactly the listed
      types, and a NotSupportedException naming any other. */
  ghost predicate TypeMapContract(a: Adapter) {
    forall t: ClrType, length: Option<int> {:trigger a.getSqlType(t, length)} ::
      (a.getSqlType(t, length).Returned? <==> AdapterSupported(t)) &&
      (a.getSqlType(t, length).Threw? ==> a.getSqlType(t, length).exception == UnsupportedType(t))
  }

  lemma AdaptersKeepTypeMapContract(e: Engine)
    ensures TypeMapContract(AdapterOf(e))
  {
    var a := AdapterOf(e);
    forall t: ClrType, length: Option<int>
      ensures (a.getSqlType(t, length).Returned? <==> AdapterSupported(t))
      ensures a.getSqlType(t, length).Threw? ==> a.getSqlType(t, length).exception == UnsupportedType(t)
    {
      match e
      case MSSQL => assert a.getSqlType(t, length) == MSSQLExchange.GetSqlType(t, length);
      case PostgreSQL => assert a.getSqlType(t, length) == PostgreSQLExchange.GetSqlType(t, length);
      case ClickHouse => assert a.getSqlType(t, length) == ClickhouseExchange.GetSqlType(t, length);
      case MySQL => assert a.getSqlType(t, length) == MySQLExchange.GetSqlType(t, length);
    }
  }

  /** All four adapters accept the same column types, and reject the same
      ones with the same exception. */
  lemma SameTypesEverywhere(e: Engine, f: Engine, t: ClrType, length: Option<int>)
    ensures AdapterOf(e).getSqlType(t, length).Returned? <==> AdapterOf(f).getSqlType(t, length).Returned?
    ensures AdapterOf(e).getSqlType(t, length).Threw? ==>
      AdapterOf(e).getSqlType(t, length) == AdapterOf(f).getSqlType(t, length)
  {
    AdaptersKeepTypeMapContract(e);
    AdaptersKeepTypeMapContract(f);
    var x := AdapterOf(e).getSqlType(t, length);
    var y := AdapterOf(f).getSqlType(t, length);
    assert x.Returned? <==> AdapterSupported(t);
    assert y.Returned? <==> AdapterSupported(t);
  }

  /** The `AddPrimaryKey`, `AddChangeColumn` and `AddColumnarStructure`
      overrides, dispatched on the engine. */
  function PrimaryKeyTextOf(e: Engine, index: string, tableName: string, file: Option<string>): string {
    match e
    case MSSQL => MSSQLExchange.PrimaryKeyText(index, tableName, file)
    case PostgreSQL => PostgreSQLExchange.PrimaryKeyText(index, tableName, file)
    case ClickHouse => ClickhouseExchange.PrimaryKeyText(index, tableName, file)
    case MySQL => MySQLExchange.PrimaryKeyText(index, tableName, file)
  }

  function ChangeColumnTextOf(e: Engine, tableName: string): string {
    match e
    case MSSQL => MSSQLExchange.ChangeColumnText(tableName)
    case PostgreSQL => PostgreSQLExchange.ChangeColumnText(tableName)
    case ClickHouse => ClickhouseExchange.ChangeColumnText(tableName)
    case MySQL => MySQLExchange.ChangeColumnText(tableName)
  }

  function ColumnarTextOf(e: Engine, tableName: string): string {
    if e == MSSQL then MSSQLExchange.ColumnarText(tableName) else ""
  }

  /** The adapter record holds exactly the texts its engine's overrides
      append. */
  lemma AdapterTexts(e: Engine, index: string, tableName: string, file: Option<string>)
    ensures AdapterOf(e).primaryKeyText(index, tableName, file) == PrimaryKeyTextOf(e, index, tableName, file)
    ensures AdapterOf(e).changeColumnText(tableName) == ChangeColumnTextOf(e, tableName)
    ensures AdapterOf(e).columnarText(tableName) == ColumnarTextOf(e, tableName)
  {
  }

  /** Each override appends exactly the text of its engine: the method
      calls the concrete adapter's own. */
  method AddPrimaryKey(e: Engine, sb: StringBuilder, index: string, tableName: string, file: Option<string>)
    returns (r: StringBuilder)
    modifies sb
    ensures r == sb
    ensures sb.contents == old(sb.contents) + PrimaryKeyTextOf(e, index, tableName, file)
  {
    match e
    case MSSQL => r := MSSQLExchange.AddPrimaryKey(sb, index, tableName, file);
    case PostgreSQL => r := PostgreSQLExchange.AddPrimaryKey(sb, index, tableName, file);
    case ClickHouse => r := ClickhouseExchange.AddPrimaryKey(sb, index, tableName, file);
    case MySQL => r := MySQLExchange.AddPrimaryKey(sb, index, tableName, file);
  }

  method AddChangeColumn(e: Engine, sb: StringBuilder, tableName: string) returns (r: StringBuilder)
    modifies sb
    ensures r == sb
    ensures sb.contents == old(sb.contents) + ChangeColumnTextOf(e, tableName) + NewLine
  {
    match e
    case MSSQL => r := MSSQLExchange.AddChangeColumn(sb, tableName);
    case PostgreSQL => r := PostgreSQLExchange.AddChangeColumn(sb, tableName);
    case ClickHouse => r := ClickhouseExchange.AddChangeColumn(sb, tableName);
    case MySQL => r := MySQLExchange.AddChangeColumn(sb, tableName);
  }

  method AddColumnarStructure(e: Engine, sb: StringBuilder, tableName: string) returns (r: StringBuilder)
    modifies sb
    ensures r == sb
    ensures sb.contents == old(sb.contents) + ColumnarTextOf(e, tableName)
  {
    match e
    case MSSQL => r := MSSQLExchange.AddColumnarStructure(sb, tableName);
    case PostgreSQL =>
      r := PostgreSQLExchange.AddColumnarStructure(sb, tableName);
      assert sb.contents == old(sb.contents) + "";
    case ClickHouse =>
      r := ClickhouseExchange.AddColumnarStructure(sb, tableName);
      assert sb.contents == old(sb.contents) + "";
    case MySQL =>
      r := MySQLExchange.AddColumnarStructure(sb, tableName);
      assert sb.contents == old(sb.contents) + "";
  }

  // -------------------------------------------------------------------
  // FetchDataTable.

  /** The lines of the verbatim query string: an empty first line (the
      literal opens with a line break), then SELECT, the projection, FROM
      with the read hint, ORDER BY and the pagination clause, then the
      closing indentation. A missing hint or clause leaves an empty string
      in its place. */
  function SelectLines(columns: string, file: string, hint: Option<string>, index: string,
                       pagination: Option<string>): seq<string>
  {
    [ "",
      Spaces(24) + "SELECT",
      Spaces(28) + columns,
      Spaces(24) + "FROM " + file + " " + OrEmpty(hint),
      Spaces(24) + "ORDER BY " + index + " ASC",
      Spaces(24) + OrEmpty(pagination),
      Spaces(20) ]
  }

  /** The query string itself: those lines, each ended by the literal's
      line break except the last. */
  function SelectText(columns: string, file: string, hint: Option<string>, index: string,
                      pagination: Option<string>): string
  {
    Join(NewLine, SelectLines(columns, file, hint, index, pagination))
  }

  lemma FreeConcat(a: string, b: string, c: char)
    requires Free(a, c) && Free(b, c)
    ensures Free(a + b, c)
  {
    forall k | 0 <= k < |a + b|
      ensures (a + b)[k] != c
    {
      if k < |a| {
        assert (a + b)[k] == a[k];
      } else {
        assert (a + b)[k] == b[k - |a|];
      }
    }
  }

  lemma SelectLinesFree(columns: string, file: string, hint: Option<string>, index: string,
                        pagination: Option<string>)
    requires Free(columns, '\n') && Free(file, '\n') && Free(OrEmpty(hint), '\n')
    requires Free(index, '\n') && Free(OrEmpty(pagination), '\n')
    ensures forall i :: 0 <= i < 7 ==> Free(SelectLines(columns, file, hint, index, pagination)[i], '\n')
  {
    FreeConcat(Spaces(28), columns, '\n');
    FreeConcat(Spaces(24) + "FROM ", file, '\n');
    FreeConcat(Spaces(24) + "FROM " + file + " ", OrEmpty(hint), '\n');
    FreeConcat(Spaces(24) + "ORDER BY ", index, '\n');
    FreeConcat(Spaces(24) + "ORDER BY " + index, " ASC", '\n');
    FreeConcat(Spaces(24), OrEmpty(pagination), '\n');
  }

  /** When no inserted piece holds a line break, the query consists of
      exactly these seven lines. */
  lemma SelectTextLines(columns: string, file: string, hint: Option<string>, index: string,
                        pagination: Option<string>)
    requires Free(columns, '\n') && Free(file, '\n') && Free(OrEmpty(hint), '\n')
    requires Free(index, '\n') && Free(OrEmpty(pagination), '\n')
    ensures Split(SelectText(columns, file, hint, index, pagination), '\n')
      == SelectLines(columns, file, hint, index, pagination)
  {
    SelectLinesFree(columns, file, hint, index, pagination);
    SplitJoin(SelectLines(columns, file, hint, index, pagination), '\n');
  }

  /** `'{s[..2]}' AS {Name}_EMPRESA, *`: the first two characters of the
      suffix, as a literal in the tenant column, before every origin
      column. */
  function ShardColumns(name: string, suffix: string): string
    requires |suffix| >= 2
  {
    "'" + suffix[..2] + "' AS " + TenantColumn(name) + ", *"
  }

  /** What `s[..2]` throws on a shorter string. */
  const ShortSuffix: Exception :=
    Exception(ArgumentOutOfRange, "Index and length must refer to a location within the string. (Parameter 'length')")

  /** The query one shard is read with: the projection with the tenant
      literal, the table `Name + s`, the adapter's hint and pagination. */
  function ShardQuery(a: Adapter, job: Job, suffix: string, pageSize: int, current: int): (q: Completion<string>)
    ensures q.Threw? <==> |suffix| < 2
    ensures q.Threw? ==> q.exception == ShortSuffix
  {
    if |suffix| < 2 then Threw(ShortSuffix)
    else Returned(SelectText(ShardColumns(job.name, suffix), job.name + suffix, a.queryNonLocking,
                             job.indexName, a.queryPagination(pageSize, current)))
  }

  /** The order in which the shard bodies of `Parallel.ForEachAsync`
      finish, as the list of their suffixes: the suffixes of
      FileStructure, each as often as it occurs there. */
  predicate IsCompletionOrder(finished: seq<string>, suffixes: seq<string>) {
    multiset(finished) == multiset(suffixes)
  }

  function Map<A, B>(f: A -> B, xs: seq<A>): seq<B> {
    if xs == [] then [] else [f(xs[0])] + Map(f, xs[1..])
  }

  lemma {:induction false} MapAppend<A, B>(f: A -> B, xs: seq<A>, ys: seq<A>)
    ensures Map(f, xs + ys) == Map(f, xs) + Map(f, ys)
  {
    if xs != [] {
      assert (xs + ys)[1..] == xs[1..] + ys;
      MapAppend(f, xs[1..], ys);
    } else {
      assert xs + ys == ys;
    }
  }

  /** Mapping a list is mapping it without its item at j, plus that
      item's image. */
  lemma MapRemovedAt<A, B>(f: A -> B, ys: seq<A>, j: nat)
    requires j < |ys|
    ensures multiset(Map(f, ys)) == multiset(Map(f, ys[..j] + ys[j + 1..])) + multiset{f(ys[j])}
  {
    assert ys == ys[..j] + ([ys[j]] + ys[j + 1..]);
    MapAppend(f, ys[..j], [ys[j]] + ys[j + 1..]);
    assert Map(f, [ys[j]] + ys[j + 1..]) == [f(ys[j])] + Map(f, ys[j + 1..]) by {
      assert ([ys[j]] + ys[j + 1..])[1..] == ys[j + 1..];
    }
    MapAppend(f, ys[..j], ys[j + 1..]);
  }

  /** Mapping a reordered list gives the mapped items reordered. */
  lemma {:induction false} MapPermuted<A, B>(f: A -> B, xs: seq<A>, ys: seq<A>)
    requires multiset(xs) == multiset(ys)
    ensures multiset(Map(f, xs)) == multiset(Map(f, ys))
  {
    if xs == [] {
      assert |multiset(ys)| == 0;
      assert ys == [];
    } else {
      var x := xs[0];
      assert x in multiset(ys);
      var j :| 0 <= j < |ys| && ys[j] == x;
      Converter.RemovedAt(ys, j);
      assert xs == [x] + xs[1..];
      assert multiset(xs[1..]) == multiset(xs) - multiset{x};
      MapPermuted(f, xs[1..], ys[..j] + ys[j + 1..]);
      MapRemovedAt(f, ys, j);
    }
  }

  /** The tables of the shards, taken in the order given (the order their
      reads finish); the first failure in that order (a suffix too short,
      or a query that threw) ends the read. */
  function ShardTables(a: Adapter, job: Job, suffixes: seq<string>, pageSize: int, current: int,
                       run: (string, string) -> Completion<Table>): (r: Completion<seq<Table>>)
    ensures r.Returned? ==> |r.value| == |suffixes|
  {
    if suffixes == [] then Returned([])
    else
      match ShardQuery(a, job, suffixes[0], pageSize, current)
      case Threw(ex) => Threw(ex)
      case Returned(q) =>
        match run(job.origin.connectionString, q)
        case Threw(ex) => Threw(ex)
        case Returned(t) => Prepend([t], ShardTables(a, job, suffixes[1..], pageSize, current, run))
  }

  /** One step of the shard read, at the i-th shard to finish. */
  lemma ShardTablesStep(a: Adapter, job: Job, suffixes: seq<string>, i: nat, pageSize: int, current: int,
                        run: (string, string) -> Completion<Table>)
    requires i < |suffixes|
    ensures var q := ShardQuery(a, job, suffixes[i], pageSize, current);
      ShardTables(a, job, suffixes[i..], pageSize, current, run)
        == if q.Threw? then Threw(q.exception)
           else if run(job.origin.connectionString, q.value).Threw? then
             Threw(run(job.origin.connectionString, q.value).exception)
           else Prepend([run(job.origin.connectionString, q.value).value],
                        ShardTables(a, job, suffixes[i + 1..], pageSize, current, run))
  {
    assert suffixes[i..][0] == suffixes[i] && suffixes[i..][1..] == suffixes[i + 1..];
  }

  /** The shard with suffix s is read: its query is built and runs without
      throwing. */
  predicate ShardReads(a: Adapter, job: Job, s: string, pageSize: int, current: int,
                       run: (string, string) -> Completion<Table>)
  {
    ShardQuery(a, job, s, pageSize, current).Returned? &&
    run(job.origin.connectionString, ShardQuery(a, job, s, pageSize, current).value).Returned?
  }

  predicate AllShardsRead(a: Adapter, job: Job, suffixes: seq<string>, pageSize: int, current: int,
                          run: (string, string) -> Completion<Table>)
  {
    forall i :: 0 <= i < |suffixes| ==> ShardReads(a, job, suffixes[i], pageSize, current, run)
  }

  /** The table the shard with suffix s reads (an empty table when it
      does not read). */
  function ShardTable(a: Adapter, job: Job, s: string, pageSize: int, current: int,
                      run: (string, string) -> Completion<Table>): Table
  {
    if ShardReads(a, job, s, pageSize, current, run) then
      run(job.origin.connectionString, ShardQuery(a, job, s, pageSize, current).value).value
    else Table([], [])
  }

  /** When every shard reads, the read returns each shard's own table, in
      the order given. */
  lemma {:induction false} ShardTablesRead(a: Adapter, job: Job, suffixes: seq<string>, pageSize: int, current: int,
                                          run: (string, string) -> Completion<Table>)
    requires AllShardsRead(a, job, suffixes, pageSize, current, run)
    ensures ShardTables(a, job, suffixes, pageSize, current, run)
      == Returned(Map(s => ShardTable(a, job, s, pageSize, current, run), suffixes))
  {
    if suffixes != [] {
      assert ShardReads(a, job, suffixes[0], pageSize, current, run);
      assert AllShardsRead(a, job, suffixes[1..], pageSize, current, run) by {
        forall i | 0 <= i < |suffixes| - 1
          ensures ShardReads(a, job, suffixes[1..][i], pageSize, current, run)
        {
          assert suffixes[1..][i] == suffixes[i + 1];
        }
      }
      ShardTablesRead(a, job, suffixes[1..], pageSize, current, run);
    }
  }

  /** The shard tables merged into a clone of the first one's schema. */
  function MergeShards(tables: seq<Table>): Table
    requires |tables| >= 1
  {
    Table(tables[0].columns, Converter.RowsUnder(tables, tables[0].columns))
  }

  /** What `FetchDataTable` returns when its shard reads finish in the
      order `finished`; every exception becomes an Error of this method. A
      null FileStructure fails on `Split`. */
  function Fetch(a: Adapter, job: Job, finished: seq<string>, pageSize: int, current: int,
                 run: (string, string) -> Completion<Table>): Result<Table, Error>
    requires job.fileStructure.Some? ==> IsCompletionOrder(finished, Split(job.fileStructure.value, '|'))
  {
    if job.fileStructure.None? then
      Failure(ErrorFrom(Exception(NullReference, NullReferenceMessage), "FetchDataTable"))
    else
      assert |finished| == |multiset(finished)| == |Split(job.fileStructure.value, '|')|;
      match ShardTables(a, job, finished, pageSize, current, run)
      case Threw(ex) => Failure(ErrorFrom(ex, "FetchDataTable"))
      case Returned(tables) => Success(MergeShards(tables))
  }

  const NullReferenceMessage: string := "Object reference not set to an instance of an object."

  /** The shard loop: one query per suffix, each table added to the list
      as its read finishes. The bodies are taken one at a time, in the
      order they finish. */
  method ReadShards(a: Adapter, job: Job, finished: seq<string>, pageSize: int, current: int,
                    run: (string, string) -> Completion<Table>)
    returns (r: Completion<seq<Table>>)
    ensures r == ShardTables(a, job, finished, pageSize, current, run)
  {
    var dataTables: seq<Table> := [];
    var i := 0;
    assert Prepend([], ShardTables(a, job, finished, pageSize, current, run))
      == ShardTables(a, job, finished, pageSize, current, run) by {
      var c := ShardTables(a, job, finished, pageSize, current, run);
      if c.Returned? {
        assert [] + c.value == c.value;
      }
    }
    assert finished[0..] == finished;
    while i < |finished|
      invariant 0 <= i <= |finished|
      invariant ShardTables(a, job, finished, pageSize, current, run)
        == Prepend(dataTables, ShardTables(a, job, finished[i..], pageSize, current, run))
    {
      var s := finished[i];
      ShardTablesStep(a, job, finished, i, pageSize, current, run);
      var query := ShardQuery(a, job, s, pageSize, current);
      if query.Threw? {
        return Threw(query.exception);
      }
      var fetched := run(job.origin.connectionString, query.value);
      if fetched.Threw? {
        return Threw(fetched.exception);
      }
      PrependNest(dataTables, [fetched.value], ShardTables(a, job, finished[i + 1..], pageSize, current, run));
      dataTables := dataTables + [fetched.value];
      i := i + 1;
    }
    assert finished[i..] == [];
    assert dataTables + [] == dataTables;
    r := Returned(dataTables);
  }

  /** `dataTables[0].Clone()`, then `Merge` of every shard table, in list
      order. */
  method MergeShardTables(dataTables: seq<Table>) returns (data: Table)
    requires |dataTables| >= 1
    ensures data == MergeShards(dataTables)
  {
    data := Clone(dataTables[0]);
    var k := 0;
    while k < |dataTables|
      invariant 0 <= k <= |dataTables|
      invariant data == Table(dataTables[0].columns, Converter.RowsUnder(dataTables[..k], dataTables[0].columns))
    {
      Converter.RowsUnderAppend(dataTables[..k], dataTables[k], dataTables[0].columns);
      assert dataTables[..k + 1] == dataTables[..k] + [dataTables[k]];
      data := MergeTable(data, dataTables[k]);
      k := k + 1;
    }
    assert dataTables[..k] == dataTables;
  }

  /** Reads every shard, the reads finishing in the order `finished`, then
      merges the shard tables in the order they were added; any exception
      is returned as an Error of this method. */
  method FetchDataTable(a: Adapter, job: Job, finished: seq<string>, pageSize: int, current: int,
                        run: (string, string) -> Completion<Table>)
    returns (r: Result<Table, Error>)
    requires job.fileStructure.Some? ==> IsCompletionOrder(finished, Split(job.fileStructure.value, '|'))
    ensures r == Fetch(a, job, finished, pageSize, current, run)
  {
    if job.fileStructure.None? {
      return Failure(ErrorFrom(Exception(NullReference, NullReferenceMessage), "FetchDataTable"));
    }
    assert |finished| == |multiset(finished)| == |Split(job.fileStructure.value, '|')|;
    var shards := ReadShards(a, job, finished, pageSize, current, run);
    if shards.Threw? {
      return Failure(ErrorFrom(shards.exception, "FetchDataTable"));
    }
    var data := MergeShardTables(shards.value);
    r := Success(data);
  }

  /** Merging the shards with `DataTable.Merge` gives what
      `Converter.MergeDataTables` gives for the same tables. */
  lemma MergeShardsIsConverterMerge(tables: seq<Table>)
    requires |tables| >= 1
    ensures Converter.Merged(Some(tables)) == Returned(MergeShards(tables))
  {
  }

  /** A read of shards in a given order completes exactly when every one of
      them reads, and then table k is the k-th shard's, queried against
      `Name + s_k` with the tenant literal `s_k[..2]` through the origin's
      connection string. */
  lemma {:induction false} ShardsQueried(a: Adapter, job: Job, suffixes: seq<string>, pageSize: int, current: int,
                                        run: (string, string) -> Completion<Table>)
    ensures ShardTables(a, job, suffixes, pageSize, current, run).Returned?
      <==> AllShardsRead(a, job, suffixes, pageSize, current, run)
    ensures ShardTables(a, job, suffixes, pageSize, current, run).Returned? ==>
      forall i :: 0 <= i < |suffixes| ==>
        (|suffixes[i]| >= 2 &&
         run(job.origin.connectionString, ShardQuery(a, job, suffixes[i], pageSize, current).value)
           == Returned(ShardTables(a, job, suffixes, pageSize, current, run).value[i]))
  {
    if suffixes != [] {
      ShardsQueried(a, job, suffixes[1..], pageSize, current, run);
      var c := ShardTables(a, job, suffixes, pageSize, current, run);
      var rest := ShardTables(a, job, suffixes[1..], pageSize, current, run);
      forall i | 1 <= i < |suffixes|
        ensures suffixes[i] == suffixes[1..][i - 1]
      {
      }
      if ShardReads(a, job, suffixes[0], pageSize, current, run) && rest.Returned? {
        var tables := c.value;
        assert tables == [tables[0]] + rest.value;
        forall i | 1 <= i < |suffixes|
          ensures run(job.origin.connectionString, ShardQuery(a, job, suffixes[i], pageSize, current).value)
            == Returned(tables[i])
        {
          assert tables[i] == rest.value[i - 1];
        }
      } else if !ShardReads(a, job, suffixes[0], pageSize, current, run) {
        assert c.Threw?;
      } else {
        var i :| 0 <= i < |suffixes| - 1 && !ShardReads(a, job, suffixes[1..][i], pageSize, current, run);
        assert !ShardReads(a, job, suffixes[i + 1], pageSize, current, run);
        assert c.Threw?;
      }
    }
  }

  /** Whatever the order the shard reads finish in, the fetch succeeds
      exactly when every shard reads: the order only decides which
      failure is reported. */
  lemma FetchSucceedsIffEveryShardReads(a: Adapter, job: Job, finished: seq<string>, pageSize: int, current: int,
                                        run: (string, string) -> Completion<Table>)
    requires job.fileStructure.Some?
    requires IsCompletionOrder(finished, Split(job.fileStructure.value, '|'))
    ensures Fetch(a, job, finished, pageSize, current, run).Success? <==>
      AllShardsRead(a, job, Split(job.fileStructure.value, '|'), pageSize, current, run)
  {
    var suffixes := Split(job.fileStructure.value, '|');
    ShardsQueried(a, job, finished, pageSize, current, run);
    assert Fetch(a, job, finished, pageSize, current, run).Success?
      <==> ShardTables(a, job, finished, pageSize, current, run).Returned?;
    if AllShardsRead(a, job, suffixes, pageSize, current, run) {
      forall k | 0 <= k < |finished|
        ensures ShardReads(a, job, finished[k], pageSize, current, run)
      {
        assert finished[k] in multiset(suffixes);
        var i :| 0 <= i < |suffixes| && suffixes[i] == finished[k];
      }
    }
    if AllShardsRead(a, job, finished, pageSize, current, run) {
      forall i | 0 <= i < |suffixes|
        ensures ShardReads(a, job, suffixes[i], pageSize, current, run)
      {
        assert suffixes[i] in multiset(finished);
        var k :| 0 <= k < |finished| && finished[k] == suffixes[i];
      }
    }
  }

  /** A successful read has the schema of the first shard to finish and
      the rows of every shard in the order the shards finished; its shard
      tables are, whatever that order, those of the shards in FileStructure
      order, as a multiset. When the shards share the first one's schema
      the rows are exactly the rows of all the shards, as a multiset. */
  lemma FetchSuccess(a: Adapter, job: Job, finished: seq<string>, pageSize: int, current: int,
                     run: (string, string) -> Completion<Table>)
    requires job.fileStructure.Some? ==> IsCompletionOrder(finished, Split(job.fileStructure.value, '|'))
    requires Fetch(a, job, finished, pageSize, current, run).Success?
    ensures job.fileStructure.Some?
    ensures var suffixes := Split(job.fileStructure.value, '|');
      var bySuffix := ShardTables(a, job, suffixes, pageSize, current, run);
      var tables := ShardTables(a, job, finished, pageSize, current, run);
      bySuffix.Returned? && tables.Returned? && |tables.value| == |bySuffix.value| == |suffixes| >= 1 &&
      Fetch(a, job, finished, pageSize, current, run).value == MergeShards(tables.value) &&
      multiset(tables.value) == multiset(bySuffix.value) &&
      (DistinctNames(tables.value[0].columns) &&
       Converter.SameSchema(bySuffix.value, tables.value[0].columns) ==>
        multiset(Fetch(a, job, finished, pageSize, current, run).value.rows) == multiset(Converter.AllRows(bySuffix.value)))
  {
    var suffixes := Split(job.fileStructure.value, '|');
    FetchSucceedsIffEveryShardReads(a, job, finished, pageSize, current, run);
    ShardsQueried(a, job, finished, pageSize, current, run);
    assert AllShardsRead(a, job, finished, pageSize, current, run);
    ShardTablesRead(a, job, suffixes, pageSize, current, run);
    ShardTablesRead(a, job, finished, pageSize, current, run);
    var f := s => ShardTable(a, job, s, pageSize, current, run);
    MapPermuted(f, finished, suffixes);
    var bySuffix := ShardTables(a, job, suffixes, pageSize, current, run).value;
    var tables := ShardTables(a, job, finished, pageSize, current, run).value;
    assert |finished| == |multiset(finished)| == |suffixes|;
    var cols := tables[0].columns;
    if DistinctNames(cols) && Converter.SameSchema(bySuffix, cols) {
      Converter.SameSchemaPermuted(tables, bySuffix, cols);
      Converter.RowsUnderSameSchema(tables, cols);
      Converter.AllRowsPermuted(tables, bySuffix);
    }
  }

  /** A suffix shorter than two characters anywhere in FileStructure (an
      empty FileStructure, a trailing `|`) makes every read fail. */
  lemma {:induction false} ShortSuffixFails(a: Adapter, job: Job, suffixes: seq<string>, pageSize: int, current: int,
                                           run: (string, string) -> Completion<Table>)
    requires exists i :: 0 <= i < |suffixes| && |suffixes[i]| < 2
    ensures ShardTables(a, job, suffixes, pageSize, current, run).Threw?
  {
    if |suffixes[0]| >= 2 {
      var i :| 0 <= i < |suffixes| && |suffixes[i]| < 2;
      assert suffixes[1..][i - 1] == suffixes[i];
      ShortSuffixFails(a, job, suffixes[1..], pageSize, current, run);
    }
  }

  /** No FileStructure, or an empty one: the extraction is not sharded. */
  predicate Unsharded(job: Job) {
    job.fileStructure.None? || job.fileStructure == Some("")
  }

  /** `Split` always returns at least one piece, so the `suffixes.Length
      == 0` branches, which would read the unsharded table `Name` with `*`,
      are dead: a job without FileStructure fails on the null reference,
      and one with an empty FileStructure fails on its one empty suffix.
      No unsharded extraction can be read. */
  lemma UnshardedFetchFails(a: Adapter, job: Job, finished: seq<string>, pageSize: int, current: int,
                            run: (string, string) -> Completion<Table>)
    requires job.fileStructure.Some? ==> IsCompletionOrder(finished, Split(job.fileStructure.value, '|'))
    requires Unsharded(job)
    ensures Fetch(a, job, finished, pageSize, current, run).Failure?
  {
    if job.fileStructure.Some? {
      var suffixes := Split(job.fileStructure.value, '|');
      assert suffixes == [""];
      assert |finished| == |multiset(finished)| == 1;
      assert finished[0] in multiset(suffixes);
      ShortSuffixFails(a, job, finished, pageSize, current, run);
    }
  }

  /** The unsharded query the dead branches describe: every column of
      `Name`, with the adapter's hint and pagination. */
  function UnshardedQuery(a: Adapter, job: Job, pageSize: int, current: int): string {
    SelectText("*", job.name, a.queryNonLocking, job.indexName, a.queryPagination(pageSize, current))
  }

  /** The read as evidently intended: a job without FileStructure, or with
      an empty one, reads `Name` once, unsharded; a sharded job reads as
      before. */
  function IntendedFetch(a: Adapter, job: Job, finished: seq<string>, pageSize: int, current: int,
                         run: (string, string) -> Completion<Table>): Result<Table, Error>
    requires !Unsharded(job) ==> IsCompletionOrder(finished, Split(job.fileStructure.value, '|'))
  {
    if Unsharded(job) then
      match run(job.origin.connectionString, UnshardedQuery(a, job, pageSize, current))
      case Threw(ex) => Failure(ErrorFrom(ex, "FetchDataTable"))
      case Returned(t) => Success(t)
    else Fetch(a, job, finished, pageSize, current, run)
  }

  /** Under the intended read an unsharded job (no FileStructure, or an
      empty one) succeeds exactly when its one query does, with that
      query's table, and the query is the seven-line SELECT of `*` from
      `Name`; on failure the error is the query's exception. */
  lemma IntendedFetchReadsUnsharded(a: Adapter, job: Job, finished: seq<string>, pageSize: int, current: int,
                                    run: (string, string) -> Completion<Table>)
    requires Unsharded(job)
    requires Free(job.name, '\n') && Free(job.indexName, '\n')
    requires Free(OrEmpty(a.queryNonLocking), '\n') && Free(OrEmpty(a.queryPagination(pageSize, current)), '\n')
    ensures var q := UnshardedQuery(a, job, pageSize, current);
      var r := run(job.origin.connectionString, q);
      var f := IntendedFetch(a, job, finished, pageSize, current, run);
      (f.Success? <==> r.Returned?) &&
      (r.Returned? ==> f.value == r.value) &&
      (r.Threw? ==> f.error == ErrorFrom(r.exception, "FetchDataTable")) &&
      Split(q, '\n') == SelectLines("*", job.name, a.queryNonLocking, job.indexName, a.queryPagination(pageSize, current))
  {
    assert Free("*", '\n');
    SelectTextLines("*", job.name, a.queryNonLocking, job.indexName, a.queryPagination(pageSize, current));
  }

  /** Sharded jobs read under the intended read exactly as they do now. */
  lemma IntendedFetchSharded(a: Adapter, job: Job, finished: seq<string>, pageSize: int, current: int,
                             run: (string, string) -> Completion<Table>)
    requires !Unsharded(job)
    requires IsCompletionOrder(finished, Split(job.fileStructure.value, '|'))
    ensures IntendedFetch(a, job, finished, pageSize, current, run) == Fetch(a, job, finished, pageSize, current, run)
  {
  }

  // -------------------------------------------------------------------
  // CreateTable.

  /** `    [{ColumnName}] {SqlType},`: the definition of one column. */
  function ColumnLine(name: string, sqlType: string): string {
    "    [" + name + "] " + sqlType + ","
  }

  /** The column definitions, in column order, each column's MaxLength
      passed as a non-null length; the first column whose type the
      adapter does not map ends the build with the adapter's exception. */
  function ColumnLines(a: Adapter, cols: seq<Column>): (r: Completion<seq<string>>)
    ensures r.Returned? ==> |r.value| == |cols|
  {
    if cols == [] then Returned([])
    else
      match a.getSqlType(cols[0].dataType, Some(cols[0].maxLength))
      case Threw(ex) => Threw(ex)
      case Returned(t) => Prepend([ColumnLine(cols[0].name, t)], ColumnLines(a, cols[1..]))
  }

  lemma ColumnLinesStep(a: Adapter, cols: seq<Column>, i: nat)
    requires i < |cols|
    ensures var t := a.getSqlType(cols[i].dataType, Some(cols[i].maxLength));
      ColumnLines(a, cols[i..])
        == if t.Threw? then Threw(t.exception)
           else Prepend([ColumnLine(cols[i].name, t.value)], ColumnLines(a, cols[i + 1..]))
  {
    assert cols[i..][0] == cols[i] && cols[i..][1..] == cols[i + 1..];
  }

  /** `CREATE TABLE [{Origin.Name}].[{Name}] (` */
  function CreateHeader(job: Job): string {
    "CREATE TABLE [" + job.origin.name + "].[" + job.name + "] ("
  }

  /** The change-tracking column on a line of its own; then the key
      constraint, the columnar clause and the closing `);` on the last
      line. */
  function KeyLine(a: Adapter, job: Job): string {
    a.primaryKeyText(job.indexName, job.name, job.fileStructure) + a.columnarText(job.name) + ");"
  }

  /** The text of the CREATE TABLE statement, or the exception of the
      first column type that has no mapping. */
  function CreateTableText(a: Adapter, table: Table, job: Job): Completion<string> {
    match ColumnLines(a, table.columns)
    case Threw(ex) => Threw(ex)
    case Returned(lines) =>
      Returned(CreateHeader(job) + NewLine + Terminated(lines, '\n')
               + a.changeColumnText(job.name) + NewLine + KeyLine(a, job) + NewLine)
  }

  /** The column loop of `CreateTable`: one definition line per column
      appended to the builder, until a column type has no mapping. */
  method AppendColumns(a: Adapter, queryBuilder: StringBuilder, cols: seq<Column>)
    returns (thrown: Option<Exception>)
    modifies queryBuilder
    ensures thrown.Some? <==> ColumnLines(a, cols).Threw?
    ensures thrown.Some? ==> ColumnLines(a, cols) == Threw(thrown.value)
    ensures thrown.None? ==>
      queryBuilder.contents == old(queryBuilder.contents) + Terminated(ColumnLines(a, cols).value, '\n')
  {
    ghost var start := queryBuilder.contents;
    ghost var lines: seq<string> := [];
    var i := 0;
    assert Prepend([], ColumnLines(a, cols)) == ColumnLines(a, cols) by {
      var c := ColumnLines(a, cols);
      if c.Returned? {
        assert [] + c.value == c.value;
      }
    }
    assert cols[0..] == cols;
    while i < |cols|
      invariant 0 <= i <= |cols|
      invariant queryBuilder.contents == start + Terminated(lines, '\n')
      invariant ColumnLines(a, cols) == Prepend(lines, ColumnLines(a, cols[i..]))
    {
      var column := cols[i];
      ColumnLinesStep(a, cols, i);
      var sqlType := a.getSqlType(column.dataType, Some(column.maxLength));
      if sqlType.Threw? {
        return Some(sqlType.exception);
      }
      var line := "    [" + column.name + "] " + sqlType.value + ",";
      PrependNest(lines, [line], ColumnLines(a, cols[i + 1..]));
      TerminatedAppend(lines, line, '\n');
      queryBuilder.AppendLine(line);
      lines := lines + [line];
      i := i + 1;
    }
    assert cols[i..] == [];
    assert ColumnLines(a, cols[i..]) == Returned([]);
    assert lines + [] == lines;
    assert ColumnLines(a, cols) == Returned(lines);
    thrown := None;
  }

  lemma KeyLineGrouping(start: string, change: string, key: string, columnar: string)
    ensures start + change + NewLine + key + columnar + ");" + NewLine
      == start + change + NewLine + (key + columnar + ");") + NewLine
  {
  }

  /** The adapter's change column, key and columnar clause, and `);`. */
  method AppendTrailer(a: Adapter, queryBuilder: StringBuilder, job: Job)
    modifies queryBuilder
    ensures queryBuilder.contents == old(queryBuilder.contents) + a.changeColumnText(job.name) + NewLine + KeyLine(a, job) + NewLine
  {
    ghost var start := queryBuilder.contents;
    queryBuilder.AppendLine(a.changeColumnText(job.name));
    queryBuilder.Append(a.primaryKeyText(job.indexName, job.name, job.fileStructure));
    queryBuilder.Append(a.columnarText(job.name));
    queryBuilder.AppendLine(");");
    KeyLineGrouping(start, a.changeColumnText(job.name),
                    a.primaryKeyText(job.indexName, job.name, job.fileStructure), a.columnarText(job.name));
  }

  method BuildCreateTable(a: Adapter, table: Table, job: Job) returns (r: Completion<string>)
    ensures r == CreateTableText(a, table, job)
  {
    var queryBuilder := new StringBuilder();
    queryBuilder.AppendLine(CreateHeader(job));
    assert queryBuilder.contents == CreateHeader(job) + NewLine;
    var thrown := AppendColumns(a, queryBuilder, table.columns);
    if thrown.Some? {
      return Threw(thrown.value);
    }
    ghost var lines := ColumnLines(a, table.columns).value;
    assert queryBuilder.contents == CreateHeader(job) + NewLine + Terminated(lines, '\n');
    AppendTrailer(a, queryBuilder, job);
    assert queryBuilder.contents
      == CreateHeader(job) + NewLine + Terminated(lines, '\n') + a.changeColumnText(job.name) + NewLine
         + KeyLine(a, job) + NewLine;
    r := Returned(queryBuilder.ToString());
  }

  /** `EnsureSchemaCreation`: the schema lookup, and the CREATE SCHEMA
      command when the adapter reads the answer as "missing". Returns the
      exception that ended it, if any, and the commands issued. */
  function SchemaOutcome(a: Adapter, system: string, conn: string,
                         scalar: (string, Command) -> Completion<Scalar>,
                         execute: (string, Command) -> Option<Exception>): (Option<Exception>, seq<Command>)
  {
    var lookup := a.schemaLookupCommand(system);
    match scalar(conn, lookup)
    case Threw(ex) => (Some(ex), [lookup])
    case Returned(res) =>
      match a.schemaMissing(res)
      case Threw(ex) => (Some(ex), [lookup])
      case Returned(missing) =>
        if missing then (execute(conn, a.createSchemaCommand(system)), [lookup, a.createSchemaCommand(system)])
        else (None, [lookup])
  }

  method EnsureSchemaCreation(a: Adapter, system: string, conn: string,
                              scalar: (string, Command) -> Completion<Scalar>,
                              execute: (string, Command) -> Option<Exception>)
    returns (fault: Option<Exception>, issued: seq<Command>)
    ensures (fault, issued) == SchemaOutcome(a, system, conn, scalar, execute)
  {
    var select := a.schemaLookupCommand(system);
    issued := [select];
    var res := scalar(conn, select);
    if res.Threw? {
      return Some(res.exception), issued;
    }
    var missing := a.schemaMissing(res.value);
    if missing.Threw? {
      return Some(missing.exception), issued;
    }
    if missing.value {
      var createSchema := a.createSchemaCommand(system);
      fault := execute(conn, createSchema);
      issued := [select, createSchema];
    } else {
      fault := None;
    }
  }

  /** What `CreateTable` does against the destination: the commands it
      issues, and its outcome. The table lookup, its reading and the
      column types are outside the try block, so their exceptions
      escape; from the schema creation on, every exception becomes an
      Error of this method. */
  function CreateOutcome(a: Adapter, table: Table, job: Job,
                         scalar: (string, Command) -> Completion<Scalar>,
                         execute: (string, Command) -> Option<Exception>)
    : (Completion<Result<bool, Error>>, seq<Command>)
  {
    var lookup := [a.lookupTableCommand(job.name)];
    match FindTable(a, job, scalar)
    case Threw(ex) => (Threw(ex), lookup)
    case Returned(found) =>
      if found then (Returned(Success(true)), lookup)
      else
        match CreateTableText(a, table, job)
        case Threw(ex) => (Threw(ex), lookup)
        case Returned(ddl) =>
          var (r, issued) := TryCreate(a, ddl, job, scalar, execute);
          (Returned(r), lookup + issued)
  }

  /** The table lookup on the destination and the adapter's reading of
      its answer. */
  function FindTable(a: Adapter, job: Job, scalar: (string, Command) -> Completion<Scalar>): Completion<bool> {
    match scalar(job.destination.dbString, a.lookupTableCommand(job.name))
    case Threw(ex) => Threw(ex)
    case Returned(res) => a.lookupTable(res)
  }

  /** The try block of `CreateTable`, run with the statement text
      `ddl`: the schema, then the table; every exception becomes an Error
      of `CreateTable`. */
  function TryCreate(a: Adapter, ddl: string, job: Job,
                     scalar: (string, Command) -> Completion<Scalar>,
                     execute: (string, Command) -> Option<Exception>)
    : (r: (Result<bool, Error>, seq<Command>))
  {
    var conn := job.destination.dbString;
    var (fault, schema) := SchemaOutcome(a, job.origin.name, conn, scalar, execute);
    if fault.Some? then (Failure(ErrorFrom(fault.value, "CreateTable")), schema)
    else
      match execute(conn, Command(ddl, []))
      case Some(ex) => (Failure(ErrorFrom(ex, "CreateTable")), schema + [Command(ddl, [])])
      case None => (Success(true), schema + [Command(ddl, [])])
  }

  method CreateTable(a: Adapter, table: Table, job: Job,
                     scalar: (string, Command) -> Completion<Scalar>,
                     execute: (string, Command) -> Option<Exception>)
    returns (r: Completion<Result<bool, Error>>, issued: seq<Command>)
    ensures (r, issued) == CreateOutcome(a, table, job, scalar, execute)
  {
    var connection := job.destination.dbString;
    var select := a.lookupTableCommand(job.name);
    issued := [select];
    var res := scalar(connection, select);
    if res.Threw? {
      return Threw(res.exception), issued;
    }
    var found := a.lookupTable(res.value);
    assert FindTable(a, job, scalar) == found;
    if found.Threw? {
      return Threw(found.exception), issued;
    }
    if found.value {
      return Returned(Success(true)), issued;
    }
    var query := BuildCreateTable(a, table, job);
    if query.Threw? {
      return Threw(query.exception), issued;
    }
    ghost var outcome := TryCreate(a, query.value, job, scalar, execute);
    assert CreateOutcome(a, table, job, scalar, execute) == (Returned(outcome.0), issued + outcome.1);
    var created, commands := TryCreateTable(a, query.value, job, scalar, execute);
    r, issued := Returned(created), issued + commands;
  }

  method TryCreateTable(a: Adapter, query: string, job: Job,
                        scalar: (string, Command) -> Completion<Scalar>,
                        execute: (string, Command) -> Option<Exception>)
    returns (r: Result<bool, Error>, issued: seq<Command>)
    ensures (r, issued) == TryCreate(a, query, job, scalar, execute)
  {
    var connection := job.destination.dbString;
    var fault, schema := EnsureSchemaCreation(a, job.origin.name, connection, scalar, execute);
    ghost var outcome := SchemaOutcome(a, job.origin.name, connection, scalar, execute);
    assert outcome.0 == fault && outcome.1 == schema;
    issued := schema;
    if fault.Some? {
      return Failure(ErrorFrom(fault.value, "CreateTable")), issued;
    }
    var command := Command(query, []);
    issued := issued + [command];
    var executed := execute(connection, command);
    if executed.Some? {
      return Failure(ErrorFrom(executed.value, "CreateTable")), issued;
    }
    r := Success(true);
  }

  /** The first column whose type no adapter maps: the columns before it
      all have a mapping. */
  predicate FirstUnsupported(cols: seq<Column>, k: int) {
    0 <= k < |cols| && !AdapterSupported(cols[k].dataType)
    && forall j :: 0 <= j < k ==> AdapterSupported(cols[j].dataType)
  }

  /** Building the column definitions fails exactly when some column has a
      type without a mapping, and then with the NotSupportedException that
      names the first such type. */
  lemma FirstUnsupportedUnique(cols: seq<Column>, k: int, k': int)
    requires FirstUnsupported(cols, k) && FirstUnsupported(cols, k')
    ensures k == k'
  {
  }

  lemma {:induction false} ColumnLinesFail(a: Adapter, cols: seq<Column>)
    requires TypeMapContract(a)
    ensures ColumnLines(a, cols).Threw? <==> exists i :: 0 <= i < |cols| && !AdapterSupported(cols[i].dataType)
    ensures ColumnLines(a, cols).Threw? ==>
      exists k :: FirstUnsupported(cols, k) && ColumnLines(a, cols).exception == UnsupportedType(cols[k].dataType)
  {
    if cols != [] {
      ColumnLinesFail(a, cols[1..]);
      if AdapterSupported(cols[0].dataType) {
        if ColumnLines(a, cols).Threw? {
          var k :| FirstUnsupported(cols[1..], k) && ColumnLines(a, cols[1..]).exception == UnsupportedType(cols[1..][k].dataType);
          assert FirstUnsupported(cols, k + 1) by {
            forall j | 0 <= j < k + 1
              ensures AdapterSupported(cols[j].dataType)
            {
              if j > 0 {
                assert cols[j] == cols[1..][j - 1];
              }
            }
          }
        } else {
          forall i | 0 <= i < |cols|
            ensures AdapterSupported(cols[i].dataType)
          {
            if i > 0 {
              assert cols[i] == cols[1..][i - 1];
            }
          }
        }
        forall i | 0 <= i < |cols[1..]| && !AdapterSupported(cols[1..][i].dataType)
          ensures !AdapterSupported(cols[i + 1].dataType)
        {
        }
      } else {
        assert FirstUnsupported(cols, 0);
      }
    }
  }

  /** A successful build has one definition per column, in column order,
      each with the column's name and the adapter's type for it. */
  lemma {:induction false} ColumnLinesContents(a: Adapter, cols: seq<Column>)
    requires ColumnLines(a, cols).Returned?
    ensures forall i :: 0 <= i < |cols| ==>
      a.getSqlType(cols[i].dataType, Some(cols[i].maxLength)).Returned? &&
      ColumnLines(a, cols).value[i] == ColumnLine(cols[i].name, a.getSqlType(cols[i].dataType, Some(cols[i].maxLength)).value)
  {
    if cols != [] {
      ColumnLinesContents(a, cols[1..]);
      var lines := ColumnLines(a, cols).value;
      var rest := ColumnLines(a, cols[1..]).value;
      assert lines == [lines[0]] + rest;
      forall i | 1 <= i < |cols|
        ensures a.getSqlType(cols[i].dataType, Some(cols[i].maxLength)).Returned?
        ensures lines[i] == ColumnLine(cols[i].name, a.getSqlType(cols[i].dataType, Some(cols[i].maxLength)).value)
      {
        assert cols[i] == cols[1..][i - 1];
        assert lines[i] == rest[i - 1];
      }
    }
  }

  /** The statement is the header line, one line per column definition,
      the change-tracking column, and the key line, each ended by a line
      break. */
  lemma CreateTableLines(a: Adapter, table: Table, job: Job)
    requires CreateTableText(a, table, job).Returned?
    ensures ColumnLines(a, table.columns).Returned?
    ensures CreateTableText(a, table, job).value
      == Terminated([CreateHeader(job)] + ColumnLines(a, table.columns).value
                    + [a.changeColumnText(job.name), KeyLine(a, job)], '\n')
  {
    TerminatedAround(CreateHeader(job), ColumnLines(a, table.columns).value,
                     a.changeColumnText(job.name), KeyLine(a, job), '\n');
  }

  /** A table that already exists is left alone: the lookup is the only
      command, and the result is success. */
  lemma CreateExisting(a: Adapter, table: Table, job: Job,
                       scalar: (string, Command) -> Completion<Scalar>,
                       execute: (string, Command) -> Option<Exception>)
    requires FindTable(a, job, scalar) == Returned(true)
    ensures CreateOutcome(a, table, job, scalar, execute)
      == (Returned(Success(true)), [a.lookupTableCommand(job.name)])
  {
  }

  /** The try block succeeds only by executing the statement, as its last
      command, without an exception. */
  lemma TrySucceeded(a: Adapter, ddl: string, job: Job,
                     scalar: (string, Command) -> Completion<Scalar>,
                     execute: (string, Command) -> Option<Exception>)
    requires TryCreate(a, ddl, job, scalar, execute).0 == Success(true)
    ensures var issued := TryCreate(a, ddl, job, scalar, execute).1;
      |issued| >= 1 && issued[|issued| - 1] == Command(ddl, []) &&
      execute(job.destination.dbString, Command(ddl, [])).None?
  {
  }

  /** The errors of the try block are attributed to CreateTable and are
      never partial successes. */
  lemma TryErrors(a: Adapter, ddl: string, job: Job,
                  scalar: (string, Command) -> Completion<Scalar>,
                  execute: (string, Command) -> Option<Exception>)
    requires TryCreate(a, ddl, job, scalar, execute).0.Failure?
    ensures var err := TryCreate(a, ddl, job, scalar, execute).0.error;
      err.faultedMethod == "CreateTable" && !err.isPartialSuccess
  {
  }

  /** A successful CreateTable either found the table, or executed the
      statement built from the table's columns as its last command, on the
      destination's connection string. */
  lemma CreateSucceeded(a: Adapter, table: Table, job: Job,
                        scalar: (string, Command) -> Completion<Scalar>,
                        execute: (string, Command) -> Option<Exception>)
    requires CreateOutcome(a, table, job, scalar, execute).0 == Returned(Success(true))
    ensures var issued := CreateOutcome(a, table, job, scalar, execute).1;
      |issued| >= 1 && issued[0] == a.lookupTableCommand(job.name) &&
      (|issued| == 1 ||
       (CreateTableText(a, table, job).Returned? &&
        issued[|issued| - 1] == Command(CreateTableText(a, table, job).value, []) &&
        execute(job.destination.dbString, issued[|issued| - 1]).None?))
  {
    var found := FindTable(a, job, scalar);
    if !found.value {
      var ddl := CreateTableText(a, table, job);
      assert ddl.Returned?;
      var tried := TryCreate(a, ddl.value, job, scalar, execute);
      assert CreateOutcome(a, table, job, scalar, execute) == (Returned(tried.0), [a.lookupTableCommand(job.name)] + tried.1);
      TrySucceeded(a, ddl.value, job, scalar, execute);
    }
  }

  /** The errors CreateTable returns (rather than throws) come from its try
      block: they are attributed to CreateTable and are never partial
      successes, and the statement text had been built. */
  lemma CreateErrors(a: Adapter, table: Table, job: Job,
                     scalar: (string, Command) -> Completion<Scalar>,
                     execute: (string, Command) -> Option<Exception>)
    requires var r := CreateOutcome(a, table, job, scalar, execute).0;
      r.Returned? && r.value.Failure?
    ensures var err := CreateOutcome(a, table, job, scalar, execute).0.value.error;
      err.faultedMethod == "CreateTable" && !err.isPartialSuccess
    ensures CreateTableText(a, table, job).Returned?
  {
    var found := FindTable(a, job, scalar);
    assert found == Returned(false);
    var ddl := CreateTableText(a, table, job);
    assert ddl.Returned?;
    var tried := TryCreate(a, ddl.value, job, scalar, execute);
    assert CreateOutcome(a, table, job, scalar, execute).0 == Returned(tried.0);
    TryErrors(a, ddl.value, job, scalar, execute);
  }

  /** A column type without a mapping, on a table the lookup did not find,
      makes CreateTable throw the NotSupportedException of the first such
      column, before any schema or table command is issued. */
  lemma CreateUnsupported(a: Adapter, table: Table, job: Job, k: int,
                          scalar: (string, Command) -> Completion<Scalar>,
                          execute: (string, Command) -> Option<Exception>)
    requires TypeMapContract(a)
    requires FindTable(a, job, scalar) == Returned(false)
    requires FirstUnsupported(table.columns, k)
    ensures CreateOutcome(a, table, job, scalar, execute)
      == (Threw(UnsupportedType(table.columns[k].dataType)), [a.lookupTableCommand(job.name)])
  {
    ColumnLinesFail(a, table.columns);
    var k' :| FirstUnsupported(table.columns, k')
      && ColumnLines(a, table.columns).exception == UnsupportedType(table.columns[k'].dataType);
    FirstUnsupportedUnique(table.columns, k, k');
    assert CreateTableText(a, table, job) == Threw(UnsupportedType(table.columns[k].dataType));
  }

  /** The schema is created only when the adapter read the lookup's answer
      as missing, and then with the adapter's CREATE SCHEMA command. */
  lemma SchemaCreatedWhenMissing(a: Adapter, system: string, conn: string,
                                 scalar: (string, Command) -> Completion<Scalar>,
                                 execute: (string, Command) -> Option<Exception>)
    ensures var issued := SchemaOutcome(a, system, conn, scalar, execute).1;
      var res := scalar(conn, a.schemaLookupCommand(system));
      issued[0] == a.schemaLookupCommand(system) &&
      (|issued| == 2 <==> res.Returned? && a.schemaMissing(res.value) == Returned(true)) &&
      (|issued| == 2 ==> issued[1] == a.createSchemaCommand(system))
  {
  }

  /** A key line that closes the column list right after a comma. */
  predicate DanglingComma(line: string) {
    |line| >= 3 && line[|line| - 3..] == ",);"
  }

  /** A key constraint ending `),` followed by the columnar clause and
      `);` dangles exactly when the clause is empty or ends with a comma;
      without a clause, dropping the comma closes the statement. */
  lemma KeyLineShape(key: string, columnar: string)
    requires |key| >= 2 && key[|key| - 2..] == "),"
    ensures DanglingComma(key + columnar + ");") <==> (columnar == [] || columnar[|columnar| - 1] == ',')
    ensures columnar == [] ==>
      var line := key[..|key| - 1] + ");";
      !DanglingComma(line) && |line| >= 2 && key + columnar + ");" == line[..|line| - 2] + ",);"
  {
    assert key[|key| - 2] == ')' && key[|key| - 1] == ',';
    var written := key + columnar + ");";
    EndsWith(key + columnar, ");");
    if columnar == [] {
      assert key + columnar == key;
      assert written[|written| - 3] == ',';
      var line := key[..|key| - 1] + ");";
      assert line[|line| - 3] == ')';
      assert line[..|line| - 2] == key[..|key| - 1];
      assert key == key[..|key| - 1] + ",";
    } else {
      assert written[|written| - 3] == columnar[|columnar| - 1];
    }
  }

  /** Each adapter's key constraint ends `),`; only SQL Server's columnar
      clause is non-empty, and it ends with a letter. */
  lemma AdapterKeyShape(e: Engine, job: Job)
    ensures var key := AdapterOf(e).primaryKeyText(job.indexName, job.name, job.fileStructure);
      |key| >= 2 && key[|key| - 2..] == "),"
    ensures var columnar := AdapterOf(e).columnarText(job.name);
      (columnar == [] <==> e != MSSQL) && (columnar != [] ==> columnar[|columnar| - 1] != ',')
  {
    AdapterTexts(e, job.indexName, job.name, job.fileStructure);
    KeyTextShape(e, job.indexName, job.name, job.fileStructure);
  }

  lemma KeyTextShape(e: Engine, index: string, tableName: string, file: Option<string>)
    ensures var key := PrimaryKeyTextOf(e, index, tableName, file);
      |key| >= 2 && key[|key| - 2..] == "),"
    ensures var columnar := ColumnarTextOf(e, tableName);
      (columnar == [] <==> e != MSSQL) && (columnar != [] ==> columnar[|columnar| - 1] != ',')
  {
    match e
    case MSSQL =>
      MSSQLExchange.PrimaryKeyClosed(index, tableName, file);
      MSSQLExchange.ColumnarClosed(tableName);
    case PostgreSQL => PostgreSQLExchange.PrimaryKeyClosed(index, tableName, file);
    case ClickHouse => ClickhouseExchange.PrimaryKeyClosed(index, tableName, file);
    case MySQL => MySQLExchange.PrimaryKeyClosed(index, tableName, file);
  }

  /** Every key constraint ends with a comma, which only SQL Server's
      columnar clause follows; the other three adapters append nothing
      there, so their statements end in `,);`. */
  lemma DanglingSeparator(e: Engine, job: Job)
    ensures DanglingComma(KeyLine(AdapterOf(e), job)) <==> e != MSSQL
  {
    var a := AdapterOf(e);
    AdapterKeyShape(e, job);
    KeyLineShape(a.primaryKeyText(job.indexName, job.name, job.fileStructure), a.columnarText(job.name));
  }

  /** The key line as evidently intended: when no columnar clause follows,
      the key constraint's trailing comma is dropped. */
  function IntendedKeyLine(a: Adapter, job: Job): string {
    var key := a.primaryKeyText(job.indexName, job.name, job.fileStructure);
    var columnar := a.columnarText(job.name);
    if columnar == [] && |key| > 0 && key[|key| - 1] == ',' then key[..|key| - 1] + ");"
    else key + columnar + ");"
  }

  /** No intended key line ends in `,);`; SQL Server's is unchanged, and
      the others differ from the written one only by that comma. */
  lemma IntendedKeyLineCloses(e: Engine, job: Job)
    ensures !DanglingComma(IntendedKeyLine(AdapterOf(e), job))
    ensures e == MSSQL ==> IntendedKeyLine(AdapterOf(e), job) == KeyLine(AdapterOf(e), job)
    ensures e != MSSQL ==>
      var line := IntendedKeyLine(AdapterOf(e), job);
      |line| >= 2 && KeyLine(AdapterOf(e), job) == line[..|line| - 2] + ",);"
  {
    AdapterKeyShape(e, job);
    IntendedKeyLineShape(AdapterOf(e), job);
  }

  lemma IntendedKeyLineShape(a: Adapter, job: Job)
    requires var key := a.primaryKeyText(job.indexName, job.name, job.fileStructure);
      |key| >= 2 && key[|key| - 2..] == "),"
    requires var columnar := a.columnarText(job.name);
      columnar != [] ==> columnar[|columnar| - 1] != ','
    ensures !DanglingComma(IntendedKeyLine(a, job))
    ensures a.columnarText(job.name) != [] ==> IntendedKeyLine(a, job) == KeyLine(a, job)
    ensures a.columnarText(job.name) == [] ==>
      var line := IntendedKeyLine(a, job);
      |line| >= 2 && KeyLine(a, job) == line[..|line| - 2] + ",);"
  {
    var key := a.primaryKeyText(job.indexName, job.name, job.fileStructure);
    KeyLineShape(key, a.columnarText(job.name));
    assert key[|key| - 1] == ',' by {
      assert key[|key| - 2..][1] == key[|key| - 1];
    }
  }

  // -------------------------------------------------------------------
  // WriteDataTable.

  /** What each adapter's `BulkInsert` hands its driver: SqlBulkCopy's
      settings and table, the binary COPY's importer calls, the INSERT's
      `@bulk` parameter, or the calls on the MySQL bulk loader. */
  datatype Payload =
    | SqlBulkCopy(copy: MSSQLExchange.BulkCopy)
    | BinaryCopy(copyRequest: PostgreSQLExchange.CopyRequest)
    | BulkParameter(insert: ClickhouseExchange.InsertRequest)
    | BulkLoad(plan: seq<MySQLExchange.LoaderStep>)

  function PayloadOf(e: Engine, data: Table, job: Job, bulkCopyTimeout: int): Payload {
    match e
    case MSSQL => SqlBulkCopy(MSSQLExchange.BulkInsertRequest(data, job, bulkCopyTimeout))
    case PostgreSQL =>
      BinaryCopy(PostgreSQLExchange.CopyRequest(PostgreSQLExchange.CopyCommand(job),
                                                PostgreSQLExchange.CopyEvents(data.rows)))
    case ClickHouse => BulkParameter(ClickhouseExchange.InsertRequest(ClickhouseExchange.InsertCommand(job), data.rows))
    case MySQL => BulkLoad(MySQLExchange.AsWrittenPlan(data, job))
  }

  /** The adapter's `BulkInsert`. `send` is the driver of SQL Server,
      PostgreSQL and ClickHouse, which reports what writing the payload to
      the destination raised; `load` answers each call of the MySQL
      insert. The MySQL insert never succeeds. */
  method BulkInsert(e: Engine, data: Table, job: Job, bulkCopyTimeout: int,
                    send: (string, Payload) -> Option<Exception>,
                    load: (string, MySQLExchange.LoaderStep) -> Option<Exception>)
    returns (r: Result<bool, Error>)
    ensures e != MySQL ==>
      (r.IsSuccessful() <==> send(job.destination.dbString, PayloadOf(e, data, job, bulkCopyTimeout)).None?)
    ensures r.IsSuccessful() ==> r.value
    ensures e != MySQL && !r.IsSuccessful() ==>
      r.error == ErrorFrom(send(job.destination.dbString, PayloadOf(e, data, job, bulkCopyTimeout)).value, "BulkInsert")
    ensures e == MySQL ==> r == Failure(MySQLExchange.AsWrittenError(data, job, load))
  {
    match e
    case MSSQL => r := MSSQLExchange.BulkInsert(data, job, bulkCopyTimeout, (c, b) => send(c, SqlBulkCopy(b)));
    case PostgreSQL => r := PostgreSQLExchange.BulkInsert(data, job, (c, b) => send(c, BinaryCopy(b)));
    case ClickHouse => r := ClickhouseExchange.BulkInsert(data, job, (c, b) => send(c, BulkParameter(b)));
    case MySQL =>
      var steps;
      r, steps := MySQLExchange.BulkInsert(data, job, load);
  }

  /** `WriteDataTable`: BulkInsert's error is returned unchanged; any
      successful insert becomes `AppCommon.Success`. */
  method WriteDataTable(e: Engine, table: Table, job: Job, bulkCopyTimeout: int,
                        send: (string, Payload) -> Option<Exception>,
                        load: (string, MySQLExchange.LoaderStep) -> Option<Exception>)
    returns (r: Result<bool, Error>)
    ensures e != MySQL ==>
      (r.IsSuccessful() <==> send(job.destination.dbString, PayloadOf(e, table, job, bulkCopyTimeout)).None?)
    ensures r.IsSuccessful() ==> r.value
    ensures e != MySQL && !r.IsSuccessful() ==>
      r.error == ErrorFrom(send(job.destination.dbString, PayloadOf(e, table, job, bulkCopyTimeout)).value, "BulkInsert")
    ensures e == MySQL ==> r == Failure(MySQLExchange.AsWrittenError(table, job, load))
  {
    var insert := BulkInsert(e, table, job, bulkCopyTimeout, send, load);
    if !insert.IsSuccessful() {
      return Failure(insert.error);
    }
    return Success(true);
  }

  /** The payload carries the whole table: SqlBulkCopy gets the table
      itself, the COPY stream and the `@bulk` list decode to its rows, and
      the loader's first load gets its column names and, when no field
      holds a comma or a line break, every field's text. */
  predicate Carries(p: Payload, data: Table) {
    match p
    case SqlBulkCopy(copy) => copy.data == data
    case BinaryCopy(request) => PostgreSQLExchange.DecodeCopy(request.events) == Some(data.rows)
    case BulkParameter(insert) => insert.bulk == data.rows
    case BulkLoad(plan) => |plan| >= 3 && MySQLExchange.LoadsTable(plan[2], data)
  }

  /** The SQL Server, PostgreSQL and ClickHouse payloads carry the whole
      table, and so would the corrected MySQL calls; the MySQL calls as
      written do not carry a table that fits in one writer buffer. */
  lemma PayloadCarriesTable(e: Engine, data: Table, job: Job, bulkCopyTimeout: int)
    ensures e != MySQL ==> Carries(PayloadOf(e, data, job, bulkCopyTimeout), data)
    ensures Carries(BulkLoad(MySQLExchange.IntendedPlan(data, job)), data)
    ensures e == MySQL && data.rows != [] && MySQLExchange.PlainRows(data.rows) &&
            |MySQLExchange.CsvText(data.rows)| <= Streams.BufferSize ==>
      !Carries(PayloadOf(e, data, job, bulkCopyTimeout), data)
  {
    MySQLExchange.IntendedLoadCarriesRows(data, job);
    match e
    case MSSQL =>
    case PostgreSQL => PostgreSQLExchange.DecodeCopyEvents(data.rows);
    case ClickHouse =>
    case MySQL =>
      if |MySQLExchange.CsvText(data.rows)| <= Streams.BufferSize {
        MySQLExchange.ShortTableLoadsNothing(data, job);
      }
  }
}
