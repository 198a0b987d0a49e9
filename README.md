# ITCentral extraction core in Dafny

ITCentral moves data between databases. An *extraction* names an origin
table and a destination. The extraction engine pages the origin table into
a channel: `FetchDataTable` reads one page per call, possibly from several
shards. A consumer drains the channel in batches, merges each batch per
extraction (`MergeDataTables`), creates the destination table if needed
(`CreateTable`) and bulk-writes the merged table (`WriteDataTable`). It
retries a round whose write failed.

Four destination dialects supply the SQL fragments and bulk writers that the
base class `DBExchange` composes:

- SQL Server;
- PostgreSQL;
- MySQL;
- ClickHouse.

Around the engine sit several smaller pieces:

- two adapter factories;
- the metadata store's SQL Server and SQLite dialects;
- the start-up schema initializer, with its dependency-ordered table creation;
- the encryption helpers;
- the `Result` type.

The model is one Dafny module per source class:

- `Domain` and `Results` hold the shared values.
- `Text` holds the strings, an integer printer/parser and `StringBuilder`.
- `DataTables` and `Converter` hold the in-memory tables.
- There is one module per dialect: `MSSQLExchange`, `PostgreSQLExchange`,
  `MySQLExchange` and `ClickhouseExchange`.
- `DBExchange` holds the base class. The dialects' overrides reach it as an
  `Adapter` record of function values, one per engine.
- `Pipeline` holds `ChannelParallelize` in its three revisions:
  `ExchangeBase`, `DataExtraction` and `ParallelExtractionManager`.
- `DBExchangeFactory` and `DatabaseDBExchangeFactory` are the two factories.
- `SqlServerCall` and `SqlLiteCall` are the metadata-store dialects.
- `Initializer`, `AppCommon` and `Encryption` model their source classes.
- `Streams` models the .NET `MemoryStream` and `StreamWriter` as far as the
  MySQL bulk insert uses them: a writer with a 1024-character buffer that
  writes the UTF-8 preamble with its first flush, and a stream that refuses
  writes once closed.

Code that works step by step is imperative Dafny, each part proved against a
specification function:

- the topological sort, as a `Sorter` class;
- the metadata catalog, as a `Catalog` class;
- the channel, as a `Channel` class;
- the MySQL insert's memory stream and writer, as `MemoryStream` and
  `StreamWriter` classes;
- the builders;
- the paging, draining and retry loops;
- the hash-to-bytes loop over an `array`.

Database drivers, connections and the clock are parameters, called
*oracles*. They report what a call returned or raised.

Exceptions are modelled explicitly:

- `Completion<T>` is `Returned(value)` or `Threw(exception)`.
- A C# `try`/`catch` that turns an exception into `Result.Err` becomes a
  match on the completion.

## Model

| member | source | states |
|---|---|---|
| Results.Ok | src/types/Result.cs:18-21 | the value constructor gives a successful result holding that value |
| Results.Err | src/types/Result.cs:23-26 | the error constructor gives an unsuccessful result holding that error |
| Results.FromValue | src/types/Result.cs:28 | the implicit conversion from a value is the value constructor |
| Results.FromError | src/types/Result.cs:29 | the implicit conversion from an error is the error constructor |
| Results.MatchFollowsConstruction | src/types/Result.cs:31-34 | `Match` takes the success branch exactly for results built from a value, and the failure branch for results built from an error |
| Results.ErrorOrNull | src/app/ExchangeBase.cs:84 | `insert.Error!` is an error exactly when a result is held and it failed; a default or successful result yields the null reference |
| Domain.ErrorFrom | src/types/Error.cs:26-36 | the Error built in a catch block carries the exception's message and the calling member's name, and is not a partial success |
| Domain.Guarded | src/app/database/MSSQLExchange.cs:98-124 | a bulk write succeeds with `true` exactly when the driver raised nothing; otherwise the result is the Error built from what it raised in `BulkInsert` |
| Domain.KeyColumns | src/app/database/MSSQLExchange.cs:18-22 | the key columns are the index column, plus the `{table}_EMPRESA` tenant column exactly when the job is sharded |
| Domain.ColumnNames | src/app/MySQLExchange.cs:105-108 | one column name per column, in column order |
| Domain.SizedTypeNameLength | src/app/database/MSSQLExchange.cs:78 | a sized type name such as `VARCHAR(n)` reads back as its length n |
| Text.Split | src/app/DBExchange.cs:39 | `string.Split` on one character always yields at least one piece |
| Text.JoinSplit | src/app/DBExchange.cs:39 | joining the pieces of a split with the separator rebuilds the string |
| Text.SplitJoin | src/app/DBExchange.cs:39 | splitting a join of separator-free pieces gives back exactly those pieces |
| Text.ParseIntToString | src/app/database/MSSQLExchange.cs:13-14 | an integer printed into a query reads back as the same integer, whatever non-digit text follows |
| Text.IntToStringInjective | src/app/database/MSSQLExchange.cs:13-14 | different integers print differently |
| Text.ToUpper | src/data/SqlServerCall.cs:33 | upper-casing keeps the length and upper-cases each ASCII letter in place |
| Text.StringBuilder.Append | src/app/DBExchange.cs:109-121 | appending extends the builder's contents by exactly the text |
| Text.StringBuilder.AppendLine | src/app/DBExchange.cs:109-121 | appending a line extends the contents by the text and a newline |
| DataTables.ColumnIndex | src/common/Converter.cs:30-36 | finds the first column with the name, or -1 exactly when no column has it |
| DataTables.ProjectRow | src/common/Converter.cs:30-36 | an imported row has one cell per target column |
| DataTables.ProjectRows | src/common/Converter.cs:30-36 | importing rows gives one projected row per source row, in order |
| DataTables.Clone | src/common/Converter.cs:26 | `Clone` copies the schema and no rows |
| DataTables.MergeTable | src/common/Converter.cs:30-36 | importing a table keeps the target schema and appends the source rows, each projected onto it |
| DataTables.ProjectRowSameSchema | src/common/Converter.cs:30-36 | under its own duplicate-free schema, a row is imported unchanged |
| DataTables.ProjectRowsSameSchema | src/common/Converter.cs:30-36 | a well-formed table's rows import unchanged under its own schema |
| DataTables.ProjectRowsAppend | src/common/Converter.cs:30-36 | importing two row lists one after the other is importing their concatenation |
| Converter.MergeDataTables | src/common/Converter.cs:21-47 | the merge loop throws ArgumentException on a null or empty list, and otherwise gives the first table's schema with every table's rows imported in order |
| Converter.RowsUnderAppend | src/common/Converter.cs:30-36 | importing one more table appends exactly that table's projected rows |
| Converter.RowsUnderSameSchema | src/common/Converter.cs:30-36 | when every table shares one duplicate-free schema, the merged rows are all rows, and their number is the total row count |
| Converter.MergeSameSchema | src/common/Converter.cs:21-47 | merging tables of one schema gives that schema with the concatenation of all rows |
| MSSQLExchange.QueryPagination | src/app/database/MSSQLExchange.cs:13-14 | SQL Server always has a pagination clause |
| MSSQLExchange.PaginationReadBack | src/app/database/MSSQLExchange.cs:13-14 | the OFFSET/FETCH clause reads back as the offset, then the page size |
| MSSQLExchange.PrimaryKeyColumns | src/app/database/MSSQLExchange.cs:18-22 | the constraint `IX_{table}_SK` is nonclustered over the key columns, each ascending, and ends with a comma |
| MSSQLExchange.PrimaryKeyClosed | src/app/database/MSSQLExchange.cs:18-22 | the key constraint text ends `),` |
| MSSQLExchange.ColumnarClosed | src/app/database/MSSQLExchange.cs:27-28 | the columnstore clause is non-empty and ends with a letter, so no separator dangles after it |
| MSSQLExchange.AddPrimaryKey | src/app/database/MSSQLExchange.cs:18-22 | appends exactly the key constraint text and returns the same builder |
| MSSQLExchange.AddChangeColumn | src/app/database/MSSQLExchange.cs:24-25 | appends exactly the `DT_UPDATE_{table}` column line |
| MSSQLExchange.AddColumnarStructure | src/app/database/MSSQLExchange.cs:27-28 | appends exactly the clustered columnstore index clause |
| MSSQLExchange.GetSqlType | src/app/database/MSSQLExchange.cs:71-96 | defined for exactly the listed .NET types, throwing NotSupportedException naming any other; a string without a positive length is VARCHAR(MAX) |
| MSSQLExchange.StringLength | src/app/database/MSSQLExchange.cs:78 | a string with a positive length maps to `VARCHAR(n)` for that n |
| MSSQLExchange.LengthOnlyForStrings | src/app/database/MSSQLExchange.cs:71-96 | the length argument affects only strings |
| MSSQLExchange.UnsignedShareSignedTypes | src/app/database/MSSQLExchange.cs:83-87 | unsigned types share the SQL type of the signed type of their width, and sbyte and byte share TINYINT |
| MSSQLExchange.LookupTable | src/app/database/MSSQLExchange.cs:37-44 | a table counts as found unless the lookup returned no row or a NULL cell |
| MSSQLExchange.SchemaMissing | src/app/database/MSSQLExchange.cs:54-58 | the schema is created exactly when its lookup returned no row or a NULL cell |
| MSSQLExchange.SchemaRuleMatchesTableRule | src/app/database/MSSQLExchange.cs:54-58 | a schema is missing exactly when a table lookup with the same scalar would say absent |
| MSSQLExchange.BulkInsertRequest | src/app/database/MSSQLExchange.cs:106-110 | the bulk copy targets the qualified destination table with the whole table and the configured timeout |
| MSSQLExchange.BulkInsert | src/app/database/MSSQLExchange.cs:98-124 | succeeds with `true` exactly when `WriteToServer` raised nothing; otherwise returns the error built from its exception |
| PostgreSQLExchange.QueryPagination | src/app/database/PostgreSQLExchange.cs:13-14 | PostgreSQL always has a pagination clause |
| PostgreSQLExchange.PaginationReadBack | src/app/database/PostgreSQLExchange.cs:13-14 | the OFFSET/LIMIT clause reads back as the offset, then the page size |
| PostgreSQLExchange.PrimaryKeyColumns | src/app/database/PostgreSQLExchange.cs:18-22 | the primary key lists the key columns without a direction and ends with a comma |
| PostgreSQLExchange.PrimaryKeyClosed | src/app/database/PostgreSQLExchange.cs:18-22 | the key constraint text ends `),` |
| PostgreSQLExchange.AddPrimaryKey | src/app/database/PostgreSQLExchange.cs:18-22 | appends exactly the key constraint text |
| PostgreSQLExchange.AddChangeColumn | src/app/database/PostgreSQLExchange.cs:24-25 | appends exactly the TIMESTAMPTZ change column line |
| PostgreSQLExchange.AddColumnarStructure | src/app/database/PostgreSQLExchange.cs:27-28 | appends nothing |
| PostgreSQLExchange.GetSqlType | src/app/database/PostgreSQLExchange.cs:64-89 | defined for exactly the listed types, throwing NotSupportedException naming any other; a string without a positive length is TEXT |
| PostgreSQLExchange.StringLength | src/app/database/PostgreSQLExchange.cs:71 | a string with a positive length maps to `VARCHAR(n)` |
| PostgreSQLExchange.LengthOnlyForStrings | src/app/database/PostgreSQLExchange.cs:64-89 | the length argument affects only strings |
| PostgreSQLExchange.UnsignedWidened | src/app/database/PostgreSQLExchange.cs:76-80 | byte and sbyte take SMALLINT, ushort and uint the signed type one size up, ulong NUMERIC |
| PostgreSQLExchange.LookupTable | src/app/database/PostgreSQLExchange.cs:37 | `to_regclass` finds the table exactly when the scalar is neither null nor DBNull |
| PostgreSQLExchange.SchemaMissing | src/app/database/PostgreSQLExchange.cs:47 | the schema is created exactly when its lookup returned no row or a NULL cell |
| PostgreSQLExchange.SchemaRuleMatchesTableRule | src/app/database/PostgreSQLExchange.cs:47 | schema and table lookups read the scalar the same way |
| PostgreSQLExchange.Writes | src/app/database/PostgreSQLExchange.cs:103-106 | one write event per item of the row, in column order |
| PostgreSQLExchange.CopyEventsAppend | src/app/database/PostgreSQLExchange.cs:100-107 | one more row appends exactly its StartRow event and its writes |
| PostgreSQLExchange.TakeWritesOf | src/app/database/PostgreSQLExchange.cs:100-107 | a row's writes read back as that row, up to the next row start |
| PostgreSQLExchange.DecodeCopyEvents | src/app/database/PostgreSQLExchange.cs:98-107 | the binary COPY event stream decodes back to exactly the table's rows |
| PostgreSQLExchange.WriteItems | src/app/database/PostgreSQLExchange.cs:103-106 | the item loop appends exactly the row's writes |
| PostgreSQLExchange.BulkInsertRequest | src/app/database/PostgreSQLExchange.cs:98-107 | the importer runs `COPY {table} FROM STDIN (FORMAT BINARY)` with a start-row event and the items of each row, in order |
| PostgreSQLExchange.BulkInsert | src/app/database/PostgreSQLExchange.cs:91-118 | succeeds with `true` exactly when the COPY raised nothing; otherwise returns the error built from its exception |
| MySQLExchange.QueryPagination | src/app/MySQLExchange.cs:13-14 | MySQL always has a pagination clause |
| MySQLExchange.PaginationReadBack | src/app/MySQLExchange.cs:13-14 | the LIMIT/OFFSET clause reads back as the page size, then the offset |
| MySQLExchange.PrimaryKeyColumns | src/app/MySQLExchange.cs:18-22 | the primary key lists the key columns, each ascending, and ends with a comma |
| MySQLExchange.PrimaryKeyClosed | src/app/MySQLExchange.cs:18-22 | the key constraint text ends `),` |
| MySQLExchange.AddPrimaryKey | src/app/MySQLExchange.cs:18-22 | appends exactly the key constraint text |
| MySQLExchange.AddChangeColumn | src/app/MySQLExchange.cs:24-25 | appends exactly the auto-updating DATETIME change column line |
| MySQLExchange.AddColumnarStructure | src/app/MySQLExchange.cs:27-28 | appends nothing |
| MySQLExchange.GetSqlType | src/app/MySQLExchange.cs:60-85 | defined for exactly the listed types, throwing NotSupportedException naming any other; a string without a positive length is TEXT |
| MySQLExchange.StringLength | src/app/MySQLExchange.cs:64-83 | a string with a positive length maps to `VARCHAR(n)` |
| MySQLExchange.LengthOnlyForStrings | src/app/MySQLExchange.cs:60-85 | the length argument affects only strings |
| MySQLExchange.UnsignedVariants | src/app/MySQLExchange.cs:72-76 | each unsigned type is its signed counterpart with the UNSIGNED attribute |
| MySQLExchange.LookupTable | src/app/MySQLExchange.cs:35 | the table counts as found unless `SHOW TABLES` returned no row; a NULL cell counts as found |
| MySQLExchange.SchemaMissing | src/app/MySQLExchange.cs:43 | the schema is created only when its lookup returned no row |
| MySQLExchange.SchemaRuleMatchesTableRule | src/app/MySQLExchange.cs:43 | schema and table lookups read the scalar the same way |
| MySQLExchange.FieldTexts | src/app/MySQLExchange.cs:112-116 | one field text per item of the row, in order |
| MySQLExchange.CsvLines | src/app/MySQLExchange.cs:112-116 | one comma-joined line per row, in row order |
| MySQLExchange.CsvLinesAppend | src/app/MySQLExchange.cs:112-116 | one more row appends exactly its line |
| MySQLExchange.LoaderColumns | src/app/MySQLExchange.cs:105-108 | the loader's column list is the table's column names in order |
| MySQLExchange.SettingsOf | src/app/MySQLExchange.cs:96-108 | the loader targets `{Origin.Name}.{Name}` with `,` between fields, `\n` after each line and the table's column names in order |
| MySQLExchange.CsvTextAppend | src/app/MySQLExchange.cs:112-116 | one more row appends its CSV line and a line end to the text |
| MySQLExchange.CsvTextNonEmpty | src/app/MySQLExchange.cs:112-116 | a table with rows gives non-empty text |
| MySQLExchange.WriteRows | src/app/MySQLExchange.cs:112-116 | the row loop gives the writer exactly the CSV text and keeps it in the state where it has only flushed full buffers |
| MySQLExchange.SplitEach | src/app/MySQLExchange.cs:96-103 | the loader splits every line at the field terminator |
| MySQLExchange.JoinKeepsFree | src/app/MySQLExchange.cs:112-116 | a comma join of newline-free fields holds no newline |
| MySQLExchange.RowTexts | src/app/MySQLExchange.cs:112-116 | the field texts of each row, in order |
| MySQLExchange.LinesFree | src/app/MySQLExchange.cs:112-116 | for rows whose texts hold no comma or newline, no CSV line holds a newline |
| MySQLExchange.FieldsRecovered | src/app/MySQLExchange.cs:96-116 | for such rows, splitting each line at commas gives back each row's field texts |
| MySQLExchange.CsvRoundTrip | src/app/MySQLExchange.cs:96-116 | for non-empty rows whose texts hold no comma or line end, a loader splitting the writer's text at these terminators recovers exactly the rows' field texts |
| MySQLExchange.BulkInsert | src/app/MySQLExchange.cs:87-133 | the calls are open, begin, a load of what the stream holds unflushed, a second load of nothing, commit and close, up to the first that raises; the result is always a failure: an open or begin fault reports its exception, and past that the writer's Dispose on the closed stream reports "Cannot access a closed Stream." |
| MySQLExchange.RunPlan | src/app/MySQLExchange.cs:89-133 | the calls run in order up to the first that raises, with its exception; nothing is raised exactly when every call succeeds, and then all have run |
| MySQLExchange.RanUpTo | src/app/MySQLExchange.cs:89-133 | a run whose first k calls succeed and whose call k raises, or is the last, stops after call k with what it returned |
| MySQLExchange.RunPlanAppend | src/app/MySQLExchange.cs:89-133 | a run in two parts runs the second part only when the first raised nothing |
| MySQLExchange.OpenTransaction | src/app/MySQLExchange.cs:91-94 | opens the connection, then begins the transaction unless the open raised |
| MySQLExchange.WriteCsv | src/app/MySQLExchange.cs:110-119 | after the rows are written and the stream rewound, the stream holds only what the writer flushed by itself (nothing, or the preamble and whole 1024-character buffers) and the writer still has the preamble or some characters to write; flushed first, the stream holds the preamble and the whole text |
| MySQLExchange.RunLoads | src/app/MySQLExchange.cs:119-125 | the loads read what is left of the rewound stream, then commit and close follow, each only when the call before raised nothing |
| MySQLExchange.AsWrittenLoadMissesTail | src/app/MySQLExchange.cs:110-122 | the first load gets the preamble and the text up to the writer's last full buffer, so the last 1 to 1024 characters of a non-empty table are never loaded, and the second load gets nothing |
| MySQLExchange.ShortTableLoadsNothing | src/app/MySQLExchange.cs:110-120 | a table whose text fits one 1024-character buffer sends the loader an empty stream, carrying none of its rows |
| MySQLExchange.OneRowLoadsNothing | src/app/MySQLExchange.cs:110-120 | the one-row table holding 1 has the text "1\n", and the loader receives nothing |
| MySQLExchange.CommittedLoadReportsFailure | src/app/MySQLExchange.cs:119-131 | when the driver raises nothing, every call, the commit included, runs, and the insert still reports the closed-stream error |
| MySQLExchange.IntendedBulkInsert | src/app/MySQLExchange.cs:87-133 | flushed before the rewind and loaded once, the insert succeeds exactly when no call raised, and then has run every call; otherwise it reports the exception of the call that raised |
| MySQLExchange.IntendedLoadCarriesRows | src/app/MySQLExchange.cs:110-120 | the corrected load carries the table's columns and the preamble, followed by text that reads back as every field of every row when no field holds a comma or line end |
| Streams.EncodeAppend | src/app/MySQLExchange.cs:111 | encoding text a piece at a time is encoding it whole |
| Streams.TextOfEncode | src/app/MySQLExchange.cs:111 | the encoded text reads back as the text |
| Streams.FlushedLength | src/app/MySQLExchange.cs:111 | a writer with a 1024-character buffer has flushed a whole number of buffers, and no more than it was given |
| Streams.FlushedLengthBounds | src/app/MySQLExchange.cs:111 | a writer given at least one character still holds between 1 and 1024 of them, and one given at most 1024 has flushed none |
| Streams.FlushedLengthStep | src/app/MySQLExchange.cs:111 | one more character flushes the buffer exactly when the buffer was full |
| Streams.FlushCompletes | src/app/MySQLExchange.cs:111 | flushing the buffer after what was already flushed puts the preamble and the whole text on the stream |
| Streams.MemoryStream.constructor | src/app/MySQLExchange.cs:110 | a new memory stream is open, empty and at position 0 |
| Streams.MemoryStream.Write | src/app/MySQLExchange.cs:111-116 | writing to an open stream overwrites from the position and moves it; on a closed stream it raises "Cannot access a closed Stream." and changes nothing |
| Streams.MemoryStream.Rewind | src/app/MySQLExchange.cs:118 | setting Position to 0 keeps the bytes, and raises on a closed stream |
| Streams.MemoryStream.ReadToEnd | src/app/MySQLExchange.cs:119-122 | reading gives what follows the position and leaves the position at the end |
| Streams.MemoryStream.Close | src/app/MySQLExchange.cs:119 | closing keeps the bytes and the position |
| Streams.StreamWriter.constructor | src/app/MySQLExchange.cs:111 | a new writer over an empty stream has written nothing, and not the preamble |
| Streams.StreamWriter.LazyContents | src/app/MySQLExchange.cs:111-118 | a writer that only flushed full buffers has put nothing on the stream, or the preamble and its text up to the last full buffer |
| Streams.StreamWriter.WriteChar | src/app/MySQLExchange.cs:115 | a character goes to the buffer, flushing it first when full |
| Streams.StreamWriter.WriteLine | src/app/MySQLExchange.cs:115 | writing a line adds it and a line end to the writer's text, keeping the full-buffer-only state |
| Streams.StreamWriter.Flush | src/app/MySQLExchange.cs:111 | flushing puts the preamble and every character written so far on the stream |
| Streams.StreamWriter.Dispose | src/app/MySQLExchange.cs:111 | disposing raises the closed-stream error exactly when the stream is closed and the writer still has the preamble or characters to write |
| ClickhouseExchange.QueryPagination | src/app/database/ClickhouseExchange.cs:13-14 | ClickHouse always has a pagination clause |
| ClickhouseExchange.PaginationReadBack | src/app/database/ClickhouseExchange.cs:13-14 | the LIMIT/OFFSET clause reads back as the page size, then the offset |
| ClickhouseExchange.PrimaryKeyColumns | src/app/database/ClickhouseExchange.cs:18-22 | the primary key lists the key columns and ends with a comma |
| ClickhouseExchange.PrimaryKeyClosed | src/app/database/ClickhouseExchange.cs:18-22 | the key constraint text ends `),` |
| ClickhouseExchange.AddPrimaryKey | src/app/database/ClickhouseExchange.cs:18-22 | appends exactly the key constraint text |
| ClickhouseExchange.AddChangeColumn | src/app/database/ClickhouseExchange.cs:24-25 | appends exactly the `DateTime DEFAULT now()` change column line |
| ClickhouseExchange.AddColumnarStructure | src/app/database/ClickhouseExchange.cs:27-28 | appends nothing |
| ClickhouseExchange.GetSqlType | src/app/database/ClickhouseExchange.cs:64-89 | defined for exactly the listed types, throwing NotSupportedException naming any other; a string without a positive length is `String` |
| ClickhouseExchange.StringLength | src/app/database/ClickhouseExchange.cs:71 | a string with a positive length maps to `String(n)` |
| ClickhouseExchange.LengthOnlyForStrings | src/app/database/ClickhouseExchange.cs:64-89 | the length argument affects only strings |
| ClickhouseExchange.SharedStorageTypes | src/app/database/ClickhouseExchange.cs:72-86 | bool and byte share UInt8, and object is stored like an unsized string |
| ClickhouseExchange.CastToBool | src/app/database/ClickhouseExchange.cs:37 | unboxing succeeds exactly on a boolean cell, giving its value, and otherwise throws InvalidCastException |
| ClickhouseExchange.LookupTable | src/app/database/ClickhouseExchange.cs:30-38 | no row or NULL means absent, a boolean answers itself, and any other scalar throws |
| ClickhouseExchange.SchemaMissing | src/app/database/ClickhouseExchange.cs:47 | the database is created on no row, NULL or false, and any other scalar throws |
| ClickhouseExchange.SchemaRuleMatchesTableRule | src/app/database/ClickhouseExchange.cs:40-52 | the database lookup and the table lookup throw on the same scalars and otherwise answer oppositely |
| ClickhouseExchange.BulkInsertRequest | src/app/database/ClickhouseExchange.cs:99-107 | the bulk parameter holds exactly one item array per row, in row order |
| ClickhouseExchange.BulkInsert | src/app/database/ClickhouseExchange.cs:91-118 | succeeds with `true` exactly when the insert raised nothing; otherwise returns the error built from its exception |
| DBExchange.AdaptersKeepTypeMapContract | src/app/DBExchange.cs:20 | every adapter's `GetSqlType` maps exactly the supported types and throws NotSupportedException naming any other |
| DBExchange.SameTypesEverywhere | src/app/DBExchange.cs:20 | all four adapters accept the same types and throw the same exception on the rest |
| DBExchange.AdapterTexts | src/app/DBExchange.cs:22-26 | each adapter's fragments are the texts its engine's overrides append |
| DBExchange.AddPrimaryKey | src/app/DBExchange.cs:22 | a dispatched call appends exactly the engine's key constraint text |
| DBExchange.AddChangeColumn | src/app/DBExchange.cs:24 | a dispatched call appends exactly the engine's change column line |
| DBExchange.AddColumnarStructure | src/app/DBExchange.cs:26 | a dispatched call appends the columnstore clause for SQL Server and nothing otherwise |
| DBExchange.SelectLinesFree | src/app/DBExchange.cs:49-55 | no line of the page query holds a newline |
| DBExchange.SelectTextLines | src/app/DBExchange.cs:49-55 | the query text splits back into the seven lines of the literal: the opening break, SELECT, the projection, FROM with the hint, ORDER BY, the pagination clause and the closing indentation |
| DBExchange.ShardQuery | src/app/DBExchange.cs:45-57 | building a shard's query throws ArgumentOutOfRange exactly when the suffix is shorter than two characters |
| DBExchange.ShardTables | src/app/DBExchange.cs:41-71 | a completed read, taken in the order the shards finish, yields one table per shard |
| DBExchange.ShardTablesStep | src/app/DBExchange.cs:41-71 | at the i-th shard to finish, a failure to build or run its query ends the read with that exception; otherwise its table comes before those of the shards finishing later |
| DBExchange.ShardTablesRead | src/app/DBExchange.cs:41-71 | when every shard reads, the list holds each shard's own table, in finishing order |
| DBExchange.ReadShards | src/app/DBExchange.cs:41-71 | the shard loop, taking each body as it finishes, computes exactly the shard read in that order |
| DBExchange.ShardsQueried | src/app/DBExchange.cs:48-63 | a read in a given order completes exactly when every shard reads, and then table k is what the k-th shard's query returned, the shard's suffix being at least two characters |
| DBExchange.MergeShardTables | src/app/DBExchange.cs:73-78 | the merge of the shard tables is the shard tables merged |
| DBExchange.MergeShardsIsConverterMerge | src/app/DBExchange.cs:73-78 | the shard merge is `Converter.MergeDataTables` of the shard tables |
| DBExchange.FetchDataTable | src/app/DBExchange.cs:34-86 | for any order in which the shard reads finish, the fetch reads every shard and merges the tables in that order; a null FileStructure and every exception become a failed result |
| DBExchange.FetchSucceedsIffEveryShardReads | src/app/DBExchange.cs:34-86 | whatever the finishing order, the fetch succeeds exactly when every shard of FileStructure reads |
| DBExchange.FetchSuccess | src/app/DBExchange.cs:34-86 | a successful fetch had a FileStructure; its tables are, as a multiset, one per suffix; it returns their merge in finishing order, with the schema of the first to finish; when the shards share that schema its rows are, as a multiset, the rows of all shards |
| DBExchange.ShortSuffixFails | src/app/DBExchange.cs:45-46 | a suffix shorter than two characters fails the whole read |
| DBExchange.ColumnLines | src/app/DBExchange.cs:111-116 | a completed column build has one definition per column |
| DBExchange.ColumnLinesStep | src/app/DBExchange.cs:111-116 | each column either throws the adapter's exception or contributes `[name] type,` before the rest |
| DBExchange.ColumnLinesFail | src/app/DBExchange.cs:114 | the build throws exactly when some column type is unsupported, and then throws for the first such column |
| DBExchange.ColumnLinesContents | src/app/DBExchange.cs:111-116 | definition i is column i's name and its mapping with MaxLength as the length |
| DBExchange.AppendColumns | src/app/DBExchange.cs:111-116 | the column loop appends exactly the definitions, each on its own line, or reports the exception of the first unsupported column |
| DBExchange.AppendTrailer | src/app/DBExchange.cs:118-121 | appends the change column and the key line, each ended by a newline |
| DBExchange.BuildCreateTable | src/app/DBExchange.cs:109-121 | the builder produces exactly the CREATE TABLE text, or the column exception |
| DBExchange.CreateTableLines | src/app/DBExchange.cs:109-121 | the statement is the header, the column definitions, the change column and the key line, each newline-terminated |
| DBExchange.EnsureSchemaCreation | src/app/database/MSSQLExchange.cs:47-59 | runs the schema lookup, then the create command when the adapter reads the result as missing; lookup and command failures propagate |
| DBExchange.SchemaCreatedWhenMissing | src/app/database/MSSQLExchange.cs:47-59 | the lookup is issued first, and the create command is issued exactly when the adapter reads the lookup result as missing |
| DBExchange.CreateTable | src/app/DBExchange.cs:96-141 | computes the create outcome: table lookup, DDL build, then guarded schema creation and execution |
| DBExchange.TryCreateTable | src/app/DBExchange.cs:123-136 | the guarded part: schema creation, then the DDL, with any exception caught as the error |
| DBExchange.CreateExisting | src/app/DBExchange.cs:101-105 | an existing table issues only its lookup and reports success |
| DBExchange.CreateUnsupported | src/app/DBExchange.cs:111-116 | for a missing table with an unsupported column type, CreateTable itself throws that column's NotSupportedException after the lookup alone |
| DBExchange.TrySucceeded | src/app/DBExchange.cs:123-132 | a successful guarded part ends by executing the DDL, and the driver raised nothing on it |
| DBExchange.TryErrors | src/app/DBExchange.cs:133-136 | a failed guarded part reports an error from `CreateTable`, not a partial success |
| DBExchange.CreateSucceeded | src/app/DBExchange.cs:96-141 | a successful CreateTable either found the table or executed its DDL last without a driver fault |
| DBExchange.CreateErrors | src/app/DBExchange.cs:133-136 | a failed CreateTable built its DDL and reports an error from `CreateTable` |
| DBExchange.AdapterKeyShape | src/app/DBExchange.cs:118-121 | every key constraint ends `),`, and only SQL Server appends a columnar clause there |
| DBExchange.DanglingSeparator | src/app/DBExchange.cs:118-121 | the key line ends in `,);` exactly for the three engines other than SQL Server |
| DBExchange.IntendedKeyLineCloses | src/app/DBExchange.cs:118-121 | the corrected key line never ends in `,);` and differs from the written one only by that comma |
| DBExchange.UnshardedFetchFails | src/app/DBExchange.cs:39-46 | a job whose file structure is null or empty never fetches: the null reference or the one empty suffix fails it, so the unsharded branches are dead |
| DBExchange.IntendedFetchReadsUnsharded | src/app/DBExchange.cs:39-57 | the corrected fetch reads a job with a null or an empty FileStructure with one plain page query, succeeding exactly when that read does, with its table, and otherwise reporting its exception |
| DBExchange.IntendedFetchSharded | src/app/DBExchange.cs:34-86 | on sharded jobs the corrected fetch is the written one |
| DBExchange.BulkInsert | src/app/DBExchange.cs:32 | for SQL Server, PostgreSQL and ClickHouse the dispatched write succeeds exactly when the driver accepted the engine's payload, and otherwise reports its error; for MySQL it is the as-written insert's failure |
| DBExchange.WriteDataTable | src/app/DBExchange.cs:88-94 | writing a table is its engine's bulk insert of that table: success exactly when the driver raised nothing, otherwise its error; MySQL always fails with its insert's error |
| DBExchange.PayloadCarriesTable | src/app/DBExchange.cs:88-94 | the SQL Server, PostgreSQL and ClickHouse payloads carry the whole table, and so do the corrected MySQL calls; the MySQL calls as written carry nothing of a non-empty table whose text fits one writer buffer |
| DBExchangeFactory.Create | src/app/DBExchangeFactory.cs:7-16 | an unknown tag throws NotSupportedException naming it |
| DBExchangeFactory.CreateInvertsTagOf | src/app/DBExchangeFactory.cs:7-16 | `Create` maps each engine's DbTypes tag to that engine, and only those tags |
| DBExchangeFactory.AcceptedTags | src/app/DBExchangeFactory.cs:11-14 | a tag is accepted exactly when it is one of the four engine constants |
| DBExchangeFactory.SqliteRejected | src/types/DbTypes.cs:8 | the SQLite tag has no exchange |
| DBExchangeFactory.AllAccepted | src/types/DbTypes.cs:11 | every entry of `DbTypes.All` is accepted, the SQLite constant not being among them |
| DatabaseDBExchangeFactory.Create | src/app/database/DBExchangeFactory.cs:7-17 | an unknown provider name throws NotSupportedException naming it |
| DatabaseDBExchangeFactory.CreateInvertsProviderOf | src/app/database/DBExchangeFactory.cs:7-17 | `Create` maps each engine's provider name to that engine, and only those names |
| DatabaseDBExchangeFactory.AcceptedProviders | src/app/database/DBExchangeFactory.cs:11-15 | a provider name is accepted exactly when it is one of the four provider names |
| DatabaseDBExchangeFactory.FactoriesDiffer | src/app/database/DBExchangeFactory.cs:11-15 | the two factories agree only on the PostgreSQL spelling; each rejects the other's tags for MySQL, SQL Server and ClickHouse |
| AppCommon.Distinct | src/common/AppCommon.cs:125-150 | the duplicate-free sequence of the same elements |
| AppCommon.KeepIsolatedAppend | src/common/AppCommon.cs:125-150 | keeping the types without dependencies commutes with concatenation |
| AppCommon.Sorter.Visit | src/common/AppCommon.cs:130-144 | a visit marks the type, and appends only unvisited types that are it or a dependency; for ranked graphs every dependency is placed before its dependents and the type is emitted |
| AppCommon.Sorter.VisitDependencies | src/common/AppCommon.cs:137-141 | visiting the dependency list places all of the type's dependencies, and only dependencies, for ranked graphs |
| AppCommon.Sorter.VisitDependency | src/common/AppCommon.cs:137-141 | one dependency visit extends the placed prefix of the dependency list by one |
| AppCommon.Sorter.EmitVisited | src/common/AppCommon.cs:143 | appends the type after its dependencies |
| AppCommon.TopologicalSort | src/common/AppCommon.cs:125-150 | the result holds every input type once, and otherwise only dependencies; for an acyclic graph dependencies precede dependents; types without dependencies keep their input order |
| AppCommon.VisitType | src/common/AppCommon.cs:146-147 | one outer step keeps the sort invariant for one more input type |
| Initializer.EntityTypes | src/common/Initializer.cs:20-29 | the entity filter keeps exactly the model classes carrying a table attribute |
| Initializer.EntityTypesUnique | src/common/Initializer.cs:20-29 | filtering keeps type names unique |
| Initializer.Resolve | src/common/Initializer.cs:36 | a property type resolves to the entity of that name, or to none when no entity has it |
| Initializer.PropertyEntities | src/common/Initializer.cs:35-39 | the foreign keys are the entity types among the property types, and every such entity is included |
| Initializer.DependencyMapExact | src/common/Initializer.cs:31-42 | each entity's dependency list holds every entity among its property types, once, and nothing else |
| Initializer.BuildDependencies | src/common/Initializer.cs:31-42 | the loop builds exactly the dependency map |
| Initializer.DependenciesAreEntities | src/common/Initializer.cs:31-42 | every dependency is itself an entity |
| Initializer.TableNames | src/common/Initializer.cs:48-49 | each entity's table name is its attribute's name, else its class name |
| Initializer.SameNameExample | src/data/CallBase.cs:28-35 | `users` and `Users` name the same table, `User` another |
| Initializer.CreatePlanExact | src/common/Initializer.cs:46-78 | a table is created exactly when its name is wanted and no existing or earlier-created table has it up to case, and no two created tables share a name up to case |
| Initializer.PlanFromNames | src/common/Initializer.cs:46-78 | every created table is a wanted name that no existing table matches up to case |
| Initializer.PlanDistinct | src/common/Initializer.cs:46-78 | no two created tables share a name up to case |
| Initializer.PlanFolds | src/common/Initializer.cs:46-78 | the created tables' names, up to case, are the wanted ones minus the existing ones |
| Initializer.PlanSnoc | src/common/Initializer.cs:46-78 | one more entity adds its table to the plan exactly when no existing table and no earlier entity's table matches it up to case |
| Initializer.Catalog.CreateTable | src/common/Initializer.cs:55-70 | creating a table records it as existing and as created |
| Initializer.Catalog.CreateIfMissing | src/common/Initializer.cs:51-77 | a table is created exactly when no table matched it case-insensitively (`CallBase.Exists`, src/data/CallBase.cs:28-35); otherwise nothing changes; it exists afterwards |
| Initializer.Catalog.CreateMissing | src/common/Initializer.cs:46-78 | the loop creates the tables of the creation plan, in order, adds exactly those to the catalog, and afterwards every sorted entity's table exists up to case |
| Initializer.Catalog.CreateAt | src/common/Initializer.cs:46-78 | one turn keeps the loop's invariants: created and added tables are the plan for the names seen so far, and those names all exist up to case |
| Initializer.SortEntities | src/common/Initializer.cs:20-44 | the sorted entities are exactly the assembly's entities, once each, dependencies first for acyclic graphs |
| Initializer.EntitiesOfAssembly | src/common/Initializer.cs:20-29 | every entity is a table-attributed model class of the assembly |
| Initializer.InitializeDb | src/common/Initializer.cs:14-79 | every entity is sorted in creation order, and exactly the tables missing up to case are created, in that order, none twice up to case, and every entity's table exists afterwards |
| Encryption.Hex2 | src/common/Encryption.cs:76 | `ToString("x2")` gives two lower-case hex digits |
| Encryption.HexOf | src/common/Encryption.cs:70-79 | two lower-case hex digits per byte |
| Encryption.ToByte16 | src/common/Encryption.cs:65 | on the lower-case hex pairs it is given here, the parse returns their value; a pair that is not two hex digits is refused |
| Encryption.Hex2RoundTrip | src/common/Encryption.cs:63-66 | parsing a byte's hex pair gives the byte back |
| Encryption.HexOfPair | src/common/Encryption.cs:70-79 | characters 2i and 2i+1 are byte i's pair |
| Encryption.HexRoundTrip | src/common/Encryption.cs:58-79 | each hex pair of a digest parses back to its byte |
| Encryption.HexOfInjective | src/common/Encryption.cs:70-79 | different byte strings print differently |
| Encryption.GetStringFromByteArray | src/common/Encryption.cs:70-79 | the loop prints the array as lower-case hex, two digits per byte |
| Encryption.Sha256 | src/common/Encryption.cs:8-12 | a digest prints as 64 lower-case hex digits |
| Encryption.GetByteArrayFromHash | src/common/Encryption.cs:58-68 | the parse loop yields a 32-byte array holding the SHA-256 digest of the UTF-8 secret |
| Encryption.FrameSplit | src/common/Encryption.cs:39-40 | `Take(16)`/`Skip(16)` split an IV-prefixed frame into the IV and the ciphertext |
| Encryption.FrameJoin | src/common/Encryption.cs:39-40 | a frame of at least 16 bytes is its IV followed by the rest |
| Encryption.ShortFrameThrows | src/common/Encryption.cs:36-56 | a frame shorter than 16 bytes fails with a CryptographicException |
| Encryption.ReadToEnd | src/common/Encryption.cs:51-53 | the reader consumes a leading UTF-8 byte order mark and decodes the rest as UTF-8 |
| Encryption.DecryptFrame | src/common/Encryption.cs:14-56 | decrypting an encryption with the same secret reads back the UTF-8 bytes of the input, whatever the IV |
| Encryption.ReadEncoded | src/common/Encryption.cs:51-53 | reading back the UTF-8 encoding of a text gives the text, less a leading U+FEFF |
| Encryption.EncryptDecrypt | src/common/Encryption.cs:14-56 | given inverse Base64, AES and UTF-8 primitives, decrypting an encryption with the same secret gives the input back, except that a leading U+FEFF is dropped |
| SqlServerCall.LookupNamesTable | src/data/SqlServerCall.cs:20-23 | the lookup query names exactly its table |
| SqlServerCall.AddPrimaryKeyConstraint | src/data/SqlServerCall.cs:30-34 | appends the identity clause and the clustered key named after the upper-cased table |
| SqlServerCall.PrimaryKeyName | src/data/SqlServerCall.cs:33 | the constraint name reads back as the upper-cased table name |
| SqlServerCall.PrimaryKeyNameUpper | src/data/SqlServerCall.cs:33 | the constraint name has no lower-case letters |
| SqlServerCall.GetSqlType | src/data/SqlServerCall.cs:36-61 | defined for exactly the listed types, throwing NotSupportedException naming any other |
| SqlServerCall.UnsignedShareSigned | src/data/SqlServerCall.cs:48-52 | unsigned types, and sbyte, take the signed type of their width |
| SqlServerCall.AgreesWithExchange | src/data/SqlServerCall.cs:36-61 | the metadata store and the SQL Server exchange agree on every type but string, which is NVARCHAR(MAX) here and VARCHAR there |
| SqlLiteCall.LookupNamesTable | src/data/SqlLiteCall.cs:18-21 | the `sqlite_master` query names exactly its table |
| SqlLiteCall.AddPrimaryKeyConstraint | src/data/SqlLiteCall.cs:28-31 | appends the same autoincrement key clause whatever the table |
| SqlLiteCall.UpTo | src/data/SqlLiteCall.cs:32-35 | splits at the first occurrence, or reports that there is none |
| SqlLiteCall.ReadForeignKey | src/data/SqlLiteCall.cs:32-35 | a clause reads back only as names free of the closing `]` |
| SqlLiteCall.ForeignKeyRoundTrip | src/data/SqlLiteCall.cs:32-35 | for names without `]`, the foreign-key clause reads back as its column, table and referenced column |
| SqlLiteCall.BracketBreaksQuoting | src/data/SqlLiteCall.cs:32-35 | a `]` in any of the three names makes the clause read back as something other than those names |
| SqlLiteCall.GetSqlType | src/data/SqlLiteCall.cs:37-63 | every listed type has a storage class, and any other throws NotSupportedException naming it |
| SqlLiteCall.IntegerClass | src/data/SqlLiteCall.cs:41-49 | INTEGER is exactly the whole-number and boolean types |
| SqlLiteCall.RealClass | src/data/SqlLiteCall.cs:50-52 | REAL is exactly float, double and decimal |
| SqlLiteCall.TextClass | src/data/SqlLiteCall.cs:53-60 | TEXT is exactly string, char, DateTime, Guid and TimeSpan |
| SqlLiteCall.BlobClass | src/data/SqlLiteCall.cs:57-59 | BLOB is exactly byte arrays, `ReadOnlyMemory<byte>` and object |
| Pipeline.PagesOffsets | src/app/ExchangeBase.cs:22-36 | page i of an extraction is what the fetch returned at offset i times the page size |
| Pipeline.PagesEnd | src/app/ExchangeBase.cs:22-36 | the loop stops after the first empty page, or at the first error, which it records |
| Pipeline.PagerFinite | src/app/ExchangeBase.cs:22-36 | an origin that pages a finite table ends the loop |
| Pipeline.PageCount | src/app/ExchangeBase.cs:22-36 | N rows in pages of P give ⌈N/P⌉ full pages plus the empty one, and the pages hold the rows in order |
| Pipeline.PagesStep | src/app/ExchangeBase.cs:22-36 | a non-empty page is written and the loop goes on one page further |
| Pipeline.ItemsOf | src/app/ExchangeBase.cs:35 | each written page is tagged with its extraction |
| Pipeline.ProduceFaults | src/app/DataExtraction.cs:23 | the producer throws exactly in the later revisions, when an origin's database tag has no exchange |
| Pipeline.ProducedShape | src/app/ExchangeBase.cs:16-40 | at most one error per extraction, none null; items come from the extractions, grouped in extraction order |
| Pipeline.ProducedErrors | src/app/ExchangeBase.cs:25-29 | each extraction logs at most one fetch error |
| Pipeline.ProducedItems | src/app/ExchangeBase.cs:35 | every item belongs to an extraction of the list |
| Pipeline.ProducedOrder | src/app/ExchangeBase.cs:18-37 | the items of each extraction come before those of the next |
| Pipeline.ProduceSingle | src/app/ExchangeBase.cs:16-40 | one extraction yields its pages and its stopping error |
| Pipeline.EmptyOriginOnePage | src/app/ExchangeBase.cs:31-35 | an empty origin still produces one empty page |
| Pipeline.BatchesShape | src/app/ExchangeBase.cs:52-55 | each batch holds between one and `ConsumerFetchMax` items, and the batches are the channel in order |
| Pipeline.GroupsPerExtraction | src/app/ExchangeBase.cs:57-63 | one group per extraction of the batch, each the merge of that extraction's pages |
| Pipeline.RoundKeepsLast | src/app/ExchangeBase.cs:68-79 | a round creates and writes each group, and the held results are the last group's |
| Pipeline.RetryBounds | src/app/ExchangeBase.cs:65-80 | the retry runs at least once and at most `ConsumerAttemptMax` rounds, and stops early only when the write succeeded |
| Pipeline.RetryNeverThrows | src/app/ExchangeBase.cs:65-80 | when no CreateTable throws, the retry completes |
| Pipeline.Report | src/app/ParallelExtractionManager.cs:26-31 | the manager reports the errors when there are any; the other revisions always report success |
| Pipeline.ExhaustionUnreachable | src/app/ExchangeBase.cs:82-85 | with at least one attempt allowed, a batch never logs the exhaustion error |
| Pipeline.FailedWritesReportSuccess | src/app/ExchangeBase.cs:82-91 | an extraction whose every write fails is still reported as a success |
| Pipeline.NullErrorLogged | src/app/ExchangeBase.cs:82-85 | with no attempts allowed, every batch logs the held insert error, null after a success |
| Pipeline.IntendedExhaustionReports | src/app/ExchangeBase.cs:80-85 | in the corrected consumer, a batch logs one non-null error exactly when its last round still calls for a retry |
| Pipeline.OnePageConsumed | src/app/ExchangeBase.cs:47-86 | a single page is consumed without errors |
| Pipeline.OneBatchNoErrors | src/app/ExchangeBase.cs:47-86 | one batch whose inserters can be built is consumed without errors |
| Pipeline.Channel.Write | src/app/ExchangeBase.cs:35 | writing appends the item to the open channel |
| Pipeline.Channel.Complete | src/app/ExchangeBase.cs:39 | completing closes the channel and keeps its items |
| Pipeline.Channel.TryRead | src/app/ExchangeBase.cs:52 | reading takes the first item exactly when there is one |
| Pipeline.PageExtraction | src/app/ExchangeBase.cs:20-36 | the paging loop writes exactly the extraction's pages and returns its stopping error |
| Pipeline.ProduceExtraction | src/app/ExchangeBase.cs:18-36 | one extraction's pages are written and its error, if any, is logged |
| Pipeline.ProduceData | src/app/ParallelExtractionManager.cs:34-65 | the producer writes exactly the produced items and errors, or reports the fault |
| Pipeline.Drain | src/app/ExchangeBase.cs:52-55 | takes the first `min(ConsumerFetchMax, queued)` items in order |
| Pipeline.GroupBatch | src/app/ExchangeBase.cs:57-63 | the grouping computes the merged tables per extraction |
| Pipeline.RunRound | src/app/ExchangeBase.cs:68-79 | one round computes the round function |
| Pipeline.RetryRounds | src/app/ExchangeBase.cs:65-80 | the do-while computes the retry function |
| Pipeline.ConsumeNext | src/app/ExchangeBase.cs:49-85 | one consumer turn drains a batch and consumes it |
| Pipeline.ConsumeData | src/app/ParallelExtractionManager.cs:67-113 | the consumer's loop consumes the whole channel |
| Pipeline.ChannelParallelize | src/app/ExchangeBase.cs:11-92 | runs the producer, completes the channel, runs the consumer, and reports as `Run` specifies |

## Left out

- Concurrency. The modelled run is sequential: the producer writes every page, the channel is completed, then the consumer drains it. `Parallel.ForEachAsync` over extractions, the interleaving of producer and consumer, the unsynchronised `errors.Add` and the shared `insert`/`create` captures (src/app/DataExtraction.cs:71-83) are not modelled.
- The bounded channel capacity `MaxDegreeParallel` (src/app/ExchangeBase.cs:13): the model's channel is unbounded, since in a sequential run the bound only changes when the producer blocks. The model has no `MaxDegreeParallel` setting: with a value below 1, `Channel.CreateBounded` throws ArgumentOutOfRangeException before any fetch (src/app/ExchangeBase.cs:13, src/app/DataExtraction.cs:13, src/app/ParallelExtractionManager.cs:18), and so does `Parallel.ForEachAsync` with a `ParallelRule` of 0 (src/common/AppCommon.cs:31). The model's run has an outcome for such a setting where the source throws.
- Pipeline.ChannelParallelize: requires `ProducerLineMax >= 1`, `ConsumerFetchMax >= 1`, and a bound beyond which every origin fetch is empty or an error. `ProducerLineMax >= 1` is required because the model's fetch oracle does not see the page size: with `ProducerLineMax = 0` each engine asks for pages of no rows (`LIMIT 0`, `FETCH NEXT 0 ROWS ONLY`), so the source ends the run with one empty or failed page per extraction (src/app/ExchangeBase.cs:25-36), and the model does not cover that run. With `ConsumerFetchMax = 0` and a page written (src/app/ExchangeBase.cs:47-52), or with an origin that never runs dry, the source loops forever, and the model has no outcome for a run that does not end.
- A producer fault ends the model run as `Faulted`. In the source it would leave the writer uncompleted and the consumer waiting.
- A consumer fault ends the model run as `Faulted` too. In the source, a `CreateTable` throw outside its try (src/app/DBExchange.cs:111-116) or the `Destination!` failure (src/app/DataExtraction.cs:75) stops the consumer; when the bounded channel is full, the producer then blocks in `WriteAsync` (src/app/ExchangeBase.cs:35) and `Task.WhenAll` never returns. `Faulted` stands for that hang.
- Pipeline.PageCount: the offset `curr` is an unbounded integer; 32-bit wrap-around of `curr += ProducerLineMax` is not modelled.
- An extraction's identity, used by `GroupBy`, is its position in the list.
- `Dispose` and `using` of tables, connections and commands (src/common/Converter.cs:38-44) free resources only and are not modelled.
- Encryption.EncryptDecrypt: SHA-256, AES-CBC, Base64 and UTF-8 are parameters (the `Library` record), not implementations. The round trip is proved under their inverse laws and two facts about UTF-8's byte order mark. The random IV of `GenerateIV` is a parameter.
- Encryption.ReadToEnd: of the byte order marks the decrypting `StreamReader` detects, only the UTF-8 one is modelled. Plaintext that starts with a UTF-16 or UTF-32 mark is decoded as UTF-8 here. The UTF-8 encoding of a text never starts with those marks.
- Database drivers, connections, `ExecuteScalar`/`ExecuteNonQuery`, `SqlBulkCopy`, the binary importer and `MySqlBulkLoader` are oracles: the model states what is sent to them, not what they do.
- Log output (`Log.Out`) and console help/version printing in src/Program.cs are not modelled.
- `InitializeFrom*` in src/common/Initializer.cs:82-165 (seeding from files) is not modelled.
- Reflection over the assembly becomes a list of `ModelType` records.
- Initializer's private `TopologicalSort` (src/common/Initializer.cs:167-192) is the same algorithm as `AppCommon.TopologicalSort`, which models both.
- The metadata-store connection behind `CallBase.Exists` and LinqToDB's `CreateTable<T>` are the `Catalog` set of existing tables.
- The draft copies under src/app/exchange/ are not compiled into the engine and are not modelled.
- `Environment.NewLine` is `"\n"`.
- The LinqToDB provider names are taken as "PostgreSQL", "MySql", "SqlServer" and "ClickHouse": the library is not part of this model.
- Cell values are modelled by their text (`ValueText`); culture-dependent formatting of numbers and dates is not modelled.
- MySQLExchange.CsvRoundTrip: holds only for non-empty rows whose texts contain no comma or newline. The source writes CSV without quoting, and an empty row's empty line reads back as one empty field, not as no fields.
- MySQLExchange.CsvRoundTrip is about the text given to the writer, which only the corrected insert puts on the stream.
- Initializer.Fold: `StringComparison.OrdinalIgnoreCase` is modelled as equality after ASCII upper-casing; two non-ASCII names that differ only in case are told apart by the model.
- Text.ToUpper and SqlServerCall.AddPrimaryKeyConstraint: the culture-invariant ASCII mapping is assumed. `ToUpper()` follows the current culture: non-ASCII letters and, under a Turkish culture, `i` map differently.
- Domain.ErrorFrom: the `StackTrace` of the caught exception is not modelled. An Error keeps its message, its member and its partial-success flag.
- Concurrency inside `FetchDataTable`: `Parallel.ForEachAsync` over the shards (src/app/DBExchange.cs:41-71) is modelled as a parameter `finished`, the order in which the shard bodies finish, which is any permutation of the suffixes. The shard list, the schema of `dataTables[0]` and the exception that surfaces follow that order. Cancellation of the other bodies after a fault is not modelled; it does not change the failed result.
- MySQLExchange.BulkInsert: the destination server is an oracle over the calls made. The model does not say what the server does with the loaded bytes, the UTF-8 preamble included.
- MySQLExchange.RunLoads: `LoadAsync()` after `Load(stream)` is taken to read what is left of the same stream, which is nothing.
- Streams: each character is one unit on the stream. UTF-8 byte widths, the encoder's handling of surrogate pairs split across buffers, and the stream's own capacity are not modelled. The writer's buffer counts characters, as .NET's does.
- The `Log.Out` call inside the MySQL insert (src/app/MySQLExchange.cs:121) is not modelled.
- DataTables.ColumnIndex, DataTables.ProjectRow, DataTables.MergeTable and Converter.MergeDataTables: a target column is matched to a source column by exact name only. System.Data's `DataColumnCollection[string]` falls back to the one column whose name matches ignoring case (under the table's locale) and throws when several do; that fallback and that exception are not modelled, so a shard whose column differs from the first table's only in case imports as DBNull here.
- DataTables.MergeTable, DBExchange.MergeShardTables, DBExchange.MergeShardsIsConverterMerge, DBExchange.FetchSuccess, DBExchange.FetchDataTable and Converter.MergeDataTables: tables are taken to carry no primary key. `fetched.Load(select)` (src/app/DBExchange.cs:63) loads with `MissingSchemaAction.AddWithKey`, so a fetched table has a key whenever the driver reports key columns, and `Clone()` (:73) copies it. With a key, `Merge` (:77) overwrites the row of equal key instead of appending, so shards sharing index values collapse into one row, and `ImportRow` (src/common/Converter.cs:34, src/app/ExchangeBase.cs:107) throws ConstraintException on a duplicate key. The model always appends, so FetchSuccess's multiset of all shards' rows and MergeShardsIsConverterMerge hold only for key-less tables.
- MergeDataTables: ImportRow's ConstraintException on a duplicate primary key is not modelled (see the line above).
- MergeShardTables: `Merge` is modelled as an append; the key-matched update on tables with a primary key is not modelled (see above).
- MergeShardsIsConverterMerge: `Merge` and `ImportRow` agree only on tables without a primary key, which the model assumes (see above).
- FetchSuccess: the rows are, as a multiset, the rows of all shards only for tables without a primary key, which the model assumes (see above).
- Encryption.ToByte16: only the error kind for a non-hex pair differs: `Convert.ToByte(s, 16)` raises ArgumentException for some pairs (a leading minus sign) where the model raises FormatException. The source only parses the `HexOf` pairs, so that branch never runs.
- DBExchange.ShardTablesStep: the model builds a shard's query, and so evaluates `s[..2]`, before it hands the connection string to the driver oracle. The source creates the connection first (src/app/DBExchange.cs:43, then :46), so when `CreateConnection` rejects the connection string and the suffix is shorter than two characters, the source reports the connection's exception and the model reports the short suffix. The same order holds in DBExchange.ShardTables, DBExchange.Fetch and DBExchange.FetchDataTable.

## Findings

| source | as written | input that shows it | evidently intended | confidence | as-written member | corrected member |
|---|---|---|---|---|---|---|
| src/app/ExchangeBase.cs:82-85 | the retry loop exits with `attempt <= ConsumerAttemptMax`, so `attempt > ConsumerAttemptMax` never holds and a batch whose writes all failed logs no error | ConsumerAttemptMax = 3 and every WriteDataTable fails: the run reports success | log the last insert error when the retries ran out without success | not executed | Pipeline.FailedWritesReportSuccess | Pipeline.IntendedExhaustionReports |
| src/app/DBExchange.cs:39-46 | `FileStructure.Split` throws on a null file structure, and an empty one yields one empty suffix on which `s[..2]` throws, so the `suffixes.Length == 0` branches never run | an extraction whose file structure is null or empty (unsharded) | read the unsharded table with one query | not executed | DBExchange.UnshardedFetchFails | DBExchange.IntendedFetchReadsUnsharded |
| src/app/DBExchange.cs:118-121 | every key constraint ends with a comma and only SQL Server follows it with a clause, so the statement ends `,);` | any CreateTable on PostgreSQL, MySQL or ClickHouse | no separator before the closing parenthesis | not executed | DBExchange.DanglingSeparator | DBExchange.IntendedKeyLineCloses |
| src/app/MySQLExchange.cs:110-122 | the writer is never flushed before `memoryStream.Position = 0`, so the loader reads only what the writer flushed by itself: nothing, or the preamble and its full 1024-character buffers; `LoadAsync` then loads a second time; leaving the block disposes the reader, which closes the stream, and then the writer, whose flush throws on the closed stream | a one-row table holding 1: the loader receives an empty stream; and with a driver that raises nothing, the committed load reports "Cannot access a closed Stream." | flush the writer before the rewind, load once, and report success after the commit | not executed | MySQLExchange.CommittedLoadReportsFailure | MySQLExchange.IntendedBulkInsert |
