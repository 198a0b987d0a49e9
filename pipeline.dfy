/** `ChannelParallelize`, the producer/consumer pipeline that moves every
    extraction from its origin to its destination, in its three revisions:
    the instance method of `ExchangeBase`, the static method of
    `DataExtraction`, and `ParallelExtractionManager` with its
    `ProduceDBData` and `ConsumeDBData`. The producer pages each extraction
    into the channel; the consumer drains the channel in batches, merges
    each batch per extraction and writes the merged tables, retrying a
    failed round.

    The run is sequential: the producer publishes everything, then the
    consumer drains the channel. The database calls are oracles. */
module Pipeline {
  import opened Results
  import opened Domain
  import Converter
  import DBExchangeFactory
  import AppCommon
  import Text

  /** Which of the three copies of the loop runs. */
  datatype Revision = ExchangeBaseLoop | DataExtractionLoop | ManagerLoop

  /** `AppCommon.ProducerLineMax`, `ConsumerFetchMax` and
      `ConsumerAttemptMax`. */
  datatype Settings = Settings(producerLineMax: int, consumerFetchMax: int, consumerAttemptMax: int)

  /** The adapter calls the pipeline makes. `fetch(g, e, curr)` is
      `FetchDataTable(e, curr)` on engine g. `create(n, g, t, e)` and
      `write(n, g, t, e)` are `CreateTable(t, e)` and `WriteDataTable(t, e)`
      on engine g as the n-th call to a destination (counting from 0), so
      that a call repeated later may end differently; `CreateTable` may
      throw. */
  datatype Oracles = Oracles(
    fetch: (Engine, Job, int) -> Result<Table, Error>,
    create: (nat, Engine, Table, Job) -> Completion<Result<bool, Error>>,
    write: (nat, Engine, Table, Job) -> Result<bool, Error>)

  /** A channel item: a page and the extraction it belongs to, by its
      position in the list (the `Extraction` object's identity). */
  datatype Item = Item(table: Table, extraction: nat, job: Job)

  // -------------------------------------------------------------------
  // The producer.

  /** A fetch that ends the paging loop: an error, or an empty page. */
  predicate Exhausted(r: Result<Table, Error>) {
    !r.IsSuccessful() || |r.value.rows| == 0
  }

  /** From offset `bound` on, every fetch is exhausted: each origin table
      is finite. */
  ghost predicate Finite(fetch: (Engine, Job, int) -> Result<Table, Error>, bound: int) {
    forall g, j, k :: k >= bound ==> Exhausted(fetch(g, j, k))
  }

  /** The `do ... while (hasData)` of one extraction from offset `curr`:
      the pages written to the channel, and the error that stopped the
      loop, if one did. */
  function Pages(fetch: (Engine, Job, int) -> Result<Table, Error>, g: Engine, job: Job,
                 pageSize: int, bound: int, curr: int): (seq<Table>, Option<Error>)
    requires pageSize >= 1 && Finite(fetch, bound)
    decreases bound - curr
  {
    var attempt := fetch(g, job, curr);
    if Exhausted(attempt) then
      if !attempt.IsSuccessful() then ([], Some(attempt.error)) else ([attempt.value], None)
    else
      var rest := Pages(fetch, g, job, pageSize, bound, curr + pageSize);
      ([attempt.value] + rest.0, rest.1)
  }

  /** Page i comes from offset `curr + i * pageSize`. */
  lemma {:induction false} PagesOffsets(fetch: (Engine, Job, int) -> Result<Table, Error>, g: Engine,
                                        job: Job, pageSize: int, bound: int, curr: int)
    requires pageSize >= 1 && Finite(fetch, bound)
    ensures var pages := Pages(fetch, g, job, pageSize, bound, curr).0;
      forall i :: 0 <= i < |pages| ==> fetch(g, job, curr + i * pageSize) == Success(pages[i])
    decreases bound - curr
  {
    var attempt := fetch(g, job, curr);
    if !Exhausted(attempt) {
      PagesOffsets(fetch, g, job, pageSize, bound, curr + pageSize);
      PagesStep(fetch, g, job, pageSize, bound, curr);
      var rest := Pages(fetch, g, job, pageSize, bound, curr + pageSize).0;
      var pages := [attempt.value] + rest;
      forall i | 0 <= i < |pages|
        ensures fetch(g, job, curr + i * pageSize) == Success(pages[i])
      {
        if i == 0 {
          assert curr + i * pageSize == curr;
        } else {
          OffsetShift(curr, i, pageSize);
          assert pages[i] == rest[i - 1];
        }
      }
    }
  }

  /** Without an error the last page is the one empty page; an error comes
      from the offset after the last page written; every page before the
      stop is full. */
  lemma {:induction false} PagesEnd(fetch: (Engine, Job, int) -> Result<Table, Error>, g: Engine,
                                    job: Job, pageSize: int, bound: int, curr: int)
    requires pageSize >= 1 && Finite(fetch, bound)
    ensures var (pages, err) := Pages(fetch, g, job, pageSize, bound, curr);
      (err.None? ==> |pages| >= 1 && |pages[|pages| - 1].rows| == 0)
      && (forall i :: 0 <= i < |pages| && (err.Some? || i < |pages| - 1) ==> |pages[i].rows| > 0)
      && (err.Some? ==> fetch(g, job, curr + |pages| * pageSize) == Failure(err.value))
    decreases bound - curr
  {
    var attempt := fetch(g, job, curr);
    if !Exhausted(attempt) {
      PagesEnd(fetch, g, job, pageSize, bound, curr + pageSize);
      PagesStep(fetch, g, job, pageSize, bound, curr);
      var (rest, err) := Pages(fetch, g, job, pageSize, bound, curr + pageSize);
      var pages := [attempt.value] + rest;
      forall i | 1 <= i < |pages|
        ensures pages[i] == rest[i - 1]
      {
      }
      if err.Some? {
        OffsetShift(curr, |pages|, pageSize);
      }
    }
  }

  lemma OffsetShift(curr: int, i: int, pageSize: int)
    ensures curr + i * pageSize == (curr + pageSize) + (i - 1) * pageSize
  {
  }

  /** Rows `k` up to `k + pageSize` of `rows`: the page a paginated query
      returns at offset k. */
  function Window(rows: seq<Row>, k: int, pageSize: int): seq<Row>
    requires 0 <= k && pageSize >= 1
  {
    if k >= |rows| then [] else rows[k..if k + pageSize <= |rows| then k + pageSize else |rows|]
  }

  /** The rows of several pages, page after page. */
  function PageRows(pages: seq<Table>): seq<Row> {
    if pages == [] then [] else pages[0].rows + PageRows(pages[1..])
  }

  /** The origin table as a paginated query sees it: `rows` laid out
      page by page, the same for every engine and job. */
  ghost predicate Pager(fetch: (Engine, Job, int) -> Result<Table, Error>, pageSize: int,
                        columns: seq<Column>, rows: seq<Row>)
    requires pageSize >= 1
  {
    forall g, j, k :: 0 <= k ==> fetch(g, j, k) == Success(Table(columns, Window(rows, k, pageSize)))
  }

  lemma PagerFinite(fetch: (Engine, Job, int) -> Result<Table, Error>, pageSize: int,
                    columns: seq<Column>, rows: seq<Row>)
    requires pageSize >= 1 && Pager(fetch, pageSize, columns, rows)
    ensures Finite(fetch, |rows|)
  {
    forall g, j, k | k >= |rows|
      ensures Exhausted(fetch(g, j, k))
    {
      assert fetch(g, j, k) == Success(Table(columns, []));
    }
  }

  /** Over an origin table of N rows, paging from offset 0 stops without
      an error after n + 1 pages, n = ceil(N / pageSize) (n * pageSize >= N
      > (n - 1) * pageSize), and the pages hold the table's rows in order. */
  lemma PageCount(fetch: (Engine, Job, int) -> Result<Table, Error>, g: Engine, job: Job,
                  pageSize: int, columns: seq<Column>, rows: seq<Row>)
    requires pageSize >= 1 && Pager(fetch, pageSize, columns, rows)
    ensures Finite(fetch, |rows|)
    ensures var (pages, err) := Pages(fetch, g, job, pageSize, |rows|, 0);
      var n := |pages| - 1;
      err.None? && n * pageSize >= |rows| && (n - 1) * pageSize < |rows| && PageRows(pages) == rows
  {
    PagerFinite(fetch, pageSize, columns, rows);
    PageCountFrom(fetch, g, job, pageSize, columns, rows, 0);
    PageRowsFrom(fetch, g, job, pageSize, columns, rows, 0);
  }

  /** One turn of the paging loop: a full page is written and the loop
      goes on at the next offset. */
  lemma PagesStep(fetch: (Engine, Job, int) -> Result<Table, Error>, g: Engine, job: Job,
                  pageSize: int, bound: int, curr: int)
    requires pageSize >= 1 && Finite(fetch, bound) && !Exhausted(fetch(g, job, curr))
    ensures var rest := Pages(fetch, g, job, pageSize, bound, curr + pageSize);
      Pages(fetch, g, job, pageSize, bound, curr) == ([fetch(g, job, curr).value] + rest.0, rest.1)
  {
  }

  lemma {:induction false} PageCountFrom(fetch: (Engine, Job, int) -> Result<Table, Error>, g: Engine, job: Job,
                                         pageSize: int, columns: seq<Column>, rows: seq<Row>, curr: int)
    requires pageSize >= 1 && 0 <= curr && Pager(fetch, pageSize, columns, rows) && Finite(fetch, |rows|)
    ensures var (pages, err) := Pages(fetch, g, job, pageSize, |rows|, curr);
      var n := |pages| - 1;
      var left := if curr <= |rows| then |rows| - curr else 0;
      err.None? && |pages| >= 1 && (left == 0 ==> n == 0) && Covers(n, left, pageSize)
    decreases |rows| - curr
  {
    if curr < |rows| {
      PageCountFrom(fetch, g, job, pageSize, columns, rows, curr + pageSize);
      PageCountStep(fetch, g, job, pageSize, columns, rows, curr);
    } else {
      assert fetch(g, job, curr) == Success(Table(columns, []));
    }
  }

  /** A full page at `curr`, then what paging from the next offset gives. */
  lemma PageCountStep(fetch: (Engine, Job, int) -> Result<Table, Error>, g: Engine, job: Job,
                      pageSize: int, columns: seq<Column>, rows: seq<Row>, curr: int)
    requires pageSize >= 1 && 0 <= curr < |rows| && Pager(fetch, pageSize, columns, rows) && Finite(fetch, |rows|)
    requires var (rest, err) := Pages(fetch, g, job, pageSize, |rows|, curr + pageSize);
      var left' := if curr + pageSize <= |rows| then |rows| - curr - pageSize else 0;
      err.None? && |rest| >= 1 && (left' == 0 ==> |rest| == 1) && Covers(|rest| - 1, left', pageSize)
    ensures var (pages, err) := Pages(fetch, g, job, pageSize, |rows|, curr);
      err.None? && |pages| >= 1 && Covers(|pages| - 1, |rows| - curr, pageSize)
  {
    assert fetch(g, job, curr) == Success(Table(columns, Window(rows, curr, pageSize)));
    PagesStep(fetch, g, job, pageSize, |rows|, curr);
    var rest := Pages(fetch, g, job, pageSize, |rows|, curr + pageSize).0;
    var left' := if curr + pageSize <= |rows| then |rows| - curr - pageSize else 0;
    CeilStep(|rest| - 1, |rows| - curr, left', pageSize);
  }

  /** n pages of `pageSize` rows are the fewest that hold `left` rows. */
  ghost predicate Covers(n: int, left: int, pageSize: int) {
    n * pageSize >= left && (n - 1) * pageSize < left
  }

  /** One more page covers one more `pageSize` rows. */
  lemma CeilStep(n': int, left: int, left': int, pageSize: int)
    requires pageSize >= 1 && left > 0
    requires left' == (if left >= pageSize then left - pageSize else 0)
    requires left' == 0 ==> n' == 0
    requires Covers(n', left', pageSize)
    ensures Covers(n' + 1, left, pageSize)
  {
    assert (n' + 1) * pageSize == n' * pageSize + pageSize;
    assert n' * pageSize == (n' - 1) * pageSize + pageSize;
  }

  lemma {:induction false} PageRowsFrom(fetch: (Engine, Job, int) -> Result<Table, Error>, g: Engine, job: Job,
                                        pageSize: int, columns: seq<Column>, rows: seq<Row>, curr: int)
    requires pageSize >= 1 && 0 <= curr && Pager(fetch, pageSize, columns, rows) && Finite(fetch, |rows|)
    ensures PageRows(Pages(fetch, g, job, pageSize, |rows|, curr).0) == rows[if curr <= |rows| then curr else |rows|..]
    decreases |rows| - curr
  {
    if curr < |rows| {
      PageRowsFrom(fetch, g, job, pageSize, columns, rows, curr + pageSize);
      PageRowsStep(fetch, g, job, pageSize, columns, rows, curr);
    } else {
      PageRowsLast(fetch, g, job, pageSize, columns, rows, curr);
    }
  }

  /** A full page followed by the rest of the table is the table from the
      page's offset. */
  lemma PageRowsStep(fetch: (Engine, Job, int) -> Result<Table, Error>, g: Engine, job: Job,
                     pageSize: int, columns: seq<Column>, rows: seq<Row>, curr: int)
    requires pageSize >= 1 && 0 <= curr < |rows| && Pager(fetch, pageSize, columns, rows) && Finite(fetch, |rows|)
    requires PageRows(Pages(fetch, g, job, pageSize, |rows|, curr + pageSize).0)
      == rows[if curr + pageSize <= |rows| then curr + pageSize else |rows|..]
    ensures PageRows(Pages(fetch, g, job, pageSize, |rows|, curr).0) == rows[curr..]
  {
    var page := fetch(g, job, curr);
    assert page == Success(Table(columns, Window(rows, curr, pageSize)));
    PagesStep(fetch, g, job, pageSize, |rows|, curr);
    PageRowsCons(page.value, Pages(fetch, g, job, pageSize, |rows|, curr + pageSize).0);
    WindowThenRest(rows, curr, pageSize);
  }

  /** Past the table's end the one page is empty. */
  lemma PageRowsLast(fetch: (Engine, Job, int) -> Result<Table, Error>, g: Engine, job: Job,
                     pageSize: int, columns: seq<Column>, rows: seq<Row>, curr: int)
    requires pageSize >= 1 && |rows| <= curr && Pager(fetch, pageSize, columns, rows) && Finite(fetch, |rows|)
    ensures PageRows(Pages(fetch, g, job, pageSize, |rows|, curr).0) == []
  {
    var page := fetch(g, job, curr);
    assert page == Success(Table(columns, []));
    PageRowsCons(page.value, []);
  }

  lemma PageRowsCons(page: Table, rest: seq<Table>)
    ensures PageRows([page] + rest) == page.rows + PageRows(rest)
  {
    assert ([page] + rest)[1..] == rest;
  }

  /** A window followed by the rows after it is the rows from its start. */
  lemma WindowThenRest(rows: seq<Row>, k: int, pageSize: int)
    requires 0 <= k < |rows| && pageSize >= 1
    ensures Window(rows, k, pageSize) + rows[if k + pageSize <= |rows| then k + pageSize else |rows|..] == rows[k..]
  {
    var e := if k + pageSize <= |rows| then k + pageSize else |rows|;
    assert rows[k..] == rows[k..e] + rows[e..];
  }

  /** The pages of extraction i as channel items. */
  function ItemsOf(pages: seq<Table>, i: nat, job: Job): (items: seq<Item>)
    ensures |items| == |pages|
    ensures forall k :: 0 <= k < |pages| ==> items[k] == Item(pages[k], i, job)
  {
    if pages == [] then [] else [Item(pages[0], i, job)] + ItemsOf(pages[1..], i, job)
  }

  /** `this` in `ExchangeBase`; `DBExchangeFactory.Create(e.Origin.DbType)`
      in the later revisions. */
  function Fetcher(rev: Revision, self: Engine, job: Job): Completion<Engine> {
    if rev == ExchangeBaseLoop then Returned(self) else DBExchangeFactory.Create(job.origin.dbType)
  }

  /** What the producer leaves: the channel's items and the errors list. */
  datatype Produced = Produced(items: seq<Item>, errors: seq<Option<Error>>)

  /** The producer over extractions i and after: every extraction's pages
      in list order. A fetcher that cannot be built faults the producer
      (the channel is then never completed). */
  function Produce(rev: Revision, self: Engine, fetch: (Engine, Job, int) -> Result<Table, Error>,
                   pageSize: int, bound: int, jobs: seq<Job>, i: nat): Completion<Produced>
    requires pageSize >= 1 && Finite(fetch, bound) && i <= |jobs|
    decreases |jobs| - i
  {
    if i == |jobs| then Returned(Produced([], []))
    else
      match Fetcher(rev, self, jobs[i])
      case Threw(ex) => Threw(ex)
      case Returned(g) =>
        var (pages, err) := Pages(fetch, g, jobs[i], pageSize, bound, 0);
        match Produce(rev, self, fetch, pageSize, bound, jobs, i + 1)
        case Threw(ex) => Threw(ex)
        case Returned(rest) =>
          Returned(Produced(ItemsOf(pages, i, jobs[i]) + rest.items,
                            (if err.Some? then [err] else []) + rest.errors))
  }

  /** A later revision's producer faults exactly when some extraction's
      origin type is not one the factory accepts; `ExchangeBase`'s never
      does. */
  lemma {:induction false} ProduceFaults(rev: Revision, self: Engine,
                                         fetch: (Engine, Job, int) -> Result<Table, Error>,
                                         pageSize: int, bound: int, jobs: seq<Job>, i: nat)
    requires pageSize >= 1 && Finite(fetch, bound) && i <= |jobs|
    ensures Produce(rev, self, fetch, pageSize, bound, jobs, i).Threw? <==>
      rev != ExchangeBaseLoop && exists j :: i <= j < |jobs| && DBExchangeFactory.Create(jobs[j].origin.dbType).Threw?
    decreases |jobs| - i
  {
    if i < |jobs| {
      ProduceFaults(rev, self, fetch, pageSize, bound, jobs, i + 1);
      if rev != ExchangeBaseLoop && DBExchangeFactory.Create(jobs[i].origin.dbType).Threw? {
        assert Fetcher(rev, self, jobs[i]).Threw?;
      }
    }
  }

  /** Every error the producer records is a real one, at most one per
      extraction, and the items of each extraction are contiguous and in
      list order. */
  lemma ProducedShape(rev: Revision, self: Engine,
                      fetch: (Engine, Job, int) -> Result<Table, Error>,
                      pageSize: int, bound: int, jobs: seq<Job>, i: nat)
    requires pageSize >= 1 && Finite(fetch, bound) && i <= |jobs|
    requires Produce(rev, self, fetch, pageSize, bound, jobs, i).Returned?
    ensures var p := Produce(rev, self, fetch, pageSize, bound, jobs, i).value;
      |p.errors| <= |jobs| - i
      && (forall k :: 0 <= k < |p.errors| ==> p.errors[k].Some?)
      && (forall k :: 0 <= k < |p.items| ==>
            i <= p.items[k].extraction < |jobs| && p.items[k].job == jobs[p.items[k].extraction])
      && (forall k, l :: 0 <= k < l < |p.items| ==> p.items[k].extraction <= p.items[l].extraction)
  {
    ProducedErrors(rev, self, fetch, pageSize, bound, jobs, i);
    ProducedItems(rev, self, fetch, pageSize, bound, jobs, i);
    ProducedOrder(rev, self, fetch, pageSize, bound, jobs, i);
  }

  lemma {:induction false} ProducedErrors(rev: Revision, self: Engine,
                                          fetch: (Engine, Job, int) -> Result<Table, Error>,
                                          pageSize: int, bound: int, jobs: seq<Job>, i: nat)
    requires pageSize >= 1 && Finite(fetch, bound) && i <= |jobs|
    requires Produce(rev, self, fetch, pageSize, bound, jobs, i).Returned?
    ensures var p := Produce(rev, self, fetch, pageSize, bound, jobs, i).value;
      |p.errors| <= |jobs| - i && (forall k :: 0 <= k < |p.errors| ==> p.errors[k].Some?)
    decreases |jobs| - i
  {
    if i < |jobs| {
      ProducedErrors(rev, self, fetch, pageSize, bound, jobs, i + 1);
    }
  }

  lemma {:induction false} ProducedItems(rev: Revision, self: Engine,
                                         fetch: (Engine, Job, int) -> Result<Table, Error>,
                                         pageSize: int, bound: int, jobs: seq<Job>, i: nat)
    requires pageSize >= 1 && Finite(fetch, bound) && i <= |jobs|
    requires Produce(rev, self, fetch, pageSize, bound, jobs, i).Returned?
    ensures var p := Produce(rev, self, fetch, pageSize, bound, jobs, i).value;
      forall k :: 0 <= k < |p.items| ==>
        i <= p.items[k].extraction < |jobs| && p.items[k].job == jobs[p.items[k].extraction]
    decreases |jobs| - i
  {
    if i < |jobs| {
      ProducedItems(rev, self, fetch, pageSize, bound, jobs, i + 1);
      var g := Fetcher(rev, self, jobs[i]).value;
      var here := ItemsOf(Pages(fetch, g, jobs[i], pageSize, bound, 0).0, i, jobs[i]);
      var rest := Produce(rev, self, fetch, pageSize, bound, jobs, i + 1).value;
      var p := Produce(rev, self, fetch, pageSize, bound, jobs, i).value;
      assert p.items == here + rest.items;
      forall k | 0 <= k < |p.items|
        ensures i <= p.items[k].extraction < |jobs| && p.items[k].job == jobs[p.items[k].extraction]
      {
        if k >= |here| {
          assert p.items[k] == rest.items[k - |here|];
        }
      }
    }
  }

  lemma {:induction false} ProducedOrder(rev: Revision, self: Engine,
                                         fetch: (Engine, Job, int) -> Result<Table, Error>,
                                         pageSize: int, bound: int, jobs: seq<Job>, i: nat)
    requires pageSize >= 1 && Finite(fetch, bound) && i <= |jobs|
    requires Produce(rev, self, fetch, pageSize, bound, jobs, i).Returned?
    ensures InOrderFrom(Produce(rev, self, fetch, pageSize, bound, jobs, i).value.items, i)
    decreases |jobs| - i
  {
    if i < |jobs| {
      ProducedOrder(rev, self, fetch, pageSize, bound, jobs, i + 1);
      var g := Fetcher(rev, self, jobs[i]).value;
      var here := ItemsOf(Pages(fetch, g, jobs[i], pageSize, bound, 0).0, i, jobs[i]);
      var rest := Produce(rev, self, fetch, pageSize, bound, jobs, i + 1).value;
      var p := Produce(rev, self, fetch, pageSize, bound, jobs, i).value;
      assert p.items == here + rest.items;
      OrderedFrom(here, rest.items, i);
    }
  }

  /** Items are in extraction order, none before extraction i. */
  ghost predicate InOrderFrom(items: seq<Item>, i: nat) {
    (forall k :: 0 <= k < |items| ==> i <= items[k].extraction)
    && (forall k, l :: 0 <= k < l < |items| ==> items[k].extraction <= items[l].extraction)
  }

  /** Extraction i's items followed by items of later extractions, in
      order, are in order. */
  lemma OrderedFrom(here: seq<Item>, rest: seq<Item>, i: nat)
    requires forall k :: 0 <= k < |here| ==> here[k].extraction == i
    requires InOrderFrom(rest, i + 1)
    ensures InOrderFrom(here + rest, i)
  {
    var all := here + rest;
    forall k, l | 0 <= k < l < |all|
      ensures all[k].extraction <= all[l].extraction
    {
      if l < |here| {
        assert all[k] == here[k] && all[l] == here[l];
      } else if k < |here| {
        assert all[k] == here[k] && all[l] == rest[l - |here|];
      } else {
        assert all[k] == rest[k - |here|] && all[l] == rest[l - |here|];
      }
    }
    forall k | 0 <= k < |all|
      ensures i <= all[k].extraction
    {
      if k >= |here| {
        assert all[k] == rest[k - |here|];
      }
    }
  }

  // -------------------------------------------------------------------
  // The consumer.

  /** The channel drained `consumerFetchMax` items at a time. */
  function Batches(queue: seq<Item>, fetchMax: int): seq<seq<Item>>
    requires fetchMax >= 1
    decreases |queue|
  {
    if queue == [] then []
    else
      var n := if fetchMax <= |queue| then fetchMax else |queue|;
      [queue[..n]] + Batches(queue[n..], fetchMax)
  }

  function Flatten<T>(chunks: seq<seq<T>>): seq<T> {
    if chunks == [] then [] else chunks[0] + Flatten(chunks[1..])
  }

  /** Each batch holds between one and `consumerFetchMax` items, and the
      batches together are the channel's items in order. */
  lemma {:induction false} BatchesShape(queue: seq<Item>, fetchMax: int)
    requires fetchMax >= 1
    ensures forall k :: 0 <= k < |Batches(queue, fetchMax)| ==> 1 <= |Batches(queue, fetchMax)[k]| <= fetchMax
    ensures Flatten(Batches(queue, fetchMax)) == queue
    decreases |queue|
  {
    if queue != [] {
      var n := if fetchMax <= |queue| then fetchMax else |queue|;
      BatchesShape(queue[n..], fetchMax);
      assert queue == queue[..n] + queue[n..];
    }
  }

  function Extractions(batch: seq<Item>): (ks: seq<nat>)
    ensures |ks| == |batch|
    ensures forall k :: 0 <= k < |batch| ==> ks[k] == batch[k].extraction
  {
    if batch == [] then [] else [batch[0].extraction] + Extractions(batch[1..])
  }

  /** The items of one extraction, in batch order. */
  function GroupItems(batch: seq<Item>, key: nat): (r: seq<Item>)
    ensures forall k :: 0 <= k < |r| ==> r[k] in batch && r[k].extraction == key
  {
    if batch == [] then []
    else (if batch[0].extraction == key then [batch[0]] else []) + GroupItems(batch[1..], key)
  }

  function Tables(items: seq<Item>): (ts: seq<Table>)
    ensures |ts| == |items|
    ensures forall k :: 0 <= k < |items| ==> ts[k] == items[k].table
  {
    if items == [] then [] else [items[0].table] + Tables(items[1..])
  }

  /** A table merged from `Converter.MergeDataTables`; the other branch is
      the empty list, which no group is. */
  function MergedGroup(tables: seq<Table>): Table {
    match Converter.Merged(Some(tables))
    case Returned(t) => t
    case Threw(_) => Table([], [])
  }

  /** `fetchedData.GroupBy(e => e.Item2).Select(...)`: one merged table per
      extraction, the extractions in order of first appearance. */
  function GroupKeys(batch: seq<Item>): seq<nat> {
    AppCommon.Distinct(Extractions(batch))
  }

  function GroupsOf(batch: seq<Item>, keys: seq<nat>): (groups: seq<(Table, Job)>)
    requires batch != []
    ensures |groups| == |keys|
  {
    if keys == [] then []
    else
      var items := GroupItems(batch, keys[0]);
      var job := if items == [] then batch[0].job else items[0].job;
      [(MergedGroup(Tables(items)), job)] + GroupsOf(batch, keys[1..])
  }

  function Groups(batch: seq<Item>): seq<(Table, Job)>
    requires batch != []
  {
    GroupsOf(batch, GroupKeys(batch))
  }

  lemma {:induction false} GroupHasItem(batch: seq<Item>, k: int)
    requires 0 <= k < |batch|
    ensures batch[k] in GroupItems(batch, batch[k].extraction)
  {
    if k > 0 {
      GroupHasItem(batch[1..], k - 1);
      assert batch[1..][k - 1] == batch[k];
    }
  }

  /** A batch yields exactly one group per extraction present in it, none
      twice, and each group's table is the merge of that extraction's pages
      in batch order, under the extraction's own job. */
  lemma GroupsPerExtraction(batch: seq<Item>)
    requires batch != []
    ensures AppCommon.NoDup(GroupKeys(batch))
    ensures forall k :: 0 <= k < |batch| ==> batch[k].extraction in GroupKeys(batch)
    ensures forall i :: 0 <= i < |GroupKeys(batch)| ==> GroupKeys(batch)[i] in Extractions(batch)
    ensures |Groups(batch)| == |GroupKeys(batch)|
    ensures forall i :: 0 <= i < |GroupKeys(batch)| ==>
      var items := GroupItems(batch, GroupKeys(batch)[i]);
      items != [] && Groups(batch)[i] == (MergedGroup(Tables(items)), items[0].job)
  {
    var keys := GroupKeys(batch);
    var ex := Extractions(batch);
    forall k | 0 <= k < |batch|
      ensures batch[k].extraction in keys
    {
      assert ex[k] == batch[k].extraction;
    }
    forall i | 0 <= i < |keys|
      ensures GroupItems(batch, keys[i]) != [] && Groups(batch)[i] == GroupAt(batch, keys, i)
    {
      var k :| 0 <= k < |ex| && ex[k] == keys[i];
      GroupHasItem(batch, k);
      GroupsOfAt(batch, keys, i);
    }
  }

  function GroupAt(batch: seq<Item>, keys: seq<nat>, i: int): (Table, Job)
    requires 0 <= i < |keys| && GroupItems(batch, keys[i]) != []
  {
    var items := GroupItems(batch, keys[i]);
    (MergedGroup(Tables(items)), items[0].job)
  }

  lemma {:induction false} GroupsOfAt(batch: seq<Item>, keys: seq<nat>, i: int)
    requires 0 <= i < |keys| && GroupItems(batch, keys[i]) != []
    requires batch != []
    ensures GroupsOf(batch, keys)[i] == GroupAt(batch, keys, i)
  {
    if i > 0 {
      GroupsOfAt(batch, keys[1..], i - 1);
    }
  }

  /** What the consumer's captured `insert` and `create` hold (None for the
      initial `new()`), and how many destination calls have been made. */
  datatype Held = Held(insert: Option<Result<bool, Error>>, create: Option<Result<bool, Error>>, calls: nat)

  /** `this` in `ExchangeBase`; `DBExchangeFactory.Create(
      e.Extraction.Destination.DbType)` in the later revisions. */
  function Inserter(rev: Revision, self: Engine, job: Job): Completion<Engine> {
    if rev == ExchangeBaseLoop then Returned(self) else DBExchangeFactory.Create(job.destination.dbType)
  }

  /** One round of the retry loop: `create` then `insert` for every group,
      in order; an exception ends the consumer. */
  function Round(rev: Revision, self: Engine, o: Oracles, groups: seq<(Table, Job)>, h: Held): Completion<Held>
    decreases |groups|
  {
    if groups == [] then Returned(h)
    else
      var (table, job) := groups[0];
      match Inserter(rev, self, job)
      case Threw(ex) => Threw(ex)
      case Returned(g) =>
        match o.create(h.calls, g, table, job)
        case Threw(ex) => Threw(ex)
        case Returned(c) =>
          Round(rev, self, o, groups[1..], Held(Some(o.write(h.calls + 1, g, table, job)), Some(c), h.calls + 2))
  }

  /** After a round over at least one group, `insert` and `create` hold
      the results of the last group's calls, the last two destination
      calls. */
  lemma {:induction false} RoundKeepsLast(rev: Revision, self: Engine, o: Oracles, groups: seq<(Table, Job)>, h: Held)
    requires groups != [] && Round(rev, self, o, groups, h).Returned?
    ensures var h' := Round(rev, self, o, groups, h).value;
      var (table, job) := groups[|groups| - 1];
      Inserter(rev, self, job).Returned? && h'.create.Some? && h'.calls == h.calls + 2 * |groups|
      && h'.insert == Some(o.write(h'.calls - 1, Inserter(rev, self, job).value, table, job))
      && o.create(h'.calls - 2, Inserter(rev, self, job).value, table, job) == Returned(h'.create.value)
    decreases |groups|
  {
    var (table, job) := groups[0];
    var g := Inserter(rev, self, job).value;
    var c := o.create(h.calls, g, table, job).value;
    var next := Held(Some(o.write(h.calls + 1, g, table, job)), Some(c), h.calls + 2);
    if |groups| > 1 {
      RoundKeepsLast(rev, self, o, groups[1..], next);
      assert groups[1..][|groups[1..]| - 1] == groups[|groups| - 1];
    }
  }

  /** The retry condition of the `do ... while`: `!insert.IsSuccessful` in
      `ExchangeBase`, `!insert.IsSuccessful || !create.IsSuccessful` in the
      later revisions. */
  predicate Again(rev: Revision, h: Held) {
    !SucceededHeld(h.insert) || (rev != ExchangeBaseLoop && !SucceededHeld(h.create))
  }

  /** The `do { attempt++; ... } while (Again && attempt < max)` from
      `attempt` rounds done: the number of rounds run and what `insert` and
      `create` hold after them. */
  function Retry(rev: Revision, self: Engine, o: Oracles, groups: seq<(Table, Job)>,
                 attemptMax: int, attempt: int, h: Held): Completion<(int, Held)>
    decreases attemptMax - attempt
  {
    match Round(rev, self, o, groups, h)
    case Threw(ex) => Threw(ex)
    case Returned(h') =>
      if Again(rev, h') && attempt + 1 < attemptMax then Retry(rev, self, o, groups, attemptMax, attempt + 1, h')
      else Returned((attempt + 1, h'))
  }

  /** At least one round runs, and at most max(1, ConsumerAttemptMax); the
      rounds stop early only on a round that succeeded. */
  lemma {:induction false} RetryBounds(rev: Revision, self: Engine, o: Oracles, groups: seq<(Table, Job)>,
                                       attemptMax: int, attempt: int, h: Held)
    requires 0 <= attempt
    requires Retry(rev, self, o, groups, attemptMax, attempt, h).Returned?
    ensures var (rounds, h') := Retry(rev, self, o, groups, attemptMax, attempt, h).value;
      attempt + 1 <= rounds && (rounds <= attemptMax || rounds == attempt + 1)
      && (rounds < attemptMax ==> !Again(rev, h'))
    decreases attemptMax - attempt
  {
    var h' := Round(rev, self, o, groups, h).value;
    if Again(rev, h') && attempt + 1 < attemptMax {
      RetryBounds(rev, self, o, groups, attemptMax, attempt + 1, h');
    }
  }

  /** `if (attempt > ConsumerAttemptMax) errors.Add(insert.Error!)`. */
  function Exhaustion(attemptMax: int, attempt: int, h: Held): seq<Option<Error>> {
    if attempt > attemptMax then [ErrorOrNull(h.insert)] else []
  }

  /** The consumer's state between batches. */
  datatype Consumer = Consumer(held: Held, errors: seq<Option<Error>>)

  /** One turn of `while (await channel.Reader.WaitToReadAsync())` on a
      drained batch. */
  function ConsumeBatch(rev: Revision, self: Engine, o: Oracles, attemptMax: int,
                        batch: seq<Item>, c: Consumer): Completion<Consumer>
    requires batch != []
  {
    match Retry(rev, self, o, Groups(batch), attemptMax, 0, c.held)
    case Threw(ex) => Threw(ex)
    case Returned((attempt, h)) => Returned(Consumer(h, c.errors + Exhaustion(attemptMax, attempt, h)))
  }

  function ConsumeAll(rev: Revision, self: Engine, o: Oracles, attemptMax: int,
                      batches: seq<seq<Item>>, c: Consumer): Completion<Consumer>
    requires forall k :: 0 <= k < |batches| ==> batches[k] != []
    decreases |batches|
  {
    if batches == [] then Returned(c)
    else
      match ConsumeBatch(rev, self, o, attemptMax, batches[0], c)
      case Threw(ex) => Threw(ex)
      case Returned(c') => ConsumeAll(rev, self, o, attemptMax, batches[1..], c')
  }

  /** The consumer over the channel's items, batch after batch. */
  function Consumed(rev: Revision, self: Engine, o: Oracles, fetchMax: int, attemptMax: int,
                    queue: seq<Item>, c: Consumer): Completion<Consumer>
    requires fetchMax >= 1
  {
    BatchesShape(queue, fetchMax);
    ConsumeAll(rev, self, o, attemptMax, Batches(queue, fetchMax), c)
  }

  /** How `ChannelParallelize` ends: `Faulted` when a task faulted (the
      call then throws or never returns), else its result and the errors
      list it built. */
  datatype Outcome =
    | Faulted(exception: Exception)
    | Finished(result: Result<bool, seq<Option<Error>>>, errors: seq<Option<Error>>)

  /** The value returned: `AppCommon.Success` in `ExchangeBase` and
      `DataExtraction`, the errors list in `ParallelExtractionManager` when
      it is not empty. */
  function Report(rev: Revision, errors: seq<Option<Error>>): (r: Result<bool, seq<Option<Error>>>)
    ensures r.IsSuccessful() <==> rev != ManagerLoop || errors == []
    ensures r.IsSuccessful() ==> r.value
    ensures !r.IsSuccessful() ==> r.error == errors
  {
    if rev == ManagerLoop && |errors| > 0 then Failure(errors) else Success(true)
  }

  /** The whole run: producer, then consumer, then the report. */
  function Run(rev: Revision, self: Engine, o: Oracles, s: Settings, jobs: seq<Job>, bound: int): Outcome
    requires s.producerLineMax >= 1 && s.consumerFetchMax >= 1 && Finite(o.fetch, bound)
  {
    match Produce(rev, self, o.fetch, s.producerLineMax, bound, jobs, 0)
    case Threw(ex) => Faulted(ex)
    case Returned(p) =>
      match Consumed(rev, self, o, s.consumerFetchMax, s.consumerAttemptMax, p.items, Consumer(Held(None, None, 0), p.errors))
      case Threw(ex) => Faulted(ex)
      case Returned(c) => Finished(Report(rev, c.errors), c.errors)
  }

  // -------------------------------------------------------------------
  // Finding: the retry-exhausted error.

  /** As written, with `ConsumerAttemptMax >= 1` a batch never adds an
      error, however its last round ended: the loop stops at attempt ==
      ConsumerAttemptMax, and the exhaustion test asks for attempt > ConsumerAttemptMax. */
  lemma ExhaustionUnreachable(rev: Revision, self: Engine, o: Oracles, attemptMax: int,
                              batch: seq<Item>, c: Consumer)
    requires attemptMax >= 1 && batch != []
    requires ConsumeBatch(rev, self, o, attemptMax, batch, c).Returned?
    ensures ConsumeBatch(rev, self, o, attemptMax, batch, c).value.errors == c.errors
  {
    RetryBounds(rev, self, o, Groups(batch), attemptMax, 0, c.held);
  }

  /** A run in which every write fails still reports success, from every
      revision: a single page-free extraction whose only page can never be
      written. */
  lemma FailedWritesReportSuccess(rev: Revision, self: Engine, o: Oracles, s: Settings, job: Job)
    requires s.producerLineMax >= 1 && s.consumerFetchMax >= 1 && s.consumerAttemptMax >= 1
    requires forall g, j, k :: o.fetch(g, j, k) == Success(Table([], []))
    requires forall n, g, t, j :: o.create(n, g, t, j) == Returned(Success(true))
    requires forall n, g, t, j :: o.write(n, g, t, j) == Failure(Error("write failed", "BulkInsert", false))
    requires rev != ExchangeBaseLoop ==>
      DBExchangeFactory.Create(job.origin.dbType).Returned? && DBExchangeFactory.Create(job.destination.dbType).Returned?
    ensures Finite(o.fetch, 0)
    ensures Run(rev, self, o, s, [job], 0) == Finished(Success(true), [])
  {
    EmptyOriginOnePage(rev, self, o.fetch, s.producerLineMax, job);
    var items := [Item(Table([], []), 0, job)];
    OnePageConsumed(rev, self, o, s.consumerFetchMax, s.consumerAttemptMax, items);
  }

  /** The consumer of a run whose one item can never be written, as
      written: it returns and has recorded no error. */
  lemma OnePageConsumed(rev: Revision, self: Engine, o: Oracles, fetchMax: int, attemptMax: int, items: seq<Item>)
    requires fetchMax >= 1 && attemptMax >= 1 && |items| == 1
    requires forall n, g, t, j :: o.create(n, g, t, j).Returned?
    requires Inserter(rev, self, items[0].job).Returned?
    ensures Consumed(rev, self, o, fetchMax, attemptMax, items, Consumer(Held(None, None, 0), [])).Returned?
    ensures Consumed(rev, self, o, fetchMax, attemptMax, items, Consumer(Held(None, None, 0), [])).value.errors == []
  {
    assert items[..1] == items && items[1..] == [];
    assert Batches(items, fetchMax) == [items];
    InsertersBuilt(rev, self, items);
    OneBatchNoErrors(rev, self, o, attemptMax, items);
  }

  /** When every item's inserter can be built, so can every group's. */
  lemma InsertersBuilt(rev: Revision, self: Engine, batch: seq<Item>)
    requires batch != []
    requires forall k :: 0 <= k < |batch| ==> Inserter(rev, self, batch[k].job).Returned?
    ensures forall i :: 0 <= i < |Groups(batch)| ==> Inserter(rev, self, Groups(batch)[i].1).Returned?
  {
    GroupsPerExtraction(batch);
    var keys := GroupKeys(batch);
    forall i | 0 <= i < |Groups(batch)|
      ensures Inserter(rev, self, Groups(batch)[i].1).Returned?
    {
      var items := GroupItems(batch, keys[i]);
      assert items[0] in batch;
    }
  }

  /** As written, a single batch whose rounds all return adds no error. */
  lemma OneBatchNoErrors(rev: Revision, self: Engine, o: Oracles, attemptMax: int, items: seq<Item>)
    requires attemptMax >= 1 && items != []
    requires forall n, g, t, j :: o.create(n, g, t, j).Returned?
    requires forall i :: 0 <= i < |Groups(items)| ==> Inserter(rev, self, Groups(items)[i].1).Returned?
    ensures ConsumeAll(rev, self, o, attemptMax, [items], Consumer(Held(None, None, 0), [])).Returned?
    ensures ConsumeAll(rev, self, o, attemptMax, [items], Consumer(Held(None, None, 0), [])).value.errors == []
  {
    var start := Consumer(Held(None, None, 0), []);
    RetryNeverThrows(rev, self, o, Groups(items), attemptMax, 0, start.held);
    ExhaustionUnreachable(rev, self, o, attemptMax, items, start);
    var consumed := ConsumeBatch(rev, self, o, attemptMax, items, start);
    assert [items][1..] == [];
    assert ConsumeAll(rev, self, o, attemptMax, [items], start) == ConsumeAll(rev, self, o, attemptMax, [], consumed.value);
  }

  /** An empty origin table yields its one empty page and no error. */
  lemma EmptyOriginOnePage(rev: Revision, self: Engine, fetch: (Engine, Job, int) -> Result<Table, Error>,
                           pageSize: int, job: Job)
    requires pageSize >= 1 && Fetcher(rev, self, job).Returned?
    requires forall g, j, k :: fetch(g, j, k) == Success(Table([], []))
    ensures Finite(fetch, 0)
    ensures Produce(rev, self, fetch, pageSize, 0, [job], 0) == Returned(Produced([Item(Table([], []), 0, job)], []))
  {
    assert Finite(fetch, 0) by {
      forall g, j, k | k >= 0
        ensures Exhausted(fetch(g, j, k))
      {
        assert fetch(g, j, k) == Success(Table([], []));
      }
    }
    var g := Fetcher(rev, self, job).value;
    assert fetch(g, job, 0) == Success(Table([], []));
    assert Pages(fetch, g, job, pageSize, 0, 0) == ([Table([], [])], None);
    ProduceSingle(rev, self, fetch, pageSize, 0, job);
    assert ItemsOf([Table([], [])], 0, job) == [Item(Table([], []), 0, job)];
  }

  /** The producer over a single extraction. */
  lemma ProduceSingle(rev: Revision, self: Engine, fetch: (Engine, Job, int) -> Result<Table, Error>,
                      pageSize: int, bound: int, job: Job)
    requires pageSize >= 1 && Finite(fetch, bound) && Fetcher(rev, self, job).Returned?
    ensures var (pages, err) := Pages(fetch, Fetcher(rev, self, job).value, job, pageSize, bound, 0);
      Produce(rev, self, fetch, pageSize, bound, [job], 0)
        == Returned(Produced(ItemsOf(pages, 0, job), if err.Some? then [err] else []))
  {
    assert Produce(rev, self, fetch, pageSize, bound, [job], 1) == Returned(Produced([], []));
    var (pages, err) := Pages(fetch, Fetcher(rev, self, job).value, job, pageSize, bound, 0);
    assert ItemsOf(pages, 0, job) + [] == ItemsOf(pages, 0, job);
    assert (if err.Some? then [err] else []) + [] == (if err.Some? then [err] else []);
  }

  /** With creates that return and inserters the factory builds, no round
      throws. */
  lemma {:induction false} RetryNeverThrows(rev: Revision, self: Engine, o: Oracles, groups: seq<(Table, Job)>,
                                            attemptMax: int, attempt: int, h: Held)
    requires forall n, g, t, j :: o.create(n, g, t, j).Returned?
    requires forall i :: 0 <= i < |groups| ==> Inserter(rev, self, groups[i].1).Returned?
    ensures Retry(rev, self, o, groups, attemptMax, attempt, h).Returned?
    decreases attemptMax - attempt
  {
    RoundNeverThrows(rev, self, o, groups, h);
    var h' := Round(rev, self, o, groups, h).value;
    if Again(rev, h') && attempt + 1 < attemptMax {
      RetryNeverThrows(rev, self, o, groups, attemptMax, attempt + 1, h');
    }
  }

  lemma {:induction false} RoundNeverThrows(rev: Revision, self: Engine, o: Oracles, groups: seq<(Table, Job)>, h: Held)
    requires forall n, g, t, j :: o.create(n, g, t, j).Returned?
    requires forall i :: 0 <= i < |groups| ==> Inserter(rev, self, groups[i].1).Returned?
    ensures Round(rev, self, o, groups, h).Returned?
    decreases |groups|
  {
    if groups != [] {
      var (table, job) := groups[0];
      var g := Inserter(rev, self, job).value;
      var c := o.create(h.calls, g, table, job).value;
      RoundNeverThrows(rev, self, o, groups[1..], Held(Some(o.write(h.calls + 1, g, table, job)), Some(c), h.calls + 2));
    }
  }

  /** With `ConsumerAttemptMax <= 0` one round runs and an entry is always
      added: a null one when that round's insert succeeded. */
  lemma NullErrorLogged(rev: Revision, self: Engine, o: Oracles, attemptMax: int,
                        batch: seq<Item>, c: Consumer)
    requires attemptMax <= 0 && batch != []
    requires ConsumeBatch(rev, self, o, attemptMax, batch, c).Returned?
    ensures var c' := ConsumeBatch(rev, self, o, attemptMax, batch, c).value;
      c'.errors == c.errors + [ErrorOrNull(c'.held.insert)]
      && (SucceededHeld(c'.held.insert) ==> c'.errors[|c.errors|] == None)
  {
    RetryBounds(rev, self, o, Groups(batch), attemptMax, 0, c.held);
  }

  /** The error that makes a failed round fail: the last insert's, or else
      the last create's. */
  function FailureOf(h: Held): Option<Error> {
    if ErrorOrNull(h.insert).Some? then ErrorOrNull(h.insert) else ErrorOrNull(h.create)
  }

  /** The evident intent: once the rounds are used up and the last one
      still failed, record why. */
  function IntendedExhaustion(rev: Revision, attemptMax: int, attempt: int, h: Held): seq<Option<Error>> {
    if attempt >= attemptMax && Again(rev, h) then [FailureOf(h)] else []
  }

  function IntendedConsumeBatch(rev: Revision, self: Engine, o: Oracles, attemptMax: int,
                                batch: seq<Item>, c: Consumer): Completion<Consumer>
    requires batch != []
  {
    match Retry(rev, self, o, Groups(batch), attemptMax, 0, c.held)
    case Threw(ex) => Threw(ex)
    case Returned((attempt, h)) => Returned(Consumer(h, c.errors + IntendedExhaustion(rev, attemptMax, attempt, h)))
  }

  /** With the intended check a batch adds an error exactly when its last
      round failed, and that error is a real one. */
  lemma IntendedExhaustionReports(rev: Revision, self: Engine, o: Oracles, attemptMax: int,
                                  batch: seq<Item>, c: Consumer)
    requires batch != []
    requires IntendedConsumeBatch(rev, self, o, attemptMax, batch, c).Returned?
    ensures var c' := IntendedConsumeBatch(rev, self, o, attemptMax, batch, c).value;
      (|c'.errors| == |c.errors| + 1 <==> Again(rev, c'.held))
      && c.errors <= c'.errors
      && (Again(rev, c'.held) ==> c'.errors[|c.errors|].Some?)
  {
    var groups := Groups(batch);
    GroupsPerExtraction(batch);
    RetryBounds(rev, self, o, groups, attemptMax, 0, c.held);
    RetryHoldsLast(rev, self, o, groups, attemptMax, 0, c.held);
    var (attempt, h') := Retry(rev, self, o, groups, attemptMax, 0, c.held).value;
    IntendedEntry(rev, attemptMax, attempt, h');
    assert IntendedConsumeBatch(rev, self, o, attemptMax, batch, c).value
      == Consumer(h', c.errors + IntendedExhaustion(rev, attemptMax, attempt, h'));
  }

  /** Once both results are held and the loop ran out of rounds or ended on
      success, the intended check adds one real error exactly when the last
      round failed. */
  lemma IntendedEntry(rev: Revision, attemptMax: int, attempt: int, h: Held)
    requires h.insert.Some? && h.create.Some?
    requires attempt < attemptMax ==> !Again(rev, h)
    ensures |IntendedExhaustion(rev, attemptMax, attempt, h)| == (if Again(rev, h) then 1 else 0)
    ensures Again(rev, h) ==> IntendedExhaustion(rev, attemptMax, attempt, h)[0].Some?
  {
  }

  /** After the rounds over at least one group, both captured results are
      assigned. */
  lemma {:induction false} RetryHoldsLast(rev: Revision, self: Engine, o: Oracles, groups: seq<(Table, Job)>,
                                          attemptMax: int, attempt: int, h: Held)
    requires groups != []
    requires Retry(rev, self, o, groups, attemptMax, attempt, h).Returned?
    ensures var h' := Retry(rev, self, o, groups, attemptMax, attempt, h).value.1;
      h'.insert.Some? && h'.create.Some?
    decreases attemptMax - attempt
  {
    RoundKeepsLast(rev, self, o, groups, h);
    var h' := Round(rev, self, o, groups, h).value;
    if Again(rev, h') && attempt + 1 < attemptMax {
      RetryHoldsLast(rev, self, o, groups, attemptMax, attempt + 1, h');
    }
  }

  // -------------------------------------------------------------------
  // The loops as written.

  /** `Channel<(DataTable, Extraction)>`: the items written and not yet
      read, and whether the writer has been completed. */
  class Channel {
    var queue: seq<Item>
    var completed: bool

    constructor ()
      ensures queue == [] && !completed
    {
      queue := [];
      completed := false;
    }

    /** `channel.Writer.WriteAsync`. */
    method Write(item: Item)
      requires !completed
      modifies this
      ensures queue == old(queue) + [item] && !completed
    {
      queue := queue + [item];
    }

    /** `channel.Writer.Complete()`. */
    method Complete()
      modifies this
      ensures completed && queue == old(queue)
    {
      completed := true;
    }

    /** `channel.Reader.TryRead(out item)`: the oldest item, if there is
        one. */
    method TryRead() returns (item: Option<Item>)
      modifies this
      ensures item.Some? <==> old(queue) != []
      ensures item.Some? ==> item.value == old(queue)[0] && queue == old(queue)[1..]
      ensures item.None? ==> queue == old(queue)
      ensures completed == old(completed)
    {
      if queue == [] {
        item := None;
      } else {
        item := Some(queue[0]);
        queue := queue[1..];
      }
    }
  }

  /** A computation's items and errors put behind `items` and `errors`. */
  function Ahead(items: seq<Item>, errors: seq<Option<Error>>, c: Completion<Produced>): Completion<Produced> {
    match c
    case Threw(ex) => Threw(ex)
    case Returned(p) => Returned(Produced(items + p.items, errors + p.errors))
  }

  lemma ItemsOfAppend(pages: seq<Table>, page: Table, i: nat, job: Job)
    ensures ItemsOf(pages + [page], i, job) == ItemsOf(pages, i, job) + [Item(page, i, job)]
  {
  }

  /** The pages from offset 0 are `written` followed by those from
      offset `curr`. */
  ghost predicate PagesAhead(fetch: (Engine, Job, int) -> Result<Table, Error>, g: Engine, job: Job,
                             pageSize: int, bound: int, written: seq<Table>, curr: int)
    requires pageSize >= 1 && Finite(fetch, bound)
  {
    var rest := Pages(fetch, g, job, pageSize, bound, curr);
    Pages(fetch, g, job, pageSize, bound, 0) == (written + rest.0, rest.1)
  }

  /** One turn of the paging loop at offset `curr`: a failed fetch ends
      the pages with its error, an empty page is the last page, and any
      other page is followed by those from the next offset, which is still
      below `bound`. */
  lemma PageTurn(fetch: (Engine, Job, int) -> Result<Table, Error>, g: Engine, job: Job,
                 pageSize: int, bound: int, written: seq<Table>, curr: int)
    requires pageSize >= 1 && Finite(fetch, bound) && PagesAhead(fetch, g, job, pageSize, bound, written, curr)
    ensures var attempt := fetch(g, job, curr);
      (!attempt.IsSuccessful() ==> Pages(fetch, g, job, pageSize, bound, 0) == (written, Some(attempt.error)))
      && (attempt.IsSuccessful() && |attempt.value.rows| == 0 ==>
            Pages(fetch, g, job, pageSize, bound, 0) == (written + [attempt.value], None))
      && (attempt.IsSuccessful() && |attempt.value.rows| != 0 ==>
            curr < bound && PagesAhead(fetch, g, job, pageSize, bound, written + [attempt.value], curr + pageSize))
  {
    var attempt := fetch(g, job, curr);
    if !attempt.IsSuccessful() {
      assert written + [] == written;
    } else if |attempt.value.rows| != 0 {
      PagesStep(fetch, g, job, pageSize, bound, curr);
      var rest := Pages(fetch, g, job, pageSize, bound, curr + pageSize);
      assert written + ([attempt.value] + rest.0) == written + [attempt.value] + rest.0;
    }
  }

  /** The producer's `do ... while (hasData)` for extraction i: it writes
      each page it fetches, stops after the first empty page, and on a
      failed fetch writes nothing more and returns the error. */
  method PageExtraction(fetch: (Engine, Job, int) -> Result<Table, Error>, g: Engine, job: Job, i: nat,
                        pageSize: int, ghost bound: int, channel: Channel) returns (err: Option<Error>)
    requires pageSize >= 1 && Finite(fetch, bound) && !channel.completed
    modifies channel
    ensures var (pages, e) := Pages(fetch, g, job, pageSize, bound, 0);
      channel.queue == old(channel.queue) + ItemsOf(pages, i, job) && err == e
    ensures !channel.completed
  {
    var hasData := true;
    var curr := 0;
    ghost var base := channel.queue;
    ghost var written: seq<Table> := [];
    err := None;
    assert [] + Pages(fetch, g, job, pageSize, bound, 0).0 == Pages(fetch, g, job, pageSize, bound, 0).0;
    while hasData
      invariant !channel.completed
      invariant channel.queue == base + ItemsOf(written, i, job)
      invariant hasData ==> PagesAhead(fetch, g, job, pageSize, bound, written, curr)
      invariant !hasData ==> Pages(fetch, g, job, pageSize, bound, 0) == (written, None) && err.None?
      decreases (if curr < bound then bound - curr else 0) + (if hasData then 1 else 0)
    {
      var attempt := fetch(g, job, curr);
      PageTurn(fetch, g, job, pageSize, bound, written, curr);
      if !attempt.IsSuccessful() {
        err := Some(attempt.error);
        break;
      }
      if |attempt.value.rows| == 0 {
        hasData := false;
      }
      curr := curr + pageSize;
      WritePage(channel, base, written, attempt.value, i, job);
      written := written + [attempt.value];
    }
  }

  /** `writer.WriteAsync(...)` of one page of extraction i. */
  method WritePage(channel: Channel, ghost base: seq<Item>, ghost written: seq<Table>, page: Table, i: nat, job: Job)
    requires !channel.completed && channel.queue == base + ItemsOf(written, i, job)
    modifies channel
    ensures !channel.completed && channel.queue == base + ItemsOf(written + [page], i, job)
  {
    ItemsOfAppend(written, page, i, job);
    channel.Write(Item(page, i, job));
  }

  /** `Parallel.ForEachAsync(extractions, ...)` in the producer, one
      extraction after the other, then nothing else: the caller completes
      the writer. A fetcher the factory cannot build ends the producer with
      its exception. */
  method ProduceData(rev: Revision, self: Engine, fetch: (Engine, Job, int) -> Result<Table, Error>,
                     pageSize: int, ghost bound: int, jobs: seq<Job>, channel: Channel, errors0: seq<Option<Error>>)
    returns (fault: Option<Exception>, errors: seq<Option<Error>>)
    requires pageSize >= 1 && Finite(fetch, bound) && !channel.completed
    modifies channel
    ensures var p := Produce(rev, self, fetch, pageSize, bound, jobs, 0);
      (fault.Some? <==> p.Threw?) && (p.Threw? ==> fault.value == p.exception)
      && (p.Returned? ==> channel.queue == old(channel.queue) + p.value.items && errors == errors0 + p.value.errors)
    ensures !channel.completed
  {
    errors := errors0;
    ghost var base := channel.queue;
    ghost var doneItems: seq<Item> := [];
    ghost var doneErrors: seq<Option<Error>> := [];
    AheadNothing(Produce(rev, self, fetch, pageSize, bound, jobs, 0));
    var i := 0;
    while i < |jobs|
      invariant 0 <= i <= |jobs| && !channel.completed
      invariant channel.queue == base + doneItems && errors == errors0 + doneErrors
      invariant Produce(rev, self, fetch, pageSize, bound, jobs, 0)
        == Ahead(doneItems, doneErrors, Produce(rev, self, fetch, pageSize, bound, jobs, i))
    {
      var fetcher := Fetcher(rev, self, jobs[i]);
      if fetcher.Threw? {
        AheadFault(rev, self, fetch, pageSize, bound, jobs, i, doneItems, doneErrors);
        return Some(fetcher.exception), errors;
      }
      errors, doneItems, doneErrors := ProduceStep(rev, self, fetch, pageSize, bound, jobs, i, fetcher.value, channel,
                                                   errors, errors0, base, doneItems, doneErrors);
      i := i + 1;
    }
    AheadDone(rev, self, fetch, pageSize, bound, jobs, doneItems, doneErrors);
    fault := None;
  }

  /** An extraction whose fetcher throws ends the producer with that
      exception, whatever was done before it. */
  lemma AheadFault(rev: Revision, self: Engine, fetch: (Engine, Job, int) -> Result<Table, Error>,
                   pageSize: int, bound: int, jobs: seq<Job>, i: nat,
                   items: seq<Item>, errors: seq<Option<Error>>)
    requires pageSize >= 1 && Finite(fetch, bound) && i < |jobs| && Fetcher(rev, self, jobs[i]).Threw?
    ensures Ahead(items, errors, Produce(rev, self, fetch, pageSize, bound, jobs, i))
      == Threw(Fetcher(rev, self, jobs[i]).exception)
  {
  }

  /** Past the last extraction nothing is left to do. */
  lemma AheadDone(rev: Revision, self: Engine, fetch: (Engine, Job, int) -> Result<Table, Error>,
                  pageSize: int, bound: int, jobs: seq<Job>,
                  items: seq<Item>, errors: seq<Option<Error>>)
    requires pageSize >= 1 && Finite(fetch, bound)
    ensures Ahead(items, errors, Produce(rev, self, fetch, pageSize, bound, jobs, |jobs|))
      == Returned(Produced(items, errors))
  {
    assert items + [] == items;
    assert errors + [] == errors;
  }

  /** One turn of the producer loop whose fetcher was built: what has gone
      into the channel and the errors recorded, followed by what the
      producer does from the next extraction on, is still the whole run. */
  method ProduceStep(rev: Revision, self: Engine, fetch: (Engine, Job, int) -> Result<Table, Error>,
                     pageSize: int, ghost bound: int, jobs: seq<Job>, i: nat, g: Engine, channel: Channel,
                     errors1: seq<Option<Error>>, ghost errors0: seq<Option<Error>>, ghost base: seq<Item>,
                     ghost doneItems: seq<Item>, ghost doneErrors: seq<Option<Error>>)
    returns (errors: seq<Option<Error>>, ghost items: seq<Item>, ghost errs: seq<Option<Error>>)
    requires pageSize >= 1 && Finite(fetch, bound) && !channel.completed && i < |jobs|
    requires Fetcher(rev, self, jobs[i]) == Returned(g)
    requires channel.queue == base + doneItems && errors1 == errors0 + doneErrors
    requires Produce(rev, self, fetch, pageSize, bound, jobs, 0)
      == Ahead(doneItems, doneErrors, Produce(rev, self, fetch, pageSize, bound, jobs, i))
    modifies channel
    ensures !channel.completed
    ensures channel.queue == base + items && errors == errors0 + errs
    ensures Produce(rev, self, fetch, pageSize, bound, jobs, 0)
      == Ahead(items, errs, Produce(rev, self, fetch, pageSize, bound, jobs, i + 1))
  {
    ghost var (pages, e) := Pages(fetch, g, jobs[i], pageSize, bound, 0);
    ghost var here := ItemsOf(pages, i, jobs[i]);
    ghost var found := if e.Some? then [e] else [];
    Text.ConcatAssoc(base, doneItems, here);
    Text.ConcatAssoc(errors0, doneErrors, found);
    errors := ProduceExtraction(fetch, g, jobs[i], i, pageSize, bound, channel, errors1);
    AheadStep(rev, self, fetch, pageSize, bound, jobs, i, doneItems, doneErrors);
    items := doneItems + here;
    errs := doneErrors + found;
  }

  /** The body of the producer's `ForEachAsync` for extraction i once its
      fetcher is built: page it into the channel, and record its error. */
  method ProduceExtraction(fetch: (Engine, Job, int) -> Result<Table, Error>, g: Engine, job: Job, i: nat,
                           pageSize: int, ghost bound: int, channel: Channel, errors0: seq<Option<Error>>)
    returns (errors: seq<Option<Error>>)
    requires pageSize >= 1 && Finite(fetch, bound) && !channel.completed
    modifies channel
    ensures var (pages, e) := Pages(fetch, g, job, pageSize, bound, 0);
      channel.queue == old(channel.queue) + ItemsOf(pages, i, job)
      && errors == errors0 + (if e.Some? then [e] else [])
    ensures !channel.completed
  {
    var err := PageExtraction(fetch, g, job, i, pageSize, bound, channel);
    errors := errors0;
    if err.Some? {
      errors := errors + [err];
    }
  }

  lemma AheadNothing(c: Completion<Produced>)
    ensures Ahead([], [], c) == c
  {
    if c.Returned? {
      assert [] + c.value.items == c.value.items;
      assert [] + c.value.errors == c.value.errors;
    }
  }

  /** One extraction's items and error move from the computation still to
      come to those already done. */
  lemma AheadStep(rev: Revision, self: Engine, fetch: (Engine, Job, int) -> Result<Table, Error>,
                  pageSize: int, bound: int, jobs: seq<Job>, i: nat,
                  items: seq<Item>, errors: seq<Option<Error>>)
    requires pageSize >= 1 && Finite(fetch, bound) && i < |jobs| && Fetcher(rev, self, jobs[i]).Returned?
    ensures var (pages, e) := Pages(fetch, Fetcher(rev, self, jobs[i]).value, jobs[i], pageSize, bound, 0);
      Ahead(items, errors, Produce(rev, self, fetch, pageSize, bound, jobs, i))
        == Ahead(items + ItemsOf(pages, i, jobs[i]), errors + (if e.Some? then [e] else []),
                 Produce(rev, self, fetch, pageSize, bound, jobs, i + 1))
  {
    var (pages, e) := Pages(fetch, Fetcher(rev, self, jobs[i]).value, jobs[i], pageSize, bound, 0);
    var rest := Produce(rev, self, fetch, pageSize, bound, jobs, i + 1);
    if rest.Returned? {
      assert items + (ItemsOf(pages, i, jobs[i]) + rest.value.items) == items + ItemsOf(pages, i, jobs[i]) + rest.value.items;
      assert errors + ((if e.Some? then [e] else []) + rest.value.errors)
        == errors + (if e.Some? then [e] else []) + rest.value.errors;
    }
  }

  /** The batch drain `for (i = 0; i < ConsumerFetchMax &&
      channel.Reader.TryRead(out item); i++) fetchedData.Add(item)`: the
      first batch of the channel's items, which leave the channel. */
  method Drain(channel: Channel, fetchMax: int) returns (fetched: seq<Item>)
    requires fetchMax >= 1
    modifies channel
    ensures var n := if fetchMax <= |old(channel.queue)| then fetchMax else |old(channel.queue)|;
      fetched == old(channel.queue)[..n] && channel.queue == old(channel.queue)[n..]
    ensures channel.completed == old(channel.completed)
  {
    fetched := [];
    var i := 0;
    while i < fetchMax
      invariant 0 <= i <= fetchMax && |fetched| == i
      invariant fetched + channel.queue == old(channel.queue)
      invariant channel.completed == old(channel.completed)
    {
      var item := channel.TryRead();
      if item.None? {
        break;
      }
      assert fetched + ([item.value] + channel.queue) == old(channel.queue);
      fetched := fetched + [item.value];
      i := i + 1;
    }
    assert old(channel.queue)[..|fetched|] == fetched;
  }

  /** The `GroupBy(e => e.Item2).Select(...)` of a batch, each group
      merged with `MergeDataTables`. */
  method GroupBatch(batch: seq<Item>) returns (groups: seq<(Table, Job)>)
    requires batch != []
    ensures groups == Groups(batch)
  {
    var keys := GroupKeys(batch);
    groups := [];
    var k := 0;
    while k < |keys|
      invariant 0 <= k <= |keys|
      invariant groups + GroupsOf(batch, keys[k..]) == Groups(batch)
    {
      var items := GroupItems(batch, keys[k]);
      var merged := Converter.MergeDataTables(Some(Tables(items)));
      var table := match merged case Returned(t) => t case Threw(_) => Table([], []);
      var job := if items == [] then batch[0].job else items[0].job;
      assert keys[k..][1..] == keys[k + 1..];
      assert GroupsOf(batch, keys[k..]) == [(table, job)] + GroupsOf(batch, keys[k + 1..]);
      Text.ConcatAssoc(groups, [(table, job)], GroupsOf(batch, keys[k + 1..]));
      groups := groups + [(table, job)];
      k := k + 1;
    }
    assert groups + [] == groups;
  }

  /** One round of the `do ... while`: `CreateTable` then `WriteDataTable`
      for every group, keeping the last results in `insert` and
      `create`. */
  method RunRound(rev: Revision, self: Engine, o: Oracles, groups: seq<(Table, Job)>, h0: Held)
    returns (r: Completion<Held>)
    ensures r == Round(rev, self, o, groups, h0)
  {
    var insert, create, calls := h0.insert, h0.create, h0.calls;
    var k := 0;
    while k < |groups|
      invariant 0 <= k <= |groups|
      invariant Round(rev, self, o, groups, h0) == Round(rev, self, o, groups[k..], Held(insert, create, calls))
    {
      var (table, job) := groups[k];
      assert groups[k..][1..] == groups[k + 1..];
      var inserter := Inserter(rev, self, job);
      if inserter.Threw? {
        return Threw(inserter.exception);
      }
      var created := o.create(calls, inserter.value, table, job);
      if created.Threw? {
        return Threw(created.exception);
      }
      create := Some(created.value);
      insert := Some(o.write(calls + 1, inserter.value, table, job));
      calls := calls + 2;
      k := k + 1;
    }
    return Returned(Held(insert, create, calls));
  }

  /** `do { attempt++; <round> } while (Again && attempt <
      ConsumerAttemptMax)`, from attempt 0. */
  method RetryRounds(rev: Revision, self: Engine, o: Oracles, groups: seq<(Table, Job)>, attemptMax: int, h0: Held)
    returns (r: Completion<(int, Held)>)
    ensures r == Retry(rev, self, o, groups, attemptMax, 0, h0)
  {
    var attempt := 0;
    var h := h0;
    var again := true;
    while again
      invariant again ==> Retry(rev, self, o, groups, attemptMax, 0, h0) == Retry(rev, self, o, groups, attemptMax, attempt, h)
      invariant !again ==> Retry(rev, self, o, groups, attemptMax, 0, h0) == Returned((attempt, h))
      decreases (if again then 1 else 0) + (if attempt < attemptMax then attemptMax - attempt else 0)
    {
      var round := RunRound(rev, self, o, groups, h);
      if round.Threw? {
        return Threw(round.exception);
      }
      attempt := attempt + 1;
      h := round.value;
      again := Again(rev, h) && attempt < attemptMax;
    }
    return Returned((attempt, h));
  }

  /** One turn of `while (await channel.Reader.WaitToReadAsync())`: drain
      a batch, group it, retry the rounds, then the exhaustion check. */
  method ConsumeNext(rev: Revision, self: Engine, o: Oracles, fetchMax: int, attemptMax: int,
                         channel: Channel, held: Held, errors0: seq<Option<Error>>)
    returns (r: Completion<Consumer>)
    requires fetchMax >= 1 && channel.queue != []
    modifies channel
    ensures var n := if fetchMax <= |old(channel.queue)| then fetchMax else |old(channel.queue)|;
      channel.queue == old(channel.queue)[n..]
      && r == ConsumeBatch(rev, self, o, attemptMax, old(channel.queue)[..n], Consumer(held, errors0))
    ensures channel.completed == old(channel.completed)
  {
    var fetched := Drain(channel, fetchMax);
    var groups := GroupBatch(fetched);
    var retried := RetryRounds(rev, self, o, groups, attemptMax, held);
    if retried.Threw? {
      return Threw(retried.exception);
    }
    var (attempt, h) := retried.value;
    var errors := errors0;
    if attempt > attemptMax {
      errors := errors + [ErrorOrNull(h.insert)];
    } else {
      assert errors + [] == errors;
    }
    return Returned(Consumer(h, errors));
  }

  /** `ConsumeDBData` and the consumer tasks: batch after batch until the
      completed channel is empty; a round that throws ends the consumer
      with its exception. */
  method ConsumeData(rev: Revision, self: Engine, o: Oracles, fetchMax: int, attemptMax: int,
                     channel: Channel, errors0: seq<Option<Error>>)
    returns (r: Completion<seq<Option<Error>>>)
    requires fetchMax >= 1 && channel.completed
    modifies channel
    ensures r == ErrorsOf(Consumed(rev, self, o, fetchMax, attemptMax, old(channel.queue), Consumer(Held(None, None, 0), errors0)))
  {
    var insert: Option<Result<bool, Error>> := None;
    var create: Option<Result<bool, Error>> := None;
    var calls: nat := 0;
    var errors := errors0;
    while channel.queue != []
      invariant channel.completed
      invariant Consumed(rev, self, o, fetchMax, attemptMax, old(channel.queue), Consumer(Held(None, None, 0), errors0))
        == Consumed(rev, self, o, fetchMax, attemptMax, channel.queue, Consumer(Held(insert, create, calls), errors))
      decreases |channel.queue|
    {
      ConsumeTurn(rev, self, o, fetchMax, attemptMax, channel.queue, Consumer(Held(insert, create, calls), errors));
      var turn := ConsumeNext(rev, self, o, fetchMax, attemptMax, channel, Held(insert, create, calls), errors);
      if turn.Threw? {
        return Threw(turn.exception);
      }
      insert, create, calls, errors := turn.value.held.insert, turn.value.held.create, turn.value.held.calls, turn.value.errors;
    }
    ConsumedEmpty(rev, self, o, fetchMax, attemptMax, Consumer(Held(insert, create, calls), errors));
    return Returned(errors);
  }

  /** The errors list of a consumer that returned. */
  function ErrorsOf(c: Completion<Consumer>): Completion<seq<Option<Error>>> {
    match c
    case Threw(ex) => Threw(ex)
    case Returned(c') => Returned(c'.errors)
  }

  lemma ConsumedEmpty(rev: Revision, self: Engine, o: Oracles, fetchMax: int, attemptMax: int, c: Consumer)
    requires fetchMax >= 1
    ensures Consumed(rev, self, o, fetchMax, attemptMax, [], c) == Returned(c)
  {
  }

  /** Consuming the channel is consuming its first batch, then the rest. */
  lemma ConsumeTurn(rev: Revision, self: Engine, o: Oracles, fetchMax: int, attemptMax: int,
                    queue: seq<Item>, c: Consumer)
    requires fetchMax >= 1 && queue != []
    ensures var n := if fetchMax <= |queue| then fetchMax else |queue|;
      Consumed(rev, self, o, fetchMax, attemptMax, queue, c)
        == match ConsumeBatch(rev, self, o, attemptMax, queue[..n], c)
           case Threw(ex) => Threw(ex)
           case Returned(c') => Consumed(rev, self, o, fetchMax, attemptMax, queue[n..], c')
  {
    var n := if fetchMax <= |queue| then fetchMax else |queue|;
    BatchesShape(queue, fetchMax);
    BatchesShape(queue[n..], fetchMax);
    var batches := Batches(queue, fetchMax);
    assert batches == [queue[..n]] + Batches(queue[n..], fetchMax);
    assert batches[0] == queue[..n] && batches[1..] == Batches(queue[n..], fetchMax);
  }

  /** `ChannelParallelize`: the producer fills a fresh channel and
      completes it, the consumer drains it, and the revision's result is
      returned. */
  method ChannelParallelize(rev: Revision, self: Engine, o: Oracles, s: Settings, jobs: seq<Job>, ghost bound: int)
    returns (r: Outcome)
    requires s.producerLineMax >= 1 && s.consumerFetchMax >= 1 && Finite(o.fetch, bound)
    ensures r == Run(rev, self, o, s, jobs, bound)
  {
    var channel := new Channel();
    var fault, errors := ProduceData(rev, self, o.fetch, s.producerLineMax, bound, jobs, channel, []);
    ghost var produced := Produce(rev, self, o.fetch, s.producerLineMax, bound, jobs, 0);
    if fault.Some? {
      return Faulted(fault.value);
    }
    assert channel.queue == produced.value.items && errors == produced.value.errors;
    channel.Complete();
    var consumed := ConsumeData(rev, self, o, s.consumerFetchMax, s.consumerAttemptMax, channel, errors);
    ghost var spec := Consumed(rev, self, o, s.consumerFetchMax, s.consumerAttemptMax, produced.value.items,
                               Consumer(Held(None, None, 0), produced.value.errors));
    assert consumed == ErrorsOf(spec);
    if consumed.Threw? {
      return Faulted(consumed.exception);
    }
    return Finished(Report(rev, consumed.value), consumed.value);
  }
}
