/** `Converter.MergeDataTables`: the rows of several tables gathered under
    the first table's schema. `ExchangeBase` and `DataExtraction` carry
    identical private copies of the same method. */
module Converter {
  import opened Results
  import opened Domain
  import opened DataTables

  const NoTablesMessage: string := "No tables to merge."

  /** The rows of every table, each laid out under `cols`, table after
      table. */
  function RowsUnder(tables: seq<Table>, cols: seq<Column>): seq<Row> {
    if tables == [] then []
    else ProjectRows(tables[0].rows, tables[0].columns, cols) + RowsUnder(tables[1..], cols)
  }

  lemma {:induction false} RowsUnderAppend(tables: seq<Table>, t: Table, cols: seq<Column>)
    ensures RowsUnder(tables + [t], cols) == RowsUnder(tables, cols) + ProjectRows(t.rows, t.columns, cols)
  {
    if tables != [] {
      assert (tables + [t])[1..] == tables[1..] + [t];
      RowsUnderAppend(tables[1..], t, cols);
    } else {
      assert RowsUnder([t], cols) == ProjectRows(t.rows, t.columns, cols) + RowsUnder([], cols);
    }
  }

  /** The result `MergeDataTables` promises: an ArgumentException for a
      null or empty list, otherwise the first table's schema holding the
      rows of every table in list order. */
  function Merged(tables: Option<seq<Table>>): Completion<Table> {
    if tables.None? || |tables.value| == 0 then Threw(Exception(Argument, NoTablesMessage))
    else Returned(Table(tables.value[0].columns, RowsUnder(tables.value, tables.value[0].columns)))
  }

  /** Clones the first table's schema, then imports every row of every
      table, in order. */
  method MergeDataTables(tables: Option<seq<Table>>) returns (r: Completion<Table>)
    ensures r == Merged(tables)
  {
    if tables.None? || |tables.value| == 0 {
      return Threw(Exception(Argument, NoTablesMessage));
    }
    var list := tables.value;
    var merged := Clone(list[0]);
    var t := 0;
    while t < |list|
      invariant 0 <= t <= |list|
      invariant merged == Table(list[0].columns, RowsUnder(list[..t], list[0].columns))
    {
      var table := list[t];
      var i := 0;
      while i < |table.rows|
        invariant 0 <= i <= |table.rows|
        invariant merged == Table(list[0].columns,
          RowsUnder(list[..t], list[0].columns) + ProjectRows(table.rows[..i], table.columns, list[0].columns))
      {
        ProjectRowsAppend(table.rows[..i], [table.rows[i]], table.columns, list[0].columns);
        assert table.rows[..i + 1] == table.rows[..i] + [table.rows[i]];
        merged := Table(merged.columns, merged.rows + [ProjectRow(table.rows[i], table.columns, merged.columns)]);
        i := i + 1;
      }
      assert table.rows[..i] == table.rows;
      RowsUnderAppend(list[..t], table, list[0].columns);
      assert list[..t + 1] == list[..t] + [table];
      t := t + 1;
    }
    assert list[..t] == list;
    r := Returned(merged);
  }

  /** The plain concatenation of the tables' rows. */
  function AllRows(tables: seq<Table>): seq<Row> {
    if tables == [] then [] else tables[0].rows + AllRows(tables[1..])
  }

  lemma {:induction false} AllRowsAppend(a: seq<Table>, b: seq<Table>)
    ensures AllRows(a + b) == AllRows(a) + AllRows(b)
  {
    if a != [] {
      assert (a + b)[1..] == a[1..] + b;
      AllRowsAppend(a[1..], b);
    } else {
      assert a + b == b;
    }
  }

  /** Removing the item at j removes one occurrence of it. */
  lemma RemovedAt<A>(ys: seq<A>, j: nat)
    requires j < |ys|
    ensures multiset(ys[..j] + ys[j + 1..]) == multiset(ys) - multiset{ys[j]}
  {
    assert ys == ys[..j] + ([ys[j]] + ys[j + 1..]);
    assert multiset(ys) == multiset(ys[..j]) + multiset([ys[j]]) + multiset(ys[j + 1..]);
  }

  /** The rows of a list of tables are the rows of its table at j and
      those of the others. */
  lemma AllRowsRemovedAt(tables: seq<Table>, j: nat)
    requires j < |tables|
    ensures multiset(AllRows(tables)) == multiset(AllRows(tables[..j] + tables[j + 1..])) + multiset(tables[j].rows)
  {
    assert tables == tables[..j] + ([tables[j]] + tables[j + 1..]);
    AllRowsAppend(tables[..j], [tables[j]] + tables[j + 1..]);
    assert AllRows([tables[j]] + tables[j + 1..]) == tables[j].rows + AllRows(tables[j + 1..]) by {
      assert ([tables[j]] + tables[j + 1..])[1..] == tables[j + 1..];
    }
    AllRowsAppend(tables[..j], tables[j + 1..]);
  }

  /** The rows of a permuted list of tables are the same rows, counted
      with their repetitions. */
  lemma {:induction false} AllRowsPermuted(t1: seq<Table>, t2: seq<Table>)
    requires multiset(t1) == multiset(t2)
    ensures multiset(AllRows(t1)) == multiset(AllRows(t2))
  {
    if t1 == [] {
      assert |multiset(t2)| == 0;
      assert t2 == [];
    } else {
      var x := t1[0];
      assert x in multiset(t2);
      var j :| 0 <= j < |t2| && t2[j] == x;
      RemovedAt(t2, j);
      assert t1 == [x] + t1[1..];
      assert multiset(t1[1..]) == multiset(t1) - multiset{x};
      AllRowsPermuted(t1[1..], t2[..j] + t2[j + 1..]);
      AllRowsRemovedAt(t2, j);
    }
  }

  function RowCount(tables: seq<Table>): nat {
    if tables == [] then 0 else |tables[0].rows| + RowCount(tables[1..])
  }

  predicate SameSchema(tables: seq<Table>, cols: seq<Column>) {
    forall i :: 0 <= i < |tables| ==> tables[i].columns == cols && WellFormed(tables[i])
  }

  /** Reordering a list of tables keeps it of one schema. */
  lemma SameSchemaPermuted(t1: seq<Table>, t2: seq<Table>, cols: seq<Column>)
    requires multiset(t1) == multiset(t2) && SameSchema(t2, cols)
    ensures SameSchema(t1, cols)
  {
    forall k | 0 <= k < |t1|
      ensures t1[k].columns == cols && WellFormed(t1[k])
    {
      assert t1[k] in multiset(t2);
      var j :| 0 <= j < |t2| && t2[j] == t1[k];
    }
  }

  lemma {:induction false} RowsUnderSameSchema(tables: seq<Table>, cols: seq<Column>)
    requires DistinctNames(cols) && SameSchema(tables, cols)
    ensures RowsUnder(tables, cols) == AllRows(tables)
    ensures |AllRows(tables)| == RowCount(tables)
  {
    if tables != [] {
      ProjectRowsSameSchema(tables[0]);
      RowsUnderSameSchema(tables[1..], cols);
    }
  }

  /** Tables that share one schema merge into exactly their rows,
      concatenated in list order with each table's order kept, and the
      merged row count is the sum of the inputs' row counts. */
  lemma MergeSameSchema(tables: seq<Table>)
    requires |tables| >= 1
    requires DistinctNames(tables[0].columns) && SameSchema(tables, tables[0].columns)
    ensures Merged(Some(tables)) == Returned(Table(tables[0].columns, AllRows(tables)))
    ensures |Merged(Some(tables)).value.rows| == RowCount(tables)
  {
    RowsUnderSameSchema(tables, tables[0].columns);
  }
}
