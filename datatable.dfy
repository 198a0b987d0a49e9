/** How System.Data copies rows between tables whose schemas may differ:
    `Clone` keeps the schema and drops the rows, and both `ImportRow` and
    `Merge` with `MissingSchemaAction.Ignore` match the target's columns to
    the source's by name, fill a column the source lacks with DBNull, and
    drop source columns the target lacks. */
module DataTables {
  import opened Domain

  /** The position of the first column called `name`, or -1. */
  function ColumnIndex(cols: seq<Column>, name: string): (k: int)
    ensures -1 <= k < |cols|
    ensures k >= 0 ==> cols[k].name == name && forall j :: 0 <= j < k ==> cols[j].name != name
    ensures k == -1 ==> forall j :: 0 <= j < |cols| ==> cols[j].name != name
  {
    if cols == [] then -1
    else if cols[0].name == name then 0
    else
      var k := ColumnIndex(cols[1..], name);
      if k == -1 then -1 else k + 1
  }

  /** A source row laid out under the target's columns. */
  function ProjectRow(row: Row, from: seq<Column>, to: seq<Column>): (r: Row)
    ensures |r| == |to|
  {
    seq(|to|, i requires 0 <= i < |to| =>
      var k := ColumnIndex(from, to[i].name);
      if 0 <= k < |row| then row[k] else DBNull)
  }

  function ProjectRows(rows: seq<Row>, from: seq<Column>, to: seq<Column>): (r: seq<Row>)
    ensures |r| == |rows|
    ensures forall i :: 0 <= i < |rows| ==> r[i] == ProjectRow(rows[i], from, to)
  {
    if rows == [] then [] else [ProjectRow(rows[0], from, to)] + ProjectRows(rows[1..], from, to)
  }

  /** `DataTable.Clone()`: same columns, no rows. */
  function Clone(t: Table): (c: Table)
    ensures c.columns == t.columns && c.rows == []
  {
    Table(t.columns, [])
  }

  /** `target.Merge(source, false, MissingSchemaAction.Ignore)` on tables
      without a primary key: the source rows are appended under the
      target's schema. */
  function MergeTable(target: Table, source: Table): (r: Table)
    ensures r.columns == target.columns
    ensures r.rows == target.rows + ProjectRows(source.rows, source.columns, target.columns)
  {
    Table(target.columns, target.rows + ProjectRows(source.rows, source.columns, target.columns))
  }

  /** DataTable column names are unique. */
  predicate DistinctNames(cols: seq<Column>) {
    forall i, j :: 0 <= i < j < |cols| ==> cols[i].name != cols[j].name
  }

  /** Under its own, duplicate-free schema a row of the right width is
      copied unchanged. */
  lemma ProjectRowSameSchema(row: Row, cols: seq<Column>)
    requires DistinctNames(cols) && |row| == |cols|
    ensures ProjectRow(row, cols, cols) == row
  {
    forall i | 0 <= i < |cols|
      ensures ProjectRow(row, cols, cols)[i] == row[i]
    {
      var k := ColumnIndex(cols, cols[i].name);
      assert k == i;
    }
  }

  lemma ProjectRowsSameSchema(t: Table)
    requires DistinctNames(t.columns) && WellFormed(t)
    ensures ProjectRows(t.rows, t.columns, t.columns) == t.rows
  {
    forall i | 0 <= i < |t.rows|
      ensures ProjectRows(t.rows, t.columns, t.columns)[i] == t.rows[i]
    {
      ProjectRowSameSchema(t.rows[i], t.columns);
    }
  }

  lemma ProjectRowsAppend(a: seq<Row>, b: seq<Row>, from: seq<Column>, to: seq<Column>)
    ensures ProjectRows(a + b, from, to) == ProjectRows(a, from, to) + ProjectRows(b, from, to)
  {
    var l := ProjectRows(a + b, from, to);
    var r := ProjectRows(a, from, to) + ProjectRows(b, from, to);
    forall i | 0 <= i < |l|
      ensures l[i] == r[i]
    {
      if i < |a| {
        assert (a + b)[i] == a[i];
      } else {
        assert (a + b)[i] == b[i - |a|];
      }
    }
  }
}
