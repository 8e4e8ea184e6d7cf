/**
 * The table state of the three list screens (the client's tickets, the
 * administrator's tickets and the administrator's clients) and the one piece
 * of table logic they write themselves: `meta.updateData`, which replaces a
 * single cell. Filtering, sorting and pagination belong to the table library
 * and are not part of this model.
 */
module Table {
  import opened Json

  /** One entry of the column-filter state, as the table library keeps it. */
  datatype ColumnFilter = ColumnFilter(id: string, value: Value)

  /** The screen's `data` and `columnFilters` state. */
  datatype TableState = TableState(data: seq<Record>, columnFilters: seq<ColumnFilter>)

  /** The state a screen mounts with: its initial rows and no column filter. */
  function Initial(data: seq<Record>): (t: TableState)
    ensures t.data == data && t.columnFilters == []
  {
    TableState(data, [])
  }

  /**
   * `prev.map((row, index) => index === rowIndex ? { ...prev[rowIndex], [columnId]: value } : row)`:
   * as many rows as before, in the same order; row `rowIndex` has `columnId`
   * set to `value` and every other property kept; every other row is the
   * row that was there.
   */
  function UpdateRows(rows: seq<Record>, rowIndex: int, columnId: string, value: Value): (r: seq<Record>)
    ensures |r| == |rows|
    ensures forall j :: 0 <= j < |rows| && j != rowIndex ==> r[j] == rows[j]
    ensures 0 <= rowIndex < |rows| ==>
      && Get(r[rowIndex], columnId) == value
      && r[rowIndex].Keys == rows[rowIndex].Keys + {columnId}
      && (forall k :: k != columnId ==> Get(r[rowIndex], k) == Get(rows[rowIndex], k))
  {
    seq(|rows|, j requires 0 <= j < |rows| => if j == rowIndex then rows[rowIndex][columnId := value] else rows[j])
  }

  /** `meta.updateData(rowIndex, columnId, value)`: the rows are updated, the column filters kept. */
  function UpdateData(t: TableState, rowIndex: int, columnId: string, value: Value): (u: TableState)
    ensures u.data == UpdateRows(t.data, rowIndex, columnId, value)
    ensures u.columnFilters == t.columnFilters
  {
    t.(data := UpdateRows(t.data, rowIndex, columnId, value))
  }

  /** A row index outside the data (negative or too large) leaves the data as it was. */
  lemma UpdateRowsOutOfRange(rows: seq<Record>, rowIndex: int, columnId: string, value: Value)
    requires rowIndex < 0 || rowIndex >= |rows|
    ensures UpdateRows(rows, rowIndex, columnId, value) == rows
  {
    var r := UpdateRows(rows, rowIndex, columnId, value);
    assert forall j :: 0 <= j < |rows| ==> r[j] == rows[j];
  }

  /** Updating the same cell to the same value twice is the same as doing it once. */
  lemma UpdateRowsIdempotent(rows: seq<Record>, rowIndex: int, columnId: string, value: Value)
    ensures var once := UpdateRows(rows, rowIndex, columnId, value);
      UpdateRows(once, rowIndex, columnId, value) == once
  {
    var once := UpdateRows(rows, rowIndex, columnId, value);
    var twice := UpdateRows(once, rowIndex, columnId, value);
    if 0 <= rowIndex < |rows| {
      assert twice[rowIndex] == once[rowIndex];
    }
    assert forall j :: 0 <= j < |rows| ==> twice[j] == once[j];
  }

  /** Of two updates of the same cell, the later one wins. */
  lemma UpdateRowsLastWins(rows: seq<Record>, rowIndex: int, columnId: string, first: Value, second: Value)
    ensures UpdateRows(UpdateRows(rows, rowIndex, columnId, first), rowIndex, columnId, second)
         == UpdateRows(rows, rowIndex, columnId, second)
  {
    var a := UpdateRows(UpdateRows(rows, rowIndex, columnId, first), rowIndex, columnId, second);
    var b := UpdateRows(rows, rowIndex, columnId, second);
    if 0 <= rowIndex < |rows| {
      assert a[rowIndex] == b[rowIndex];
    }
    assert forall j :: 0 <= j < |rows| ==> a[j] == b[j];
  }

  /** Updates of two different cells can be made in either order. */
  lemma UpdateRowsCommute(rows: seq<Record>, i: int, k: string, v: Value, i': int, k': string, v': Value)
    requires i != i' || k != k'
    ensures UpdateRows(UpdateRows(rows, i, k, v), i', k', v') == UpdateRows(UpdateRows(rows, i', k', v'), i, k, v)
  {
    var a := UpdateRows(UpdateRows(rows, i, k, v), i', k', v');
    var b := UpdateRows(UpdateRows(rows, i', k', v'), i, k, v);
    forall j | 0 <= j < |rows| ensures a[j] == b[j] {
      if j == i && j == i' {
        assert a[j] == rows[j][k := v][k' := v'];
        assert b[j] == rows[j][k' := v'][k := v];
      }
    }
  }
}
