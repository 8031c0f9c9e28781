/**
 * The worksheet the API stores participants in, as the grid of its rows:
 * sheet row 1 holds the column headings and every later row is one data row.
 * Only the four worksheet operations the API uses are modelled, by their
 * documented effect: reading all rows as heading-keyed records, appending a
 * row, deleting a row by its 1-based number, and writing a range of one row
 * starting at column A.
 */
module Sheets {

  /** The cell values of one sheet row, column A first. */
  type Row = seq<string>

  /** One data row keyed by the column headings. */
  type Record = map<string, string>

  /** The value in column `j` (0-based) of a row; cells past the row's end are empty. */
  function Cell(row: Row, j: nat): (c: string)
    ensures j < |row| ==> c == row[j]
    ensures c == "" || c in row
  {
    if j < |row| then row[j] else ""
  }

  /**
   * A data row as a record: each heading maps to the cell in its column,
   * padded with "" up to the header's width; when a heading repeats, its
   * rightmost column wins.
   */
  function RecordOf(header: Row, row: Row): (r: Record)
    ensures |r| <= |header|
    decreases |header|
  {
    if header == [] then map[]
    else RecordOf(header[..|header| - 1], row)[header[|header| - 1] := Cell(row, |header| - 1)]
  }

  /** A record's keys are exactly the header's headings. */
  lemma {:induction false} RecordOfKeys(header: Row, row: Row, key: string)
    ensures key in RecordOf(header, row) <==> key in header
    decreases |header|
  {
    if header != [] {
      var n := |header| - 1;
      assert header == header[..n] + [header[n]];
      RecordOfKeys(header[..n], row, key);
    }
  }

  /** A heading that does not repeat to its right reads the cell of its own column. */
  lemma {:induction false} RecordOfColumn(header: Row, row: Row, j: nat)
    requires j < |header|
    requires forall m :: j < m < |header| ==> header[m] != header[j]
    ensures header[j] in RecordOf(header, row)
    ensures RecordOf(header, row)[header[j]] == Cell(row, j)
    decreases |header|
  {
    var n := |header| - 1;
    if j < n {
      RecordOfColumn(header[..n], row, j);
    }
  }

  /** All data rows as records, in sheet order; an empty sheet has none. */
  function Records(cells: seq<Row>): (r: seq<Record>)
    ensures |r| == if cells == [] then 0 else |cells| - 1
    ensures forall k :: 0 <= k < |r| ==> r[k] == RecordOf(cells[0], cells[k + 1])
  {
    if cells == [] then []
    else seq(|cells| - 1, k requires 0 <= k < |cells| - 1 => RecordOf(cells[0], cells[k + 1]))
  }

  /** Writing `values` into a row from column A on: later cells are kept. */
  function Overwrite(row: Row, values: Row): (r: Row)
    ensures forall j :: 0 <= j < |values| ==> Cell(r, j) == values[j]
    ensures forall j :: |values| <= j ==> Cell(r, j) == Cell(row, j)
  {
    values + (if |values| < |row| then row[|values|..] else [])
  }

  /** The grid once sheet row `n` (1-based) is deleted and the rows below move up. */
  function DeleteRow(cells: seq<Row>, n: nat): (r: seq<Row>)
    requires 1 <= n <= |cells|
    ensures |r| == |cells| - 1
    ensures forall j :: 0 <= j < n - 1 ==> r[j] == cells[j]
    ensures forall j :: n - 1 <= j < |r| ==> r[j] == cells[j + 1]
  {
    cells[..n - 1] + cells[n..]
  }

  class Worksheet {
    /** `cells[n - 1]` is sheet row `n`. */
    var cells: seq<Row>

    constructor (cells: seq<Row>)
      ensures this.cells == cells
    {
      this.cells := cells;
    }

    method GetAllRecords() returns (records: seq<Record>)
      ensures records == Records(cells)
    {
      records := Records(cells);
    }

    method AppendRow(row: Row)
      modifies this
      ensures cells == old(cells) + [row]
    {
      cells := cells + [row];
    }

    method DeleteRows(n: nat)
      requires 1 <= n <= |cells|
      modifies this
      ensures cells == DeleteRow(old(cells), n)
    {
      cells := DeleteRow(cells, n);
    }

    method UpdateRow(n: nat, values: Row)
      requires 1 <= n <= |cells|
      modifies this
      ensures cells == old(cells)[n - 1 := Overwrite(old(cells)[n - 1], values)]
    {
      cells := cells[n - 1 := Overwrite(cells[n - 1], values)];
    }
  }

  // ---------------------------------------------------------------------------
  // How the row operations move the records
  // ---------------------------------------------------------------------------

  /** Appending a row below a header adds one record at the end. */
  lemma RecordsAppend(cells: seq<Row>, row: Row)
    requires cells != []
    ensures Records(cells + [row]) == Records(cells) + [RecordOf(cells[0], row)]
  {
  }

  /** Deleting sheet row `k + 2` removes record `k` and keeps the others in order. */
  lemma RecordsDelete(cells: seq<Row>, k: nat)
    requires k + 2 <= |cells|
    ensures Records(DeleteRow(cells, k + 2)) == Records(cells)[..k] + Records(cells)[k + 1..]
  {
    var after := DeleteRow(cells, k + 2);
    assert after[0] == cells[0];
    forall j | 0 <= j < |after| - 1
      ensures Records(after)[j] == (Records(cells)[..k] + Records(cells)[k + 1..])[j]
    {
      if j < k {
        assert after[j + 1] == cells[j + 1];
      } else {
        assert after[j + 1] == cells[j + 2];
      }
    }
  }

  /** Overwriting sheet row `k + 2` changes record `k` only. */
  lemma RecordsOverwrite(cells: seq<Row>, k: nat, values: Row)
    requires k + 2 <= |cells|
    ensures Records(cells[k + 1 := Overwrite(cells[k + 1], values)]) ==
            Records(cells)[k := RecordOf(cells[0], Overwrite(cells[k + 1], values))]
  {
  }
}
