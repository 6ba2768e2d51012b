/** The row validation the terminal view applies to each of its lists before rendering. */
module Ui {

  /**
   * The index validateSelectedRow leaves selected in a list of `count` rows: 0 for an empty
   * list, otherwise `row` moved into the range of valid indices.
   */
  function ClampedRow(count: nat, row: int): (r: int)
    ensures count == 0 ==> r == 0
    ensures count > 0 ==> 0 <= r < count
    ensures 0 <= row < count ==> r == row
    ensures count > 0 && row >= count ==> r == count - 1
    ensures row < 0 ==> r == 0
  {
    if count == 0 then 0
    else if row >= count then count - 1
    else if row < 0 then 0
    else row
  }

  /** Validating twice is validating once. */
  lemma ClampIdempotent(count: nat, row: int)
    ensures ClampedRow(count, ClampedRow(count, row)) == ClampedRow(count, row)
  {
  }

  /** The clamped row is the valid index nearest to the requested one. */
  lemma ClampNearest(count: nat, row: int, other: int)
    requires 0 <= other < count
    ensures var r := ClampedRow(count, row);
      (if r <= row then row - r else r - row) <= (if other <= row then row - other else other - row)
  {
  }

  /** The part of a termui list that the validation reads and writes. */
  class List {
    var rows: seq<string>
    var selectedRow: int

    constructor (rows: seq<string>, selectedRow: int)
      ensures this.rows == rows && this.selectedRow == selectedRow
    {
      this.rows := rows;
      this.selectedRow := selectedRow;
    }

    predicate ValidSelection()
      reads this
    {
      0 <= selectedRow && (rows != [] ==> selectedRow < |rows|)
    }

    method ValidateSelectedRow()
      modifies this
      ensures rows == old(rows)
      ensures selectedRow == ClampedRow(|rows|, old(selectedRow))
      ensures ValidSelection()
    {
      if |rows| == 0 {
        selectedRow := 0;
      } else if selectedRow >= |rows| {
        selectedRow := |rows| - 1;
      } else if selectedRow < 0 {
        selectedRow := 0;
      }
    }
  }
}
