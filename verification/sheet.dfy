/**
 * A gspread worksheet held in memory: the list of its rows, each a list of
 * cell texts.  The worksheet API numbers rows and columns from 1; the
 * table functions below take 0-based indices.  A cell beyond the end of its
 * row reads as the empty text.
 */
module Sheet {
  import opened Common

  type Table = seq<seq<string>>

  /** The text of cell `(i, j)`, empty when the row or the column is missing. */
  function Cell(t: Table, i: nat, j: nat): string {
    if i < |t| && j < |t[i]| then t[i][j] else ""
  }

  /** A list of cells without its trailing empty ones, as the API returns rows and columns. */
  function TrimTrailing(cells: seq<string>): (r: seq<string>)
    ensures |r| <= |cells| && r == cells[..|r|]
    ensures r == [] || r[|r| - 1] != ""
    ensures forall i :: |r| <= i < |cells| ==> cells[i] == ""
  {
    if |cells| > 0 && cells[|cells| - 1] == "" then TrimTrailing(cells[..|cells| - 1]) else cells
  }

  /** Column `j` of every row, in row order. */
  function Column(t: Table, j: nat): (r: seq<string>)
    ensures |r| == |t| && forall i :: 0 <= i < |t| ==> r[i] == Cell(t, i, j)
  {
    if |t| == 0 then [] else Column(t[..|t| - 1], j) + [Cell(t, |t| - 1, j)]
  }

  /** The first position of `query` in `row`. */
  function IndexIn(row: seq<string>, query: string): (r: Option<nat>)
    ensures r.None? ==> query !in row
    ensures r.Some? ==> r.value < |row| && row[r.value] == query && query !in row[..r.value]
  {
    if |row| == 0 then None
    else if row[0] == query then Some(0)
    else match IndexIn(row[1..], query)
      case None => None
      case Some(j) =>
        assert row[..j + 1] == [row[0]] + row[1..][..j];
        Some(j + 1)
  }

  /** The first cell, in row-major order, whose text equals `query`: no
   *  earlier row holds it, and no earlier cell of its own row. */
  function FindIn(t: Table, query: string): (r: Option<(nat, nat)>)
    ensures r.None? ==> forall i :: 0 <= i < |t| ==> query !in t[i]
    ensures r.Some? ==>
      && r.value.0 < |t| && r.value.1 < |t[r.value.0]| && t[r.value.0][r.value.1] == query
      && (forall k :: 0 <= k < r.value.0 ==> query !in t[k])
      && query !in t[r.value.0][..r.value.1]
  {
    if |t| == 0 then None
    else match IndexIn(t[0], query)
      case Some(j) => Some((0, j))
      case None =>
        match FindIn(t[1..], query)
        case None => None
        case Some(p) =>
          assert forall k :: 1 <= k <= p.0 ==> t[k] == t[1..][k - 1];
          Some((p.0 + 1, p.1))
  }

  /** `row` with cell `j` set to `v`, padded with empty cells when it is shorter. */
  function SetCell(row: seq<string>, j: nat, v: string): (r: seq<string>)
    ensures |r| == if j < |row| then |row| else j + 1
    ensures r[j] == v
    ensures forall k :: 0 <= k < |r| && k != j ==> r[k] == (if k < |row| then row[k] else "")
  {
    if j < |row| then row[j := v] else row + seq(j - |row|, _ => "") + [v]
  }

  /** A cell as the API reports it: 1-based row and column. */
  datatype CellRef = CellRef(row: nat, col: nat)

  class Worksheet {
    var rows: Table

    constructor (initial: Table)
      ensures rows == initial
    {
      rows := initial;
    }

    /** `row_values(row)`: the cells of a row without the trailing empty ones. */
    function RowValues(row: nat): seq<string>
      reads this
    {
      if 1 <= row <= |rows| then TrimTrailing(rows[row - 1]) else []
    }

    /** `col_values(col)`: one cell per row, without the trailing empty ones. */
    function ColValues(col: nat): seq<string>
      reads this
      requires col >= 1
    {
      TrimTrailing(Column(rows, col - 1))
    }

    /** `find(query)`: the first cell in row-major order holding `query`. */
    function Find(query: string): (r: Option<CellRef>)
      reads this
      ensures r.None? ==> forall i :: 0 <= i < |rows| ==> query !in rows[i]
      ensures r.Some? ==>
        && 1 <= r.value.row <= |rows| && 1 <= r.value.col <= |rows[r.value.row - 1]|
        && rows[r.value.row - 1][r.value.col - 1] == query
        && (forall k :: 0 <= k < r.value.row - 1 ==> query !in rows[k])
        && query !in rows[r.value.row - 1][..r.value.col - 1]
    {
      match FindIn(rows, query)
      case None => None
      case Some(p) => Some(CellRef(p.0 + 1, p.1 + 1))
    }

    /** `append_row(values)`: a new last row. */
    method AppendRow(values: seq<string>)
      modifies this
      ensures rows == old(rows) + [values]
    {
      rows := rows + [values];
    }

    /** `insert_row(values, 1)`: a new first row. */
    method InsertFirstRow(values: seq<string>)
      modifies this
      ensures rows == [values] + old(rows)
    {
      rows := [values] + rows;
    }

    /** `clear()`: every cell emptied. */
    method Clear()
      modifies this
      ensures rows == []
    {
      rows := [];
    }

    /** `update_cell(row, col, value)` on an existing row. */
    method UpdateCell(row: nat, col: nat, value: string)
      modifies this
      requires 1 <= row <= |rows| && 1 <= col
      ensures rows == old(rows)[row - 1 := SetCell(old(rows)[row - 1], col - 1, value)]
    {
      rows := rows[row - 1 := SetCell(rows[row - 1], col - 1, value)];
    }
  }
}
