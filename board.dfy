/**
  Geometry of the 10x10 board: a cell is a linear index, its row is the
  index divided by the board size and its column the remainder. On the
  board's non-negative indices Dafny's `/` and `%` agree with the client's
  `Math.floor(pos / 10)` and `pos % 10`.
 */
module Board {

  const BoardSize: int := 10

  predicate InBoard(p: int) {
    0 <= p < BoardSize * BoardSize
  }

  function Row(p: int): int { p / BoardSize }

  function Col(p: int): int { p % BoardSize }

  /** The cell at a given row and column. */
  function CellAt(row: int, col: int): int { row * BoardSize + col }

  /**
    The reference 8-neighbourhood: two distinct cells of the board whose
    rows and whose columns each differ by at most one.
   */
  predicate Adjacent(p: int, q: int) {
    && InBoard(p) && InBoard(q) && p != q
    && -1 <= Row(q) - Row(p) <= 1
    && -1 <= Col(q) - Col(p) <= 1
  }

  /** The eight (row, column) offsets the client walks, in its order. */
  const Directions: seq<(int, int)> :=
    [(-1, -1), (-1, 0), (-1, 1),
     (0, -1),           (0, 1),
     (1, -1),  (1, 0),  (1, 1)]

  lemma CellAtRowCol(row: int, col: int)
    requires 0 <= row < BoardSize && 0 <= col < BoardSize
    ensures InBoard(CellAt(row, col))
    ensures Row(CellAt(row, col)) == row && Col(CellAt(row, col)) == col
  {
  }

  lemma RowColOfCell(p: int)
    requires InBoard(p)
    ensures 0 <= Row(p) < BoardSize && 0 <= Col(p) < BoardSize
    ensures CellAt(Row(p), Col(p)) == p
  {
  }

  /** The row and column offset from a cell to any of its neighbours is an entry of the table. */
  lemma DirectionOf(p: int, q: int) returns (j: int)
    requires Adjacent(p, q)
    ensures 0 <= j < |Directions|
    ensures Directions[j] == (Row(q) - Row(p), Col(q) - Col(p))
  {
    var dr, dc := Row(q) - Row(p), Col(q) - Col(p);
    assert (dr, dc) != (0, 0) by { RowColOfCell(p); RowColOfCell(q); }
    j := if dr == -1 then 1 + dc
         else if dr == 0 then (if dc == -1 then 3 else 4)
         else 6 + dc;
  }

  lemma AdjacentSymmetric(p: int, q: int)
    ensures Adjacent(p, q) <==> Adjacent(q, p)
  {
  }

  /**
    The neighbourhood does not wrap: the cell after the last column of a row
    (the first cell of the next row) and the cell before the first column
    are not neighbours.
   */
  lemma NoWrapAcrossEdges(p: int)
    requires InBoard(p)
    ensures Col(p) == BoardSize - 1 ==> !Adjacent(p, p + 1)
    ensures Col(p) == 0 ==> !Adjacent(p, p - 1)
  {
  }
}
