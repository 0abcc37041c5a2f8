// Squares of the 8x8 board and the small list helpers the engine builds its
// move lists from (Python's `range`, `zip` and `list.pop`).

module Geometry {

  /** A square (row, column). Row 0 is black's back rank, row 7 is white's. */
  datatype Square = Square(row: int, column: int)

  predicate OnBoard(sq: Square) {
    0 <= sq.row < 8 && 0 <= sq.column < 8
  }

  function Abs(x: int): nat {
    if x < 0 then -x else x
  }

  function Shift(sq: Square, offset: (int, int)): Square {
    Square(sq.row + offset.0, sq.column + offset.1)
  }

  /** Python's `range(start, stop, step)` for a step of 1 or -1. */
  function Range(start: int, stop: int, step: int): (r: seq<int>)
    requires step == 1 || step == -1
    ensures |r| == if step == 1 then (if start < stop then stop - start else 0)
                   else (if stop < start then start - stop else 0)
    ensures forall k | 0 <= k < |r| :: r[k] == if step == 1 then start + k else start - k
    decreases if step == 1 then stop - start else start - stop
  {
    if (step == 1 && start >= stop) || (step == -1 && start <= stop) then []
    else [start] + Range(start + step, stop, step)
  }

  /** Python's `list(zip(rows, columns))`, read as squares. */
  function Zip(rows: seq<int>, columns: seq<int>): (z: seq<Square>)
    ensures |z| == if |rows| < |columns| then |rows| else |columns|
    ensures forall k | 0 <= k < |z| :: z[k] == Square(rows[k], columns[k])
  {
    if |rows| == 0 || |columns| == 0 then []
    else [Square(rows[0], columns[0])] + Zip(rows[1..], columns[1..])
  }

  /** Python's `xs.pop(i)` applied for its effect on the list. An index outside
      the list raises in Python; no piece on the board produces one. */
  function RemoveAt(xs: seq<int>, i: int): (r: seq<int>)
    ensures 0 <= i < |xs| ==> |r| == |xs| - 1
    ensures 0 <= i < |xs| ==> forall k | 0 <= k < |r| :: r[k] == if k < i then xs[k] else xs[k + 1]
  {
    if 0 <= i < |xs| then xs[..i] + xs[i + 1..] else xs
  }
}
