// The squares a sliding move passes over (`Game.__get_passed_squares`).

module Paths {
  import opened Geometry

  /** `[(row, column + i) for i in offsets]` and friends: squares of one rank
      or one file, `sign` giving the direction. */
  function AlongRow(row: int, column: int, offsets: seq<int>, sign: int): seq<Square> {
    seq(|offsets|, k requires 0 <= k < |offsets| => Square(row, if sign == 1 then column + offsets[k] else column - offsets[k]))
  }

  function AlongColumn(row: int, column: int, offsets: seq<int>, sign: int): seq<Square> {
    seq(|offsets|, k requires 0 <= k < |offsets| => Square(if sign == 1 then row + offsets[k] else row - offsets[k], column))
  }

  /** `Game.__get_passed_squares`, branch for branch. Note the bottom-right
      diagonal's row range runs one further than the others; `zip` stops at
      the shorter column range. */
  function PassedSquares(origin: Square, target: Square): seq<Square> {
    if target.column > origin.column then
      if target.row > origin.row then
        Zip(Range(origin.row + 1, target.row + 1, 1), Range(origin.column + 1, target.column, 1))
      else if target.row == origin.row then
        AlongRow(origin.row, origin.column, Range(1, target.column - origin.column, 1), 1)
      else
        Zip(Range(origin.row - 1, target.row, -1), Range(origin.column + 1, target.column, 1))
    else if target.column == origin.column then
      if target.row > origin.row then
        AlongColumn(origin.row, origin.column, Range(1, target.row - origin.row, 1), 1)
      else
        AlongColumn(origin.row, origin.column, Range(1, origin.row - target.row, 1), -1)
    else
      if target.row > origin.row then
        Zip(Range(origin.row + 1, target.row, 1), Range(origin.column - 1, target.column, -1))
      else if target.row == origin.row then
        AlongRow(origin.row, origin.column, Range(1, origin.column - target.column, 1), -1)
      else
        Zip(Range(origin.row - 1, target.row, -1), Range(origin.column - 1, target.column, -1))
  }

  /** `a` moved `k` steps towards `b`. */
  function Toward(a: int, b: int, k: int): int {
    if b > a then a + k else if b < a then a - k else a
  }

  function Distance(origin: Square, target: Square): nat {
    var dr := Abs(target.row - origin.row);
    var dc := Abs(target.column - origin.column);
    if dr < dc then dc else dr
  }

  /** Same rank, same file or a true diagonal, and not standing still. */
  predicate Aligned(origin: Square, target: Square) {
    origin != target
    && (origin.row == target.row || origin.column == target.column
        || Abs(target.row - origin.row) == Abs(target.column - origin.column))
  }

  /** The squares strictly between two aligned squares, nearest first. */
  function Between(origin: Square, target: Square): (b: seq<Square>)
    requires Aligned(origin, target)
  {
    seq(Distance(origin, target) - 1, k requires 0 <= k < Distance(origin, target) - 1 =>
      Square(Toward(origin.row, target.row, k + 1), Toward(origin.column, target.column, k + 1)))
  }

  /** For a rank, file or diagonal move the passed squares are exactly the
      squares strictly between origin and destination, `Distance - 1` of them. */
  lemma PassedSquaresBetween(origin: Square, target: Square)
    requires Aligned(origin, target)
    ensures PassedSquares(origin, target) == Between(origin, target)
    ensures |PassedSquares(origin, target)| == Distance(origin, target) - 1
  {
    var p, b := PassedSquares(origin, target), Between(origin, target);
    var n := Distance(origin, target) - 1;
    if target.column > origin.column && target.row > origin.row {
      assert |p| == n;
      forall k | 0 <= k < n ensures p[k] == b[k] {
        assert b[k] == Square(Toward(origin.row, target.row, k + 1), Toward(origin.column, target.column, k + 1));
        assert p[k] == Square(origin.row + 1 + k, origin.column + 1 + k);
      }
    } else if target.column > origin.column && target.row < origin.row {
      assert |p| == n;
      forall k | 0 <= k < n ensures p[k] == b[k] {
        assert b[k] == Square(Toward(origin.row, target.row, k + 1), Toward(origin.column, target.column, k + 1));
        assert p[k] == Square(origin.row - 1 - k, origin.column + 1 + k);
      }
    } else if target.column < origin.column && target.row > origin.row {
      assert |p| == n;
      forall k | 0 <= k < n ensures p[k] == b[k] {
        assert b[k] == Square(Toward(origin.row, target.row, k + 1), Toward(origin.column, target.column, k + 1));
        assert p[k] == Square(origin.row + 1 + k, origin.column - 1 - k);
      }
    } else if target.column < origin.column && target.row < origin.row {
      assert |p| == n;
      forall k | 0 <= k < n ensures p[k] == b[k] {
        assert b[k] == Square(Toward(origin.row, target.row, k + 1), Toward(origin.column, target.column, k + 1));
        assert p[k] == Square(origin.row - 1 - k, origin.column - 1 - k);
      }
    } else {
      assert |p| == n;
      forall k | 0 <= k < n ensures p[k] == b[k] {
        assert b[k] == Square(Toward(origin.row, target.row, k + 1), Toward(origin.column, target.column, k + 1));
        if target.column > origin.column {
          assert p[k] == Square(origin.row, origin.column + 1 + k);
        } else if target.column < origin.column {
          assert p[k] == Square(origin.row, origin.column - 1 - k);
        } else if target.row > origin.row {
          assert p[k] == Square(origin.row + 1 + k, origin.column);
        } else {
          assert p[k] == Square(origin.row - 1 - k, origin.column);
        }
      }
    }
  }

  /** The squares between a king on its home column and either corner of
      its rank. */
  lemma CastlePath(origin: Square, corner: Square)
    requires origin.column == 4 && corner.row == origin.row
    requires corner.column == 7 || corner.column == 0
    ensures PassedSquares(origin, corner)
            == if corner.column == 7 then [Square(origin.row, 5), Square(origin.row, 6)]
               else [Square(origin.row, 3), Square(origin.row, 2), Square(origin.row, 1)]
  {
    var offsets := Range(1, if corner.column == 7 then 3 else 4, 1);
    assert offsets == if corner.column == 7 then [1, 2] else [1, 2, 3];
  }

  /** Every passed square of a move between two on-board squares is on the board. */
  lemma PassedSquaresOnBoard(origin: Square, target: Square, sq: Square)
    requires OnBoard(origin) && OnBoard(target) && sq in PassedSquares(origin, target)
    ensures OnBoard(sq)
  {
  }
}
