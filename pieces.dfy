// The six piece kinds, their material values and their move geometry
// (`generate_moves` / `get_attacked_squares` of chess_engine.py). These only
// read the piece's own fields: blocking and occupancy belong to the rules.

module Pieces {
  import opened Geometry

  datatype Kind = Pawn | Knight | Bishop | Rook | Queen | King

  /** One piece object. In the source `hasMoved` exists only on pawns, rooks
      and kings and `enPassant` only on pawns; the other kinds keep both false
      (see `HasMovedAttribute` in the rules for the attribute's absence). */
  datatype Piece = Piece(kind: Kind, white: bool, row: int, column: int,
                         hasMoved: bool, enPassant: bool)

  /** The constructor of every piece class: no flag is set. */
  function NewPiece(kind: Kind, row: int, column: int, white: bool): Piece {
    Piece(kind, white, row, column, false, false)
  }

  function Location(p: Piece): Square {
    Square(p.row, p.column)
  }

  /** The `value` each piece class passes to `Piece.__init__`. */
  function Value(kind: Kind): nat {
    match kind
    case Pawn => 1
    case Knight => 3
    case Bishop => 3
    case Rook => 5
    case Queen => 9
    case King => 0
  }

  /** `Piece.get_value`: positive for white, negative for black. */
  function SignedValue(p: Piece): (v: int)
    ensures v > 0 ==> p.white
    ensures v < 0 ==> !p.white
    ensures v == 0 <==> p.kind == King
    ensures Abs(v) == Value(p.kind)
  {
    if p.white then Value(p.kind) else -(Value(p.kind) as int)
  }

  /** The pawn's `__direction`: white pawns advance towards row 0. */
  function Forward(white: bool): int {
    if white then 1 else -1
  }

  /** `Pawn.generate_moves`: no bounds check is made. */
  function PawnMoves(p: Piece): seq<Square> {
    var d := Forward(p.white);
    [Square(p.row - d, p.column)]
    + (if p.hasMoved then [] else [Square(p.row - 2 * d, p.column)])
  }

  /** `Pawn.get_attacked_squares`. */
  function PawnAttacks(p: Piece): seq<Square> {
    var r := p.row - Forward(p.white);
    if 0 <= r < 8 then
      (if p.column > 0 then [Square(r, p.column - 1)] else [])
      + (if p.column < 7 then [Square(r, p.column + 1)] else [])
    else []
  }

  /** The four diagonal rays built by `Bishop.generate_moves` (and the first
      half of `Queen.generate_moves`). */
  function DiagonalRays(p: Piece): seq<Square> {
    Zip(Range(p.row - 1, -1, -1), Range(p.column + 1, 8, 1))
    + Zip(Range(p.row - 1, -1, -1), Range(p.column - 1, -1, -1))
    + Zip(Range(p.row + 1, 8, 1), Range(p.column + 1, 8, 1))
    + Zip(Range(p.row + 1, 8, 1), Range(p.column - 1, -1, -1))
  }

  /** The rank and the file built by `Rook.generate_moves` (and the second half
      of `Queen.generate_moves`). */
  function StraightLines(p: Piece): seq<Square> {
    var columns := RemoveAt(Range(0, 8, 1), p.column);
    var rows := RemoveAt(Range(0, 8, 1), p.row);
    seq(|columns|, i requires 0 <= i < |columns| => Square(p.row, columns[i]))
    + seq(|rows|, i requires 0 <= i < |rows| => Square(rows[i], p.column))
  }

  const KnightJumps: seq<(int, int)> :=
    [(2, 1), (2, -1), (-2, 1), (-2, -1), (1, 2), (1, -2), (-1, 2), (-1, -2)]

  const KingSteps: seq<(int, int)> :=
    [(1, 1), (1, 0), (1, -1), (0, 1), (0, -1), (-1, 1), (-1, 0), (-1, -1)]

  /** The offset-table loop of `Knight.generate_moves` and `King.generate_moves`. */
  function OffsetTargets(from: Square, offsets: seq<(int, int)>): seq<Square> {
    if |offsets| == 0 then []
    else
      (if OnBoard(Shift(from, offsets[0])) then [Shift(from, offsets[0])] else [])
      + OffsetTargets(from, offsets[1..])
  }

  /** `generate_moves`, dispatched on the kind. */
  function GenerateMoves(p: Piece): seq<Square> {
    match p.kind
    case Pawn => PawnMoves(p)
    case Knight => OffsetTargets(Location(p), KnightJumps)
    case Bishop => DiagonalRays(p)
    case Rook => StraightLines(p)
    case Queen => DiagonalRays(p) + StraightLines(p)
    case King => OffsetTargets(Location(p), KingSteps)
  }

  predicate KnightJump(from: Square, to: Square) {
    (Abs(to.row - from.row) == 1 && Abs(to.column - from.column) == 2)
    || (Abs(to.row - from.row) == 2 && Abs(to.column - from.column) == 1)
  }

  predicate KingStep(from: Square, to: Square) {
    to != from && Abs(to.row - from.row) <= 1 && Abs(to.column - from.column) <= 1
  }

  predicate OnDiagonal(from: Square, to: Square) {
    to != from && Abs(to.row - from.row) == Abs(to.column - from.column)
  }

  predicate OnLine(from: Square, to: Square) {
    to != from && (to.row == from.row || to.column == from.column)
  }

  // ---------------------------------------------------------------------
  // Properties of the geometry

  lemma {:induction false} OffsetTargetsExactly(from: Square, offsets: seq<(int, int)>, t: Square)
    ensures t in OffsetTargets(from, offsets)
        <==> OnBoard(t) && exists j | 0 <= j < |offsets| :: t == Shift(from, offsets[j])
  {
    if |offsets| > 0 {
      OffsetTargetsExactly(from, offsets[1..], t);
      if OnBoard(t) && t != Shift(from, offsets[0]) && (exists j | 0 <= j < |offsets| :: t == Shift(from, offsets[j])) {
        var j :| 0 <= j < |offsets| && t == Shift(from, offsets[j]);
        assert offsets[1..][j - 1] == offsets[j];
      }
      if t in OffsetTargets(from, offsets[1..]) {
        var j :| 0 <= j < |offsets[1..]| && t == Shift(from, offsets[1..][j]);
        assert offsets[j + 1] == offsets[1..][j];
      }
    }
  }

  /** A knight targets exactly the on-board squares a knight's jump away. */
  lemma KnightTargets(p: Piece, t: Square)
    requires p.kind == Knight
    ensures t in GenerateMoves(p) <==> OnBoard(t) && KnightJump(Location(p), t)
  {
    OffsetTargetsExactly(Location(p), KnightJumps, t);
    if OnBoard(t) && KnightJump(Location(p), t) {
      var dr, dc := t.row - p.row, t.column - p.column;
      var j := if dr == 2 && dc == 1 then 0 else if dr == 2 && dc == -1 then 1
               else if dr == -2 && dc == 1 then 2 else if dr == -2 && dc == -1 then 3
               else if dr == 1 && dc == 2 then 4 else if dr == 1 && dc == -2 then 5
               else if dr == -1 && dc == 2 then 6 else 7;
      assert t == Shift(Location(p), KnightJumps[j]);
    }
  }

  /** A king targets exactly the on-board squares one step away. */
  lemma KingTargets(p: Piece, t: Square)
    requires p.kind == King
    ensures t in GenerateMoves(p) <==> OnBoard(t) && KingStep(Location(p), t)
  {
    OffsetTargetsExactly(Location(p), KingSteps, t);
    if OnBoard(t) && KingStep(Location(p), t) {
      var dr, dc := t.row - p.row, t.column - p.column;
      var j := if dr == 1 && dc == 1 then 0 else if dr == 1 && dc == 0 then 1
               else if dr == 1 && dc == -1 then 2 else if dr == 0 && dc == 1 then 3
               else if dr == 0 && dc == -1 then 4 else if dr == -1 && dc == 1 then 5
               else if dr == -1 && dc == 0 then 6 else 7;
      assert t == Shift(Location(p), KingSteps[j]);
    }
  }

  lemma UpRightRay(p: Piece, t: Square)
    requires OnBoard(Location(p))
    ensures t in Zip(Range(p.row - 1, -1, -1), Range(p.column + 1, 8, 1))
        <==> OnBoard(t) && t.row < p.row && t.column - p.column == p.row - t.row
  {
    var z := Zip(Range(p.row - 1, -1, -1), Range(p.column + 1, 8, 1));
    if OnBoard(t) && t.row < p.row && t.column - p.column == p.row - t.row {
      assert z[p.row - t.row - 1] == t;
    }
  }

  lemma UpLeftRay(p: Piece, t: Square)
    requires OnBoard(Location(p))
    ensures t in Zip(Range(p.row - 1, -1, -1), Range(p.column - 1, -1, -1))
        <==> OnBoard(t) && t.row < p.row && p.column - t.column == p.row - t.row
  {
    var z := Zip(Range(p.row - 1, -1, -1), Range(p.column - 1, -1, -1));
    if OnBoard(t) && t.row < p.row && p.column - t.column == p.row - t.row {
      assert z[p.row - t.row - 1] == t;
    }
  }

  lemma DownRightRay(p: Piece, t: Square)
    requires OnBoard(Location(p))
    ensures t in Zip(Range(p.row + 1, 8, 1), Range(p.column + 1, 8, 1))
        <==> OnBoard(t) && t.row > p.row && t.column - p.column == t.row - p.row
  {
    var z := Zip(Range(p.row + 1, 8, 1), Range(p.column + 1, 8, 1));
    if OnBoard(t) && t.row > p.row && t.column - p.column == t.row - p.row {
      assert z[t.row - p.row - 1] == t;
    }
  }

  lemma DownLeftRay(p: Piece, t: Square)
    requires OnBoard(Location(p))
    ensures t in Zip(Range(p.row + 1, 8, 1), Range(p.column - 1, -1, -1))
        <==> OnBoard(t) && t.row > p.row && p.column - t.column == t.row - p.row
  {
    var z := Zip(Range(p.row + 1, 8, 1), Range(p.column - 1, -1, -1));
    if OnBoard(t) && t.row > p.row && p.column - t.column == t.row - p.row {
      assert z[t.row - p.row - 1] == t;
    }
  }

  /** The bishop's rays hold exactly the on-board squares on its diagonals. */
  lemma DiagonalTargets(p: Piece, t: Square)
    requires OnBoard(Location(p))
    ensures t in DiagonalRays(p) <==> OnBoard(t) && OnDiagonal(Location(p), t)
  {
    if t in DiagonalRays(p) {
      DiagonalRaysSound(p, t);
    }
    if OnBoard(t) && OnDiagonal(Location(p), t) {
      DiagonalRaysComplete(p, t);
    }
  }

  lemma DiagonalRaysSound(p: Piece, t: Square)
    requires OnBoard(Location(p)) && t in DiagonalRays(p)
    ensures OnBoard(t) && OnDiagonal(Location(p), t)
  {
    var a := Zip(Range(p.row - 1, -1, -1), Range(p.column + 1, 8, 1));
    var b := Zip(Range(p.row - 1, -1, -1), Range(p.column - 1, -1, -1));
    var c := Zip(Range(p.row + 1, 8, 1), Range(p.column + 1, 8, 1));
    assert DiagonalRays(p) == a + b + c + Zip(Range(p.row + 1, 8, 1), Range(p.column - 1, -1, -1));
    if t in a {
      UpRightRay(p, t);
    } else if t in b {
      UpLeftRay(p, t);
    } else if t in c {
      DownRightRay(p, t);
    } else {
      DownLeftRay(p, t);
    }
  }

  lemma DiagonalRaysComplete(p: Piece, t: Square)
    requires OnBoard(Location(p)) && OnBoard(t) && OnDiagonal(Location(p), t)
    ensures t in DiagonalRays(p)
  {
    var a := Zip(Range(p.row - 1, -1, -1), Range(p.column + 1, 8, 1));
    var b := Zip(Range(p.row - 1, -1, -1), Range(p.column - 1, -1, -1));
    var c := Zip(Range(p.row + 1, 8, 1), Range(p.column + 1, 8, 1));
    var d := Zip(Range(p.row + 1, 8, 1), Range(p.column - 1, -1, -1));
    assert DiagonalRays(p) == a + b + c + d;
    if t.row < p.row && t.column > p.column {
      UpRightRay(p, t);
      assert t in a;
    } else if t.row < p.row {
      UpLeftRay(p, t);
      assert t in b;
    } else if t.column > p.column {
      DownRightRay(p, t);
      assert t in c;
    } else {
      DownLeftRay(p, t);
      assert t in d;
    }
  }

  /** The rook's lines hold exactly the other squares of its rank and file,
      fourteen of them. */
  lemma StraightTargets(p: Piece, t: Square)
    requires OnBoard(Location(p))
    ensures |StraightLines(p)| == 14
    ensures t in StraightLines(p) <==> OnBoard(t) && OnLine(Location(p), t)
  {
    var columns := RemoveAt(Range(0, 8, 1), p.column);
    var rows := RemoveAt(Range(0, 8, 1), p.row);
    var across := seq(|columns|, i requires 0 <= i < |columns| => Square(p.row, columns[i]));
    var down := seq(|rows|, i requires 0 <= i < |rows| => Square(rows[i], p.column));
    assert StraightLines(p) == across + down;
    if OnBoard(t) && OnLine(Location(p), t) {
      if t.row == p.row {
        var i := if t.column < p.column then t.column else t.column - 1;
        assert across[i] == t;
      } else {
        var i := if t.row < p.row then t.row else t.row - 1;
        assert down[i] == t;
      }
    }
  }

  /** Every target of a non-pawn on the board is on the board and is not the
      piece's own square. */
  lemma TargetsOnBoardElsewhere(p: Piece, t: Square)
    requires OnBoard(Location(p)) && p.kind != Pawn
    requires t in GenerateMoves(p)
    ensures OnBoard(t) && t != Location(p)
  {
    match p.kind
    case Knight => KnightTargets(p, t);
    case King => KingTargets(p, t);
    case Bishop => DiagonalTargets(p, t);
    case Rook => StraightTargets(p, t);
    case Queen =>
      if t in DiagonalRays(p) { DiagonalTargets(p, t); } else { StraightTargets(p, t); }
  }

  /** A queen targets exactly the union of a bishop's and a rook's squares. */
  lemma QueenTargets(p: Piece, t: Square)
    requires p.kind == Queen && OnBoard(Location(p))
    ensures t in GenerateMoves(p)
        <==> OnBoard(t) && (OnDiagonal(Location(p), t) || OnLine(Location(p), t))
  {
    DiagonalTargets(p, t);
    StraightTargets(p, t);
  }

  /** A pawn targets the square ahead and, before its first move, the square
      two ahead; nothing else. */
  lemma PawnTargets(p: Piece, t: Square)
    requires p.kind == Pawn
    ensures t in GenerateMoves(p)
        <==> t.column == p.column
             && (t.row == p.row - Forward(p.white)
                 || (!p.hasMoved && t.row == p.row - 2 * Forward(p.white)))
    ensures |GenerateMoves(p)| == if p.hasMoved then 1 else 2
  {
  }

  /** A pawn attacks exactly the on-board squares diagonally ahead of it. */
  lemma PawnAttacksExactly(p: Piece, t: Square)
    requires OnBoard(Location(p))
    ensures t in PawnAttacks(p)
        <==> OnBoard(t) && t.row == p.row - Forward(p.white) && Abs(t.column - p.column) == 1
  {
  }
}
