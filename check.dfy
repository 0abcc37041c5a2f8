// Check detection (`Game.__is_king_in_check`) as a specification: the first
// piece met along each of the eight rays from the king, and the eight knight
// squares around it.

module Check {
  import opened Geometry
  import opened Pieces
  import opened BoardState

  /** The scan order: four straight rays, then four diagonal ones. */
  const Directions: seq<(int, int)> :=
    [(-1, 0), (1, 0), (0, -1), (0, 1), (-1, -1), (-1, 1), (1, -1), (1, 1)]

  const KnightShifts: seq<(int, int)> :=
    [(2, 1), (2, -1), (-2, 1), (-2, -1), (1, 2), (1, -2), (-1, 2), (-1, -2)]

  /** `unit * step` for a direction component in {-1, 0, 1}. */
  function Scale(unit: int, step: int): int {
    if unit > 0 then step else if unit < 0 then -step else 0
  }

  /** The square `step` squares from `k` along direction `d`. */
  function RaySquare(k: Square, d: (int, int), step: int): Square {
    Square(k.row + Scale(d.0, step), k.column + Scale(d.1, step))
  }

  /** The first occupied square along a ray, scanning steps `step` to 7; the
      scan ends at the edge of the board. */
  function FirstHit(s: Position, k: Square, d: (int, int), step: nat): (r: Option<Square>)
    ensures r.Some? ==> OnBoard(r.value) && PieceAt(s, r.value).Some?
    decreases 8 - step
  {
    if step >= 8 then None
    else
      var sq := RaySquare(k, d, step);
      if !OnBoard(sq) then None
      else if PieceAt(s, sq).None? then FirstHit(s, k, d, step + 1)
      else Some(sq)
  }

  /** Steps `from` up to `to` (excluded) of a ray are on the board and empty. */
  predicate ClearRay(s: Position, k: Square, d: (int, int), from: nat, to: nat) {
    forall j | from <= j < to :: OnBoard(RaySquare(k, d, j)) && PieceAt(s, RaySquare(k, d, j)).None?
  }

  /** The ray scan stops at the nearest occupied square: an occupied square
      with only empty squares before it is the one found. */
  lemma {:induction false} FirstHitAt(s: Position, k: Square, d: (int, int), step: nat, j: nat)
    requires step <= j < 8 && ClearRay(s, k, d, step, j)
    requires OnBoard(RaySquare(k, d, j)) && PieceAt(s, RaySquare(k, d, j)).Some?
    ensures FirstHit(s, k, d, step) == Some(RaySquare(k, d, j))
    decreases j - step
  {
    if step < j {
      FirstHitAt(s, k, d, step + 1, j);
    }
  }

  /** ... and whatever the scan finds is such a square. */
  lemma {:induction false} FirstHitFound(s: Position, k: Square, d: (int, int), step: nat)
    requires FirstHit(s, k, d, step).Some?
    ensures exists j: nat | step <= j < 8 ::
              FirstHit(s, k, d, step) == Some(RaySquare(k, d, j)) && ClearRay(s, k, d, step, j)
    decreases 8 - step
  {
    var sq := RaySquare(k, d, step);
    if PieceAt(s, sq).None? {
      FirstHitFound(s, k, d, step + 1);
      var j: nat :| step + 1 <= j < 8 && FirstHit(s, k, d, step + 1) == Some(RaySquare(k, d, j))
                    && ClearRay(s, k, d, step + 1, j);
      assert ClearRay(s, k, d, step, j);
    } else {
      assert ClearRay(s, k, d, step, step);
    }
  }

  /** Whether the first piece met on ray `i` gives check, as the source tests it. */
  predicate Threatens(p: Piece, i: nat, k: Square) {
    (i <= 3 && (p.kind == Rook || p.kind == Queen))
    || (4 <= i <= 7 && (p.kind == Bishop || p.kind == Queen))
    || (p.kind == Pawn && k in PawnAttacks(p))
    || (p.kind == King && k in GenerateMoves(p))
  }

  /** The first piece on ray `i` from `k` is an enemy of `white` that threatens `k`. */
  predicate RayThreat(s: Position, k: Square, white: bool, i: nat)
    requires i < 8
  {
    match FirstHit(s, k, Directions[i], 1)
    case None => false
    case Some(sq) => PieceAt(s, sq).value.white != white && Threatens(PieceAt(s, sq).value, i, k)
  }

  /** An enemy knight stands on knight square `i` of `k`. */
  predicate KnightThreat(s: Position, k: Square, white: bool, i: nat)
    requires i < 8
  {
    var sq := Shift(k, KnightShifts[i]);
    OnBoard(sq) && PieceAt(s, sq).Some?
    && PieceAt(s, sq).value.white != white && PieceAt(s, sq).value.kind == Knight
  }

  predicate Attacked(s: Position, k: Square, white: bool) {
    (exists i: nat | i < 8 :: RayThreat(s, k, white, i))
    || (exists i: nat | i < 8 :: KnightThreat(s, k, white, i))
  }

  /** The side to move is in check, judged at its cached king location. */
  predicate InCheck(s: Position) {
    Attacked(s, KingCache(s, s.whiteToMove), s.whiteToMove)
  }

  /** The flags `(white_check, black_check)` that `__is_king_in_check` leaves:
      both are cleared and only the side to move's flag can be set. */
  function CheckFlags(s: Position): (r: (bool, bool))
    ensures !(r.0 && r.1)
    ensures r.0 ==> s.whiteToMove
    ensures r.1 ==> !s.whiteToMove
  {
    (s.whiteToMove && InCheck(s), !s.whiteToMove && InCheck(s))
  }
}
