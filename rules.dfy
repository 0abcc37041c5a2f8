// The move rules of `Game` as functions of a `Position`: which moves
// `validate_move` accepts, what its castling branch does, en passant
// eligibility and capture, the insufficient-material draw and the move lists
// the AI draws from.

module Rules {
  import opened Geometry
  import opened Pieces
  import opened Paths
  import opened BoardState
  import opened Check

  /** Python raises `AttributeError` when a castling corner piece has no
      `has_moved` attribute (a knight, bishop or queen). */
  datatype Error = NoHasMovedAttribute

  datatype Result<T> = Ok(value: T) | Err(error: Error)

  datatype Move = Move(origin: Square, target: Square)

  // ---------------------------------------------------------------------
  // validate_move

  /** The castling test as the source writes it: `and` binds tighter than
      `or`, so any move two columns left counts, in any row. */
  predicate CastleShape(origin: Square, target: Square) {
    (target.row == origin.row && target.column == origin.column + 2)
    || target.column == origin.column - 2
  }

  /** The eligibility part of `__validate_en_passant`: the destination is on
      the en passant row, one column aside, and a pawn flagged as capturable
      stands beside the mover. The colour of that pawn is not tested. */
  predicate EnPassantEligible(s: Position, origin: Square, target: Square) {
    && (if s.whiteToMove then target.row == 2 else target.row == 5)
    && (target.column == origin.column - 1 || target.column == origin.column + 1)
    && var victim := PieceAt(s, Square(origin.row, target.column));
       victim.Some? && victim.value.kind == Pawn && victim.value.enPassant
  }

  predicate EnemyAt(s: Position, sq: Square, white: bool) {
    PieceAt(s, sq).Some? && PieceAt(s, sq).value.white != white
  }

  /** `Game.__is_move_legal`. */
  predicate IsMoveLegal(s: Position, origin: Square, target: Square) {
    PieceAt(s, origin).Some?
    && var p := PieceAt(s, origin).value;
       && p.white == s.whiteToMove
       && if p.kind == King && CastleShape(origin, target) then true
          else if p.kind == Pawn && (EnemyAt(s, target, s.whiteToMove) || EnPassantEligible(s, origin, target))
          then target in PawnAttacks(p)
          else target in GenerateMoves(p)
  }

  /** `Game.__is_move_blocked`: some passed square is occupied; knights jump. */
  predicate IsMoveBlocked(s: Position, origin: Square, target: Square) {
    !(PieceAt(s, origin).Some? && PieceAt(s, origin).value.kind == Knight)
    && exists sq | sq in PassedSquares(origin, target) :: PieceAt(s, sq).Some?
  }

  predicate SameColourAt(s: Position, origin: Square, target: Square) {
    PieceAt(s, target).Some? && PieceAt(s, origin).Some?
    && PieceAt(s, origin).value.white == PieceAt(s, target).value.white
  }

  /** The tests `validate_move` makes before it looks at check. */
  predicate PassesEarlyChecks(s: Position, origin: Square, target: Square) {
    IsMoveLegal(s, origin, target) && !IsMoveBlocked(s, origin, target) && !SameColourAt(s, origin, target)
  }

  /** A move `validate_move` hands to `__validate_castling_move`. */
  predicate CastleAttempt(s: Position, origin: Square, target: Square) {
    PassesEarlyChecks(s, origin, target) && PieceAt(s, origin).value.kind == King && CastleShape(origin, target)
  }

  /** The trial position of `validate_move`: the mover stands on the target
      (its own row and column are not updated), and a moving king updates its
      side's cache. Nothing is taken off the lists. */
  function Simulate(s: Position, origin: Square, target: Square): Position
    requires PieceAt(s, origin).Some?
  {
    var id := At(s.grid, origin).value;
    var s1 := s.(grid := SetCell(SetCell(s.grid, origin, None), target, Some(id)));
    if s.pieces[id].kind != King then s1
    else if s.whiteToMove then s1.(whiteKing := target)
    else s1.(blackKing := target)
  }

  /** What `validate_move` answers for a move that is not a castle attempt. */
  predicate LegalMove(s: Position, origin: Square, target: Square) {
    PassesEarlyChecks(s, origin, target) && !InCheck(Simulate(s, origin, target))
  }

  /** The answer of `validate_move`. */
  function Verdict(s: Position, origin: Square, target: Square): Result<bool> {
    if CastleAttempt(s, origin, target) then CastleVerdict(s, origin, target)
    else Ok(LegalMove(s, origin, target))
  }

  /** What an accepted move has passed: the mover's own piece stands on the
      origin, the target holds no piece of its colour, nothing stands in the
      way of a non-knight, and a move other than a castle does not leave the
      mover in check. */
  lemma AcceptedMove(s: Position, origin: Square, target: Square)
    requires Verdict(s, origin, target) == Ok(true)
    ensures PieceAt(s, origin).Some? && PieceAt(s, origin).value.white == s.whiteToMove
    ensures !SameColourAt(s, origin, target)
    ensures PieceAt(s, origin).value.kind != Knight
            ==> forall sq | sq in PassedSquares(origin, target) :: PieceAt(s, sq).None?
    ensures !CastleAttempt(s, origin, target) ==> !InCheck(Simulate(s, origin, target))
  {
  }

  /** The en passant rule: a pawn's sideways move onto an empty square is
      accepted exactly when it is the mover's pawn, the move is eligible (en
      passant row, one column aside, a flagged pawn beside it), the target is
      one of the pawn's attacked squares, and the mover is not left in check. */
  lemma EnPassantRule(s: Position, origin: Square, target: Square)
    requires Valid(s)
    requires PieceAt(s, origin).Some? && PieceAt(s, origin).value.kind == Pawn
    requires target.column != origin.column && PieceAt(s, target).None?
    ensures Verdict(s, origin, target) == Ok(true)
        <==> && PieceAt(s, origin).value.white == s.whiteToMove
             && EnPassantEligible(s, origin, target)
             && target in PawnAttacks(PieceAt(s, origin).value)
             && !InCheck(Simulate(s, origin, target))
  {
    var p := PieceAt(s, origin).value;
    assert CellOk(s, origin);
    PawnTargets(p, target);
    if target in PawnAttacks(p) {
      PawnAttacksExactly(p, target);
      PassedSquaresBetween(origin, target);
      assert !IsMoveBlocked(s, origin, target);
    }
  }

  // ---------------------------------------------------------------------
  // __validate_castling_move

  function CornerColumn(origin: Square, target: Square): int {
    if target.column > origin.column then 7 else 0
  }

  function RookColumn(origin: Square, target: Square): int {
    if target.column > origin.column then target.column - 1 else target.column + 1
  }

  /** The columns the king is probed on, its own column first. */
  function KingColumns(origin: Square, target: Square): seq<int> {
    if target.column > origin.column then Range(origin.column, target.column + 1, 1)
    else Range(origin.column, target.column - 1, -1)
  }

  /** `piece.has_moved`, which only pawns, rooks and kings have. */
  function HasMovedAttribute(p: Piece): Option<bool> {
    if p.kind == Pawn || p.kind == Rook || p.kind == King then Some(p.hasMoved) else None
  }

  datatype Precheck = Refused | MissingAttribute | Cleared

  /** The first test of `__validate_castling_move`, evaluated left to right:
      path to the corner blocked, king moved, no corner piece, corner piece
      moved (raising when it has no such attribute), king in check. */
  function CastlePrecheck(s: Position, origin: Square, target: Square): Precheck
    requires PieceAt(s, origin).Some?
  {
    var corner := Square(origin.row, CornerColumn(origin, target));
    if IsMoveBlocked(s, origin, corner) || PieceAt(s, origin).value.hasMoved || PieceAt(s, corner).None? then Refused
    else match HasMovedAttribute(PieceAt(s, corner).value)
      case None => MissingAttribute
      case Some(moved) => if moved || InCheck(s) then Refused else Cleared
  }

  /** One round of the probe loop: king written on the probed square, then
      on its origin, then the probed square cleared. */
  function ProbeStep(g: Grid, origin: Square, kid: PieceId, column: int): Grid {
    var sq := Square(origin.row, column);
    SetCell(SetCell(SetCell(g, sq, Some(kid)), origin, Some(kid)), sq, None)
  }

  /** The grid after `j` rounds of the probe loop. */
  function ProbedGrid(s: Position, origin: Square, target: Square, j: nat): Grid
    requires PieceAt(s, origin).Some? && j <= |KingColumns(origin, target)|
  {
    if j == 0 then s.grid
    else ProbeStep(ProbedGrid(s, origin, target, j - 1), origin, At(s.grid, origin).value, KingColumns(origin, target)[j - 1])
  }

  /** The position tested for check in round `j` of the probe loop. */
  function Probe(s: Position, origin: Square, target: Square, j: nat): Position
    requires PieceAt(s, origin).Some? && j < |KingColumns(origin, target)|
  {
    var sq := Square(origin.row, KingColumns(origin, target)[j]);
    var s1 := s.(grid := SetCell(ProbedGrid(s, origin, target, j), sq, Some(At(s.grid, origin).value)));
    if s.whiteToMove then s1.(whiteKing := sq) else s1.(blackKing := sq)
  }

  /** Round `j` of the probe loop does not find the king in check. */
  predicate ProbeSafe(s: Position, origin: Square, target: Square, j: nat)
    requires PieceAt(s, origin).Some? && j < |KingColumns(origin, target)|
  {
    !InCheck(Probe(s, origin, target, j))
  }

  /** The `valid` flag of the probe loop after `j` rounds. */
  predicate ProbesSafeUpTo(s: Position, origin: Square, target: Square, j: nat)
    requires PieceAt(s, origin).Some? && j <= |KingColumns(origin, target)|
  {
    j == 0 || (ProbesSafeUpTo(s, origin, target, j - 1) && ProbeSafe(s, origin, target, j - 1))
  }

  /** The loop's flag after all rounds. */
  predicate ProbesSafe(s: Position, origin: Square, target: Square)
    requires PieceAt(s, origin).Some?
  {
    ProbesSafeUpTo(s, origin, target, |KingColumns(origin, target)|)
  }

  /** The answer of `__validate_castling_move`. */
  function CastleVerdict(s: Position, origin: Square, target: Square): Result<bool>
    requires PieceAt(s, origin).Some?
  {
    match CastlePrecheck(s, origin, target)
    case Refused => Ok(false)
    case MissingAttribute => Err(NoHasMovedAttribute)
    case Cleared => Ok(ProbesSafe(s, origin, target))
  }

  /** The check flags `__validate_castling_move` leaves: those of the last
      probe if the probe loop ran, else those set just before it. */
  function CastleFlags(s: Position, origin: Square, target: Square): (bool, bool)
    requires PieceAt(s, origin).Some?
  {
    if CastlePrecheck(s, origin, target) == Cleared && |KingColumns(origin, target)| > 0 then
      CheckFlags(Probe(s, origin, target, |KingColumns(origin, target)| - 1))
    else CheckFlags(s)
  }

  /** What a castle that passes the precheck knows about the position. */
  lemma ClearedCastle(s: Position, origin: Square, target: Square)
    requires Valid(s) && CastleAttempt(s, origin, target) && OnBoard(target)
    requires CastlePrecheck(s, origin, target) == Cleared
    ensures origin == HomeKing(s.whiteToMove)
    ensures (target.row == origin.row && target.column == 6) || target.column == 2
    ensures KingColumns(origin, target)
            == if target.column == 6 then [4, 5, 6] else [4, 3, 2]
    ensures At(s.grid, Square(origin.row, KingColumns(origin, target)[1])) == None
    ensures At(s.grid, Square(origin.row, KingColumns(origin, target)[2])) == None
    ensures var corner := Square(origin.row, CornerColumn(origin, target));
            PieceAt(s, corner).Some? && corner != origin && corner != target
            && Location(PieceAt(s, corner).value) == corner
    ensures RookColumn(origin, target) == KingColumns(origin, target)[1]
  {
    CastleKingHome(s, origin, target);
    var corner := Square(origin.row, CornerColumn(origin, target));
    CastlePath(origin, corner);
    var passed := PassedSquares(origin, corner);
    assert CellOk(s, corner);
    if target.column > origin.column {
      assert Square(origin.row, 5) in passed && Square(origin.row, 6) in passed;
      assert CellOk(s, Square(origin.row, 5)) && CellOk(s, Square(origin.row, 6));
    } else {
      assert Square(origin.row, 3) in passed && Square(origin.row, 2) in passed;
      assert CellOk(s, Square(origin.row, 3)) && CellOk(s, Square(origin.row, 2));
    }
  }

  /** On the queen side the precheck also demands that the corner piece's
      path is clear: column 1, which the king never reaches, is empty too. */
  lemma ClearedQueenSide(s: Position, origin: Square, target: Square)
    requires Valid(s) && CastleAttempt(s, origin, target) && OnBoard(target)
    requires CastlePrecheck(s, origin, target) == Cleared && target.column < origin.column
    ensures origin.column == 4 && target.column == 2
    ensures forall c | 1 <= c <= 3 :: At(s.grid, Square(origin.row, c)) == None
  {
    CastleKingHome(s, origin, target);
    var corner := Square(origin.row, CornerColumn(origin, target));
    CastlePath(origin, corner);
    forall c | 1 <= c <= 3 ensures At(s.grid, Square(origin.row, c)) == None {
      assert Square(origin.row, c) in PassedSquares(origin, corner);
      assert CellOk(s, Square(origin.row, c));
    }
  }

  /** A castle past its precheck starts from the king's home square: an
      unmoved king has never left it. */
  lemma CastleKingHome(s: Position, origin: Square, target: Square)
    requires Valid(s) && CastleAttempt(s, origin, target)
    requires CastlePrecheck(s, origin, target) == Cleared
    ensures origin == HomeKing(s.whiteToMove)
  {
    var id := At(s.grid, origin).value;
    assert CellOk(s, origin);
    assert LivePieceOk(s, id);
  }

  lemma ProbeStepCells(g: Grid, origin: Square, kid: PieceId, column: int)
    requires GridShape(g) && OnBoard(origin) && OnBoard(Square(origin.row, column))
    ensures GridShape(ProbeStep(g, origin, kid, column))
    ensures forall sq :: At(ProbeStep(g, origin, kid, column), sq)
                         == if sq == Square(origin.row, column) then None
                            else if sq == origin then Some(kid) else At(g, sq)
  {
  }

  /** With an unblocked path the probe loop leaves the grid as it found it. */
  lemma ProbesRestoreGrid(s: Position, origin: Square, target: Square)
    requires GridShape(s.grid) && OnBoard(origin) && PieceAt(s, origin).Some?
    requires KingColumns(origin, target) == [4, 5, 6] || KingColumns(origin, target) == [4, 3, 2]
    requires origin.column == 4
    requires At(s.grid, Square(origin.row, KingColumns(origin, target)[1])) == None
    requires At(s.grid, Square(origin.row, KingColumns(origin, target)[2])) == None
    ensures ProbedGrid(s, origin, target, |KingColumns(origin, target)|) == s.grid
  {
    var cols := KingColumns(origin, target);
    var kid := At(s.grid, origin).value;
    var g1 := ProbedGrid(s, origin, target, 1);
    var g2 := ProbedGrid(s, origin, target, 2);
    var g3 := ProbedGrid(s, origin, target, 3);
    var a, b := Square(origin.row, cols[1]), Square(origin.row, cols[2]);
    assert Square(origin.row, cols[0]) == origin;
    ProbeStepCells(s.grid, origin, kid, cols[0]);
    assert ProbedGrid(s, origin, target, 0) == s.grid;
    assert g1 == ProbeStep(s.grid, origin, kid, cols[0]);
    ProbeStepCells(g1, origin, kid, cols[1]);
    assert g2 == ProbeStep(g1, origin, kid, cols[1]);
    ProbeStepCells(g2, origin, kid, cols[2]);
    assert g3 == ProbeStep(g2, origin, kid, cols[2]);
    forall sq | OnBoard(sq) ensures At(g3, sq) == At(s.grid, sq) {
    }
    GridExtensionality(g3, s.grid);
  }

  /** The rook leg of a castle starts from a square that still holds the
      corner piece after the king's leg. */
  lemma CastleRookLeg(s: Position, origin: Square, target: Square)
    requires Valid(s) && CastleAttempt(s, origin, target) && OnBoard(target)
    requires CastlePrecheck(s, origin, target) == Cleared
    ensures var s2 := Executed(s, origin, target);
            var rid := At(s.grid, Square(origin.row, CornerColumn(origin, target))).value;
            && Valid(s2)
            && rid < |s2.pieces|
            && Location(s2.pieces[rid]) == Square(origin.row, CornerColumn(origin, target))
            && At(s2.grid, Square(origin.row, CornerColumn(origin, target))) == Some(rid)
            && PieceAt(s2, Square(origin.row, RookColumn(origin, target))).None?
  {
    ClearedCastle(s, origin, target);
    ExecutedValid(s, origin, target);
    var corner := Square(origin.row, CornerColumn(origin, target));
    var rookTarget := Square(origin.row, RookColumn(origin, target));
    var rid := At(s.grid, corner).value;
    assert CellOk(s, corner);
    if !s.justCastled {
      ExecutedPieces(s, origin, target);
      assert rid != At(s.grid, origin).value;
      assert rookTarget != target;
    }
  }

  /** The state `__validate_castling_move` leaves. A castle that passes every
      test is performed at once: the king's move, a turn flip back, the corner
      piece's move, and the flag that makes the next `execute_move` a no-op. */
  function CastleState(s: Position, origin: Square, target: Square): Position
    requires Valid(s) && CastleAttempt(s, origin, target) && OnBoard(target)
  {
    if CastlePrecheck(s, origin, target) != Cleared || !ProbesSafe(s, origin, target) then s
    else
      CastleRookLeg(s, origin, target);
      var s2 := Executed(s, origin, target);
      var s3 := s2.(whiteToMove := !s2.whiteToMove);
      var rid := At(s.grid, Square(origin.row, CornerColumn(origin, target))).value;
      var s4 := Executed(s3, Square(origin.row, s3.pieces[rid].column), Square(origin.row, RookColumn(origin, target)));
      s4.(justCastled := true)
  }

  /** What the probe loop of a castle past its precheck can rely on: its
      columns, a grid it leaves as it found it, the king cache on the king, and
      the flags and state that follow from its outcome. */
  lemma CastleProbeSetup(s: Position, origin: Square, target: Square)
    requires Valid(s) && CastleAttempt(s, origin, target) && OnBoard(target)
    requires CastlePrecheck(s, origin, target) == Cleared
    ensures |KingColumns(origin, target)| == 3
    ensures ProbedGrid(s, origin, target, |KingColumns(origin, target)|) == s.grid
    ensures KingCache(s, s.whiteToMove) == origin
    ensures At(s.grid, Square(origin.row, CornerColumn(origin, target))).Some?
    ensures CastleFlags(s, origin, target) == CheckFlags(Probe(s, origin, target, |KingColumns(origin, target)| - 1))
    ensures !ProbesSafe(s, origin, target) ==> CastleState(s, origin, target) == s
  {
    ClearedCastle(s, origin, target);
    ProbesRestoreGrid(s, origin, target);
    var kid := At(s.grid, origin).value;
    assert CellOk(s, origin) && LivePieceOk(s, kid);
    assert CellOk(s, Square(origin.row, CornerColumn(origin, target)));
  }

  /** The position after the king's leg of a castle, with the turn handed
      back to the castling side. */
  function KingLeg(s: Position, origin: Square, target: Square): Position
    requires CanExecute(s, origin)
  {
    var s2 := Executed(s, origin, target);
    s2.(whiteToMove := !s2.whiteToMove)
  }

  /** The corner piece `rid` is still on `corner` after the king's leg, so the
      rook leg can start there. */
  predicate LegsReady(s: Position, origin: Square, target: Square, corner: Square, rid: PieceId) {
    && CanExecute(s, origin)
    && var s3 := KingLeg(s, origin, target);
       rid < |s3.pieces| && s3.pieces[rid].column == corner.column && CanExecute(s3, corner)
  }

  /** Both legs of a castle and the flag that makes the next `execute_move`
      a no-op. */
  function CastleLegs(s: Position, origin: Square, target: Square, corner: Square, rookTarget: Square): Position
    requires CanExecute(s, origin) && CanExecute(KingLeg(s, origin, target), corner)
  {
    Executed(KingLeg(s, origin, target), corner, rookTarget).(justCastled := true)
  }

  /** An accepted castle, leg by leg: the king's move, the turn flipped back,
      and the corner piece's move from the corner (where the first leg left
      it) to the square beside the king. */
  lemma CastleStateLegs(s: Position, origin: Square, target: Square)
    requires Valid(s) && CastleAttempt(s, origin, target) && OnBoard(target)
    requires CastlePrecheck(s, origin, target) == Cleared && ProbesSafe(s, origin, target)
    ensures var corner := Square(origin.row, CornerColumn(origin, target));
            && LegsReady(s, origin, target, corner, At(s.grid, corner).value)
            && CastleState(s, origin, target)
               == CastleLegs(s, origin, target, corner, Square(origin.row, RookColumn(origin, target)))
  {
    CastleRookLeg(s, origin, target);
    var corner := Square(origin.row, CornerColumn(origin, target));
    var rid := At(s.grid, corner).value;
    var s3 := KingLeg(s, origin, target);
    assert Square(origin.row, s3.pieces[rid].column) == corner;
  }

  // ---------------------------------------------------------------------
  // En passant capture and promotion

  /** `__execute_en_passant_move`: the pawn beside the mover leaves the grid
      and the opponent's live list, then the move itself is executed. */
  function ExecutedEnPassant(s: Position, origin: Square, target: Square, victim: PieceId): Position
    requires PieceAt(s, origin).Some? && target.column != origin.column
  {
    var s2 := TakenEnPassant(s, Square(origin.row, target.column), victim);
    assert At(s2.grid, origin) == At(s.grid, origin);
    Executed(s2, origin, target)
  }

  /** The first half of `__execute_en_passant_move`: the square `sq` is
      emptied, and `victim` moves from the opponent's live list to the
      opponent's taken list. */
  function TakenEnPassant(s: Position, sq: Square, victim: PieceId): Position {
    var s1 := s.(grid := SetCell(s.grid, sq, None));
    if s.whiteToMove then s1.(blackPieces := RemoveFirst(s1.blackPieces, victim), blackTaken := s1.blackTaken + [victim])
    else s1.(whitePieces := RemoveFirst(s1.whitePieces, victim), whiteTaken := s1.whiteTaken + [victim])
  }

  /** Taking an enemy pawn off the board keeps the board invariant; the pawn
      is no longer live and is on its colour's taken list, its square is
      empty, and no other piece changes status. */
  lemma TakenEnPassantValid(s: Position, sq: Square, victim: PieceId)
    requires Valid(s) && OnBoard(sq) && At(s.grid, sq) == Some(victim)
    requires victim < |s.pieces| && s.pieces[victim].white != s.whiteToMove && s.pieces[victim].kind == Pawn
    ensures var s2 := TakenEnPassant(s, sq, victim);
            && Valid(s2)
            && !IsLive(s2, victim) && victim in (if s.whiteToMove then s2.blackTaken else s2.whiteTaken)
            && At(s2.grid, sq).None?
            && (forall j: PieceId | j != victim :: IsLive(s2, j) == IsLive(s, j))
            && s2.pieces == s.pieces && s2.whiteToMove == s.whiteToMove && s2.justCastled == s.justCastled
  {
    var s2 := TakenEnPassant(s, sq, victim);
    assert ListsAfter(s, s2, Some(victim));
    ListsAfterMembers(s, s2, Some(victim));
    TakenCells(s, s2, sq, victim);
  }

  /** The grid half of `TakenEnPassantValid`: with the victim's cell emptied
      and the victim alone no longer live, every cell and live piece is
      still in order. */
  lemma TakenCells(s: Position, s2: Position, sq: Square, victim: PieceId)
    requires Valid(s) && OnBoard(sq) && At(s.grid, sq) == Some(victim)
    requires s2.grid == SetCell(s.grid, sq, None) && s2.pieces == s.pieces
    requires s2.whiteKing == s.whiteKing && s2.blackKing == s.blackKing
    requires forall j: PieceId :: IsLive(s2, j) <==> IsLive(s, j) && j != victim
    requires NoDuplicates(s2.whitePieces) && NoDuplicates(s2.blackPieces)
    requires forall j | j in s2.whitePieces :: j in s.whitePieces
    requires forall j | j in s2.blackPieces :: j in s.blackPieces
    requires forall j | j in s2.whiteTaken :: j in s.whiteTaken || (j == victim && s.pieces[j].white)
    requires forall j | j in s2.blackTaken :: j in s.blackTaken || (j == victim && !s.pieces[j].white)
    ensures Valid(s2)
  {
    forall j: PieceId | IsLive(s2, j) ensures LivePieceOk(s2, j) {
      assert LivePieceOk(s, j);
    }
    forall c | OnBoard(c) ensures CellOk(s2, c) {
      assert CellOk(s, c);
    }
  }

  /** After a move `validate_move` accepts, a pawn mover is capturable en
      passant exactly when it advanced two squares, the mover's other pawns
      are not, and the opponent's flags are as they were. */
  lemma LegalMoveFlags(s: Position, origin: Square, target: Square)
    requires Valid(s) && !s.justCastled && OnBoard(target) && LegalMove(s, origin, target)
    ensures var s' := Executed(s, origin, target);
            var id := At(s.grid, origin).value;
            var mine := if s.whiteToMove then s'.whitePieces else s'.blackPieces;
            && id < |s.pieces| && |s'.pieces| == |s.pieces|
            && (s.pieces[id].kind == Pawn ==> s'.pieces[id].enPassant == DoubleStep(s.whiteToMove, origin, target))
            && (forall j | 0 <= j < |s.pieces| && j != id && j in mine && s.pieces[j].kind == Pawn ::
                  !s'.pieces[j].enPassant)
            && (forall j | 0 <= j < |s.pieces| && j != id && j !in mine ::
                  s'.pieces[j].enPassant == s.pieces[j].enPassant)
  {
    var s' := Executed(s, origin, target);
    var id := At(s.grid, origin).value;
    assert LivePieceOk(s, id) by { assert CellOk(s, origin); }
    assert CellOk(s, target);
    ExecutedLists(s, origin, target);
    ListsAfterMembers(s, s', Occupant(s, target));
    assert IsLive(s', id);
    ExecutedFlags(s, origin, target);
  }

  /** An en passant capture of an enemy pawn keeps the board invariant: the
      taken pawn is off the board and on its colour's taken list, the mover
      stands on the target, and the turn passes. */
  lemma EnPassantCapture(s: Position, origin: Square, target: Square)
    requires Valid(s) && !s.justCastled && OnBoard(target) && target.row != origin.row
    requires PieceAt(s, origin).Some? && EnPassantEligible(s, origin, target)
    requires PieceAt(s, Square(origin.row, target.column)).value.white != s.whiteToMove
    ensures var sq := Square(origin.row, target.column);
            var victim := At(s.grid, sq).value;
            var s' := ExecutedEnPassant(s, origin, target, victim);
            && Valid(s')
            && !IsLive(s', victim) && victim in (if s.whiteToMove then s'.blackTaken else s'.whiteTaken)
            && At(s'.grid, sq).None? && At(s'.grid, origin).None?
            && At(s'.grid, target) == At(s.grid, origin)
            && s'.whiteToMove == !s.whiteToMove
  {
    var sq := Square(origin.row, target.column);
    var victim := At(s.grid, sq).value;
    var id := At(s.grid, origin).value;
    assert LivePieceOk(s, id) by { assert CellOk(s, origin); }
    TakenEnPassantValid(s, sq, victim);
    var s2 := TakenEnPassant(s, sq, victim);
    assert At(s2.grid, origin) == Some(id);
    ExecutedValid(s2, origin, target);
    ExecutedLists(s2, origin, target);
    ExecutedPieces(s2, origin, target);
  }

  // ---------------------------------------------------------------------
  // check_draw

  /** The kinds of the pieces in a list: `[type(piece) for piece in ...]`. */
  function Kinds(pieces: seq<Piece>, ids: seq<PieceId>): (r: seq<Kind>)
    requires forall i | 0 <= i < |ids| :: ids[i] < |pieces|
    ensures |r| == |ids| && forall i | 0 <= i < |ids| :: r[i] == pieces[ids[i]].kind
  {
    seq(|ids|, i requires 0 <= i < |ids| => pieces[ids[i]].kind)
  }

  /** A side with one or two pieces, none of them a pawn, rook or queen. */
  predicate MinorSide(s: Position, ids: seq<PieceId>) {
    1 <= |ids| <= 2
    && forall id | id in ids :: id < |s.pieces| && s.pieces[id].kind in {Knight, Bishop, King}
  }

  /** When `check_draw` declares a draw. The source's list of opponent kinds is
      black's when white has one piece, and white's when black has one piece
      (the second test wins when both have one). */
  predicate InsufficientMaterial(s: Position)
    ensures InsufficientMaterial(s) ==> |s.whitePieces| == 1 || |s.blackPieces| == 1
    ensures InsufficientMaterial(s) ==> |s.whitePieces| <= 2 && |s.blackPieces| <= 2
  {
    if |s.blackPieces| == 1 then MinorSide(s, s.whitePieces)
    else |s.whitePieces| == 1 && MinorSide(s, s.blackPieces)
  }

  /** A side that `check_draw` tests and that holds a pawn, rook or queen is
      never a draw: king and rook against king is played on. */
  lemma HeavyMaterialNotDrawn(s: Position, id: PieceId)
    requires id < |s.pieces| && s.pieces[id].kind in {Pawn, Rook, Queen}
    requires if |s.blackPieces| == 1 then id in s.whitePieces
             else |s.whitePieces| == 1 && id in s.blackPieces
    ensures !InsufficientMaterial(s)
  {
  }

  /** The endings `check_draw` is written for are drawn: a bare king against
      a king, or against a king and one knight or bishop, either way round. */
  lemma DrawnEndings(s: Position, loneWhite: bool, lone: PieceId, others: seq<PieceId>)
    requires (if loneWhite then s.whitePieces else s.blackPieces) == [lone]
    requires (if loneWhite then s.blackPieces else s.whitePieces) == others
    requires lone < |s.pieces| && s.pieces[lone].kind == King
    requires |others| == 1 || |others| == 2
    requires others[0] < |s.pieces| && s.pieces[others[0]].kind == King
    requires |others| == 2 ==> others[1] < |s.pieces| && s.pieces[others[1]].kind in {Knight, Bishop}
    ensures InsufficientMaterial(s)
  {
    assert MinorSide(s, [lone]);
    assert MinorSide(s, others);
  }

  // ---------------------------------------------------------------------
  // get_all_moves, get_valid_moves, is_checkmate_or_stalemate

  /** The squares a piece is tried on: `generate_moves`, plus the attacked
      squares for a pawn. */
  function Candidates(p: Piece): seq<Square> {
    GenerateMoves(p) + if p.kind == Pawn then PawnAttacks(p) else []
  }

  /** `[[(piece.row, piece.column), t] for t in targets]`. */
  function MovesTo(from: Square, targets: seq<Square>): (r: seq<Move>)
    ensures |r| == |targets| && forall i | 0 <= i < |r| :: r[i] == Move(from, targets[i])
  {
    seq(|targets|, i requires 0 <= i < |targets| => Move(from, targets[i]))
  }

  /** One piece's contribution to `get_all_moves`. */
  function MovesFrom(p: Piece): seq<Move> {
    MovesTo(Location(p), GenerateMoves(p))
    + if p.kind == Pawn then MovesTo(Location(p), PawnAttacks(p)) else []
  }

  /** One listed piece's moves; an index outside the arena names no piece. */
  function Contribution(s: Position, id: PieceId): seq<Move> {
    if id < |s.pieces| then MovesFrom(s.pieces[id]) else []
  }

  function Contributions(s: Position, ids: seq<PieceId>): (r: seq<seq<Move>>)
    ensures |r| == |ids| && forall i | 0 <= i < |ids| :: r[i] == Contribution(s, ids[i])
  {
    seq(|ids|, i requires 0 <= i < |ids| => Contribution(s, ids[i]))
  }

  /** The concatenation of a list of move lists, accumulated in order. */
  function Flatten(parts: seq<seq<Move>>): seq<Move> {
    if parts == [] then [] else Flatten(parts[..|parts| - 1]) + parts[|parts| - 1]
  }

  /** One more listed piece's moves, appended. */
  lemma ContributionsStep(s: Position, ids: seq<PieceId>, i: nat)
    requires i < |ids|
    ensures Flatten(Contributions(s, ids[..i + 1])) == Flatten(Contributions(s, ids[..i])) + Contribution(s, ids[i])
  {
    var parts := Contributions(s, ids[..i + 1]);
    assert parts[..i] == Contributions(s, ids[..i]);
  }

  /** `Game.get_all_moves`: every piece's candidates, white's pieces first. */
  function AllMoves(s: Position): seq<Move> {
    Flatten(Contributions(s, s.whitePieces + s.blackPieces))
  }

  /** The moves of a list that `validate_move` accepts, in order. */
  function LegalOnly(s: Position, moves: seq<Move>): seq<Move> {
    if moves == [] then []
    else
      var last := moves[|moves| - 1];
      LegalOnly(s, moves[..|moves| - 1]) + if LegalMove(s, last.origin, last.target) then [last] else []
  }

  /** One more move through the filter. */
  lemma LegalOnlyStep(s: Position, moves: seq<Move>, i: nat)
    requires i < |moves|
    ensures LegalOnly(s, moves[..i + 1])
            == LegalOnly(s, moves[..i]) + if LegalMove(s, moves[i].origin, moves[i].target) then [moves[i]] else []
  {
    assert moves[..i + 1][..i] == moves[..i];
  }

  function MoverPieces(s: Position): seq<PieceId> {
    if s.whiteToMove then s.whitePieces else s.blackPieces
  }

  /** Some element of `xs` satisfies `p`, scanning the list in order: the
      early-exit loops of `is_checkmate_or_stalemate`. */
  predicate Scan<T>(p: T -> bool, xs: seq<T>) {
    xs != [] && (Scan(p, xs[..|xs| - 1]) || p(xs[|xs| - 1]))
  }

  /** Whether a move from `origin` passes `validate_move`, as a predicate on
      the target. */
  function LegalFrom(s: Position, origin: Square): Square -> bool {
    t => LegalMove(s, origin, t)
  }

  /** Some candidate of the piece `id` passes `validate_move`. */
  predicate PieceHasLegalMove(s: Position, id: PieceId) {
    id < |s.pieces| && Scan(LegalFrom(s, Location(s.pieces[id])), Candidates(s.pieces[id]))
  }

  function PieceLegalIn(s: Position): PieceId -> bool {
    (id: PieceId) => PieceHasLegalMove(s, id)
  }

  predicate HasLegalMove(s: Position) {
    exists id | id in MoverPieces(s) :: PieceHasLegalMove(s, id)
  }

  /** No pawn is left on its last rank: every live pawn's forward targets are
      on the board. (The application promotes at once; a pawn left there would
      make the source index row -1 or 8.) */
  ghost predicate NoPendingPromotion(s: Position) {
    forall id: PieceId | IsLive(s, id) && id < |s.pieces| && s.pieces[id].kind == Pawn ::
      forall t | t in PawnMoves(s.pieces[id]) :: OnBoard(t)
  }

  // ---------------------------------------------------------------------
  // Properties

  /** `__validate_castling_move` keeps the board invariant. */
  lemma CastleStateValid(s: Position, origin: Square, target: Square)
    requires Valid(s) && CastleAttempt(s, origin, target) && OnBoard(target)
    ensures Valid(CastleState(s, origin, target))
  {
    if CastlePrecheck(s, origin, target) == Cleared && ProbesSafe(s, origin, target) {
      CastleRookLeg(s, origin, target);
      var s2 := Executed(s, origin, target);
      var s3 := s2.(whiteToMove := !s2.whiteToMove);
      SameBoardValid(s2, s3);
      var corner := Square(origin.row, CornerColumn(origin, target));
      var rid := At(s.grid, corner).value;
      var rookTarget := Square(origin.row, RookColumn(origin, target));
      assert Square(origin.row, s3.pieces[rid].column) == corner;
      ExecutedValid(s3, corner, rookTarget);
      var s4 := Executed(s3, corner, rookTarget);
      SameBoardValid(s4, s4.(justCastled := true));
    }
  }

  /** What an accepted castle required: the king stood unmoved on its home
      square and out of check, and the corner held an unmoved pawn or rook
      (the source does not test the corner piece's kind or colour further). */
  lemma CastleAcceptedBefore(s: Position, origin: Square, target: Square)
    requires Valid(s) && CastleAttempt(s, origin, target) && OnBoard(target)
    requires CastleVerdict(s, origin, target) == Ok(true)
    ensures var kid := At(s.grid, origin).value;
            var rid := At(s.grid, Square(origin.row, CornerColumn(origin, target))).value;
            && origin == HomeKing(s.whiteToMove) && !s.pieces[kid].hasMoved && !InCheck(s)
            && rid < |s.pieces| && rid != kid
            && (s.pieces[rid].kind == Pawn || s.pieces[rid].kind == Rook) && !s.pieces[rid].hasMoved
            && ProbesSafe(s, origin, target)
  {
    ClearedCastle(s, origin, target);
    var kid := At(s.grid, origin).value;
    var corner := Square(origin.row, CornerColumn(origin, target));
    var rid := At(s.grid, corner).value;
    assert CellOk(s, origin) && CellOk(s, corner);
    assert LivePieceOk(s, rid);
  }

  /** The square, flags and cache of a piece after a plain move of it. */
  lemma MoverAfter(s: Position, origin: Square, target: Square)
    requires GridShape(s.grid) && PieceAt(s, origin).Some? && !s.justCastled && OnBoard(target)
    ensures Location(Executed(s, origin, target).pieces[At(s.grid, origin).value]) == target
    ensures At(Executed(s, origin, target).grid, target) == Some(At(s.grid, origin).value)
    ensures origin != target ==> At(Executed(s, origin, target).grid, origin) == None
    ensures forall sq | sq != origin && sq != target :: At(Executed(s, origin, target).grid, sq) == At(s.grid, sq)
    ensures s.pieces[At(s.grid, origin).value].kind in {Pawn, Rook, King}
            ==> Executed(s, origin, target).pieces[At(s.grid, origin).value].hasMoved
    ensures forall c: bool :: KingCache(Executed(s, origin, target), c)
              == if s.pieces[At(s.grid, origin).value].kind == King && s.pieces[At(s.grid, origin).value].white == c
                 then target else KingCache(s, c)
    ensures Executed(s, origin, target).whiteToMove == !s.whiteToMove
    ensures !Executed(s, origin, target).justCastled
  {
    ExecutedPieces(s, origin, target);
    var g1 := SetCell(s.grid, origin, None);
    var g2 := SetCell(g1, target, Some(At(s.grid, origin).value));
    assert Executed(s, origin, target).grid == g2;
    forall sq | sq != origin && sq != target ensures At(g2, sq) == At(s.grid, sq) {
      assert At(g2, sq) == At(g1, sq);
    }
  }

  /** What an accepted castle does: the king is on the target, the corner
      piece beside it on the king's side, both have moved, the king cache
      follows the king, the turn has passed once, and the next `execute_move`
      only clears the castling flag. */
  lemma CastleAccepted(s: Position, origin: Square, target: Square)
    requires Valid(s) && CastleAttempt(s, origin, target) && OnBoard(target) && !s.justCastled
    requires CastleVerdict(s, origin, target) == Ok(true)
    ensures var s' := CastleState(s, origin, target);
            var kid := At(s.grid, origin).value;
            var corner := Square(origin.row, CornerColumn(origin, target));
            var rid := At(s.grid, corner).value;
            var rookTarget := Square(origin.row, RookColumn(origin, target));
            && kid < |s'.pieces| && rid < |s'.pieces|
            && Location(s'.pieces[kid]) == target && At(s'.grid, target) == Some(kid)
            && Location(s'.pieces[rid]) == rookTarget && At(s'.grid, rookTarget) == Some(rid)
            && s'.pieces[kid].hasMoved && s'.pieces[rid].hasMoved
            && At(s'.grid, origin) == None && At(s'.grid, corner) == None
            && KingCache(s', s.whiteToMove) == target
            && s'.justCastled && s'.whiteToMove == !s.whiteToMove
            && Executed(s', origin, target) == s'.(justCastled := false)
  {
    CastleAcceptedBefore(s, origin, target);
    ClearedCastle(s, origin, target);
    CastleStateLegs(s, origin, target);
    var corner := Square(origin.row, CornerColumn(origin, target));
    CastleLegsAfter(s, origin, target, corner, At(s.grid, corner).value, Square(origin.row, RookColumn(origin, target)));
  }

  /** The two legs of a castle, for a king and a pawn or rook on distinct
      squares: each ends on its own square, both have moved, the squares they
      left are empty, and the king cache follows the king. */
  lemma CastleLegsAfter(s: Position, origin: Square, target: Square, corner: Square, rid: PieceId, rookTarget: Square)
    requires GridShape(s.grid) && PieceAt(s, origin).Some? && !s.justCastled
    requires OnBoard(target) && OnBoard(rookTarget) && OnBoard(corner)
    requires At(s.grid, corner) == Some(rid) && rid < |s.pieces| && At(s.grid, origin) != Some(rid)
    requires origin != target && corner != origin && corner != target && rookTarget != corner
    requires rookTarget != target && rookTarget != origin
    requires PieceAt(s, origin).value.kind == King && PieceAt(s, origin).value.white == s.whiteToMove
    requires s.pieces[rid].kind == Pawn || s.pieces[rid].kind == Rook
    requires LegsReady(s, origin, target, corner, rid)
    ensures var s' := CastleLegs(s, origin, target, corner, rookTarget);
            var kid := At(s.grid, origin).value;
            && kid < |s'.pieces| && rid < |s'.pieces|
            && Location(s'.pieces[kid]) == target && At(s'.grid, target) == Some(kid)
            && Location(s'.pieces[rid]) == rookTarget && At(s'.grid, rookTarget) == Some(rid)
            && s'.pieces[kid].hasMoved && s'.pieces[rid].hasMoved
            && At(s'.grid, origin) == None && At(s'.grid, corner) == None
            && KingCache(s', s.whiteToMove) == target
            && s'.justCastled && s'.whiteToMove == !s.whiteToMove
  {
    var kid := At(s.grid, origin).value;
    KingLegAfter(s, origin, target, corner, rid);
    var s3 := KingLeg(s, origin, target);
    MoverAfter(s3, corner, rookTarget);
    ExecutedPieces(s3, corner, rookTarget);
  }

  /** The king's leg of a castle leaves the corner piece where it was. */
  lemma KingLegAfter(s: Position, origin: Square, target: Square, corner: Square, rid: PieceId)
    requires GridShape(s.grid) && PieceAt(s, origin).Some? && !s.justCastled && OnBoard(target)
    requires At(s.grid, corner) == Some(rid) && rid < |s.pieces| && At(s.grid, origin) != Some(rid)
    requires origin != target && corner != origin && corner != target
    requires PieceAt(s, origin).value.kind == King && PieceAt(s, origin).value.white == s.whiteToMove
    ensures var s3 := KingLeg(s, origin, target);
            var kid := At(s.grid, origin).value;
            && rid != kid && kid < |s3.pieces| && rid < |s3.pieces|
            && Location(s3.pieces[kid]) == target && s3.pieces[kid].hasMoved
            && At(s3.grid, target) == Some(kid) && At(s3.grid, origin) == None
            && At(s3.grid, corner) == Some(rid) && s3.pieces[rid].kind == s.pieces[rid].kind
            && KingCache(s3, s.whiteToMove) == target
            && s3.whiteToMove == s.whiteToMove && !s3.justCastled
  {
    MoverAfter(s, origin, target);
    ExecutedPieces(s, origin, target);
  }

  /** The candidates of a live piece are squares on the board, and none of
      them is a castle attempt (a king's candidates are its neighbours). */
  lemma CandidateFacts(s: Position, id: PieceId, t: Square)
    requires Valid(s) && NoPendingPromotion(s) && IsLive(s, id)
    requires id < |s.pieces| && t in Candidates(s.pieces[id])
    ensures OnBoard(Location(s.pieces[id])) && OnBoard(t)
    ensures !CastleAttempt(s, Location(s.pieces[id]), t)
  {
    var p := s.pieces[id];
    assert LivePieceOk(s, id);
    assert p.kind == Pawn ==> forall u | u in PawnMoves(p) :: OnBoard(u);
    CandidateSquare(p, t);
  }

  /** A candidate of a piece on the board is on the board when the piece is
      not a pawn on its last rank, and a king's candidate is never two
      columns away. */
  lemma CandidateSquare(p: Piece, t: Square)
    requires OnBoard(Location(p)) && t in Candidates(p)
    requires p.kind == Pawn ==> forall u | u in PawnMoves(p) :: OnBoard(u)
    ensures OnBoard(t) && (p.kind == King ==> !CastleShape(Location(p), t))
  {
    if p.kind == Pawn {
      if t !in GenerateMoves(p) {
        PawnAttacksExactly(p, t);
      }
    } else {
      TargetsOnBoardElsewhere(p, t);
      if p.kind == King {
        KingTargets(p, t);
      }
    }
  }

  /** A piece's moves are the pairs of its square with each candidate. */
  lemma MovesFromMembers(p: Piece, m: Move)
    ensures m in MovesFrom(p) <==> m.origin == Location(p) && m.target in Candidates(p)
  {
    var first := MovesTo(Location(p), GenerateMoves(p));
    var second := if p.kind == Pawn then MovesTo(Location(p), PawnAttacks(p)) else [];
    if m.origin == Location(p) && m.target in Candidates(p) {
      if m.target in GenerateMoves(p) {
        var k :| 0 <= k < |GenerateMoves(p)| && GenerateMoves(p)[k] == m.target;
        assert first[k] == m;
      } else {
        var k :| 0 <= k < |PawnAttacks(p)| && PawnAttacks(p)[k] == m.target;
        assert second[k] == m;
      }
    }
  }

  lemma {:induction false} FlattenMembers(parts: seq<seq<Move>>, m: Move)
    ensures m in Flatten(parts) <==> exists i | 0 <= i < |parts| :: m in parts[i]
    decreases |parts|
  {
    if parts != [] {
      var n := |parts| - 1;
      FlattenMembers(parts[..n], m);
      assert forall i | 0 <= i < n :: parts[..n][i] == parts[i];
    }
  }

  /** Every move `get_all_moves` lists goes from a listed piece's square to
      one of its candidates ... */
  lemma AllMovesSound(s: Position, m: Move)
    requires m in AllMoves(s)
    ensures exists id | id in s.whitePieces + s.blackPieces ::
              id < |s.pieces| && m.origin == Location(s.pieces[id]) && m.target in Candidates(s.pieces[id])
  {
    var ids := s.whitePieces + s.blackPieces;
    var parts := Contributions(s, ids);
    FlattenMembers(parts, m);
    var i :| 0 <= i < |parts| && m in parts[i];
    MovesFromMembers(s.pieces[ids[i]], m);
    assert ids[i] in ids;
  }

  /** ... and every such move is listed. */
  lemma AllMovesComplete(s: Position, m: Move, id: PieceId)
    requires id in s.whitePieces + s.blackPieces && id < |s.pieces|
    requires m.origin == Location(s.pieces[id]) && m.target in Candidates(s.pieces[id])
    ensures m in AllMoves(s)
  {
    var ids := s.whitePieces + s.blackPieces;
    var parts := Contributions(s, ids);
    var i :| 0 <= i < |ids| && ids[i] == id;
    MovesFromMembers(s.pieces[id], m);
    assert m in parts[i];
    FlattenMembers(parts, m);
  }

  /** Every move `get_all_moves` lists can be handed to `validate_move`. */
  lemma AllMovesFacts(s: Position, m: Move)
    requires Valid(s) && NoPendingPromotion(s) && m in AllMoves(s)
    ensures OnBoard(m.origin) && OnBoard(m.target) && !CastleAttempt(s, m.origin, m.target)
  {
    AllMovesSound(s, m);
    var id :| id in s.whitePieces + s.blackPieces && id < |s.pieces|
              && m.origin == Location(s.pieces[id]) && m.target in Candidates(s.pieces[id]);
    CandidateFacts(s, id, m.target);
  }

  /** A scan succeeds only when some element satisfies the predicate ... */
  lemma {:induction false} ScanSound<T>(p: T -> bool, xs: seq<T>)
    requires Scan(p, xs)
    ensures exists x | x in xs :: p(x)
    decreases |xs|
  {
    var n := |xs| - 1;
    if Scan(p, xs[..n]) {
      ScanSound(p, xs[..n]);
      var x :| x in xs[..n] && p(x);
      assert x in xs;
    } else {
      assert xs[n] in xs;
    }
  }

  /** One more step of a scan. */
  lemma ScanStep<T>(p: T -> bool, xs: seq<T>, j: nat)
    requires j < |xs|
    ensures Scan(p, xs[..j + 1]) == (Scan(p, xs[..j]) || p(xs[j]))
  {
    assert xs[..j + 1][..j] == xs[..j];
  }

  /** ... and always succeeds when one does. */
  lemma {:induction false} ScanComplete<T>(p: T -> bool, xs: seq<T>, x: T)
    requires x in xs && p(x)
    ensures Scan(p, xs)
    decreases |xs|
  {
    var n := |xs| - 1;
    if x != xs[n] {
      assert x in xs[..n] by { assert xs == xs[..n] + [xs[n]]; }
      ScanComplete(p, xs[..n], x);
    }
  }

  /** The filter keeps exactly the moves `validate_move` accepts. */
  lemma {:induction false} LegalOnlyMembers(s: Position, moves: seq<Move>, m: Move)
    ensures m in LegalOnly(s, moves) <==> m in moves && LegalMove(s, m.origin, m.target)
    decreases |moves|
  {
    if moves != [] {
      var n := |moves| - 1;
      LegalOnlyMembers(s, moves[..n], m);
      assert moves == moves[..n] + [moves[n]];
    }
  }
}
