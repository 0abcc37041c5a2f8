// The mutable objects of the engine: `Board` (the grid and the piece lists)
// and `Game` (the side to move, the check and outcome flags, the king-location
// cache). Every method is proved against the functions of `BoardState`,
// `Check` and `Rules`, which state what a call leaves behind.

module Engine {
  import opened Geometry
  import opened Pieces
  import opened Paths
  import opened BoardState
  import opened Check
  import opened Rules

  class Board {
    var grid: Grid
    var pieces: seq<Piece>
    var whitePieces: seq<PieceId>
    var blackPieces: seq<PieceId>
    var whiteTaken: seq<PieceId>
    var blackTaken: seq<PieceId>

    /** `Board.__init__`: an empty grid and the sixteen pieces of each side. */
    constructor()
      ensures grid == EmptyGrid() && pieces == StartingPieces()
      ensures whitePieces == StartingIds(true) && blackPieces == StartingIds(false)
      ensures whiteTaken == [] && blackTaken == []
    {
      grid := EmptyGrid();
      pieces := StartingPieces();
      whitePieces := StartingIds(true);
      blackPieces := StartingIds(false);
      whiteTaken := [];
      blackTaken := [];
    }

    /** `initialise_board`: each live piece is written onto its own square,
        white's pieces first. */
    method InitialiseBoard()
      requires forall i | 0 <= i < |whitePieces + blackPieces| ::
                 (whitePieces + blackPieces)[i] < |pieces|
                 && OnBoard(Location(pieces[(whitePieces + blackPieces)[i]]))
      modifies this`grid
      ensures grid == Placed(old(grid), pieces, whitePieces + blackPieces)
    {
      var ids := whitePieces + blackPieces;
      for i := 0 to |ids|
        invariant grid == Placed(old(grid), pieces, ids[..i])
      {
        assert ids[..i + 1][..i] == ids[..i];
        grid := SetCell(grid, Location(pieces[ids[i]]), Some(ids[i]));
      }
      assert ids[..|ids|] == ids;
    }
  }

  /** Some ray among the first `n` meets an enemy piece that gives check. */
  ghost predicate RayChecks(s: Position, k: Square, white: bool, n: nat)
    requires n <= 8
  {
    exists i: nat | i < n :: RayThreat(s, k, white, i)
  }

  /** Some knight square among the first `n` holds an enemy knight. */
  ghost predicate KnightChecks(s: Position, k: Square, white: bool, n: nat)
    requires n <= 8
  {
    exists i: nat | i < n :: KnightThreat(s, k, white, i)
  }

  class Game {
    const board: Board
    var whiteToMove: bool
    var whiteCheck: bool
    var blackCheck: bool
    var whiteKing: Square
    var blackKing: Square
    var whiteCheckmate: bool
    var blackCheckmate: bool
    var stalemate: bool
    var justCastled: bool

    /** The position the game's fields describe. */
    function State(): Position
      reads this, board
    {
      Position(board.grid, board.pieces, board.whitePieces, board.blackPieces,
               board.whiteTaken, board.blackTaken, whiteToMove, whiteKing, blackKing, justCastled)
    }

    /** `Game.__init__`: a fresh board (not yet initialised), white to move,
        no flag set, kings cached on their home squares. */
    constructor()
      ensures fresh(board)
      ensures State() == Position(EmptyGrid(), StartingPieces(), StartingIds(true), StartingIds(false),
                                  [], [], true, HomeKing(true), HomeKing(false), false)
      ensures !whiteCheck && !blackCheck && !whiteCheckmate && !blackCheckmate && !stalemate
    {
      board := new Board();
      whiteToMove := true;
      whiteCheck := false;
      blackCheck := false;
      whiteKing := Square(7, 4);
      blackKing := Square(0, 4);
      whiteCheckmate := false;
      blackCheckmate := false;
      stalemate := false;
      justCastled := false;
    }

    // -------------------------------------------------------------------
    // __is_king_in_check

    /** Scans the eight rays and the eight knight squares around the side to
        move's cached king square; clears both flags and sets the mover's flag
        on a threat. */
    method IsKingInCheck()
      modifies this`whiteCheck, this`blackCheck
      ensures (whiteCheck, blackCheck) == CheckFlags(State())
    {
      ghost var s := State();
      whiteCheck := false;
      blackCheck := false;
      var white := whiteToMove;
      var k := if white then whiteKing else blackKing;
      for i := 0 to 8
        invariant whiteCheck == (white && RayChecks(s, k, white, i))
        invariant blackCheck == (!white && RayChecks(s, k, white, i))
      {
        var d := Directions[i];
        for step := 1 to 8
          invariant FirstHit(s, k, d, step) == FirstHit(s, k, d, 1)
          invariant whiteCheck == (white && RayChecks(s, k, white, i))
          invariant blackCheck == (!white && RayChecks(s, k, white, i))
        {
          var sq := RaySquare(k, d, step);
          if !OnBoard(sq) {
            break;
          }
          var piece := PieceAt(State(), sq);
          if piece.None? {
            continue;
          }
          if piece.value.white == white {
            break;
          }
          if Threatens(piece.value, i, k) {
            if white {
              whiteCheck := true;
            } else {
              blackCheck := true;
            }
          }
          break;
        }
        assert RayChecks(s, k, white, i + 1) <==> RayChecks(s, k, white, i) || RayThreat(s, k, white, i);
      }
      for i := 0 to 8
        invariant whiteCheck == (white && (RayChecks(s, k, white, 8) || KnightChecks(s, k, white, i)))
        invariant blackCheck == (!white && (RayChecks(s, k, white, 8) || KnightChecks(s, k, white, i)))
      {
        var sq := Shift(k, KnightShifts[i]);
        if OnBoard(sq) {
          var piece := PieceAt(State(), sq);
          if piece.None? || piece.value.white == white {
            continue;
          }
          if piece.value.kind == Knight {
            if white {
              whiteCheck := true;
            } else {
              blackCheck := true;
            }
          }
        }
        assert KnightChecks(s, k, white, i + 1) <==> KnightChecks(s, k, white, i) || KnightThreat(s, k, white, i);
      }
    }

    // -------------------------------------------------------------------
    // execute_move and __update_en_passant

    /** Clears the en passant flag of every pawn of the side to move. */
    method UpdateEnPassant()
      modifies board`pieces
      ensures board.pieces == ClearEnPassant(old(board.pieces), if whiteToMove then board.whitePieces else board.blackPieces)
    {
      var ids := if whiteToMove then board.whitePieces else board.blackPieces;
      for i := 0 to |ids|
        invariant |board.pieces| == |old(board.pieces)|
        invariant forall j | 0 <= j < |board.pieces| ::
                    board.pieces[j] == if j in ids[..i] && old(board.pieces)[j].kind == Pawn
                                       then old(board.pieces)[j].(enPassant := false) else old(board.pieces)[j]
      {
        assert ids[..i + 1] == ids[..i] + [ids[i]];
        var id := ids[i];
        // an index outside the arena names no piece object
        if id < |board.pieces| && board.pieces[id].kind == Pawn {
          board.pieces := board.pieces[id := board.pieces[id].(enPassant := false)];
        }
      }
      assert ids[..|ids|] == ids;
    }

    /** The first part of `execute_move`: the grid entries, the mover's own
        row and column, and the live and taken lists of a captured piece. */
    method MoveOnBoard(origin: Square, target: Square)
      requires PieceAt(State(), origin).Some?
      modifies board
      ensures State() == Moved(old(State()), origin, target)
    {
      ghost var s := State();
      var id := At(board.grid, origin).value;
      var captured := Occupant(State(), target);
      board.grid := SetCell(SetCell(board.grid, origin, None), target, Some(id));
      var piece := board.pieces[id];
      board.pieces := board.pieces[id := piece.(row := target.row, column := target.column)];
      ghost var s1 := State();
      assert s1 == s.(grid := board.grid, pieces := board.pieces);
      if captured.Some? {
        var cid := captured.value;
        if board.pieces[cid].white {
          board.whitePieces := RemoveFirst(board.whitePieces, cid);
          board.whiteTaken := board.whiteTaken + [cid];
        } else {
          board.blackPieces := RemoveFirst(board.blackPieces, cid);
          board.blackTaken := board.blackTaken + [cid];
        }
        assert State() == Capture(s1, cid);
      }
    }

    /** `execute_move`: moves the piece, takes whatever stood on the target,
        updates the en passant and has-moved flags and the king cache, and
        passes the turn; right after a castle it only clears the flag. */
    method ExecuteMove(origin: Square, target: Square)
      requires CanExecute(State(), origin) && OnBoard(origin) && OnBoard(target)
      modifies this`justCastled, this`whiteToMove, this`whiteKing, this`blackKing, board
      ensures State() == Executed(old(State()), origin, target)
    {
      if justCastled {
        justCastled := false;
        return;
      }
      ghost var s := State();
      var id := At(board.grid, origin).value;
      MoveOnBoard(origin, target);
      ghost var s2 := State();
      UpdateEnPassant();
      ghost var cleared := board.pieces;
      ExecutedStages(s, origin, target, s2, cleared, MoverFlags(cleared[id], s.whiteToMove, origin, target));
      RecordMover(id, origin, target);
    }

    /** The end of `execute_move`: the mover's flags, the king cache and the
        turn. */
    method RecordMover(id: PieceId, origin: Square, target: Square)
      requires id < |board.pieces|
      modifies board`pieces, this`whiteKing, this`blackKing, this`whiteToMove
      ensures var p := MoverFlags(old(board.pieces[id]), old(whiteToMove), origin, target);
              && board.pieces == old(board.pieces)[id := p]
              && whiteKing == (if p.kind == King && p.white then target else old(whiteKing))
              && blackKing == (if p.kind == King && !p.white then target else old(blackKing))
              && whiteToMove == !old(whiteToMove)
    {
      var piece := board.pieces[id];
      // promotion on the last rank is left to `PromotePawn`
      if piece.kind == Pawn && DoubleStep(whiteToMove, origin, target) {
        piece := piece.(enPassant := true);
      }
      if piece.kind == Pawn || piece.kind == Rook || piece.kind == King {
        piece := piece.(hasMoved := true);
      }
      board.pieces := board.pieces[id := piece];
      if piece.kind == King {
        if piece.white {
          whiteKing := target;
        } else {
          blackKing := target;
        }
      }
      whiteToMove := !whiteToMove;
    }

    // -------------------------------------------------------------------
    // validate_move and __validate_castling_move

    /** `validate_move`. A castle attempt is handed to the castling test (which
        performs an accepted castle at once); any other move is tried on the
        grid, judged by whether it leaves the mover's king in check, and undone. */
    method ValidateMove(origin: Square, target: Square) returns (r: Result<bool>)
      requires Valid(State()) && OnBoard(origin) && OnBoard(target)
      modifies this`whiteCheck, this`blackCheck, this`justCastled, this`whiteToMove, this`whiteKing, this`blackKing, board
      ensures Valid(State())
      ensures r == Verdict(old(State()), origin, target)
      ensures var s := old(State());
              CastleAttempt(s, origin, target) ==>
                && State() == CastleState(s, origin, target)
                && (whiteCheck, blackCheck) == CastleFlags(s, origin, target)
      ensures var s := old(State());
              !CastleAttempt(s, origin, target) ==>
                && State() == s
                && (whiteCheck, blackCheck)
                   == if PassesEarlyChecks(s, origin, target) then CheckFlags(Simulate(s, origin, target))
                      else old((whiteCheck, blackCheck))
    {
      ghost var s := State();
      if !IsMoveLegal(State(), origin, target) || IsMoveBlocked(State(), origin, target) {
        return Ok(false);
      }
      var piece := PieceAt(State(), origin).value;
      if PieceAt(State(), target).Some? && piece.white == PieceAt(State(), target).value.white {
        return Ok(false);
      }
      IsKingInCheck();
      if piece.kind == King && CastleShape(origin, target) {
        r := ValidateCastlingMove(origin, target);
        CastleStateValid(s, origin, target);
        return;
      }
      assert piece.kind == King ==> KingCache(s, whiteToMove) == origin by {
        assert CellOk(s, origin) && LivePieceOk(s, At(s.grid, origin).value);
      }
      var valid := TryMove(origin, target);
      return Ok(valid);
    }

    /** The second half of `validate_move`: the move is made on the grid (and
        in the mover's king cache), check is tested, and both are undone. */
    method TryMove(origin: Square, target: Square) returns (valid: bool)
      requires GridShape(board.grid) && OnBoard(origin) && OnBoard(target) && PieceAt(State(), origin).Some?
      requires PieceAt(State(), origin).value.kind == King ==> KingCache(State(), whiteToMove) == origin
      modifies this`whiteCheck, this`blackCheck, this`whiteKing, this`blackKing, board`grid
      ensures State() == old(State())
      ensures valid == !InCheck(Simulate(old(State()), origin, target))
      ensures (whiteCheck, blackCheck) == CheckFlags(Simulate(old(State()), origin, target))
    {
      ghost var s := State();
      var current := At(board.grid, origin);
      var atTarget := At(board.grid, target);
      var piece := board.pieces[current.value];
      var valid' := true;
      board.grid := SetCell(board.grid, origin, None);
      board.grid := SetCell(board.grid, target, current);
      if whiteToMove {
        if piece.kind == King {
          whiteKing := target;
        }
        assert State() == Simulate(s, origin, target);
        IsKingInCheck();
        if whiteCheck {
          valid' := false;
        }
        if piece.kind == King {
          whiteKing := origin;
        }
      } else {
        if piece.kind == King {
          blackKing := target;
        }
        assert State() == Simulate(s, origin, target);
        IsKingInCheck();
        if blackCheck {
          valid' := false;
        }
        if piece.kind == King {
          blackKing := origin;
        }
      }
      board.grid := SetCell(board.grid, origin, current);
      board.grid := SetCell(board.grid, target, atTarget);
      GridExtensionality(board.grid, s.grid);
      return valid';
    }

    /** `__validate_castling_move`, entered with the check flags just set. */
    method ValidateCastlingMove(origin: Square, target: Square) returns (r: Result<bool>)
      requires Valid(State()) && CastleAttempt(State(), origin, target) && OnBoard(origin) && OnBoard(target)
      requires (whiteCheck, blackCheck) == CheckFlags(State())
      modifies this`whiteCheck, this`blackCheck, this`justCastled, this`whiteToMove, this`whiteKing, this`blackKing, board
      ensures r == CastleVerdict(old(State()), origin, target)
      ensures State() == CastleState(old(State()), origin, target)
      ensures (whiteCheck, blackCheck) == CastleFlags(old(State()), origin, target)
    {
      ghost var s := State();
      var kingId := At(board.grid, origin).value;
      var king := board.pieces[kingId];
      var endColumn: int, columns: seq<int>, newRookColumn: int;
      if target.column > origin.column {
        endColumn := 7;
        columns := Range(origin.column, target.column + 1, 1);
        newRookColumn := target.column - 1;
      } else {
        endColumn := 0;
        columns := Range(origin.column, target.column - 1, -1);
        newRookColumn := target.column + 1;
      }
      var corner := Square(origin.row, endColumn);
      var rook := PieceAt(State(), corner);
      if IsMoveBlocked(State(), origin, corner) || king.hasMoved || rook.None? {
        assert CastlePrecheck(s, origin, target) == Refused;
        return Ok(false);
      }
      match HasMovedAttribute(rook.value)
      case None =>
        assert CastlePrecheck(s, origin, target) == MissingAttribute;
        return Err(NoHasMovedAttribute);
      case Some(moved) =>
        if moved || (whiteToMove && whiteCheck) || (!whiteToMove && blackCheck) {
          assert CastlePrecheck(s, origin, target) == Refused;
          return Ok(false);
        }
      assert CastlePrecheck(s, origin, target) == Cleared;
      r := CastleCleared(origin, target, kingId, columns, corner, newRookColumn);
    }

    /** `__validate_castling_move` once the precheck has passed. */
    method CastleCleared(origin: Square, target: Square, kingId: PieceId, columns: seq<int>,
                         corner: Square, newRookColumn: int)
      returns (r: Result<bool>)
      requires Valid(State()) && CastleAttempt(State(), origin, target) && OnBoard(origin) && OnBoard(target)
      requires CastlePrecheck(State(), origin, target) == Cleared
      requires At(board.grid, origin) == Some(kingId) && columns == KingColumns(origin, target)
      requires corner == Square(origin.row, CornerColumn(origin, target))
      requires newRookColumn == RookColumn(origin, target)
      requires (whiteCheck, blackCheck) == CheckFlags(State())
      modifies this`whiteCheck, this`blackCheck, this`justCastled, this`whiteToMove, this`whiteKing, this`blackKing, board
      ensures r == CastleVerdict(old(State()), origin, target)
      ensures State() == CastleState(old(State()), origin, target)
      ensures (whiteCheck, blackCheck) == CastleFlags(old(State()), origin, target)
    {
      ghost var s := State();
      CastleProbeSetup(s, origin, target);
      if ProbesSafe(s, origin, target) {
        CastleStateLegs(s, origin, target);
      }
      var rookId := At(board.grid, corner).value;
      r := CastleIfSafe(origin, target, kingId, columns, corner, rookId, newRookColumn);
    }

    /** The rest of `__validate_castling_move` once the precheck has passed:
        probe the king's path, and castle when no probe found check. */
    method CastleIfSafe(origin: Square, target: Square, kingId: PieceId, columns: seq<int>,
                        corner: Square, rookId: PieceId, newRookColumn: int)
      returns (r: Result<bool>)
      requires PieceAt(State(), origin).Some? && At(board.grid, origin) == Some(kingId)
      requires KingCache(State(), whiteToMove) == origin
      requires columns == KingColumns(origin, target) && |columns| > 0
      requires ProbedGrid(State(), origin, target, |columns|) == board.grid
      requires (whiteCheck, blackCheck) == CheckFlags(State())
      requires OnBoard(origin) && OnBoard(target) && OnBoard(corner) && corner.row == origin.row
      requires OnBoard(Square(origin.row, newRookColumn))
      requires ProbesSafe(State(), origin, target) ==> LegsReady(State(), origin, target, corner, rookId)
      modifies this`whiteCheck, this`blackCheck, this`justCastled, this`whiteToMove, this`whiteKing, this`blackKing, board
      ensures r == Ok(ProbesSafe(old(State()), origin, target))
      ensures (whiteCheck, blackCheck) == CheckFlags(Probe(old(State()), origin, target, |columns| - 1))
      ensures ProbesSafe(old(State()), origin, target)
              ==> State() == CastleLegs(old(State()), origin, target, corner, Square(origin.row, newRookColumn))
      ensures !ProbesSafe(old(State()), origin, target) ==> State() == old(State())
    {
      var valid := ProbeCastlingPath(origin, target, kingId, columns);
      if valid {
        PerformCastle(origin, target, rookId, newRookColumn, corner);
        return Ok(true);
      }
      return Ok(false);
    }

    /** The probe loop of `__validate_castling_move`: the king is placed on
        each column from its own to the target's and check is tested there. */
    method ProbeCastlingPath(origin: Square, target: Square, kingId: PieceId, columns: seq<int>) returns (valid: bool)
      requires PieceAt(State(), origin).Some? && At(board.grid, origin) == Some(kingId)
      requires KingCache(State(), whiteToMove) == origin && columns == KingColumns(origin, target)
      requires (whiteCheck, blackCheck) == CheckFlags(State())
      modifies this`whiteCheck, this`blackCheck, this`whiteKing, this`blackKing, board`grid
      ensures State() == old(State()).(grid := ProbedGrid(old(State()), origin, target, |columns|))
      ensures valid == ProbesSafe(old(State()), origin, target)
      ensures (whiteCheck, blackCheck)
              == if |columns| == 0 then CheckFlags(old(State()))
                 else CheckFlags(Probe(old(State()), origin, target, |columns| - 1))
    {
      ghost var s := State();
      valid := true;
      for j := 0 to |columns|
        invariant State() == s.(grid := ProbedGrid(s, origin, target, j))
        invariant valid == ProbesSafeUpTo(s, origin, target, j)
        invariant (whiteCheck, blackCheck)
                  == if j == 0 then CheckFlags(s) else CheckFlags(Probe(s, origin, target, j - 1))
      {
        valid := ProbeColumn(origin, target, kingId, columns[j], j, s, valid);
      }
    }

    /** One round of the probe loop: the king is written on the probed square
        and its cache pointed there, check is tested, the cache is restored,
        the king rewritten on its origin and the probed square cleared. */
    method ProbeColumn(origin: Square, target: Square, kingId: PieceId, column: int, j: nat, ghost s: Position, valid: bool)
      returns (valid': bool)
      requires PieceAt(s, origin).Some? && At(s.grid, origin) == Some(kingId)
      requires KingCache(s, s.whiteToMove) == origin
      requires j < |KingColumns(origin, target)| && column == KingColumns(origin, target)[j]
      requires State() == s.(grid := ProbedGrid(s, origin, target, j))
      requires valid == ProbesSafeUpTo(s, origin, target, j)
      modifies this`whiteCheck, this`blackCheck, this`whiteKing, this`blackKing, board`grid
      ensures State() == s.(grid := ProbedGrid(s, origin, target, j + 1))
      ensures valid' == ProbesSafeUpTo(s, origin, target, j + 1)
      ensures (whiteCheck, blackCheck) == CheckFlags(Probe(s, origin, target, j))
    {
      var sq := Square(origin.row, column);
      board.grid := SetCell(board.grid, sq, Some(kingId));
      if whiteToMove {
        whiteKing := sq;
        assert State() == Probe(s, origin, target, j);
        IsKingInCheck();
        valid' := valid && !whiteCheck;
        whiteKing := origin;
      } else {
        blackKing := sq;
        assert State() == Probe(s, origin, target, j);
        IsKingInCheck();
        valid' := valid && !blackCheck;
        blackKing := origin;
      }
      board.grid := SetCell(board.grid, origin, Some(kingId));
      board.grid := SetCell(board.grid, sq, None);
      assert board.grid == ProbeStep(ProbedGrid(s, origin, target, j), origin, kingId, column)
                        == ProbedGrid(s, origin, target, j + 1);
    }

    /** The end of an accepted `__validate_castling_move`: the king's move, the
        turn handed back, the corner piece's move, and the flag that makes the
        next `execute_move` a no-op. */
    method PerformCastle(origin: Square, target: Square, rookId: PieceId, newRookColumn: int, ghost corner: Square)
      requires OnBoard(origin) && OnBoard(target) && OnBoard(corner) && corner.row == origin.row
      requires OnBoard(Square(origin.row, newRookColumn))
      requires LegsReady(State(), origin, target, corner, rookId)
      modifies this`justCastled, this`whiteToMove, this`whiteKing, this`blackKing, board
      ensures State() == CastleLegs(old(State()), origin, target, corner, Square(origin.row, newRookColumn))
    {
      ExecuteMove(origin, target);
      whiteToMove := !whiteToMove;
      var rookColumn := board.pieces[rookId].column;
      ExecuteMove(Square(origin.row, rookColumn), Square(origin.row, newRookColumn));
      justCastled := true;
    }

    // -------------------------------------------------------------------
    // __execute_en_passant_move and __promote_pawn

    /** `__execute_en_passant_move`: the pawn beside the mover is taken off the
        grid and moved to the taken list, then the move is executed. */
    method ExecuteEnPassantMove(origin: Square, target: Square, victim: PieceId)
      requires PieceAt(State(), origin).Some? && OnBoard(origin) && OnBoard(target)
      requires target.column != origin.column
      modifies this`justCastled, this`whiteToMove, this`whiteKing, this`blackKing, board
      ensures State() == ExecutedEnPassant(old(State()), origin, target, victim)
    {
      board.grid := SetCell(board.grid, Square(origin.row, target.column), None);
      if whiteToMove {
        board.blackPieces := RemoveFirst(board.blackPieces, victim);
        board.blackTaken := board.blackTaken + [victim];
      } else {
        board.whitePieces := RemoveFirst(board.whitePieces, victim);
        board.whiteTaken := board.whiteTaken + [victim];
      }
      ExecuteMove(origin, target);
    }

    /** The list-and-grid part of `__promote_pawn`, with the chosen kind. */
    method PromotePawn(pawn: PieceId, kind: Kind)
      requires Valid(State()) && IsLive(State(), pawn)
      requires kind == Queen || kind == Rook || kind == Bishop || kind == Knight
      modifies board
      ensures State() == Promoted(old(State()), pawn, kind)
      ensures Valid(State())
    {
      ghost var s := State();
      var p := board.pieces[pawn];
      var row, column, colour := p.row, p.column, p.white;
      var newId := |board.pieces|;
      board.pieces := board.pieces + [NewPiece(kind, row, column, colour)];
      if colour {
        board.whitePieces := RemoveFirst(board.whitePieces, pawn) + [newId];
      } else {
        board.blackPieces := RemoveFirst(board.blackPieces, pawn) + [newId];
      }
      board.grid := SetCell(board.grid, Square(row, column), Some(newId));
      PromotedValid(s, pawn, kind);
    }

    // -------------------------------------------------------------------
    // is_checkmate_or_stalemate, check_draw, get_all_moves, get_valid_moves

    /** `is_checkmate_or_stalemate`: if any candidate of the mover's pieces
        validates, nothing is decided; otherwise the mover is checkmated when in
        check and stalemated when not. */
    method IsCheckmateOrStalemate()
      requires Valid(State()) && NoPendingPromotion(State())
      modifies this`whiteCheck, this`blackCheck, this`whiteCheckmate, this`blackCheckmate, this`stalemate
      modifies this`justCastled, this`whiteToMove, this`whiteKing, this`blackKing, board
      ensures State() == old(State())
      ensures HasLegalMove(old(State())) ==>
                whiteCheckmate == old(whiteCheckmate) && blackCheckmate == old(blackCheckmate)
                && stalemate == old(stalemate)
      ensures !HasLegalMove(old(State())) ==>
                && (whiteCheck, blackCheck) == CheckFlags(old(State()))
                && blackCheckmate == (old(blackCheckmate) || (old(whiteToMove) && InCheck(old(State()))))
                && whiteCheckmate == (old(whiteCheckmate) || (!old(whiteToMove) && InCheck(old(State()))))
                && stalemate == (old(stalemate) || !InCheck(old(State())))
    {
      var found := FindLegalMove();
      if found {
        return;
      }
      IsKingInCheck();
      if whiteToMove {
        if whiteCheck {
          blackCheckmate := true;
        } else {
          stalemate := true;
        }
      } else {
        if blackCheck {
          whiteCheckmate := true;
        } else {
          stalemate := true;
        }
      }
    }

    /** The outer loop of `is_checkmate_or_stalemate`: whether some candidate
        of some piece of the mover validates. */
    method FindLegalMove() returns (found: bool)
      requires Valid(State()) && NoPendingPromotion(State())
      modifies this`whiteCheck, this`blackCheck, this`justCastled, this`whiteToMove, this`whiteKing, this`blackKing, board
      ensures State() == old(State())
      ensures found == HasLegalMove(old(State()))
    {
      ghost var s := State();
      var pieces := if whiteToMove then board.whitePieces else board.blackPieces;
      assert pieces == MoverPieces(s);
      for i := 0 to |pieces|
        invariant State() == s
        invariant !Scan(PieceLegalIn(s), pieces[..i])
      {
        assert pieces[i] in pieces;
        found := TryPiece(pieces[i]);
        ScanStep(PieceLegalIn(s), pieces, i);
        if found {
          return;
        }
      }
      assert pieces[..|pieces|] == pieces;
      forall id | id in pieces ensures !PieceHasLegalMove(s, id) {
        if PieceHasLegalMove(s, id) {
          ScanComplete(PieceLegalIn(s), pieces, id);
        }
      }
      return false;
    }

    /** The inner loop of `is_checkmate_or_stalemate`: whether some candidate
        of one of the mover's pieces validates. */
    method TryPiece(id: PieceId) returns (found: bool)
      requires Valid(State()) && NoPendingPromotion(State()) && id in MoverPieces(State())
      modifies this`whiteCheck, this`blackCheck, this`justCastled, this`whiteToMove, this`whiteKing, this`blackKing, board
      ensures State() == old(State())
      ensures found == PieceHasLegalMove(old(State()), id)
    {
      ghost var s := State();
      assert IsLive(s, id) && id < |s.pieces|;
      var p := board.pieces[id];
      var origin := Square(p.row, p.column);
      var moves := GenerateMoves(p);
      if p.kind == Pawn {
        moves := moves + PawnAttacks(p);
      }
      assert moves == Candidates(p);
      found := ScanCandidates(id, origin, moves);
    }

    /** The inner loop of `is_checkmate_or_stalemate` proper: the candidates
        of the piece `id` are validated in order until one passes. */
    method ScanCandidates(id: PieceId, origin: Square, moves: seq<Square>) returns (found: bool)
      requires Valid(State()) && NoPendingPromotion(State()) && IsLive(State(), id) && id < |board.pieces|
      requires origin == Location(board.pieces[id]) && moves == Candidates(board.pieces[id])
      modifies this`whiteCheck, this`blackCheck, this`justCastled, this`whiteToMove, this`whiteKing, this`blackKing, board
      ensures State() == old(State())
      ensures found == Scan(LegalFrom(old(State()), origin), moves)
    {
      ghost var s := State();
      for j := 0 to |moves|
        invariant State() == s
        invariant !Scan(LegalFrom(s, origin), moves[..j])
      {
        var legal := TryCandidate(id, moves[j]);
        ScanStep(LegalFrom(s, origin), moves, j);
        if legal {
          ScanComplete(LegalFrom(s, origin), moves, moves[j]);
          return true;
        }
      }
      assert moves[..|moves|] == moves;
      return false;
    }

    /** One step of the inner loop of `is_checkmate_or_stalemate`: whether a
        candidate of a live piece validates (it is never a castle attempt, so
        the position is left as it was). */
    method TryCandidate(id: PieceId, t: Square) returns (legal: bool)
      requires Valid(State()) && NoPendingPromotion(State()) && IsLive(State(), id)
      requires id < |board.pieces| && t in Candidates(board.pieces[id])
      modifies this`whiteCheck, this`blackCheck, this`justCastled, this`whiteToMove, this`whiteKing, this`blackKing, board
      ensures State() == old(State())
      ensures legal == LegalMove(old(State()), Location(old(board.pieces[id])), t)
    {
      CandidateFacts(State(), id, t);
      var p := board.pieces[id];
      var r := ValidateMove(Square(p.row, p.column), t);
      return r == Ok(true);
    }

    /** `check_draw`: a draw when one side has a single piece and the other
        has one or two pieces, none of them a pawn, rook or queen. */
    method CheckDraw()
      requires Valid(State())
      modifies this`stalemate
      ensures stalemate == (old(stalemate) || InsufficientMaterial(State()))
    {
      ghost var s := State();
      assert forall i | 0 <= i < |s.whitePieces| :: s.whitePieces[i] in s.whitePieces;
      assert forall i | 0 <= i < |s.blackPieces| :: s.blackPieces[i] in s.blackPieces;
      var opponent: seq<Kind> := [];
      if |board.whitePieces| == 1 {
        opponent := Kinds(board.pieces, board.blackPieces);
      }
      if |board.blackPieces| == 1 {
        opponent := Kinds(board.pieces, board.whitePieces);
      }
      if |opponent| == 0 || |opponent| > 2 || Pawn in opponent || Rook in opponent || Queen in opponent {
        return;
      }
      stalemate := true;
    }

    /** `get_all_moves`. */
    method GetAllMoves() returns (moves: seq<Move>)
      ensures moves == AllMoves(State())
    {
      ghost var s := State();
      moves := [];
      var ids := board.whitePieces + board.blackPieces;
      for i := 0 to |ids|
        invariant moves == Flatten(Contributions(s, ids[..i]))
      {
        var pieceMoves := PieceMoves(ids[i]);
        ContributionsStep(s, ids, i);
        moves := moves + pieceMoves;
      }
      assert ids[..|ids|] == ids;
    }

    /** One piece's share of `get_all_moves`: its moves, then a pawn's
        attacked squares. */
    method PieceMoves(id: PieceId) returns (pieceMoves: seq<Move>)
      ensures pieceMoves == Contribution(State(), id)
    {
      // an index outside the arena names no piece object
      if id >= |board.pieces| {
        return [];
      }
      var p := board.pieces[id];
      pieceMoves := MovesTo(Location(p), GenerateMoves(p));
      if p.kind == Pawn {
        pieceMoves := pieceMoves + MovesTo(Location(p), PawnAttacks(p));
      }
    }

    /** `get_valid_moves`: the moves of `get_all_moves` that validate. */
    method GetValidMoves() returns (valid: seq<Move>)
      requires Valid(State()) && NoPendingPromotion(State())
      modifies this`whiteCheck, this`blackCheck, this`justCastled, this`whiteToMove, this`whiteKing, this`blackKing, board
      ensures State() == old(State())
      ensures valid == LegalOnly(old(State()), AllMoves(old(State())))
    {
      ghost var s := State();
      var all := GetAllMoves();
      valid := [];
      for i := 0 to |all|
        invariant State() == s
        invariant valid == LegalOnly(s, all[..i])
      {
        LegalOnlyStep(s, all, i);
        var legal := TryListedMove(all[i]);
        if legal {
          valid := valid + [all[i]];
        }
      }
      assert all[..|all|] == all;
    }

    /** The body of `get_valid_moves`' loop: whether a move `get_all_moves`
        listed validates (it is never a castle attempt, so the position is
        left as it was). */
    method TryListedMove(m: Move) returns (legal: bool)
      requires Valid(State()) && NoPendingPromotion(State()) && m in AllMoves(State())
      modifies this`whiteCheck, this`blackCheck, this`justCastled, this`whiteToMove, this`whiteKing, this`blackKing, board
      ensures State() == old(State())
      ensures legal == LegalMove(old(State()), m.origin, m.target)
    {
      AllMovesFacts(State(), m);
      var r := ValidateMove(m.origin, m.target);
      return r == Ok(true);
    }
  }

  /** `Game()` followed by `board.initialise_board()`, as the program starts. */
  method NewGame() returns (game: Game)
    ensures fresh(game) && fresh(game.board)
    ensures game.State() == InitialPosition()
    ensures Valid(game.State())
  {
    game := new Game();
    ghost var ids := StartingIds(true) + StartingIds(false);
    forall i | 0 <= i < |ids|
      ensures ids[i] < |StartingPieces()| && OnBoard(Location(StartingPieces()[ids[i]]))
    {
      assert ids[i] == i;
      StartingPieceFacts(i);
    }
    game.board.InitialiseBoard();
    StartingPositionValid();
  }
}
