// `AI.evaluate_board` (ai.py): the fixed scores of a decided game, and
// otherwise the net material of the live pieces, white counting positive and
// black negative.

module Evaluation {
  import opened Geometry
  import opened Pieces
  import opened BoardState
  import opened Engine

  const WhiteCheckmateScore: int := 10000
  const BlackCheckmateScore: int := -10000
  const StalemateScore: int := 0

  /** All listed ids name a piece object of the arena. */
  predicate InArena(pieces: seq<Piece>, ids: seq<PieceId>) {
    forall i | 0 <= i < |ids| :: ids[i] < |pieces|
  }

  lemma ArenaMembers(pieces: seq<Piece>, ids: seq<PieceId>)
    requires forall id | id in ids :: id < |pieces|
    ensures InArena(pieces, ids)
  {
    forall i | 0 <= i < |ids| ensures ids[i] < |pieces| {
      assert ids[i] in ids;
    }
  }

  /** The sum of `get_value` over the listed pieces. */
  function Material(pieces: seq<Piece>, ids: seq<PieceId>): int
    requires InArena(pieces, ids)
    decreases |ids|
  {
    if ids == [] then 0 else SignedValue(pieces[ids[0]]) + Material(pieces, ids[1..])
  }

  /** What `evaluate_board` returns: the checkmate flags are tested first,
      white's before black's, then the draw flag. */
  function Score(pieces: seq<Piece>, ids: seq<PieceId>, whiteCheckmate: bool, blackCheckmate: bool, draw: bool): int
    requires InArena(pieces, ids)
  {
    if whiteCheckmate then WhiteCheckmateScore
    else if blackCheckmate then BlackCheckmateScore
    else if draw then StalemateScore
    else Material(pieces, ids)
  }

  /** `AI.evaluate_board` on a board object. */
  method EvaluateBoard(board: Board, whiteCheckmate: bool, blackCheckmate: bool, draw: bool) returns (score: int)
    requires InArena(board.pieces, board.whitePieces + board.blackPieces)
    ensures score == Score(board.pieces, board.whitePieces + board.blackPieces, whiteCheckmate, blackCheckmate, draw)
  {
    score := 0;
    if whiteCheckmate {
      return WhiteCheckmateScore;
    }
    if blackCheckmate {
      return BlackCheckmateScore;
    }
    if draw {
      return StalemateScore;
    }
    var ids := board.whitePieces + board.blackPieces;
    for i := 0 to |ids|
      invariant score == Material(board.pieces, ids[..i])
    {
      MaterialAppend(board.pieces, ids[..i], [ids[i]]);
      assert ids[..i] + [ids[i]] == ids[..i + 1];
      score := score + SignedValue(board.pieces[ids[i]]);
    }
    assert ids[..|ids|] == ids;
  }

  // ---------------------------------------------------------------------
  // Properties

  /** A decided game scores one of the three fixed values, whatever the
      material; an undecided one scores its material. */
  lemma DecidedScores(pieces: seq<Piece>, ids: seq<PieceId>, whiteCheckmate: bool, blackCheckmate: bool, draw: bool)
    requires InArena(pieces, ids)
    ensures var r := Score(pieces, ids, whiteCheckmate, blackCheckmate, draw);
            && (whiteCheckmate ==> r == 10000)
            && (!whiteCheckmate && blackCheckmate ==> r == -10000)
            && (!whiteCheckmate && !blackCheckmate && draw ==> r == 0)
            && (!whiteCheckmate && !blackCheckmate && !draw ==> r == Material(pieces, ids))
  {
  }

  /** Material adds up over the two lists (`white_pieces + black_pieces`). */
  lemma {:induction false} MaterialAppend(pieces: seq<Piece>, xs: seq<PieceId>, ys: seq<PieceId>)
    requires InArena(pieces, xs) && InArena(pieces, ys)
    ensures InArena(pieces, xs + ys)
    ensures Material(pieces, xs + ys) == Material(pieces, xs) + Material(pieces, ys)
    decreases |xs|
  {
    if xs == [] {
      assert xs + ys == ys;
    } else {
      assert (xs + ys)[0] == xs[0] && (xs + ys)[1..] == xs[1..] + ys;
      MaterialAppend(pieces, xs[1..], ys);
    }
  }

  /** Two lists whose pieces have opposite values, position by position,
      have opposite material. */
  lemma {:induction false} MaterialOpposite(pieces: seq<Piece>, xs: seq<PieceId>, pieces': seq<Piece>, ys: seq<PieceId>)
    requires InArena(pieces, xs) && InArena(pieces', ys) && |xs| == |ys|
    requires forall i | 0 <= i < |xs| :: SignedValue(pieces'[ys[i]]) == -SignedValue(pieces[xs[i]])
    ensures Material(pieces', ys) == -Material(pieces, xs)
    decreases |xs|
  {
    if xs != [] {
      MaterialOpposite(pieces, xs[1..], pieces', ys[1..]);
    }
  }

  /** Two lists whose pieces have the same values, position by position, have
      the same material. */
  lemma {:induction false} MaterialSame(pieces: seq<Piece>, xs: seq<PieceId>, pieces': seq<Piece>, ys: seq<PieceId>)
    requires InArena(pieces, xs) && InArena(pieces', ys) && |xs| == |ys|
    requires forall i | 0 <= i < |xs| :: SignedValue(pieces'[ys[i]]) == SignedValue(pieces[xs[i]])
    ensures Material(pieces', ys) == Material(pieces, xs)
    decreases |xs|
  {
    if xs != [] {
      MaterialSame(pieces, xs[1..], pieces', ys[1..]);
    }
  }

  /** Every piece with its colour changed. */
  function SwapColours(pieces: seq<Piece>): (r: seq<Piece>)
    ensures |r| == |pieces|
  {
    seq(|pieces|, i requires 0 <= i < |pieces| => pieces[i].(white := !pieces[i].white))
  }

  /** Changing every piece's colour and exchanging the two checkmate flags
      negates the score (when at most one side is checkmated). */
  lemma ColourSwapNegates(pieces: seq<Piece>, ids: seq<PieceId>, whiteCheckmate: bool, blackCheckmate: bool, draw: bool)
    requires InArena(pieces, ids) && !(whiteCheckmate && blackCheckmate)
    ensures InArena(SwapColours(pieces), ids)
    ensures Score(SwapColours(pieces), ids, blackCheckmate, whiteCheckmate, draw)
            == -Score(pieces, ids, whiteCheckmate, blackCheckmate, draw)
  {
    var swapped := SwapColours(pieces);
    forall i | 0 <= i < |ids| ensures SignedValue(swapped[ids[i]]) == -SignedValue(pieces[ids[i]]) {
      assert swapped[ids[i]] == pieces[ids[i]].(white := !pieces[ids[i]].white);
    }
    MaterialOpposite(pieces, ids, swapped, ids);
  }

  /** The starting position is level: black's sixteen pieces mirror white's. */
  lemma InitialScoreZero()
    ensures var s := InitialPosition();
            InArena(s.pieces, s.whitePieces + s.blackPieces)
            && Score(s.pieces, s.whitePieces + s.blackPieces, false, false, false) == 0
  {
    var pieces, white, black := StartingPieces(), StartingIds(true), StartingIds(false);
    StartingMirror(pieces, white, black);
    MaterialAppend(pieces, white, black);
    assert InitialPosition().pieces == pieces;
    assert InitialPosition().whitePieces + InitialPosition().blackPieces == white + black;
  }

  /** Black's starting pieces have, one by one, the opposite values of white's. */
  lemma StartingMirror(pieces: seq<Piece>, white: seq<PieceId>, black: seq<PieceId>)
    requires pieces == StartingPieces() && white == StartingIds(true) && black == StartingIds(false)
    ensures InArena(pieces, white) && InArena(pieces, black)
    ensures Material(pieces, black) == -Material(pieces, white)
  {
    forall i | 0 <= i < 16 ensures SignedValue(pieces[black[i]]) == -SignedValue(pieces[white[i]]) {
      StartingPieceFacts(i);
      StartingPieceFacts(16 + i);
    }
    MaterialOpposite(pieces, white, pieces, black);
  }

  /** `list.remove(x)` takes one occurrence of `x` out of the material. */
  lemma {:induction false} MaterialRemoveFirst(pieces: seq<Piece>, xs: seq<PieceId>, x: PieceId)
    requires InArena(pieces, xs) && x in xs
    ensures InArena(pieces, RemoveFirst(xs, x))
    ensures Material(pieces, RemoveFirst(xs, x)) == Material(pieces, xs) - SignedValue(pieces[x])
    decreases |xs|
  {
    if xs[0] != x {
      MaterialRemoveFirst(pieces, xs[1..], x);
      var r := RemoveFirst(xs[1..], x);
      assert ([xs[0]] + r)[1..] == r;
    }
  }

  /** A move changes the material by the value of the piece it takes, if
      any: kinds and colours never change, and only the taken piece leaves
      the live lists. */
  lemma CaptureMaterial(s: Position, origin: Square, target: Square)
    requires Valid(s) && PieceAt(s, origin).Some? && !s.justCastled && OnBoard(target)
    ensures var s' := Executed(s, origin, target);
            && InArena(s.pieces, s.whitePieces + s.blackPieces)
            && InArena(s'.pieces, s'.whitePieces + s'.blackPieces)
            && Material(s'.pieces, s'.whitePieces + s'.blackPieces)
               == Material(s.pieces, s.whitePieces + s.blackPieces)
                  - match Occupant(s, target) case None => 0 case Some(cid) => SignedValue(s.pieces[cid])
  {
    ExecutedPieces(s, origin, target);
    ExecutedLists(s, origin, target);
    assert CellOk(s, target);
    ListsMaterial(s, Executed(s, origin, target), Occupant(s, target));
  }

  /** `ListsAfter` in terms of material, for an arena whose kinds and colours
      are unchanged. */
  lemma ListsMaterial(s: Position, s': Position, cap: Option<PieceId>)
    requires forall id | id in s.whitePieces :: id < |s.pieces| && s.pieces[id].white
    requires forall id | id in s.blackPieces :: id < |s.pieces| && !s.pieces[id].white
    requires ListsAfter(s, s', cap) && (cap.Some? ==> IsLive(s, cap.value))
    requires |s'.pieces| == |s.pieces|
    requires forall j | 0 <= j < |s.pieces| ::
               s'.pieces[j].kind == s.pieces[j].kind && s'.pieces[j].white == s.pieces[j].white
    ensures InArena(s.pieces, s.whitePieces + s.blackPieces)
    ensures InArena(s'.pieces, s'.whitePieces + s'.blackPieces)
    ensures Material(s'.pieces, s'.whitePieces + s'.blackPieces)
            == Material(s.pieces, s.whitePieces + s.blackPieces)
               - match cap case None => 0 case Some(cid) => SignedValue(s.pieces[cid])
  {
    var white, black := s.whitePieces, s.blackPieces;
    ArenaMembers(s.pieces, white);
    ArenaMembers(s.pieces, black);
    MaterialAppend(s.pieces, white, black);
    if cap.Some? {
      var cid := cap.value;
      if s.pieces[cid].white {
        MaterialRemoveFirst(s.pieces, white, cid);
        white := RemoveFirst(white, cid);
      } else {
        MaterialRemoveFirst(s.pieces, black, cid);
        black := RemoveFirst(black, cid);
      }
    }
    assert s'.whitePieces + s'.blackPieces == white + black;
    MaterialAppend(s.pieces, white, black);
    MaterialSame(s.pieces, white + black, s'.pieces, white + black);
  }

  /** Promotion changes the material by the new piece's value less the
      pawn's. */
  lemma PromotionMaterial(s: Position, pawn: PieceId, kind: Kind)
    requires Valid(s) && IsLive(s, pawn) && s.pieces[pawn].kind == Pawn
    ensures var s' := Promoted(s, pawn, kind);
            var p := s.pieces[pawn];
            && InArena(s.pieces, s.whitePieces + s.blackPieces)
            && InArena(s'.pieces, s'.whitePieces + s'.blackPieces)
            && Material(s'.pieces, s'.whitePieces + s'.blackPieces)
               == Material(s.pieces, s.whitePieces + s.blackPieces)
                  + (if p.white then Value(kind) as int - 1 else 1 - Value(kind) as int)
  {
    PromotedMaterial(s, pawn, kind);
  }

  /** `PromotionMaterial` from the list facts alone. */
  lemma PromotedMaterial(s: Position, pawn: PieceId, kind: Kind)
    requires forall id | id in s.whitePieces :: id < |s.pieces| && s.pieces[id].white
    requires forall id | id in s.blackPieces :: id < |s.pieces| && !s.pieces[id].white
    requires IsLive(s, pawn) && s.pieces[pawn].kind == Pawn
    ensures var s' := Promoted(s, pawn, kind);
            var p := s.pieces[pawn];
            && InArena(s.pieces, s.whitePieces + s.blackPieces)
            && InArena(s'.pieces, s'.whitePieces + s'.blackPieces)
            && Material(s'.pieces, s'.whitePieces + s'.blackPieces)
               == Material(s.pieces, s.whitePieces + s.blackPieces)
                  + (if p.white then Value(kind) as int - 1 else 1 - Value(kind) as int)
  {
    var s' := Promoted(s, pawn, kind);
    var p := s.pieces[pawn];
    var q := NewPiece(kind, p.row, p.column, p.white);
    var white, black := s.whitePieces, s.blackPieces;
    ArenaMembers(s.pieces, white);
    ArenaMembers(s.pieces, black);
    MaterialAppend(s.pieces, white, black);
    assert s'.pieces == s.pieces + [q];
    if p.white {
      ReplacedMaterial(s.pieces, q, white, pawn);
      MaterialSame(s.pieces, black, s'.pieces, black);
      white := RemoveFirst(white, pawn) + [|s.pieces|];
    } else {
      ReplacedMaterial(s.pieces, q, black, pawn);
      MaterialSame(s.pieces, white, s'.pieces, white);
      black := RemoveFirst(black, pawn) + [|s.pieces|];
    }
    assert s'.whitePieces + s'.blackPieces == white + black;
    MaterialAppend(s'.pieces, white, black);
  }

  /** One list with `gone` removed and a newly appended piece `q` added at
      the end. */
  lemma ReplacedMaterial(pieces: seq<Piece>, q: Piece, ids: seq<PieceId>, gone: PieceId)
    requires InArena(pieces, ids) && gone in ids
    ensures var kept := RemoveFirst(ids, gone) + [|pieces|];
            && InArena(pieces + [q], kept)
            && Material(pieces + [q], kept) == Material(pieces, ids) - SignedValue(pieces[gone]) + SignedValue(q)
  {
    var pieces' := pieces + [q];
    var rest := RemoveFirst(ids, gone);
    MaterialRemoveFirst(pieces, ids, gone);
    MaterialSame(pieces, rest, pieces', rest);
    assert Material(pieces', [|pieces|]) == SignedValue(q) + Material(pieces', []);
    MaterialAppend(pieces', rest, [|pieces|]);
  }
}
