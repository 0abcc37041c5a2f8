// The state the engine mutates, as a value: the 8x8 grid of optional piece
// references, the piece objects themselves, the live and taken lists of each
// colour, the side to move, the king-location cache and the one-shot
// "just castled" flag. Python object identity is modelled by an arena: every
// piece object ever created has an index (`PieceId`) into `pieces`, and the
// grid and the four lists hold indices.

module BoardState {
  import opened Geometry
  import opened Pieces

  datatype Option<T> = None | Some(value: T)

  type PieceId = nat
  type Grid = seq<seq<Option<PieceId>>>

  datatype Position = Position(
    grid: Grid,
    pieces: seq<Piece>,
    whitePieces: seq<PieceId>,
    blackPieces: seq<PieceId>,
    whiteTaken: seq<PieceId>,
    blackTaken: seq<PieceId>,
    whiteToMove: bool,
    whiteKing: Square,
    blackKing: Square,
    justCastled: bool)

  predicate GridShape(g: Grid) {
    |g| == 8 && forall r | 0 <= r < 8 :: |g[r]| == 8
  }

  predicate InGrid(g: Grid, sq: Square) {
    0 <= sq.row < |g| && 0 <= sq.column < |g[sq.row]|
  }

  /** `board[row][column]`. */
  function At(g: Grid, sq: Square): Option<PieceId> {
    if InGrid(g, sq) then g[sq.row][sq.column] else None
  }

  /** `board[row][column] = v`. */
  function SetCell(g: Grid, sq: Square, v: Option<PieceId>): (g': Grid)
    ensures |g'| == |g| && forall r | 0 <= r < |g| :: |g'[r]| == |g[r]|
    ensures forall t :: At(g', t) == if t == sq && InGrid(g, sq) then v else At(g, t)
  {
    if InGrid(g, sq) then g[sq.row := g[sq.row][sq.column := v]] else g
  }

  /** The arena index on a square, if it names a piece object. */
  function Occupant(s: Position, sq: Square): Option<PieceId> {
    match At(s.grid, sq)
    case None => None
    case Some(id) => if id < |s.pieces| then Some(id) else None
  }

  /** The piece object on a square, if any. */
  function PieceAt(s: Position, sq: Square): Option<Piece> {
    match Occupant(s, sq)
    case None => None
    case Some(id) => Some(s.pieces[id])
  }

  predicate IsLive(s: Position, id: PieceId) {
    id in s.whitePieces || id in s.blackPieces
  }

  predicate NoDuplicates(xs: seq<PieceId>) {
    forall i, j | 0 <= i < j < |xs| :: xs[i] != xs[j]
  }

  function HomeKing(white: bool): Square {
    if white then Square(7, 4) else Square(0, 4)
  }

  /** The king-location cache of one colour. */
  function KingCache(s: Position, white: bool): Square {
    if white then s.whiteKing else s.blackKing
  }

  /** A live piece sits on the board where it says it is; a king is where
      its colour's cache says, and on its home square if it has not moved. */
  predicate LivePieceOk(s: Position, id: PieceId) {
    && id < |s.pieces|
    && OnBoard(Location(s.pieces[id]))
    && At(s.grid, Location(s.pieces[id])) == Some(id)
    && (s.pieces[id].kind == King ==> Location(s.pieces[id]) == KingCache(s, s.pieces[id].white))
    && (s.pieces[id].kind == King && !s.pieces[id].hasMoved
        ==> Location(s.pieces[id]) == HomeKing(s.pieces[id].white))
  }

  /** A grid cell holds only a live piece whose recorded square is that cell. */
  predicate CellOk(s: Position, sq: Square) {
    match At(s.grid, sq)
    case None => true
    case Some(id) => IsLive(s, id) && id < |s.pieces| && Location(s.pieces[id]) == sq
  }

  /** The board invariant: the grid and the piece lists describe the same
      pieces (established by `initialise_board`, kept by `execute_move`). */
  ghost predicate Valid(s: Position) {
    && GridShape(s.grid)
    && NoDuplicates(s.whitePieces) && NoDuplicates(s.blackPieces)
    && (forall id | id in s.whitePieces :: id < |s.pieces| && s.pieces[id].white)
    && (forall id | id in s.blackPieces :: id < |s.pieces| && !s.pieces[id].white)
    && (forall id | IsLive(s, id) :: LivePieceOk(s, id))
    && (forall sq | OnBoard(sq) :: CellOk(s, sq))
    && (forall id | id in s.whiteTaken :: id < |s.pieces| && s.pieces[id].white && !IsLive(s, id))
    && (forall id | id in s.blackTaken :: id < |s.pieces| && !s.pieces[id].white && !IsLive(s, id))
  }

  /** `list.remove(x)`: drops the first occurrence. (Python raises when `x` is
      absent; under `Valid` every removed piece is present.) */
  function RemoveFirst(xs: seq<PieceId>, x: PieceId): (r: seq<PieceId>)
    ensures x in xs ==> |r| == |xs| - 1
    ensures x !in xs ==> r == xs
  {
    if xs == [] then []
    else if xs[0] == x then xs[1..]
    else assert x in xs ==> x in xs[1..]; [xs[0]] + RemoveFirst(xs[1..], x)
  }

  /** `list.remove(x)` takes away exactly one occurrence of `x`, if any. */
  lemma {:induction false} RemoveFirstMultiset(xs: seq<PieceId>, x: PieceId)
    ensures multiset(RemoveFirst(xs, x)) == multiset(xs) - multiset{x}
  {
    if xs != [] {
      assert xs == [xs[0]] + xs[1..];
      if xs[0] != x {
        RemoveFirstMultiset(xs[1..], x);
      }
    }
  }

  function ClearOne(pieces: seq<Piece>, id: PieceId): seq<Piece> {
    if id < |pieces| && pieces[id].kind == Pawn then pieces[id := pieces[id].(enPassant := false)]
    else pieces
  }

  /** `__update_en_passant`, applied to the pawns among `ids`. */
  function ClearEnPassant(pieces: seq<Piece>, ids: seq<PieceId>): (r: seq<Piece>)
    ensures |r| == |pieces|
    ensures forall j | 0 <= j < |r| ::
              r[j] == if j in ids && pieces[j].kind == Pawn then pieces[j].(enPassant := false) else pieces[j]
    decreases |ids|
  {
    if ids == [] then pieces
    else ClearEnPassant(ClearOne(pieces, ids[0]), ids[1..])
  }

  /** Moves a captured piece from its colour's live list to its taken list. */
  function Capture(s: Position, id: PieceId): Position
    requires id < |s.pieces|
  {
    if s.pieces[id].white then
      s.(whitePieces := RemoveFirst(s.whitePieces, id), whiteTaken := s.whiteTaken + [id])
    else
      s.(blackPieces := RemoveFirst(s.blackPieces, id), blackTaken := s.blackTaken + [id])
  }

  /** A pawn's two-square advance, judged by the side to move. */
  predicate DoubleStep(whiteToMove: bool, origin: Square, target: Square) {
    if whiteToMove then origin.row == 6 && target.row == 4
    else origin.row == 1 && target.row == 3
  }

  predicate CanExecute(s: Position, origin: Square) {
    s.justCastled || PieceAt(s, origin).Some?
  }

  /** The grid and list part of a move: the mover leaves `origin` for
      `target`, and whatever stood on `target` is taken. */
  function Moved(s: Position, origin: Square, target: Square): Position
    requires PieceAt(s, origin).Some?
  {
    var id := At(s.grid, origin).value;
    var mover := s.pieces[id];
    var s1 := s.(grid := SetCell(SetCell(s.grid, origin, None), target, Some(id)),
                 pieces := s.pieces[id := mover.(row := target.row, column := target.column)]);
    match Occupant(s, target)
    case None => s1
    case Some(cid) => Capture(s1, cid)
  }

  /** The mover's flags after its move: a pawn's two-square advance makes it
      capturable en passant; pawns, rooks and kings record that they moved. */
  function MoverFlags(p: Piece, whiteToMove: bool, origin: Square, target: Square): Piece {
    var p1 := if p.kind == Pawn && DoubleStep(whiteToMove, origin, target) then p.(enPassant := true) else p;
    if p.kind == Pawn || p.kind == Rook || p.kind == King then p1.(hasMoved := true) else p1
  }

  /** `Game.execute_move`. */
  function Executed(s: Position, origin: Square, target: Square): Position
    requires CanExecute(s, origin)
  {
    if s.justCastled then s.(justCastled := false)
    else
      var id := At(s.grid, origin).value;
      var s2 := Moved(s, origin, target);
      var cleared := ClearEnPassant(s2.pieces, if s.whiteToMove then s2.whitePieces else s2.blackPieces);
      var s4 := s2.(pieces := cleared[id := MoverFlags(cleared[id], s.whiteToMove, origin, target)]);
      var s5 := if s.pieces[id].kind != King then s4
                else if s.pieces[id].white then s4.(whiteKing := target)
                else s4.(blackKing := target);
      s5.(whiteToMove := !s.whiteToMove)
  }

  /** `Executed` for a plain move, stage by stage: the move and capture, the
      en passant flags cleared, the mover's own flags, the king cache, the turn. */
  lemma ExecutedStages(s: Position, origin: Square, target: Square, s2: Position, cleared: seq<Piece>, p: Piece)
    requires PieceAt(s, origin).Some? && !s.justCastled
    requires s2 == Moved(s, origin, target)
    requires cleared == ClearEnPassant(s2.pieces, if s.whiteToMove then s2.whitePieces else s2.blackPieces)
    requires p == MoverFlags(cleared[At(s.grid, origin).value], s.whiteToMove, origin, target)
    ensures p.kind == s.pieces[At(s.grid, origin).value].kind && p.white == s.pieces[At(s.grid, origin).value].white
    ensures Executed(s, origin, target)
            == s2.(pieces := cleared[At(s.grid, origin).value := p],
                   whiteKing := if p.kind == King && p.white then target else s2.whiteKing,
                   blackKing := if p.kind == King && !p.white then target else s2.blackKing,
                   whiteToMove := !s.whiteToMove)
  {
    MovedArena(s, origin, target);
  }

  /** The list-and-grid part of `__promote_pawn`: the pawn leaves its live
      list (it is not taken), and a new piece of `kind`, of the pawn's colour,
      takes its square. */
  function Promoted(s: Position, pawn: PieceId, kind: Kind): Position
    requires pawn < |s.pieces|
  {
    var p := s.pieces[pawn];
    var newId := |s.pieces|;
    var s1 := s.(pieces := s.pieces + [NewPiece(kind, p.row, p.column, p.white)]);
    var s2 := if p.white then s1.(whitePieces := RemoveFirst(s1.whitePieces, pawn) + [newId])
              else s1.(blackPieces := RemoveFirst(s1.blackPieces, pawn) + [newId]);
    s2.(grid := SetCell(s2.grid, Location(p), Some(newId)))
  }

  // ---------------------------------------------------------------------
  // The starting position (`Board.__init__` and `initialise_board`)

  const BackKinds: seq<Kind> := [Rook, Rook, Knight, Knight, Bishop, Bishop, Queen, King]
  const BackColumns: seq<int> := [0, 7, 1, 6, 2, 5, 3, 4]

  /** One side's pieces in the order `Board.__init__` lists them: the back
      rank as listed, then the pawns by column. */
  function StartingSide(white: bool): seq<Piece> {
    var back := if white then 7 else 0;
    var pawns := if white then 6 else 1;
    seq(8, k requires 0 <= k < 8 => NewPiece(BackKinds[k], back, BackColumns[k], white))
    + seq(8, c requires 0 <= c < 8 => NewPiece(Pawn, pawns, c, white))
  }

  /** The arena after `Board.__init__`: white's sixteen pieces, then black's. */
  function StartingPieces(): seq<Piece> {
    StartingSide(true) + StartingSide(false)
  }

  function StartingIds(white: bool): seq<PieceId> {
    seq(16, i requires 0 <= i < 16 => if white then i else 16 + i)
  }

  function EmptyGrid(): Grid {
    seq(8, r => seq(8, c => None))
  }

  /** The grid after each listed piece is written onto its own square, in order. */
  function Placed(g: Grid, pieces: seq<Piece>, ids: seq<PieceId>): Grid
    requires forall i | 0 <= i < |ids| :: ids[i] < |pieces|
    decreases |ids|
  {
    if ids == [] then g
    else
      var last := ids[|ids| - 1];
      SetCell(Placed(g, pieces, ids[..|ids| - 1]), Location(pieces[last]), Some(last))
  }

  /** `Game()` followed by `board.initialise_board()`. */
  function InitialPosition(): Position {
    Position(Placed(EmptyGrid(), StartingPieces(), StartingIds(true) + StartingIds(false)),
             StartingPieces(), StartingIds(true), StartingIds(false), [], [],
             true, Square(7, 4), Square(0, 4), false)
  }

  // ---------------------------------------------------------------------
  // Facts about the state operations

  lemma GridExtensionality(g1: Grid, g2: Grid)
    requires GridShape(g1) && GridShape(g2)
    requires forall sq | OnBoard(sq) :: At(g1, sq) == At(g2, sq)
    ensures g1 == g2
  {
    forall r | 0 <= r < 8 ensures g1[r] == g2[r] {
      forall c | 0 <= c < 8 ensures g1[r][c] == g2[r][c] {
        assert At(g1, Square(r, c)) == At(g2, Square(r, c));
      }
    }
  }

  lemma {:induction false} RemoveFirstMembers(xs: seq<PieceId>, x: PieceId, y: PieceId)
    requires NoDuplicates(xs)
    ensures NoDuplicates(RemoveFirst(xs, x))
    ensures y in RemoveFirst(xs, x) <==> y in xs && y != x
  {
    if xs != [] {
      assert NoDuplicates(xs[1..]) by {
        forall i, j | 0 <= i < j < |xs[1..]| ensures xs[1..][i] != xs[1..][j] {
          assert xs[1..][i] == xs[i + 1] && xs[1..][j] == xs[j + 1];
        }
      }
      if xs[0] != x {
        RemoveFirstMembers(xs[1..], x, y);
        RemoveFirstMembers(xs[1..], x, xs[0]);
        var r := RemoveFirst(xs[1..], x);
        assert xs[0] !in xs[1..];
        forall i, j | 0 <= i < j < |[xs[0]] + r| ensures ([xs[0]] + r)[i] != ([xs[0]] + r)[j] {
          if i == 0 {
            assert ([xs[0]] + r)[j] == r[j - 1];
            assert r[j - 1] in r;
          } else {
            assert ([xs[0]] + r)[i] == r[i - 1] && ([xs[0]] + r)[j] == r[j - 1];
          }
        }
      } else {
        assert xs[0] !in xs[1..];
      }
    }
  }

  /** The first stage of a move, in terms of the arena. */
  lemma MovedArena(s: Position, origin: Square, target: Square)
    requires PieceAt(s, origin).Some?
    ensures var id := At(s.grid, origin).value;
            var s2 := Moved(s, origin, target);
            && s2.pieces == s.pieces[id := s.pieces[id].(row := target.row, column := target.column)]
            && s2.grid == SetCell(SetCell(s.grid, origin, None), target, Some(id))
            && s2.whiteToMove == s.whiteToMove
  {
  }

  /** What `Executed` does to the arena: kinds and colours never change; the
      mover alone changes square and records that it moved. */
  lemma ExecutedPieces(s: Position, origin: Square, target: Square)
    requires PieceAt(s, origin).Some? && !s.justCastled
    ensures var s' := Executed(s, origin, target);
            var id := At(s.grid, origin).value;
            && |s'.pieces| == |s.pieces|
            && (forall j | 0 <= j < |s.pieces| ::
                  s'.pieces[j].kind == s.pieces[j].kind && s'.pieces[j].white == s.pieces[j].white)
            && (forall j | 0 <= j < |s.pieces| && j != id ::
                  Location(s'.pieces[j]) == Location(s.pieces[j]) && s'.pieces[j].hasMoved == s.pieces[j].hasMoved)
            && Location(s'.pieces[id]) == target
            && (s.pieces[id].kind in {Pawn, Rook, King} ==> s'.pieces[id].hasMoved)
            && s'.grid == SetCell(SetCell(s.grid, origin, None), target, Some(id))
  {
    var id := At(s.grid, origin).value;
    var s2 := Moved(s, origin, target);
    MovedArena(s, origin, target);
    var moved := s2.pieces;
    var cleared := ClearEnPassant(moved, if s.whiteToMove then s2.whitePieces else s2.blackPieces);
    ExecutedStages(s, origin, target, s2, cleared, MoverFlags(cleared[id], s.whiteToMove, origin, target));
    PiecesAfterFlags(s.pieces, moved, cleared, id, MoverFlags(cleared[id], s.whiteToMove, origin, target));
  }

  lemma PiecesAfterFlags(before: seq<Piece>, moved: seq<Piece>, cleared: seq<Piece>, id: nat, p: Piece)
    requires id < |before| && |moved| == |before| && |cleared| == |before|
    requires forall j | 0 <= j < |before| && j != id :: moved[j] == before[j]
    requires moved[id].kind == before[id].kind && moved[id].white == before[id].white
    requires forall j | 0 <= j < |before| ::
               cleared[j] == moved[j] || cleared[j] == moved[j].(enPassant := false)
    requires p.kind == cleared[id].kind && p.white == cleared[id].white
    ensures var after := cleared[id := p];
            && (forall j | 0 <= j < |before| ::
                  after[j].kind == before[j].kind && after[j].white == before[j].white)
            && (forall j | 0 <= j < |before| && j != id ::
                  Location(after[j]) == Location(before[j]) && after[j].hasMoved == before[j].hasMoved)
  {
  }

  /** The live and taken lists after a move whose target held `cap`: a
      captured piece leaves its colour's live list for its taken list. */
  predicate ListsAfter(s: Position, s': Position, cap: Option<PieceId>) {
    match cap
    case None =>
      s'.whitePieces == s.whitePieces && s'.blackPieces == s.blackPieces
      && s'.whiteTaken == s.whiteTaken && s'.blackTaken == s.blackTaken
    case Some(cid) =>
      cid < |s.pieces|
      && if s.pieces[cid].white then
           s'.whitePieces == RemoveFirst(s.whitePieces, cid) && s'.whiteTaken == s.whiteTaken + [cid]
           && s'.blackPieces == s.blackPieces && s'.blackTaken == s.blackTaken
         else
           s'.blackPieces == RemoveFirst(s.blackPieces, cid) && s'.blackTaken == s.blackTaken + [cid]
           && s'.whitePieces == s.whitePieces && s'.whiteTaken == s.whiteTaken
  }

  /** Which pieces `Executed` leaves live. */
  lemma ExecutedLists(s: Position, origin: Square, target: Square)
    requires PieceAt(s, origin).Some? && !s.justCastled
    ensures ListsAfter(s, Executed(s, origin, target), Occupant(s, target))
  {
    var s2 := Moved(s, origin, target);
    if Occupant(s, target).Some? {
      var cid := Occupant(s, target).value;
      assert s2.pieces[cid].white == s.pieces[cid].white;
    }
  }

  /** What `ListsAfter` means for membership, for a captured piece that was live. */
  lemma ListsAfterMembers(s: Position, s': Position, cap: Option<PieceId>)
    requires NoDuplicates(s.whitePieces) && NoDuplicates(s.blackPieces) && ListsAfter(s, s', cap)
    requires forall id | id in s.whitePieces :: id < |s.pieces| && s.pieces[id].white
    requires forall id | id in s.blackPieces :: id < |s.pieces| && !s.pieces[id].white
    ensures forall j: PieceId :: IsLive(s', j) <==> IsLive(s, j) && Some(j) != cap
    ensures NoDuplicates(s'.whitePieces) && NoDuplicates(s'.blackPieces)
    ensures forall j | j in s'.whitePieces :: j in s.whitePieces
    ensures forall j | j in s'.blackPieces :: j in s.blackPieces
    ensures forall j | j in s'.whiteTaken :: j in s.whiteTaken || (Some(j) == cap && s.pieces[j].white)
    ensures forall j | j in s'.blackTaken :: j in s.blackTaken || (Some(j) == cap && !s.pieces[j].white)
  {
    if cap.Some? {
      var cid := cap.value;
      var live := if s.pieces[cid].white then s.whitePieces else s.blackPieces;
      RemoveFirstMembers(live, cid, cid);
      forall j: PieceId ensures j in RemoveFirst(live, cid) <==> j in live && j != cid {
        RemoveFirstMembers(live, cid, j);
      }
    }
  }

  /** Two states with the same grid, arena, lists and king cache. */
  predicate SameBoard(s: Position, s': Position) {
    s'.grid == s.grid && s'.pieces == s.pieces
    && s'.whitePieces == s.whitePieces && s'.blackPieces == s.blackPieces
    && s'.whiteTaken == s.whiteTaken && s'.blackTaken == s.blackTaken
    && s'.whiteKing == s.whiteKing && s'.blackKing == s.blackKing
  }

  /** The board invariant does not depend on the turn or the castling flag. */
  lemma SameBoardValid(s: Position, s': Position)
    requires SameBoard(s, s')
    ensures Valid(s) == Valid(s')
  {
    assert forall id :: IsLive(s, id) == IsLive(s', id);
    assert forall id :: LivePieceOk(s, id) == LivePieceOk(s', id);
    assert forall sq :: CellOk(s, sq) == CellOk(s', sq);
  }

  /** How a plain move relates the state after it to the state before it,
      stated without reference to `Executed`. */
  ghost predicate MoveShape(s: Position, s': Position, origin: Square, target: Square, id: PieceId) {
    && Valid(s) && OnBoard(target) && origin != target
    && At(s.grid, origin) == Some(id) && id < |s.pieces|
    && |s'.pieces| == |s.pieces|
    && (forall j | 0 <= j < |s.pieces| ::
          s'.pieces[j].kind == s.pieces[j].kind && s'.pieces[j].white == s.pieces[j].white)
    && (forall j | 0 <= j < |s.pieces| && j != id ::
          Location(s'.pieces[j]) == Location(s.pieces[j]) && s'.pieces[j].hasMoved == s.pieces[j].hasMoved)
    && Location(s'.pieces[id]) == target
    && (s.pieces[id].kind == King ==> s'.pieces[id].hasMoved)
    && s'.grid == SetCell(SetCell(s.grid, origin, None), target, Some(id))
    && (forall c: bool :: KingCache(s', c)
          == if s.pieces[id].kind == King && s.pieces[id].white == c then target else KingCache(s, c))
    && (forall j: PieceId :: IsLive(s', j) <==> IsLive(s, j) && Some(j) != Occupant(s, target))
    && NoDuplicates(s'.whitePieces) && NoDuplicates(s'.blackPieces)
    && (forall j | j in s'.whitePieces :: j in s.whitePieces)
    && (forall j | j in s'.blackPieces :: j in s.blackPieces)
    && (forall j | j in s'.whiteTaken :: j in s.whiteTaken || (Some(j) == Occupant(s, target) && s.pieces[j].white))
    && (forall j | j in s'.blackTaken :: j in s.blackTaken || (Some(j) == Occupant(s, target) && !s.pieces[j].white))
  }

  lemma MoveShapeLive(s: Position, s': Position, origin: Square, target: Square, id: PieceId)
    requires MoveShape(s, s', origin, target, id)
    ensures forall j | IsLive(s', j) :: LivePieceOk(s', j)
  {
    assert CellOk(s, origin);
    assert CellOk(s, target);
    forall j: PieceId | IsLive(s', j) ensures LivePieceOk(s', j) {
      assert IsLive(s, j) && Some(j) != Occupant(s, target);
      assert LivePieceOk(s, j);
      if j != id {
        var loc := Location(s.pieces[j]);
        assert loc != target && loc != origin;
        assert At(s'.grid, loc) == Some(j);
      } else {
        assert At(s'.grid, target) == Some(id);
      }
    }
  }

  lemma MoveShapeCells(s: Position, s': Position, origin: Square, target: Square, id: PieceId)
    requires MoveShape(s, s', origin, target, id)
    ensures forall sq | OnBoard(sq) :: CellOk(s', sq)
  {
    assert CellOk(s, origin);
    assert CellOk(s, target);
    assert IsLive(s, id) && Location(s.pieces[id]) == origin;
    forall sq | OnBoard(sq) ensures CellOk(s', sq) {
      assert CellOk(s, sq);
      if sq == target {
        assert Occupant(s, target) != Some(id);
        assert IsLive(s', id);
      } else if sq != origin && At(s.grid, sq).Some? {
        var j := At(s.grid, sq).value;
        assert Some(j) != Occupant(s, target);
        assert IsLive(s', j);
      }
    }
  }

  lemma MoveShapeValid(s: Position, s': Position, origin: Square, target: Square, id: PieceId)
    requires MoveShape(s, s', origin, target, id)
    ensures Valid(s')
  {
    MoveShapeLive(s, s', origin, target, id);
    MoveShapeCells(s, s', origin, target, id);
    assert CellOk(s, target);
    forall j | j in s'.whiteTaken ensures j < |s'.pieces| && s'.pieces[j].white && !IsLive(s', j) {
      if j !in s.whiteTaken {
        assert Some(j) == Occupant(s, target);
      }
    }
    forall j | j in s'.blackTaken ensures j < |s'.pieces| && !s'.pieces[j].white && !IsLive(s', j) {
      if j !in s.blackTaken {
        assert Some(j) == Occupant(s, target);
      }
    }
  }

  /** A plain move, seen through `MoveShape`. */
  lemma ExecutedShape(s: Position, origin: Square, target: Square)
    requires Valid(s) && PieceAt(s, origin).Some? && !s.justCastled && OnBoard(target) && origin != target
    ensures MoveShape(s, Executed(s, origin, target), origin, target, At(s.grid, origin).value)
  {
    var s' := Executed(s, origin, target);
    ExecutedPieces(s, origin, target);
    ExecutedLists(s, origin, target);
    assert CellOk(s, target);
    ListsAfterMembers(s, s', Occupant(s, target));
  }

  /** The en passant flags after a plain move: a pawn mover's flag is set
      exactly when it advanced two squares (or, if it is not on its own
      side's live list, also when it was set before); the other pawns of the
      side to move are cleared; every other piece keeps its flag. */
  lemma ExecutedFlags(s: Position, origin: Square, target: Square)
    requires PieceAt(s, origin).Some? && !s.justCastled
    ensures var s' := Executed(s, origin, target);
            var id := At(s.grid, origin).value;
            var mine := if s.whiteToMove then s'.whitePieces else s'.blackPieces;
            && |s'.pieces| == |s.pieces|
            && (s.pieces[id].kind == Pawn ==>
                  s'.pieces[id].enPassant
                  == (DoubleStep(s.whiteToMove, origin, target) || (id !in mine && s.pieces[id].enPassant)))
            && (forall j | 0 <= j < |s.pieces| && j != id && j in mine && s.pieces[j].kind == Pawn ::
                  !s'.pieces[j].enPassant)
            && (forall j | 0 <= j < |s.pieces| && j != id && j !in mine ::
                  s'.pieces[j].enPassant == s.pieces[j].enPassant)
  {
    var id := At(s.grid, origin).value;
    var s2 := Moved(s, origin, target);
    MovedArena(s, origin, target);
    var cleared := ClearEnPassant(s2.pieces, if s.whiteToMove then s2.whitePieces else s2.blackPieces);
    ExecutedStages(s, origin, target, s2, cleared, MoverFlags(cleared[id], s.whiteToMove, origin, target));
  }

  /** `execute_move` keeps the board invariant for any move to another square. */
  lemma ExecutedValid(s: Position, origin: Square, target: Square)
    requires Valid(s) && CanExecute(s, origin) && OnBoard(target) && origin != target
    ensures Valid(Executed(s, origin, target))
  {
    if !s.justCastled {
      ExecutedShape(s, origin, target);
      MoveShapeValid(s, Executed(s, origin, target), origin, target, At(s.grid, origin).value);
    } else {
      SameBoardValid(s, Executed(s, origin, target));
    }
  }

  /** The bookkeeping of a capture: the taken piece's colour loses one live
      piece and gains one taken piece; the other colour's lists are untouched. */
  lemma CaptureCounts(s: Position, origin: Square, target: Square)
    requires Valid(s) && PieceAt(s, origin).Some? && !s.justCastled && OnBoard(target)
    requires At(s.grid, target).Some?
    ensures var s' := Executed(s, origin, target);
            var cid := At(s.grid, target).value;
            cid < |s.pieces|
            && (if s.pieces[cid].white then
                  |s'.whitePieces| == |s.whitePieces| - 1 && |s'.whiteTaken| == |s.whiteTaken| + 1
                  && cid !in s'.whitePieces && cid in s'.whiteTaken
                  && s'.blackPieces == s.blackPieces && s'.blackTaken == s.blackTaken
                else
                  |s'.blackPieces| == |s.blackPieces| - 1 && |s'.blackTaken| == |s.blackTaken| + 1
                  && cid !in s'.blackPieces && cid in s'.blackTaken
                  && s'.whitePieces == s.whitePieces && s'.whiteTaken == s.whiteTaken)
  {
    var cid := At(s.grid, target).value;
    assert CellOk(s, target);
    ExecutedLists(s, origin, target);
    RemoveFirstMembers(s.whitePieces, cid, cid);
    RemoveFirstMembers(s.blackPieces, cid, cid);
  }

  /** Promotion's effect on the live lists: the pawn's id is replaced by the
      new piece's id in its colour's list. */
  lemma PromotedLists(s: Position, pawn: PieceId, kind: Kind)
    requires NoDuplicates(s.whitePieces) && NoDuplicates(s.blackPieces) && IsLive(s, pawn)
    requires forall id | id in s.whitePieces :: id < |s.pieces| && s.pieces[id].white
    requires forall id | id in s.blackPieces :: id < |s.pieces| && !s.pieces[id].white
    ensures var s' := Promoted(s, pawn, kind);
            var newId := |s.pieces|;
            && (forall j: PieceId :: IsLive(s', j) <==> (IsLive(s, j) && j != pawn) || j == newId)
            && NoDuplicates(s'.whitePieces) && NoDuplicates(s'.blackPieces)
            && (forall id | id in s'.whitePieces :: id < |s'.pieces| && s'.pieces[id].white)
            && (forall id | id in s'.blackPieces :: id < |s'.pieces| && !s'.pieces[id].white)
            && |s'.whitePieces| == |s.whitePieces| && |s'.blackPieces| == |s.blackPieces|
  {
    var p := s.pieces[pawn];
    var newId := |s.pieces|;
    var live := if p.white then s.whitePieces else s.blackPieces;
    var other := if p.white then s.blackPieces else s.whitePieces;
    assert pawn in live && pawn !in other;
    assert newId !in live && newId !in other;
    ReplacedInList(live, pawn, newId);
  }

  /** A list without duplicates with one member replaced by a new one at the
      end: same length, no duplicates, and the expected members. */
  lemma ReplacedInList(live: seq<PieceId>, gone: PieceId, added: PieceId)
    requires NoDuplicates(live) && gone in live && added !in live
    ensures var kept := RemoveFirst(live, gone) + [added];
            && |kept| == |live| && NoDuplicates(kept)
            && forall j :: j in kept <==> (j in live && j != gone) || j == added
  {
    RemoveFirstMembers(live, gone, gone);
    forall j: PieceId ensures j in RemoveFirst(live, gone) <==> j in live && j != gone {
      RemoveFirstMembers(live, gone, j);
    }
    var kept := RemoveFirst(live, gone) + [added];
    forall a, b | 0 <= a < b < |kept| ensures kept[a] != kept[b] {
      if b == |kept| - 1 {
        assert kept[a] in RemoveFirst(live, gone);
      } else {
        assert kept[a] == RemoveFirst(live, gone)[a] && kept[b] == RemoveFirst(live, gone)[b];
      }
    }
  }

  /** Promotion keeps the board invariant: the new piece (never a king) is
      live on the pawn's square, the pawn is no longer live, and no other
      piece changes status; each side keeps its number of live pieces. */
  lemma PromotedValid(s: Position, pawn: PieceId, kind: Kind)
    requires Valid(s) && IsLive(s, pawn) && kind != King
    ensures var s' := Promoted(s, pawn, kind);
            var p := s.pieces[pawn];
            var newId := |s.pieces|;
            && Valid(s')
            && !IsLive(s', pawn) && IsLive(s', newId)
            && s'.pieces[newId] == NewPiece(kind, p.row, p.column, p.white)
            && At(s'.grid, Location(p)) == Some(newId)
            && |s'.whitePieces| == |s.whitePieces| && |s'.blackPieces| == |s.blackPieces|
            && (forall j: PieceId | j != pawn && j != newId :: IsLive(s', j) == IsLive(s, j))
  {
    var s' := Promoted(s, pawn, kind);
    var p := s.pieces[pawn];
    var newId := |s.pieces|;
    assert LivePieceOk(s, pawn);
    PromotedLists(s, pawn, kind);
    assert s'.grid == SetCell(s.grid, Location(p), Some(newId));
    assert s'.pieces == s.pieces + [NewPiece(kind, p.row, p.column, p.white)];
    assert Location(s'.pieces[newId]) == Location(p);
    forall j: PieceId | IsLive(s', j) ensures LivePieceOk(s', j) {
      if j != newId {
        assert LivePieceOk(s, j);
        assert Location(s.pieces[j]) != Location(p);
        assert s'.pieces[j] == s.pieces[j];
      }
    }
    forall sq | OnBoard(sq) ensures CellOk(s', sq) {
      assert CellOk(s, sq);
      if sq != Location(p) && At(s.grid, sq).Some? {
        assert At(s.grid, sq).value != pawn;
      }
    }
  }

  /** The pieces of the starting arena, by index. */
  lemma StartingPieceFacts(i: nat)
    requires i < 32
    ensures var p := StartingPieces()[i];
            var k := if i < 16 then i else i - 16;
            && p.white == (i < 16) && !p.hasMoved
            && p.kind == (if k < 8 then BackKinds[k] else Pawn)
            && p.row == (if i < 16 then (if k < 8 then 7 else 6) else (if k < 8 then 0 else 1))
            && p.column == (if k < 8 then BackColumns[k] else k - 8)
  {
    var k := if i < 16 then i else i - 16;
    var side := StartingSide(i < 16);
    assert StartingPieces()[i] == side[k];
    if k < 8 {
      assert side[k] == NewPiece(BackKinds[k], if i < 16 then 7 else 0, BackColumns[k], i < 16);
    } else {
      assert side[k] == NewPiece(Pawn, if i < 16 then 6 else 1, k - 8, i < 16);
    }
  }

  /** The back-rank columns, in closed form. */
  lemma BackColumnsFormula(k: nat)
    requires k < 8
    ensures BackColumns[k] == if k % 2 == 0 then k / 2 else 7 - k / 2
  {
  }

  /** No two starting pieces share a square. */
  lemma StartingSquaresDistinct(i: nat, j: nat)
    requires i < 32 && j < 32 && i != j
    ensures Location(StartingPieces()[i]) != Location(StartingPieces()[j])
  {
    StartingPieceFacts(i);
    StartingPieceFacts(j);
    var a := if i < 16 then i else i - 16;
    var b := if j < 16 then j else j - 16;
    if (i < 16) == (j < 16) && a < 8 && b < 8 {
      BackColumnsFormula(a);
      BackColumnsFormula(b);
    }
  }

  lemma {:induction false} PlacedAt(g: Grid, pieces: seq<Piece>, ids: seq<PieceId>)
    requires GridShape(g)
    requires forall i | 0 <= i < |ids| :: ids[i] < |pieces| && OnBoard(Location(pieces[ids[i]]))
    requires forall i, j | 0 <= i < j < |ids| :: Location(pieces[ids[i]]) != Location(pieces[ids[j]])
    ensures GridShape(Placed(g, pieces, ids))
    ensures forall i | 0 <= i < |ids| :: At(Placed(g, pieces, ids), Location(pieces[ids[i]])) == Some(ids[i])
    ensures forall sq | (forall i | 0 <= i < |ids| :: Location(pieces[ids[i]]) != sq) ::
              At(Placed(g, pieces, ids), sq) == At(g, sq)
    decreases |ids|
  {
    if ids != [] {
      var n := |ids| - 1;
      var init := ids[..n];
      PlacedAt(g, pieces, init);
      var placed := Placed(g, pieces, ids);
      assert placed == SetCell(Placed(g, pieces, init), Location(pieces[ids[n]]), Some(ids[n]));
      forall i | 0 <= i < |ids| ensures At(placed, Location(pieces[ids[i]])) == Some(ids[i]) {
        if i < n {
          assert init[i] == ids[i];
        }
      }
      forall sq | (forall i | 0 <= i < |ids| :: Location(pieces[ids[i]]) != sq)
        ensures At(placed, sq) == At(g, sq)
      {
        assert Location(pieces[ids[n]]) != sq;
        assert forall i | 0 <= i < |init| :: Location(pieces[init[i]]) != sq by {
          forall i | 0 <= i < |init| ensures Location(pieces[init[i]]) != sq {
            assert init[i] == ids[i];
          }
        }
      }
    }
  }

  /** A position whose grid is an empty grid with the live pieces written in,
      each on its own square, with the lists well formed, kings at home and
      nothing taken. */
  ghost predicate PlacedPosition(s: Position) {
    var ids := s.whitePieces + s.blackPieces;
    && (forall i | 0 <= i < |ids| :: ids[i] < |s.pieces| && OnBoard(Location(s.pieces[ids[i]])))
    && (forall i, j | 0 <= i < j < |ids| :: Location(s.pieces[ids[i]]) != Location(s.pieces[ids[j]]))
    && s.grid == Placed(EmptyGrid(), s.pieces, ids)
    && NoDuplicates(s.whitePieces) && NoDuplicates(s.blackPieces)
    && (forall id | id in s.whitePieces :: id < |s.pieces| && s.pieces[id].white)
    && (forall id | id in s.blackPieces :: id < |s.pieces| && !s.pieces[id].white)
    && (forall id: PieceId | IsLive(s, id) && id < |s.pieces| && s.pieces[id].kind == King ::
          Location(s.pieces[id]) == KingCache(s, s.pieces[id].white) == HomeKing(s.pieces[id].white))
    && s.whiteTaken == [] && s.blackTaken == []
  }

  lemma PlacedLive(s: Position)
    requires PlacedPosition(s)
    ensures forall id | IsLive(s, id) :: LivePieceOk(s, id)
  {
    var ids := s.whitePieces + s.blackPieces;
    PlacedAt(EmptyGrid(), s.pieces, ids);
    forall id: PieceId | IsLive(s, id) ensures LivePieceOk(s, id) {
      assert id in ids;
      var i :| 0 <= i < |ids| && ids[i] == id;
    }
  }

  lemma PlacedCells(s: Position)
    requires PlacedPosition(s)
    ensures forall sq | OnBoard(sq) :: CellOk(s, sq)
  {
    var ids := s.whitePieces + s.blackPieces;
    PlacedAt(EmptyGrid(), s.pieces, ids);
    forall sq | OnBoard(sq) ensures CellOk(s, sq) {
      if exists i | 0 <= i < |ids| :: Location(s.pieces[ids[i]]) == sq {
        var i :| 0 <= i < |ids| && Location(s.pieces[ids[i]]) == sq;
        assert ids[i] in s.whitePieces || ids[i] in s.blackPieces;
      } else {
        assert At(s.grid, sq) == At(EmptyGrid(), sq);
      }
    }
  }

  /** Such a position satisfies the board invariant. */
  lemma PlacedValid(s: Position)
    requires PlacedPosition(s)
    ensures Valid(s)
  {
    PlacedAt(EmptyGrid(), s.pieces, s.whitePieces + s.blackPieces);
    PlacedLive(s);
    PlacedCells(s);
  }

  /** The starting pieces, as listed, stand on distinct squares of the board. */
  lemma StartingPlacement()
    ensures var s := InitialPosition();
            var ids := s.whitePieces + s.blackPieces;
            && (forall i | 0 <= i < |ids| :: ids[i] < |s.pieces| && OnBoard(Location(s.pieces[ids[i]])))
            && (forall i, j | 0 <= i < j < |ids| :: Location(s.pieces[ids[i]]) != Location(s.pieces[ids[j]]))
  {
    var s := InitialPosition();
    var ids := StartingIds(true) + StartingIds(false);
    assert forall i | 0 <= i < 32 :: ids[i] == i;
    forall i | 0 <= i < |ids| ensures ids[i] < |s.pieces| && OnBoard(Location(s.pieces[ids[i]])) {
      StartingPieceFacts(i);
    }
    forall i, j | 0 <= i < j < |ids| ensures Location(s.pieces[ids[i]]) != Location(s.pieces[ids[j]]) {
      StartingSquaresDistinct(i, j);
    }
  }

  /** The position the program starts from satisfies the board invariant. */
  lemma StartingPositionValid()
    ensures Valid(InitialPosition())
  {
    var s := InitialPosition();
    var ids := StartingIds(true) + StartingIds(false);
    assert forall i | 0 <= i < 32 :: ids[i] == i;
    forall id: PieceId ensures IsLive(s, id) <==> id < 32 {
      if id < 16 {
        assert StartingIds(true)[id] == id;
      } else if id < 32 {
        assert StartingIds(false)[id - 16] == id;
      }
    }
    StartingPlacement();
    forall id | id in s.whitePieces ensures id < |s.pieces| && s.pieces[id].white {
      StartingPieceFacts(id);
    }
    forall id | id in s.blackPieces ensures id < |s.pieces| && !s.pieces[id].white {
      StartingPieceFacts(id);
    }
    forall id: PieceId | IsLive(s, id) && id < |s.pieces| && s.pieces[id].kind == King
      ensures Location(s.pieces[id]) == KingCache(s, s.pieces[id].white) == HomeKing(s.pieces[id].white)
    {
      StartingPieceFacts(id);
    }
    PlacedValid(s);
  }
}
