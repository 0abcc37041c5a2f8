# A verified model of a Python chess engine's rules

This project models the rules core of a small Python chess program:
- `Board` (the 8x8 grid, the live and taken piece lists of each colour);
- the piece classes (`Pawn`, `Knight`, `Bishop`, `Rook`, `Queen`, `King`) with their values and move generators;
- `Game`: move validation, execution, check detection, castling, en passant, promotion, checkmate/stalemate detection, the insufficient-material draw and the move lists;
- `AI.evaluate_board`.

## How the model is organised

Piece objects are identified by their index in an arena, `pieces: seq<Piece>`. The grid cells and the four lists hold these indices, so a piece object shared by the grid and a list is one index in both. Promotion appends a new object to the arena.

- **`Geometry`** (geometry.dfy): squares, Python's `range`, `zip` and `list.remove(x)` on a range.
- **`Pieces`** (pieces.dfy):
  - the piece record and the values 1/3/3/5/9/0;
  - `get_value`;
  - every `generate_moves` and `Pawn.get_attacked_squares`, each with a lemma that characterises its targets geometrically.
- **`Paths`** (paths.dfy): `__get_passed_squares`, proved equal to the squares strictly between the two ends of any rank, file or diagonal move.
- **`BoardState`** (board_state.dfy):
  - the state as a value (`Position`) and the board invariant `Valid`, meaning the grid and the lists describe the same pieces and each king cache is on its king;
  - `execute_move` (`Executed`), `__update_en_passant`, the grid part of `__promote_pawn`, and the starting position;
  - proofs that each operation keeps `Valid`.
- **`Check`** (check.dfy): `__is_king_in_check` as a function of the position. It uses the first piece met along each of eight rays, and the eight knight squares.
- **`Rules`** (rules.dfy):
  - what `validate_move` answers (`Verdict`), and the whole of `__validate_castling_move`, including the castle it performs;
  - en passant eligibility and capture;
  - the draw test;
  - the move lists and the "has a legal move" scan of `is_checkmate_or_stalemate`.
- **`Engine`** (engine.dfy): the classes `Board` and `Game` with the source's fields. Each method is the source's loop or update, proved to leave the state given by the corresponding function, stated as `State() == F(old(State()))`.
- **`Evaluation`** (evaluation.dfy): `evaluate_board` and the material arithmetic behind it.

### Behaviours of the source the model keeps

- **The castle test matches any row.** In `(row == r and col == c + 2) or col == c - 2`, `and` binds tighter than `or`. So a king move two columns to the left is treated as a castle attempt whatever its row (`Rules.CastleShape`).
- **An accepted castle is executed inside `__validate_castling_move`.** The following `execute_move` only clears the "just castled" flag.
- **`validate_move` leaves the check flags of its last test behind.**
- **A pawn's forward targets have no bounds check.**
- **The corner piece of a castle is not type-checked.** A knight, bishop or queen there has no `has_moved` attribute, which raises `AttributeError` in Python. This is modelled as the error result `Err(NoHasMovedAttribute)`.
- **The en passant test does not check the flagged pawn's colour.**
- **`check_draw` tests only the opponent's kinds.** The test is made when a side has exactly one piece; the second `if` wins when both sides have one.

## Model

| member | source | states |
|---|---|---|
| Pieces.PawnTargets | chess_engine.py:738-749 | A pawn may move one row forward in its own column, and two rows when it has not moved; there are one or two targets, with no bounds check |
| Pieces.PawnAttacksExactly | chess_engine.py:751-764 | A pawn attacks exactly the on-board squares one row forward and one column aside |
| Pieces.KnightTargets | chess_engine.py:810-830 | A knight's targets are exactly the on-board squares a knight's jump away |
| Pieces.DiagonalTargets | chess_engine.py:778-796 | A bishop's targets are exactly the other on-board squares on its two diagonals |
| Pieces.StraightTargets | chess_engine.py:845-859 | A rook has exactly 14 targets: the other squares of its rank and file |
| Pieces.QueenTargets | chess_engine.py:873-899 | A queen's targets are exactly the other on-board squares on its diagonals, rank or file |
| Pieces.KingTargets | chess_engine.py:917-937 | A king's targets are exactly the on-board squares next to it |
| Pieces.TargetsOnBoardElsewhere | chess_engine.py:778-937 | Every target of a piece other than a pawn is on the board and is not the piece's own square |
| Paths.PassedSquares | chess_engine.py:263-329 | Definition of `__get_passed_squares`, case by case on the direction of the move (its meaning is `Paths.PassedSquaresBetween`) |
| Paths.PassedSquaresBetween | chess_engine.py:263-329 | For a rank, file or diagonal move, the passed squares are exactly the squares strictly between the two ends, nearest first; there are distance − 1 of them |
| Paths.CastlePath | chess_engine.py:263-329 | From the king's column to a corner, the passed squares are columns 5, 6 (king side) or columns 3, 2, 1 (queen side) |
| Paths.PassedSquaresOnBoard | chess_engine.py:263-329 | Every passed square of a move between on-board squares is on the board |
| BoardState.RemoveFirstMultiset | chess_engine.py:353-359 | `list.remove` takes away exactly one occurrence of the piece |
| BoardState.ClearEnPassant | chess_engine.py:616-628 | Every pawn among the listed pieces loses its en passant flag; every other piece object is unchanged |
| BoardState.Executed | chess_engine.py:331-389 | Definition of `execute_move`. Right after a castle it only clears the flag. Otherwise it moves the piece and takes any captured piece off its list. It clears the side's pawn flags, records the mover's flags and king cache, and passes the turn (proved properties in the rows below) |
| BoardState.ExecutedPieces | chess_engine.py:343-380 | A move changes no piece's kind or colour. Only the mover changes square, and it ends on the target. A moving pawn, rook or king records that it moved. The grid has the origin emptied and the mover on the target |
| BoardState.ExecutedLists | chess_engine.py:352-359 | A piece on the target leaves its colour's live list for its colour's taken list; otherwise the lists are unchanged |
| BoardState.CaptureCounts | chess_engine.py:352-359 | A capture removes one live piece from the taken piece's colour and adds one to that colour's taken list; the other colour's lists are untouched |
| BoardState.ExecutedFlags | chess_engine.py:361-377 | After a move, the other pawns of the side that moved lose their en passant flag; every other piece keeps its flag; a pawn mover is flagged after a two-row advance |
| BoardState.ExecutedValid | chess_engine.py:331-389 | `execute_move` keeps the board invariant for every move to another on-board square, including right after a castle |
| BoardState.PromotedValid | chess_engine.py:607-614 | Promotion keeps the board invariant. The new piece (never a king) stands live on the pawn's square, and the pawn is no longer live. No other piece changes status, and each side keeps its number of live pieces |
| BoardState.StartingPositionValid | chess_engine.py:7-44 | The position after `Board()` and `initialise_board` satisfies the board invariant |
| Check.CheckFlags | chess_engine.py:391-472 | The flags `__is_king_in_check` leaves: never both set, and only the side to move's flag can be set. Whether it is set is `InCheck`, the ray and knight scan that `Engine.Game.IsKingInCheck` is proved against |
| Check.FirstHitAt | chess_engine.py:418-429 | The ray scan stops at the nearest occupied square: an occupied square with only empty on-board squares before it is the one the scan finds |
| Check.FirstHitFound | chess_engine.py:418-429 | Whatever the ray scan finds is an occupied square with only empty squares before it on the ray |
| Rules.IsMoveLegal | chess_engine.py:211-244 | Definition of `__is_move_legal`: the mover is a piece of the side to move. A king's castle-shaped move is let through. A pawn moving onto an enemy or an en passant square must hit one of its attacked squares. Any other move must be one of the piece's generated moves (properties in `Rules.AcceptedMove` and `Rules.EnPassantRule`) |
| Rules.IsMoveBlocked | chess_engine.py:246-261 | Definition of `__is_move_blocked`: a non-knight is blocked when some passed square is occupied (see `Paths.PassedSquaresBetween`) |
| Rules.EnPassantEligible | chess_engine.py:630-646 | Definition of the test in `__validate_en_passant`: the target is on row 2 (white to move) or row 5 (black), one column aside, and the square beside the mover holds a pawn flagged as capturable, of either colour |
| Rules.EnPassantRule | chess_engine.py:630-646 | Under the board invariant, a pawn's sideways move onto an empty square is accepted exactly when the pawn belongs to the side to move, the move is eligible for en passant, the target is one of its attacked squares, and the move does not leave the mover in check |
| Rules.AcceptedMove | chess_engine.py:138-209 | An accepted move starts from a piece of the side to move and does not land on a piece of its own colour. A piece other than a knight passes only empty squares. Any accepted move other than a castle leaves the mover's king out of check |
| Rules.ClearedCastle | chess_engine.py:512-546 | A castle that passes the first test starts from the king's home square and goes to column 6 (same row) or to column 2. The king is probed on columns 4, 5, 6 or 4, 3, 2. The squares the king passes are empty, and the corner holds a piece (column 1 is stated by `Rules.ClearedQueenSide`) |
| Rules.ClearedQueenSide | chess_engine.py:536-546 | On the queen side, a castle that passes the first test has columns 1, 2 and 3 of the king's row empty |
| Rules.CastleAcceptedBefore | chess_engine.py:536-575 | An accepted castle had an unmoved king, out of check, on its home square, and an unmoved pawn or rook in the corner. No probed square was attacked |
| Rules.ProbesRestoreGrid | chess_engine.py:548-574 | The probe loop leaves the grid as it found it |
| Rules.CastleRookLeg | chess_engine.py:576-581 | After the king's leg of a castle, the board invariant holds, the corner piece is still in its corner, and the rook's destination is empty |
| Rules.CastleStateLegs | chess_engine.py:576-583 | An accepted castle is the king's move, the turn handed back, the corner piece's move to column `RookColumn` (5 or 3) of the king's home row, and the "just castled" flag set. On a queen-side castle to another row, the king ends on column 2 of that row, so the corner piece is not next to it |
| Rules.CastleAccepted | chess_engine.py:576-583 | After an accepted castle: the king is on the target, and the corner piece is on column `RookColumn` (5 or 3) of the king's home row, which is beside the king only when the target is on that row; both have moved; the origin and corner are empty; the king cache follows the king; the turn has passed once; the next `execute_move` only clears the flag |
| Rules.CastleStateValid | chess_engine.py:512-584 | `__validate_castling_move` keeps the board invariant, whatever its answer |
| Rules.LegalMoveFlags | chess_engine.py:361-377 | After an accepted move, a pawn mover is capturable en passant exactly when it advanced two rows. The mover's other pawns are not capturable, and the opponent's flags are as they were |
| Rules.TakenEnPassantValid | chess_engine.py:660-671 | Removing an enemy pawn keeps the board invariant. The pawn is no longer live and is on its colour's taken list, its square is empty, and no other piece changes status |
| Rules.EnPassantCapture | chess_engine.py:660-673 | An en passant capture keeps the board invariant. The taken pawn is off the board and on its colour's taken list, the mover is on the target with its origin empty, and the turn passes |
| Rules.InsufficientMaterial | chess_engine.py:675-699 | A draw is only declared when some side has exactly one piece and neither side has more than two |
| Rules.HeavyMaterialNotDrawn | chess_engine.py:687-696 | No draw is declared when the tested side (white's pieces when black has one piece, otherwise black's when white has one) holds a pawn, rook or queen, as in king and rook against king |
| Rules.DrawnEndings | chess_engine.py:675-699 | King against king, and king against king plus one knight or bishop, either way round, are declared drawn |
| Rules.CandidateFacts | chess_engine.py:486-492 | Every square tried for a live piece is on the board, and none is a castle attempt |
| Rules.AllMovesSound | chess_engine.py:701-718 | Every listed move goes from a live piece's square to one of its generated or attacked squares |
| Rules.AllMovesComplete | chess_engine.py:701-718 | Every such move is listed |
| Rules.LegalOnlyMembers | chess_engine.py:720-726 | The filtered list holds exactly the listed moves that `validate_move` accepts |
| Rules.ScanSound | chess_engine.py:486-494 | The early-exit scan succeeds only when some element passes |
| Rules.ScanComplete | chess_engine.py:486-494 | The early-exit scan succeeds whenever some element passes |
| Engine.Board.constructor | chess_engine.py:7-33 | An empty grid, white's sixteen pieces then black's in the source's order, and no taken pieces |
| Engine.Board.InitialiseBoard | chess_engine.py:41-44 | Each live piece is written onto its own square, white's first |
| Engine.Game.constructor | chess_engine.py:81-98 | White to move, no flag set, kings cached on their home squares |
| Engine.NewGame | chess_engine.py:81-98 | The new game's position is the starting position, and it satisfies the board invariant |
| Engine.Game.IsKingInCheck | chess_engine.py:391-472 | Both flags are cleared. The mover's flag is set exactly when the first piece on some ray is a threatening enemy, or an enemy knight is a knight's jump away |
| Engine.Game.UpdateEnPassant | chess_engine.py:616-628 | The pawns of the side to move lose their en passant flags; nothing else changes |
| Engine.Game.MoveOnBoard | chess_engine.py:343-359 | The grid entries, the mover's square, and the lists of a captured piece are updated |
| Engine.Game.RecordMover | chess_engine.py:363-389 | The mover's flags are set, its king cache moves with a king, and the turn passes |
| Engine.Game.ExecuteMove | chess_engine.py:331-389 | The new state is `Executed` of the old one (see `BoardState.ExecutedValid` and `BoardState.ExecutedPieces`) |
| Engine.Game.ValidateMove | chess_engine.py:138-209 | The answer is `Verdict` and the board invariant is kept. A castle attempt leaves the castle's state and flags. Any other move leaves the position unchanged, with the check flags of the trial position when the early tests pass |
| Engine.Game.TryMove | chess_engine.py:173-209 | The trial move is undone. The answer is "the mover's king is not in check after it", and the flags are those of the trial position |
| Engine.Game.ValidateCastlingMove | chess_engine.py:512-584 | The answer is `CastleVerdict`. The new state is `CastleState` (performed at once when accepted), and the flags are `CastleFlags` |
| Engine.Game.CastleCleared | chess_engine.py:548-584 | The same, once the first test has passed |
| Engine.Game.CastleIfSafe | chess_engine.py:548-584 | The answer is whether every probe was safe. An accepted castle leaves both legs done; a refused one leaves the position unchanged |
| Engine.Game.ProbeCastlingPath | chess_engine.py:548-574 | The probe loop's flag is "no probed square is attacked"; the grid is left as the probes leave it |
| Engine.Game.PerformCastle | chess_engine.py:576-583 | The king's leg, the turn handed back, the corner piece's leg, and the flag |
| Engine.Game.ExecuteEnPassantMove | chess_engine.py:660-673 | The new state is `ExecutedEnPassant` of the old one (see `Rules.EnPassantCapture`) |
| Engine.Game.PromotePawn | chess_engine.py:586-614 | The new state is `Promoted` of the old one, and the board invariant is kept |
| Engine.Game.IsCheckmateOrStalemate | chess_engine.py:474-510 | The position is unchanged, and no outcome flag changes if the mover has a legal move. Otherwise the flags are set as `__is_king_in_check` leaves them. The winner's checkmate flag (`black_checkmate` when white is to move) is set when the mover is in check, and `stalemate` is set when it is not |
| Engine.Game.FindLegalMove | chess_engine.py:481-494 | The outer loop finds a move exactly when some piece of the mover has a candidate that `validate_move` accepts |
| Engine.Game.ScanCandidates | chess_engine.py:487-494 | The inner loop finds a move exactly when some candidate of the piece is accepted |
| Engine.Game.CheckDraw | chess_engine.py:675-699 | The draw flag becomes `InsufficientMaterial`, or stays set if it already was. When black has one piece, white's pieces are tested; otherwise, when white has one piece, black's are. A draw is declared when the tested side has one or two pieces, none a pawn, rook or queen. A lone queen against a lone king is therefore not a draw |
| Engine.Game.GetAllMoves | chess_engine.py:701-718 | The moves of every live piece, white's first, each piece's generated moves followed by a pawn's attacked squares |
| Engine.Game.PieceMoves | chess_engine.py:706-716 | One piece's share of the move list |
| Engine.Game.GetValidMoves | chess_engine.py:720-726 | The listed moves that `validate_move` accepts, in order (see `Rules.LegalOnlyMembers`); the position is unchanged |
| Pieces.SignedValue | chess_engine.py:60-65 | `get_value`: positive only for white and negative only for black, zero exactly for a king, and of magnitude 1, 3, 3, 5, 9 or 0 by kind |
| Evaluation.EvaluateBoard | ai.py:9-26 | The loop's score is `Score`: the fixed value of a decided game, or else the net material |
| Evaluation.DecidedScores | ai.py:5-22 | White's checkmate scores 10000 (tested first), black's scores −10000, and a draw scores 0, whatever the material. An undecided game scores its material |
| Evaluation.MaterialAppend | ai.py:23-24 | Material adds up over `white_pieces + black_pieces` |
| Evaluation.ColourSwapNegates | chess_engine.py:60-65 | Changing every piece's colour, and exchanging the checkmate flags, negates the score |
| Evaluation.InitialScoreZero | ai.py:23-26 | The starting position scores 0 |
| Evaluation.CaptureMaterial | ai.py:23-26 | A move changes the material by exactly the signed value of the piece it takes, if any |
| Evaluation.PromotionMaterial | chess_engine.py:607-614 | Promoting a white pawn raises the material by the new piece's value less 1, and promoting a black pawn lowers it by the same amount |

## Left out

- Console and GUI input/output: `play`, `input_move`, `print_board`, the `__str__` methods, and the interactive choice of piece in `__promote_pawn`. `PromotePawn` takes the chosen kind as a parameter.
- `app.py`, `main.py` and the search part of the AI. They drive the rules but are not part of them.
- Engine.Game.ValidateMove, Engine.Game.IsCheckmateOrStalemate, Engine.Game.GetValidMoves: the en passant path of a colour the AI does not play is not modelled. In a two-player game, where `ai_colour` is `None`, that is both colours.
  - On that path, `__validate_en_passant` performs the capture through `__execute_en_passant_move`, which calls `execute_move`: the pawn stands on the target and the turn has passed.
  - The outer `__is_move_legal` then tests the target against the attacked squares of the pawn that has already moved. So `validate_move` answers False, with the capture done.
  - The model answers `Verdict`, which is `Ok(true)` for such a move (`Rules.EnPassantRule`), and leaves the position unchanged.
  - The same happens inside the scans of `is_checkmate_or_stalemate` and `get_valid_moves`.
  - These contracts (the answer `Verdict`, the position unchanged) therefore hold for the AI's colour only. The capture itself is modelled as `Engine.Game.ExecuteEnPassantMove`.
- Engine.Game.ValidateMove: for the AI's colour, the answer is the eligibility test (`Rules.EnPassantEligible`) followed by the outer `__is_move_legal` tests and `Rules.LegalMove`. This agrees with the source, because the recursive call makes the same blocked, same-colour and check tests on the same position. The check flags left by the recursive call's trial move are not modelled. They remain when the outer call then refuses the move, for instance when the target is not an attacked square.
- Python's negative list indices: a square with row or column -1 would wrap around. The methods that index the grid require on-board squares.
- Engine.Game.ExecuteMove: requires both squares on the board, for the reason above.
- Engine.Game.IsCheckmateOrStalemate: when a legal move is found, the check flags are those of the last `validate_move` call. The contract does not state them.
- Engine.Game.IsCheckmateOrStalemate, Engine.Game.GetValidMoves: require that no pawn is left on its last rank. A pawn left there would make the source index row -1 or 8 (the program promotes at once).
- Rules.EnPassantCapture: assumes the flagged pawn beside the mover is an enemy. The source does not test its colour, and in reachable play only enemy pawns are flagged there; the model does not prove that reachability fact.
- Evaluation.EvaluateBoard: requires every listed id to name a piece object. This is an artefact of the arena model, and the board invariant guarantees it.
- `list.remove` raising `ValueError` on an absent piece: `RemoveFirst` is total. Under the board invariant every removed piece is present.
- `Check.RaySquare` computes `direction * step` exactly only for the unit directions the source uses.
- Reachability facts such as "each side always has its king" or "the king is never captured" are not proved. The properties are stated for every position that satisfies the board invariant.
