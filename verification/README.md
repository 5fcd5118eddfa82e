# Knightly chess engine in Dafny

This project models the in-memory chess rules engine of the Knightly web app. The engine is pure and sequential and works on an 8x8 board:

- **Board primitives.** Coordinate validity, square lookup, copy-on-write square update and applying a move.
- **Starting position.** The initial board and the initial game state.
- **Move generators.** One pseudo-legal generator per piece type, plus the dispatcher over them.
- **Check layer.** Locating a king, asking whether a square is attacked, whether a side is in check, and whether a move may be played.
- **Coordinate notation.** Converting a square to a file-letter-and-rank-digit name and back.
- **Turn transition.** The application's `handleMove` step, which rejects a move request or commits it.

Every value is an immutable Dafny datatype:
- A board is an 8x8 `seq<seq<Option<Piece>>>`.
- A position has unbounded integer coordinates, because generators build off-board positions.
- Optional fields of a move are `Option`s.

Each operation is a pure function and keeps the branch structure of the TypeScript. The generators emit their moves in the order `chessLogic.ts` pushes them.

Files:
- `types.dfy` (`ChessTypes`): pieces, positions, moves, board, game state.
- `board.dfy` (`BoardOps`): `isValidPosition`, `getPieceAt`, `setPieceAt`, `makeMove`, `createInitialBoard`, `createInitialGameState`.
- `movegen.dfy` (`MoveGen`): the six piece generators and `getPossibleMoves`.
- `rules.dfy` (`MoveRules`): an independent, geometric statement of where each piece may go, with proofs that the generators list exactly those destinations. It also gives the usual chess notion of attack.
- `legality.dfy` (`Legality`): `getKingPosition`, `isSquareAttacked`, `isInCheck`, `isValidMove`.
- `notation.dfy` (`Notation`): `positionToString`, `stringToPosition`.
- `app.dfy` (`App`): `handleMove` and the bookkeeping it preserves.
- `start.dfy` (`StartingPosition`): where the kings start, and that neither side starts in check.

What the code does, as modelled (not a full chess rule set):
- There is no castling, en passant or promotion. Nothing computes checkmate, stalemate or the half-move clock.
- `makeMove` empties `from` and puts `move.piece` on `to`, nothing more.
- `isValidMove` compares generated moves with the request on the destination only.
- `isSquareAttacked` reuses the move lists, so a pawn "attacks" a diagonal square only when an opposing piece stands there. `Legality.AttackedOccupiedSquare` shows that this is exact on squares held by a piece of the other colour. A side's king stands on its own square and the check test asks about the opponent's attacks, so it agrees with the usual chess notion (`Legality.CheckMeansKingControlled`).
- In the notation, the rank is `8 - row`, while white starts on row 0. Standard algebraic notation names white's home rank 1, but this code names it rank 8, so the white king starts on "e8" (`Notation.WhiteKingHomeIsNamedE8`). The board display draws row 0 at the top.

## Model

| member | source | states |
|---|---|---|
| BoardOps.ValidPositionIndexesBoard | src/utils/chessLogic.ts:37-39 | `IsValidPosition` holds exactly when both coordinates lie in 0..7, that is, exactly when the position indexes one of the 8 rows of a board and one of that row's 8 squares |
| BoardOps.GetPieceAt | src/utils/chessLogic.ts:37-44 | a position outside rows and columns 0..7 reads as empty |
| BoardOps.BoardExtensionality | src/utils/chessLogic.ts:41-44 | two boards that read the same on every on-board square are the same board, so reads determine a board |
| BoardOps.SetPieceAt | src/utils/chessLogic.ts:46-52 | afterwards the target square reads as the given piece and every other square reads as before; an off-board target returns the input board itself |
| BoardOps.SetUnchangedSquare | src/utils/chessLogic.ts:46-52 | writing back the value a square already holds returns the same board |
| BoardOps.SetSetSameSquare | src/utils/chessLogic.ts:46-52 | of two writes to the same square only the second one is visible |
| BoardOps.MakeMove | src/utils/chessLogic.ts:262-266 | an on-board `to` holds `move.piece`, a `from` distinct from `to` is empty, and every other square is unchanged |
| BoardOps.PlacePawns | src/utils/chessLogic.ts:6-10 | after the first pass, rows 1 and 6 hold white and black pawns from the start column on, and all else is as before |
| BoardOps.PlaceBackRanks | src/utils/chessLogic.ts:12-18 | after the second pass, rows 0 and 7 hold the back-rank order in white and black from the start column on, and all else is as before |
| BoardOps.PlacedSquare | src/utils/chessLogic.ts:3-21 | running the pawn pass and then the back-rank pass over an empty board leaves each square with its standard starting piece |
| BoardOps.InitialBoard | src/utils/chessLogic.ts:3-21 | every square of the initial board holds its standard starting piece: back ranks on rows 0 and 7, pawns on rows 1 and 6, the rest empty |
| BoardOps.InitialGameState | src/utils/chessLogic.ts:23-35 | the game starts from the initial board with white to move and an empty history; no check, checkmate or stalemate is flagged; all four castling flags are true; there is no en passant target; the half-move clock is 0 and the move number 1. `App.InitialBookkeeping` and `StartingPosition.InitialPositionNotInCheck` prove further facts about this state |
| MoveGen.PawnCapture | src/utils/chessLogic.ts:133-146 | a diagonal capture is emitted (at most one) exactly when the square is on the board and holds an opposing piece, and it records that piece as captured |
| MoveGen.PawnForward | src/utils/chessLogic.ts:119-131 | every forward pawn move stays on the pawn's column, captures nothing, and has the soundness properties listed for `getPossibleMoves` below |
| MoveGen.PawnMoves | src/utils/chessLogic.ts:114-149 | every pawn move starts at `from`, moves this piece, lands on the board, records the target's occupant as captured, never lands on an own piece and carries no special tags |
| MoveGen.Ray | src/utils/chessLogic.ts:155-169 | every move along one ray has the same soundness properties as the pawn moves |
| MoveGen.RookMoves | src/utils/chessLogic.ts:151-173 | every rook move has the same soundness properties |
| MoveGen.BishopMoves | src/utils/chessLogic.ts:195-217 | every bishop move has the same soundness properties |
| MoveGen.QueenMoves | src/utils/chessLogic.ts:219-221 | every queen move has the same soundness properties |
| MoveGen.KnightMoves | src/utils/chessLogic.ts:175-193 | every knight move has the same soundness properties, and there are at most eight |
| MoveGen.KingMoves | src/utils/chessLogic.ts:223-242 | every king move has the same soundness properties, and there are at most eight |
| MoveGen.PossibleMoves | src/utils/chessLogic.ts:87-112 | every generated move has a valid `to`, `from` equal to the argument, the same piece, and its target's occupant as the captured piece; it never captures an own piece |
| MoveRules.PawnForwardDestinations | src/utils/chessLogic.ts:119-131 | the forward moves reach exactly the empty square ahead, and from the start row the square two ahead when both squares are empty |
| MoveRules.PawnCaptureDestination | src/utils/chessLogic.ts:139-146 | a diagonal capture reaches a square if and only if it is the capture square, on the board, and holds an opposing piece |
| MoveRules.PawnDestinations | src/utils/chessLogic.ts:114-149 | a pawn's moves reach exactly these squares: one empty square ahead; from the start row, two squares ahead over two empty squares; a diagonal-forward square with an opposing piece |
| MoveRules.PawnTwoStepFromStartRow | src/utils/chessLogic.ts:116-131 | a two-row pawn advance is emitted only from row 1 (white) or 6 (black), straight ahead, with both the one-step and two-step squares empty |
| MoveRules.RayDestinations | src/utils/chessLogic.ts:155-169 | a ray from step i reaches exactly the squares k steps out (i <= k < 8) whose earlier steps are on the board and empty and which are not held by an own piece |
| MoveRules.RayReaches | src/utils/chessLogic.ts:155-169 | a whole ray in a unit direction reaches exactly the squares on that ray, fewer than 8 steps away, with every square strictly between empty, not held by an own piece |
| MoveRules.RookDestinations | src/utils/chessLogic.ts:151-173 | a rook reaches exactly the same-row or same-column squares with a clear path that are not held by an own piece |
| MoveRules.BishopDestinations | src/utils/chessLogic.ts:195-217 | a bishop reaches exactly the diagonal squares with a clear path that are not held by an own piece |
| MoveRules.LeapsDestinations | src/utils/chessLogic.ts:182-190 | an offset table yields exactly the on-board offset squares not held by an own piece |
| MoveRules.KnightTable | src/utils/chessLogic.ts:177-180 | the knight table lists exactly the (1,2) and (2,1) jumps in every sign combination |
| MoveRules.KingTable | src/utils/chessLogic.ts:225-229 | the king table lists exactly the squares one king step away |
| MoveRules.PossibleMovesReach | src/utils/chessLogic.ts:87-242 | a square is a destination of `getPossibleMoves` if and only if the piece's geometric movement rule allows it |
| MoveRules.SlidingMovesPassOverEmptySquares | src/utils/chessLogic.ts:151-221 | rook, bishop and queen moves go along a line of their kind, and every square strictly between `from` and `to` is empty |
| MoveRules.ReachedSquareIsEnterable | src/utils/chessLogic.ts:87-242 | a reachable square differs from the start square and is not held by an own piece |
| MoveRules.ReachOccupiedIsAttack | src/utils/chessLogic.ts:139-146 | on a square held by an opposing piece, "can move there" and "attacks it" (pawns: diagonally forward) coincide |
| MoveRules.PawnDiagonalOnEmptySquare | src/utils/chessLogic.ts:71-72 | an empty square diagonally ahead of a pawn is attacked in the chess sense but is not among the pawn's moves |
| Legality.FindKing | src/utils/chessLogic.ts:55-63 | the scan from a square returns the first square in row-major order from there on that holds this side's king, or none if no such square remains |
| Legality.GetKingPosition | src/utils/chessLogic.ts:54-64 | the result is the first king of the colour in row-major order; `None` means the colour has no king on the board |
| Legality.AttackScan | src/utils/chessLogic.ts:67-77 | the scan from a square is true if and only if some later square holds a piece of the colour whose move list reaches the target |
| Legality.IsSquareAttacked | src/utils/chessLogic.ts:66-79 | true if and only if some on-board piece of the colour has the square among its generated destinations |
| Legality.AttackedOccupiedSquare | src/utils/chessLogic.ts:66-79 | on a square held by the other colour, the attack test agrees with control in the usual chess sense |
| Legality.IsInCheck | src/utils/chessLogic.ts:81-85 | false when the colour has no king; otherwise true if and only if the first king of the colour is attacked by the other colour |
| Legality.CheckMeansKingControlled | src/utils/chessLogic.ts:81-85 | with exactly one king, the side is in check if and only if an opposing piece controls the king's square in the chess sense |
| Legality.IsValidMove | src/utils/chessLogic.ts:244-260 | false when `from` is empty or holds an opponent piece; when true, both squares are on the board and distinct, the target is not an own piece, the movement rule allows it, and the mover is not in check after `makeMove` |
| Legality.ValidMoveByRules | src/utils/chessLogic.ts:244-260 | a move is valid if and only if the side to move has a piece on `from`, its movement rule reaches `to`, and the resulting board does not leave that side in check |
| Notation.PositionToString | src/utils/chessLogic.ts:268-270 | an on-board square gets a two-character name: a letter a-h and a digit 1-8 |
| Notation.StringToPosition | src/utils/chessLogic.ts:272-277 | a numeric position comes back exactly when the string has at least two characters (the rest is ignored), a 16-bit first character and a digit second; the column is the first character's code minus 97 and the row is 8 minus the digit |
| Notation.NameRoundTrip | src/utils/chessLogic.ts:268-277 | reading back the name of an on-board square gives that square |
| Notation.ParseRoundTrip | src/utils/chessLogic.ts:268-277 | a string reads as an on-board square if and only if it starts with a-h and 1-8, and then that square's name is the string's first two characters |
| Notation.NamesAreDistinct | src/utils/chessLogic.ts:268-270 | distinct on-board squares have distinct names |
| Notation.WhiteKingHomeIsNamedE8 | src/utils/chessLogic.ts:268-270 | the white king's starting square (row 0, column 4) is named "e8" |
| App.HandleMove | src/App.tsx:10-28 | with no piece on `from`, or when the move is invalid, the state is unchanged; otherwise the board becomes `makeMove(old board, move)` and the player flips. The history gains exactly this move, `fullMoveNumber` grows by 1 only when white is next, and every other field is unchanged |
| App.HandleMoveOutcome | src/App.tsx:10-28 | a request either changes nothing or moves a piece of the side to move along its movement rule. The piece then stands on `to`, `from` is empty, the mover is not in check, the turn passes and the history grows by one |
| App.InitialBookkeeping | src/utils/chessLogic.ts:23-35 | the initial state has move number 1, white to move and an empty history |
| App.CommitKeepsBookkeeping | src/App.tsx:20-26 | committing a move of the side to move keeps the move-number, parity and alternating-colour invariants |
| App.HandleMoveKeepsBookkeeping | src/App.tsx:18-25 | every request keeps these invariants: move number equals 1 + half the history length, white is to move exactly after an even number of moves, and recorded moves alternate colours starting with white |
| App.ReplayKeepsBookkeeping | src/App.tsx:10-28 | any sequence of requests from a state with that bookkeeping ends in a state with that bookkeeping |
| StartingPosition.InitialKing | src/utils/chessLogic.ts:13-18 | on a board with the starting layout each side has exactly one king, on column 4 of its back rank |
| StartingPosition.KingSquareUncontrolled | src/utils/chessLogic.ts:3-21 | on a board with the starting layout no piece of the opponent controls the home square of a side's king (column 4 of its back rank) |
| StartingPosition.StartingLayoutNotInCheck | src/utils/chessLogic.ts:3-21 | no side is in check on a board with the starting layout |
| StartingPosition.InitialPositionNotInCheck | src/utils/chessLogic.ts:23-35 | neither side is in check in the starting position, so the initial `isCheck: false` agrees with `isInCheck` |

## Left out

- Rendering, square selection and the piece-symbol table (`src/components/ChessBoard.tsx`). The board's only logic is a filter over `getPossibleMoves` and `isValidMove`, which are modelled.
- Status-text formatting (`src/components/GameStatus.tsx`): display only.
- `resetGame` and the React state hooks. `handleMove` is modelled as a function from the current state to the next one. The `setGameState(prevState => …)` updater in `App.tsx` is assumed to see the same state that `handleMove` validated against.
- Castling, en passant, promotion, half-move clock updates, and checkmate and stalemate detection. The types declare fields for them, but no code computes them. The model carries the fields unchanged, as the code does.
- App.HandleMove: requires `from.row` to be on the board. `App.tsx` indexes `board[from.row]` directly, so an off-board row would raise a TypeError. An off-board column reads as `undefined` and is modelled as an empty square.
- Notation.PositionToString: only modelled for on-board squares. For other squares `chessLogic.ts` calls `String.fromCharCode` with 16-bit wrap-around, which can produce lone UTF-16 surrogates, and writes a multi-digit or negative rank. Dafny characters cannot represent surrogates.
- Notation.StringToPosition: a coordinate that would be `NaN` in `chessLogic.ts` is modelled as `None`. Fractional coordinates do not arise, because `parseInt` reads a single character.
- Positions are unbounded integers rather than IEEE doubles. No arithmetic here comes near the range where the two differ.
