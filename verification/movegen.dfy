/** Pseudo-legal move generation: one generator per piece type and the
    dispatcher over them. A generated move obeys the piece's movement
    pattern and the occupancy of the board, but may leave the mover's king
    in check. Each generator lists its moves in the order `chessLogic.ts`
    pushes them. */
module MoveGen {
  import opened ChessTypes
  import opened BoardOps

  /** A generated move: only `from`, `to`, `piece` and `capturedPiece` are
      filled in. */
  function Candidate(from: Position, to: Position, piece: Piece, captured: Square): Move {
    Move(from, to, piece, captured, None, None, None)
  }

  /** The square `k` steps from `from` in direction `(dr, dc)`. */
  function Offset(from: Position, dr: int, dc: int, k: int): Position {
    Position(from.row + k * dr, from.col + k * dc)
  }

  /** What every generated move satisfies: it starts at `from`, moves
      `piece`, lands on the board, records the occupant of its target as the
      captured piece, never captures a piece of its own colour, and carries
      none of the special-move tags. */
  predicate IsCandidateOf(board: Board, from: Position, piece: Piece, m: Move) {
    && m.from == from
    && m.piece == piece
    && IsValidPosition(m.to)
    && m.capturedPiece == GetPieceAt(board, m.to)
    && (m.capturedPiece.Some? ==> m.capturedPiece.value.color != piece.color)
    && m.isEnPassant == None && m.isCastling == None && m.promoteTo == None
  }

  /** Some move of `moves` ends on `pos`. */
  predicate HasDestination(moves: seq<Move>, pos: Position) {
    exists i :: 0 <= i < |moves| && moves[i].to == pos
  }

  lemma HasDestinationAppend(a: seq<Move>, b: seq<Move>, pos: Position)
    ensures HasDestination(a + b, pos) <==> HasDestination(a, pos) || HasDestination(b, pos)
  {
    if HasDestination(a + b, pos) {
      var i :| 0 <= i < |a + b| && (a + b)[i].to == pos;
      if i >= |a| {
        assert b[i - |a|].to == pos;
      }
    }
    if HasDestination(a, pos) {
      var i :| 0 <= i < |a| && a[i].to == pos;
      assert (a + b)[i].to == pos;
    }
    if HasDestination(b, pos) {
      var i :| 0 <= i < |b| && b[i].to == pos;
      assert (a + b)[|a| + i].to == pos;
    }
  }

  // ----- Pawns ---------------------------------------------------------

  /** The row direction a pawn of colour `c` advances in. */
  function PawnDirection(c: PieceColor): int {
    if c == White then 1 else -1
  }

  /** The row a pawn of colour `c` starts on. */
  function PawnStartRow(c: PieceColor): int {
    if c == White then 1 else 6
  }

  /** A diagonal pawn capture onto `pos`, if `pos` is on the board and
      holds an opposing piece. */
  function PawnCapture(board: Board, from: Position, piece: Piece, pos: Position): (r: seq<Move>)
    ensures |r| <= 1
    ensures forall m :: m in r ==> m.to == pos && IsCandidateOf(board, from, piece, m)
    ensures |r| == 1 <==> IsValidPosition(pos) && GetPieceAt(board, pos).Some?
                          && GetPieceAt(board, pos).value.color != piece.color
  {
    if IsValidPosition(pos) then
      var target := GetPieceAt(board, pos);
      if target.Some? && target.value.color != piece.color then [Candidate(from, pos, piece, target)] else []
    else []
  }

  /** The forward moves of a pawn: one step onto an empty square, and from
      the start row a second step when both squares are empty. */
  function PawnForward(board: Board, from: Position, piece: Piece): (r: seq<Move>)
    ensures forall m :: m in r ==> IsCandidateOf(board, from, piece, m) && m.to.col == from.col
                                   && m.capturedPiece.None?
  {
    var direction := PawnDirection(piece.color);
    var oneStep := Position(from.row + direction, from.col);
    var twoStep := Position(from.row + 2 * direction, from.col);
    if IsValidPosition(oneStep) && GetPieceAt(board, oneStep).None? then
      [Candidate(from, oneStep, piece, None)]
      + (if from.row == PawnStartRow(piece.color) && IsValidPosition(twoStep) && GetPieceAt(board, twoStep).None?
         then [Candidate(from, twoStep, piece, None)] else [])
    else []
  }

  /** The forward moves, then the two diagonal captures (left, then right). */
  function PawnMoves(board: Board, from: Position, piece: Piece): (r: seq<Move>)
    ensures forall m :: m in r ==> IsCandidateOf(board, from, piece, m)
  {
    var direction := PawnDirection(piece.color);
    PawnForward(board, from, piece)
    + PawnCapture(board, from, piece, Position(from.row + direction, from.col - 1))
    + PawnCapture(board, from, piece, Position(from.row + direction, from.col + 1))
  }

  // ----- Sliding pieces -------------------------------------------------

  /** The rook's four ray directions, in the order `chessLogic.ts` lists them. */
  const RookDirections: seq<(int, int)> := [(0, 1), (0, -1), (1, 0), (-1, 0)]

  /** The bishop's four ray directions, in the order `chessLogic.ts` lists them. */
  const BishopDirections: seq<(int, int)> := [(1, 1), (1, -1), (-1, 1), (-1, -1)]

  /** The moves along one ray, starting at step `i` (the loop in
      `chessLogic.ts` runs `i` from 1 while `i < 8`): empty squares are passed over and listed,
      the first occupied square ends the ray and is listed only when it holds
      an opposing piece, and the first off-board square ends the ray. */
  function Ray(board: Board, from: Position, piece: Piece, dr: int, dc: int, i: int): (r: seq<Move>)
    ensures forall m :: m in r ==> IsCandidateOf(board, from, piece, m)
    decreases 8 - i
  {
    if i >= 8 then []
    else
      var to := Offset(from, dr, dc, i);
      if !IsValidPosition(to) then []
      else
        var target := GetPieceAt(board, to);
        if target.None? then [Candidate(from, to, piece, None)] + Ray(board, from, piece, dr, dc, i + 1)
        else if target.value.color != piece.color then [Candidate(from, to, piece, target)]
        else []
  }

  /** The rays in `directions`, one after another. */
  function Rays(board: Board, from: Position, piece: Piece, directions: seq<(int, int)>): (r: seq<Move>)
    ensures forall m :: m in r ==> IsCandidateOf(board, from, piece, m)
  {
    if directions == [] then []
    else Ray(board, from, piece, directions[0].0, directions[0].1, 1) + Rays(board, from, piece, directions[1..])
  }

  function RookMoves(board: Board, from: Position, piece: Piece): (r: seq<Move>)
    ensures forall m :: m in r ==> IsCandidateOf(board, from, piece, m)
  {
    Rays(board, from, piece, RookDirections)
  }

  function BishopMoves(board: Board, from: Position, piece: Piece): (r: seq<Move>)
    ensures forall m :: m in r ==> IsCandidateOf(board, from, piece, m)
  {
    Rays(board, from, piece, BishopDirections)
  }

  /** The rook's moves followed by the bishop's. */
  function QueenMoves(board: Board, from: Position, piece: Piece): (r: seq<Move>)
    ensures forall m :: m in r ==> IsCandidateOf(board, from, piece, m)
  {
    RookMoves(board, from, piece) + BishopMoves(board, from, piece)
  }

  // ----- Leaping pieces -------------------------------------------------

  /** The knight's eight jumps, in the order `chessLogic.ts` lists them. */
  const KnightOffsets: seq<(int, int)> :=
    [(-2, -1), (-2, 1), (-1, -2), (-1, 2), (1, -2), (1, 2), (2, -1), (2, 1)]

  /** The king's eight neighbouring steps, in the order `chessLogic.ts` lists them. */
  const KingOffsets: seq<(int, int)> :=
    [(-1, -1), (-1, 0), (-1, 1), (0, -1), (0, 1), (1, -1), (1, 0), (1, 1)]

  /** One move per offset whose target is on the board and not held by a
      piece of the mover's colour. */
  function Leaps(board: Board, from: Position, piece: Piece, offsets: seq<(int, int)>): (r: seq<Move>)
    ensures forall m :: m in r ==> IsCandidateOf(board, from, piece, m)
    ensures |r| <= |offsets|
  {
    if offsets == [] then []
    else
      var to := Position(from.row + offsets[0].0, from.col + offsets[0].1);
      var rest := Leaps(board, from, piece, offsets[1..]);
      if IsValidPosition(to) then
        var target := GetPieceAt(board, to);
        if target.None? || target.value.color != piece.color then [Candidate(from, to, piece, target)] + rest
        else rest
      else rest
  }

  function KnightMoves(board: Board, from: Position, piece: Piece): (r: seq<Move>)
    ensures forall m :: m in r ==> IsCandidateOf(board, from, piece, m)
    ensures |r| <= 8
  {
    Leaps(board, from, piece, KnightOffsets)
  }

  function KingMoves(board: Board, from: Position, piece: Piece): (r: seq<Move>)
    ensures forall m :: m in r ==> IsCandidateOf(board, from, piece, m)
    ensures |r| <= 8
  {
    Leaps(board, from, piece, KingOffsets)
  }

  // ----- Dispatch -------------------------------------------------------

  /** The pseudo-legal moves of `piece` standing on `from`. The generator is
      chosen by the piece's type; the board's own content at `from` is not
      consulted. */
  function PossibleMoves(board: Board, from: Position, piece: Piece): (r: seq<Move>)
    ensures forall m :: m in r ==> IsCandidateOf(board, from, piece, m)
  {
    match piece.kind
    case Pawn => PawnMoves(board, from, piece)
    case Rook => RookMoves(board, from, piece)
    case Knight => KnightMoves(board, from, piece)
    case Bishop => BishopMoves(board, from, piece)
    case Queen => QueenMoves(board, from, piece)
    case King => KingMoves(board, from, piece)
  }
}
