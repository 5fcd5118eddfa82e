/** The value types of the chess engine: pieces, board coordinates, moves,
    the 8x8 board and the whole game state. Every value is immutable; an
    operation that "changes" a board or a state returns a new one. */
module ChessTypes {

  /** An optional value; `None` plays the role of `null` in the TypeScript
      implementation and of an absent optional field. */
  datatype Option<+T> = None | Some(value: T)

  datatype PieceType = King | Queen | Rook | Bishop | Knight | Pawn

  datatype PieceColor = White | Black

  datatype Piece = Piece(kind: PieceType, color: PieceColor)

  /** A board coordinate. Coordinates are unbounded integers because move
      generators build positions that may lie off the board. Row 0 is
      white's back rank. */
  datatype Position = Position(row: int, col: int)

  /** A move description. The generators fill in only `from`, `to`, `piece`
      and `capturedPiece`; the three tags exist in the record but nothing
      computes them. */
  datatype Move = Move(
    from: Position,
    to: Position,
    piece: Piece,
    capturedPiece: Option<Piece>,
    isEnPassant: Option<bool>,
    isCastling: Option<bool>,
    promoteTo: Option<PieceType>)

  /** The content of one square. */
  type Square = Option<Piece>

  /** An 8x8 grid, indexed `[row][col]`. */
  type Board = g: seq<seq<Square>> | |g| == 8 && forall r :: 0 <= r < |g| ==> |g[r]| == 8
    witness seq(8, _ => seq(8, _ => None))

  /** A pair of per-colour flags, as used for the castling rights. */
  datatype SideFlags = SideFlags(white: bool, black: bool)

  datatype GameState = GameState(
    board: Board,
    currentPlayer: PieceColor,
    moveHistory: seq<Move>,
    isCheck: bool,
    isCheckmate: bool,
    isStalemate: bool,
    canCastleKingSide: SideFlags,
    canCastleQueenSide: SideFlags,
    enPassantTarget: Option<Position>,
    halfMoveClock: int,
    fullMoveNumber: int)

  /** The other colour. */
  function Opponent(c: PieceColor): (r: PieceColor)
    ensures r != c
  {
    if c == White then Black else White
  }
}
