/** Board primitives: coordinate validity, copy-on-write square access,
    moving a piece, and the initial position. */
module BoardOps {
  import opened ChessTypes

  predicate IsValidPosition(pos: Position) {
    0 <= pos.row < 8 && 0 <= pos.col < 8
  }

  /** The valid positions are exactly those that index a square of a board:
      a row of the 8 rows and a column of that row's 8 columns. */
  lemma ValidPositionIndexesBoard(board: Board, pos: Position)
    ensures IsValidPosition(pos) <==> 0 <= pos.row < |board| && 0 <= pos.col < |board[pos.row]|
  {
  }

  /** The occupant of `pos`; an off-board position reads as empty. */
  function GetPieceAt(board: Board, pos: Position): (r: Square)
    ensures !IsValidPosition(pos) ==> r == None
  {
    if !IsValidPosition(pos) then None else board[pos.row][pos.col]
  }

  /** Two boards that agree on every on-board square are the same board. */
  lemma BoardExtensionality(a: Board, b: Board)
    requires forall q :: IsValidPosition(q) ==> GetPieceAt(a, q) == GetPieceAt(b, q)
    ensures a == b
  {
    forall r | 0 <= r < 8
      ensures a[r] == b[r]
    {
      forall c | 0 <= c < 8
        ensures a[r][c] == b[r][c]
      {
        assert GetPieceAt(a, Position(r, c)) == GetPieceAt(b, Position(r, c));
      }
    }
  }

  /** A copy of `board` with `pos` holding `piece`; the input is not changed.
      Writing to an off-board position is ignored. */
  function SetPieceAt(board: Board, pos: Position, piece: Square): (r: Board)
    ensures IsValidPosition(pos) ==> GetPieceAt(r, pos) == piece
    ensures forall q :: q != pos ==> GetPieceAt(r, q) == GetPieceAt(board, q)
    ensures !IsValidPosition(pos) ==> r == board
  {
    if IsValidPosition(pos) then board[pos.row := board[pos.row][pos.col := piece]] else board
  }

  /** Writing the value a square already holds leaves the board as it was. */
  lemma SetUnchangedSquare(board: Board, pos: Position)
    ensures SetPieceAt(board, pos, GetPieceAt(board, pos)) == board
  {
    var r := SetPieceAt(board, pos, GetPieceAt(board, pos));
    forall q | IsValidPosition(q)
      ensures GetPieceAt(r, q) == GetPieceAt(board, q)
    {
    }
    BoardExtensionality(r, board);
  }

  /** Writing the same square twice keeps only the second write. */
  lemma SetSetSameSquare(board: Board, pos: Position, x: Square, y: Square)
    ensures SetPieceAt(SetPieceAt(board, pos, x), pos, y) == SetPieceAt(board, pos, y)
  {
    var a := SetPieceAt(SetPieceAt(board, pos, x), pos, y);
    var b := SetPieceAt(board, pos, y);
    forall q | IsValidPosition(q)
      ensures GetPieceAt(a, q) == GetPieceAt(b, q)
    {
    }
    BoardExtensionality(a, b);
  }

  /** Empties `move.from`, then puts `move.piece` on `move.to`. Nothing else
      about the move (captures, tags) is consulted. */
  function MakeMove(board: Board, move: Move): (r: Board)
    ensures IsValidPosition(move.to) ==> GetPieceAt(r, move.to) == Some(move.piece)
    ensures move.from != move.to ==> GetPieceAt(r, move.from) == None
    ensures forall q :: q != move.from && q != move.to ==> GetPieceAt(r, q) == GetPieceAt(board, q)
  {
    var cleared := SetPieceAt(board, move.from, None);
    SetPieceAt(cleared, move.to, Some(move.piece))
  }

  /** The non-pawn piece that starts on column `col` of a back rank: rook,
      knight, bishop, queen, king, bishop, knight, rook from column 0 to 7
      (the order is symmetric about the queen and king). Only columns 0 to
      7 are ever asked for. */
  function BackRank(col: int): PieceType {
    if col == 4 then King
    else if col == 3 then Queen
    else if col == 2 || col == 5 then Bishop
    else if col == 1 || col == 6 then Knight
    else Rook
  }

  /** What the standard starting position holds on each square. */
  function HomeSquare(pos: Position): Square {
    if !IsValidPosition(pos) then None
    else if pos.row == 0 then Some(Piece(BackRank(pos.col), White))
    else if pos.row == 1 then Some(Piece(Pawn, White))
    else if pos.row == 6 then Some(Piece(Pawn, Black))
    else if pos.row == 7 then Some(Piece(BackRank(pos.col), Black))
    else None
  }

  /** The board with no piece on it. */
  function EmptyBoard(): (r: Board)
    ensures forall q :: GetPieceAt(r, q) == None
  {
    seq(8, _ => seq(8, _ => None))
  }

  /** The first placement pass: a white pawn on row 1 and a black pawn on
      row 6 for every column from `col` on. */
  function PlacePawns(board: Board, col: int): (r: Board)
    requires 0 <= col <= 8
    ensures forall q :: GetPieceAt(r, q) == (
              if IsValidPosition(q) && col <= q.col && q.row == 1 then Some(Piece(Pawn, White))
              else if IsValidPosition(q) && col <= q.col && q.row == 6 then Some(Piece(Pawn, Black))
              else GetPieceAt(board, q))
    decreases 8 - col
  {
    if col == 8 then board
    else
      var withWhite := SetPieceAt(board, Position(1, col), Some(Piece(Pawn, White)));
      PlacePawns(SetPieceAt(withWhite, Position(6, col), Some(Piece(Pawn, Black))), col + 1)
  }

  /** The second placement pass: the back-rank pieces on rows 0 and 7 for
      every column from `col` on. */
  function PlaceBackRanks(board: Board, col: int): (r: Board)
    requires 0 <= col <= 8
    ensures forall q :: GetPieceAt(r, q) == (
              if IsValidPosition(q) && col <= q.col && q.row == 0 then Some(Piece(BackRank(q.col), White))
              else if IsValidPosition(q) && col <= q.col && q.row == 7 then Some(Piece(BackRank(q.col), Black))
              else GetPieceAt(board, q))
    decreases 8 - col
  {
    if col == 8 then board
    else
      var withWhite := SetPieceAt(board, Position(0, col), Some(Piece(BackRank(col), White)));
      PlaceBackRanks(SetPieceAt(withWhite, Position(7, col), Some(Piece(BackRank(col), Black))), col + 1)
  }

  /** The starting position, built the way `chessLogic.ts` builds it: pawns
      first, then the back ranks. */
  function InitialBoard(): (r: Board)
    ensures forall q {:trigger GetPieceAt(r, q)} :: GetPieceAt(r, q) == HomeSquare(q)
  {
    var r := PlaceBackRanks(PlacePawns(EmptyBoard(), 0), 0);
    assert forall q {:trigger GetPieceAt(r, q)} :: GetPieceAt(r, q) == HomeSquare(q) by {
      forall q
        ensures GetPieceAt(r, q) == HomeSquare(q)
      {
        PlacedSquare(EmptyBoard(), q);
      }
    }
    r
  }

  /** One square of the board the two placement passes build from an empty board. */
  lemma PlacedSquare(empty: Board, q: Position)
    requires forall p :: GetPieceAt(empty, p) == None
    ensures GetPieceAt(PlaceBackRanks(PlacePawns(empty, 0), 0), q) == HomeSquare(q)
  {
    var pawns := PlacePawns(empty, 0);
    var r := PlaceBackRanks(pawns, 0);
    if !IsValidPosition(q) {
      assert GetPieceAt(r, q) == None == HomeSquare(q);
    } else if q.row == 0 || q.row == 7 {
      assert GetPieceAt(r, q) == Some(Piece(BackRank(q.col), if q.row == 0 then White else Black)) == HomeSquare(q);
    } else {
      assert GetPieceAt(r, q) == GetPieceAt(pawns, q);
      assert GetPieceAt(empty, q) == None;
      if q.row == 1 || q.row == 6 {
        assert GetPieceAt(pawns, q) == Some(Piece(Pawn, if q.row == 1 then White else Black));
      } else {
        assert GetPieceAt(pawns, q) == None;
      }
    }
  }

  /** The state of a new game: the starting layout, white to move, no
      history, no check, checkmate or stalemate, every castling right
      granted, no en passant target, half-move clock 0 and move number 1. */
  function InitialGameState(): (s: GameState)
    ensures forall q {:trigger GetPieceAt(s.board, q)} :: GetPieceAt(s.board, q) == HomeSquare(q)
    ensures s.currentPlayer == White && s.moveHistory == []
    ensures !s.isCheck && !s.isCheckmate && !s.isStalemate
    ensures s.canCastleKingSide == SideFlags(true, true) && s.canCastleQueenSide == SideFlags(true, true)
    ensures s.enPassantTarget == None && s.halfMoveClock == 0 && s.fullMoveNumber == 1
  {
    GameState(
      board := InitialBoard(),
      currentPlayer := White,
      moveHistory := [],
      isCheck := false,
      isCheckmate := false,
      isStalemate := false,
      canCastleKingSide := SideFlags(true, true),
      canCastleQueenSide := SideFlags(true, true),
      enPassantTarget := None,
      halfMoveClock := 0,
      fullMoveNumber := 1)
  }
}
