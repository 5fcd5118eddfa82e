/** Facts about the starting position: where the kings stand, and that
    neither side starts in check. */
module StartingPosition {
  import opened ChessTypes
  import opened BoardOps
  import opened MoveRules
  import opened Legality

  /** In the starting layout, kings stand only on column 4 of a back rank. */
  lemma HomeKingSquare(q: Position, color: PieceColor)
    requires HomeSquare(q) == Some(Piece(King, color))
    ensures q == Position(if color == White then 0 else 7, 4)
  {
    if q.row == 0 || q.row == 7 {
      assert BackRank(q.col) == King;
    }
  }

  /** `board` holds the standard starting layout on every square. */
  ghost predicate StartingLayout(board: Board) {
    forall q {:trigger GetPieceAt(board, q)} :: GetPieceAt(board, q) == HomeSquare(q)
  }

  /** In the starting layout the only king of `color` stands on column 4 of
      its back rank. */
  lemma InitialKing(board: Board, color: PieceColor) returns (k: Position)
    requires StartingLayout(board)
    ensures k == Position(if color == White then 0 else 7, 4)
    ensures IsValidPosition(k) && IsKingOf(board, k, color)
    ensures forall q :: IsValidPosition(q) && IsKingOf(board, q, color) ==> q == k
  {
    k := Position(if color == White then 0 else 7, 4);
    StartingKingPresent(board, color);
    forall q | IsValidPosition(q) && IsKingOf(board, q, color)
      ensures q == k
    {
      StartingKingUnique(board, color, q);
    }
  }

  lemma StartingKingPresent(board: Board, color: PieceColor)
    requires StartingLayout(board)
    ensures IsKingOf(board, Position(if color == White then 0 else 7, 4), color)
  {
    var k := Position(if color == White then 0 else 7, 4);
    assert GetPieceAt(board, k) == HomeSquare(k);
  }

  lemma StartingKingUnique(board: Board, color: PieceColor, q: Position)
    requires StartingLayout(board)
    requires IsKingOf(board, q, color)
    ensures q == Position(if color == White then 0 else 7, 4)
  {
    assert GetPieceAt(board, q) == HomeSquare(q);
    HomeKingSquare(q, color);
  }

  /** Neither side is in check in the starting layout, since no piece is on
      a line, a jump or a pawn diagonal to the other side's king. */
  lemma StartingLayoutNotInCheck(board: Board, color: PieceColor)
    requires StartingLayout(board)
    ensures !IsInCheck(board, color)
  {
    var k := InitialKing(board, color);
    CheckMeansKingControlled(board, color, k);
    KingSquareUncontrolled(board, color);
  }

  /** No piece of the other side controls a king's home square in the
      starting layout. */
  lemma KingSquareUncontrolled(board: Board, color: PieceColor)
    requires StartingLayout(board)
    ensures !ControlledBy(board, Position(if color == White then 0 else 7, 4), Opponent(color))
  {
    forall q | IsValidPosition(q) && GetPieceAt(board, q).Some? && GetPieceAt(board, q).value.color == Opponent(color)
      ensures !Attacks(board, q, GetPieceAt(board, q).value, Position(if color == White then 0 else 7, 4))
    {
      StartingPieceSparesKing(board, q, color);
    }
  }

  lemma StartingPieceSparesKing(board: Board, q: Position, color: PieceColor)
    requires StartingLayout(board)
    requires IsValidPosition(q) && GetPieceAt(board, q).Some? && GetPieceAt(board, q).value.color == Opponent(color)
    ensures !Attacks(board, q, GetPieceAt(board, q).value, Position(if color == White then 0 else 7, 4))
  {
    assert GetPieceAt(board, q) == HomeSquare(q);
    HomePieceSparesKing(board, q, color);
  }

  /** The starting state's `isCheck` flag agrees with the position: neither
      side is in check. */
  lemma InitialPositionNotInCheck()
    ensures !IsInCheck(InitialBoard(), White)
    ensures !IsInCheck(InitialBoard(), Black)
    ensures InitialGameState().isCheck == IsInCheck(InitialGameState().board, InitialGameState().currentPlayer)
  {
    StartingLayoutNotInCheck(InitialBoard(), White);
    StartingLayoutNotInCheck(InitialBoard(), Black);
  }

  /** No piece of the starting layout attacks the other side's king square,
      whatever stands between them. */
  lemma HomePieceSparesKing(board: Board, q: Position, color: PieceColor)
    requires IsValidPosition(q) && HomeSquare(q).Some? && HomeSquare(q).value.color == Opponent(color)
    ensures !Attacks(board, q, HomeSquare(q).value, Position(if color == White then 0 else 7, 4))
  {
    HomeOpponentIsFar(q, color);
    FarPieceSparesSquare(board, q, HomeSquare(q).value, Position(if color == White then 0 else 7, 4));
  }

  /** The other side's starting pieces are at least six rows from a king's
      home square, and those on its column are a king or a pawn. */
  lemma HomeOpponentIsFar(q: Position, color: PieceColor)
    requires IsValidPosition(q) && HomeSquare(q).Some? && HomeSquare(q).value.color == Opponent(color)
    ensures Abs(q.row - (if color == White then 0 else 7)) >= 6
    ensures q.col == 4 ==> HomeSquare(q).value.kind == King || HomeSquare(q).value.kind == Pawn
  {
    HomeColorRows(q);
    if q.col == 4 {
      HomeColumnFour(q.row);
    }
  }

  /** White's starting pieces are on rows 0 and 1, black's on rows 6 and 7. */
  lemma HomeColorRows(q: Position)
    requires HomeSquare(q).Some?
    ensures HomeSquare(q).value.color == White ==> 0 <= q.row <= 1
    ensures HomeSquare(q).value.color == Black ==> 6 <= q.row <= 7
  {
    if q.row <= 1 {
      assert HomeSquare(q).value.color == White;
    } else {
      assert HomeSquare(q).value.color == Black;
    }
  }

  /** Column 4 starts with kings on the back ranks and pawns in front of them. */
  lemma HomeColumnFour(row: int)
    requires HomeSquare(Position(row, 4)).Some?
    ensures HomeSquare(Position(row, 4)).value.kind == King || HomeSquare(Position(row, 4)).value.kind == Pawn
  {
  }

  /** A piece at least six rows away from a square attacks it only along a
      column or a long diagonal; a piece on the same column that is a pawn or
      a king does neither. */
  lemma FarPieceSparesSquare(board: Board, q: Position, p: Piece, k: Position)
    requires Abs(q.row - k.row) >= 6 && Abs(q.col - k.col) <= 4
    requires q.col == k.col ==> p.kind == King || p.kind == Pawn
    ensures !Attacks(board, q, p, k)
  {
    assert !Diagonal(q, k) && !KnightJump(q, k) && Distance(q, k) >= 6;
  }
}
