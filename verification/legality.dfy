/** The check and legality layer: locating a king, asking whether a square
    is attacked, whether a side is in check, and whether a move may be
    played. Board scans run row by row, and column by column within a row,
    as the nested loops of `chessLogic.ts` do. */
module Legality {
  import opened ChessTypes
  import opened BoardOps
  import opened MoveGen
  import opened MoveRules

  /** `q` comes before `p` in the scan order. */
  predicate ScanBefore(q: Position, p: Position) {
    q.row < p.row || (q.row == p.row && q.col < p.col)
  }

  predicate IsKingOf(board: Board, pos: Position, color: PieceColor) {
    GetPieceAt(board, pos) == Some(Piece(King, color))
  }

  /** `k` holds a king of `color` and no earlier square of the scan does. */
  ghost predicate IsFirstKing(board: Board, k: Position, color: PieceColor) {
    && IsValidPosition(k) && IsKingOf(board, k, color)
    && forall q :: IsValidPosition(q) && ScanBefore(q, k) ==> !IsKingOf(board, q, color)
  }

  /** The king scan, resumed at square `(row, col)`. */
  function FindKing(board: Board, color: PieceColor, row: int, col: int): (r: Option<Position>)
    requires 0 <= row <= 8 && 0 <= col <= 8
    ensures r.Some? ==> && IsValidPosition(r.value) && IsKingOf(board, r.value, color)
                        && !ScanBefore(r.value, Position(row, col))
                        && forall q :: IsValidPosition(q) && !ScanBefore(q, Position(row, col)) && ScanBefore(q, r.value)
                                       ==> !IsKingOf(board, q, color)
    ensures r.None? ==> forall q :: IsValidPosition(q) && !ScanBefore(q, Position(row, col)) ==> !IsKingOf(board, q, color)
    decreases 8 - row, 8 - col
  {
    if row == 8 then None
    else if col == 8 then FindKing(board, color, row + 1, 0)
    else if IsKingOf(board, Position(row, col), color) then Some(Position(row, col))
    else FindKing(board, color, row, col + 1)
  }

  /** The first square in scan order that holds a king of `color`, or
      `None` when that side has no king. */
  function GetKingPosition(board: Board, color: PieceColor): (r: Option<Position>)
    ensures r.Some? ==> IsFirstKing(board, r.value, color)
    ensures r.None? ==> forall q :: IsValidPosition(q) ==> !IsKingOf(board, q, color)
  {
    FindKing(board, color, 0, 0)
  }

  /** A piece of `byColor` stands on `q` and lists `pos` among its moves. */
  predicate AttacksFrom(board: Board, q: Position, pos: Position, byColor: PieceColor) {
    && GetPieceAt(board, q).Some?
    && GetPieceAt(board, q).value.color == byColor
    && HasDestination(PossibleMoves(board, q, GetPieceAt(board, q).value), pos)
  }

  /** The attack scan, resumed at square `(row, col)`. */
  function AttackScan(board: Board, pos: Position, byColor: PieceColor, row: int, col: int): (r: bool)
    requires 0 <= row <= 8 && 0 <= col <= 8
    ensures r <==> exists q :: IsValidPosition(q) && !ScanBefore(q, Position(row, col)) && AttacksFrom(board, q, pos, byColor)
    decreases 8 - row, 8 - col
  {
    if row == 8 then
      assert forall q :: IsValidPosition(q) ==> ScanBefore(q, Position(row, col));
      false
    else if col == 8 then
      assert forall q :: IsValidPosition(q) ==> (ScanBefore(q, Position(row, col)) <==> ScanBefore(q, Position(row + 1, 0)));
      AttackScan(board, pos, byColor, row + 1, 0)
    else
      assert forall q :: !ScanBefore(q, Position(row, col)) <==> q == Position(row, col) || !ScanBefore(q, Position(row, col + 1));
      AttacksFrom(board, Position(row, col), pos, byColor) || AttackScan(board, pos, byColor, row, col + 1)
  }

  /** Whether some piece of `byColor` has a move to `pos`. Pawns therefore
      count only for occupied diagonal squares. */
  function IsSquareAttacked(board: Board, pos: Position, byColor: PieceColor): (r: bool)
    ensures r <==> exists q :: IsValidPosition(q) && AttacksFrom(board, q, pos, byColor)
  {
    AttackScan(board, pos, byColor, 0, 0)
  }

  /** Some piece of `byColor` controls `pos` in the usual chess sense. */
  ghost predicate ControlledBy(board: Board, pos: Position, byColor: PieceColor) {
    exists q :: && IsValidPosition(q) && GetPieceAt(board, q).Some?
                && GetPieceAt(board, q).value.color == byColor
                && Attacks(board, q, GetPieceAt(board, q).value, pos)
  }

  /** On a square held by a piece of the other colour, the attack test of
      `chessLogic.ts` agrees with the usual chess notion of control. */
  lemma AttackedOccupiedSquare(board: Board, pos: Position, byColor: PieceColor)
    requires GetPieceAt(board, pos).Some? && GetPieceAt(board, pos).value.color != byColor
    ensures IsSquareAttacked(board, pos, byColor) <==> ControlledBy(board, pos, byColor)
  {
    forall q | IsValidPosition(q) && GetPieceAt(board, q).Some? && GetPieceAt(board, q).value.color == byColor
      ensures AttacksFrom(board, q, pos, byColor) <==> Attacks(board, q, GetPieceAt(board, q).value, pos)
    {
      PossibleMovesReach(board, q, GetPieceAt(board, q).value, pos);
      ReachOccupiedIsAttack(board, q, GetPieceAt(board, q).value, pos);
    }
  }

  /** Whether the first king of `color` in scan order is attacked by the
      other side; a side without a king is never in check. */
  function IsInCheck(board: Board, color: PieceColor): (r: bool)
    ensures GetKingPosition(board, color).None? ==> !r
    ensures r <==> exists k :: IsFirstKing(board, k, color) && IsSquareAttacked(board, k, Opponent(color))
  {
    var kingPos := GetKingPosition(board, color);
    assert forall k :: IsFirstKing(board, k, color) ==> kingPos == Some(k);
    if kingPos.None? then false else IsSquareAttacked(board, kingPos.value, Opponent(color))
  }

  /** Check in the usual chess sense: when `color` has exactly one king, it
      is in check exactly when an opposing piece controls the king's square. */
  lemma CheckMeansKingControlled(board: Board, color: PieceColor, k: Position)
    requires IsValidPosition(k) && IsKingOf(board, k, color)
    requires forall q :: IsValidPosition(q) && IsKingOf(board, q, color) ==> q == k
    ensures IsInCheck(board, color) <==> ControlledBy(board, k, Opponent(color))
  {
    assert GetKingPosition(board, color) == Some(k);
    AttackedOccupiedSquare(board, k, Opponent(color));
  }

  /** The move test of `chessLogic.ts`: a piece of the side to move stands
      on `move.from`, `move.to` is one of that piece's generated destinations
      (only the destination is compared), and playing the move does not
      leave the mover's first king attacked. */
  function IsValidMove(state: GameState, move: Move): (r: bool)
    ensures GetPieceAt(state.board, move.from).None? ==> !r
    ensures GetPieceAt(state.board, move.from).Some? && GetPieceAt(state.board, move.from).value.color != state.currentPlayer ==> !r
    ensures r ==> && IsValidPosition(move.from) && IsValidPosition(move.to) && move.from != move.to
                  && Enterable(state.board, move.to, state.currentPlayer)
                  && Reaches(state.board, move.from, GetPieceAt(state.board, move.from).value, move.to)
    ensures r ==> !IsInCheck(MakeMove(state.board, move), state.currentPlayer)
  {
    var board := state.board;
    var piece := GetPieceAt(board, move.from);
    if piece.None? || piece.value.color != state.currentPlayer then false
    else
      var moveExists := HasDestination(PossibleMoves(board, move.from, piece.value), move.to);
      if !moveExists then false
      else
        PossibleMovesReach(board, move.from, piece.value, move.to);
        ReachedSquareIsEnterable(board, move.from, piece.value, move.to);
        !IsInCheck(MakeMove(board, move), state.currentPlayer)
  }

  /** The move test restated with the movement rules in place of the
      generated move list. */
  lemma ValidMoveByRules(state: GameState, move: Move)
    ensures IsValidMove(state, move) <==>
      && GetPieceAt(state.board, move.from).Some?
      && GetPieceAt(state.board, move.from).value.color == state.currentPlayer
      && Reaches(state.board, move.from, GetPieceAt(state.board, move.from).value, move.to)
      && !IsInCheck(MakeMove(state.board, move), state.currentPlayer)
  {
    var piece := GetPieceAt(state.board, move.from);
    if piece.Some? {
      PossibleMovesReach(state.board, move.from, piece.value, move.to);
    }
  }
}
