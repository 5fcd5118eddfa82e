/** The turn transition of the application shell: a move request from one
    square to another is either rejected, leaving the game state as it was,
    or committed by replacing the board, passing the turn, recording the
    move and advancing the move number. */
module App {
  import opened ChessTypes
  import opened BoardOps
  import opened MoveGen
  import opened MoveRules
  import opened Legality

  /** `after` is `before` with `move` committed: the board is the result of
      playing the move, the other side is to move, the move is appended to
      the history, the full-move number grows by one exactly when white is
      to move next, and every other field is carried over. */
  predicate Commits(before: GameState, move: Move, after: GameState) {
    && after.board == MakeMove(before.board, move)
    && after.currentPlayer == Opponent(before.currentPlayer)
    && after.moveHistory == before.moveHistory + [move]
    && after.fullMoveNumber == (if after.currentPlayer == White then before.fullMoveNumber + 1 else before.fullMoveNumber)
    && after.isCheck == before.isCheck
    && after.isCheckmate == before.isCheckmate
    && after.isStalemate == before.isStalemate
    && after.canCastleKingSide == before.canCastleKingSide
    && after.canCastleQueenSide == before.canCastleQueenSide
    && after.enPassantTarget == before.enPassantTarget
    && after.halfMoveClock == before.halfMoveClock
  }

  /** Handles a request to move from `from` to `to`. `App.tsx` indexes the
      board's row directly, so `from.row` must lie on the board; an
      off-board column reads as an empty square. The requested move is a
      `Candidate` carrying the piece on `from` and no captured piece. */
  function HandleMove(state: GameState, from: Position, to: Position): (s: GameState)
    requires 0 <= from.row < 8
    ensures GetPieceAt(state.board, from).None? ==> s == state
    ensures GetPieceAt(state.board, from).Some? ==>
      var move := Candidate(from, to, GetPieceAt(state.board, from).value, None);
      && (IsValidMove(state, move) ==> Commits(state, move, s))
      && (!IsValidMove(state, move) ==> s == state)
  {
    var piece := if 0 <= from.col < 8 then state.board[from.row][from.col] else None;
    if piece.None? then state
    else
      var move := Candidate(from, to, piece.value, None);
      if IsValidMove(state, move) then
        var newBoard := MakeMove(state.board, move);
        var nextPlayer := if state.currentPlayer == White then Black else White;
        state.(
          board := newBoard,
          currentPlayer := nextPlayer,
          moveHistory := state.moveHistory + [move],
          fullMoveNumber := if nextPlayer == White then state.fullMoveNumber + 1 else state.fullMoveNumber)
      else state
  }

  /** What a request does, in terms of the rules: either nothing changes, or
      the side to move had a piece on `from` that may go to `to`, that piece
      now stands on `to`, `from` is empty, the mover's king is not attacked,
      the other side is to move and the history grew by that one move. */
  lemma HandleMoveOutcome(state: GameState, from: Position, to: Position)
    requires 0 <= from.row < 8
    ensures var s := HandleMove(state, from, to);
      || s == state
      || (&& GetPieceAt(state.board, from).Some?
          && GetPieceAt(state.board, from).value.color == state.currentPlayer
          && Reaches(state.board, from, GetPieceAt(state.board, from).value, to)
          && GetPieceAt(s.board, to) == GetPieceAt(state.board, from)
          && GetPieceAt(s.board, from) == None
          && !IsInCheck(s.board, state.currentPlayer)
          && s.currentPlayer != state.currentPlayer
          && |s.moveHistory| == |state.moveHistory| + 1
          && s.moveHistory[|state.moveHistory|].from == from
          && s.moveHistory[|state.moveHistory|].to == to)
  {
  }

  /** The bookkeeping every reachable game state keeps: the full-move
      number counts completed move pairs from 1, white is to move exactly
      after an even number of moves, and the recorded moves alternate
      colours starting with white. */
  predicate TurnBookkeeping(s: GameState) {
    && s.fullMoveNumber == 1 + |s.moveHistory| / 2
    && (s.currentPlayer == White <==> |s.moveHistory| % 2 == 0)
    && forall i :: 0 <= i < |s.moveHistory| ==>
         s.moveHistory[i].piece.color == (if i % 2 == 0 then White else Black)
  }

  lemma InitialBookkeeping()
    ensures TurnBookkeeping(InitialGameState())
  {
  }

  /** Committing a move of the side to move keeps the bookkeeping. */
  lemma CommitKeepsBookkeeping(before: GameState, move: Move, after: GameState)
    requires TurnBookkeeping(before)
    requires move.piece.color == before.currentPlayer
    requires Commits(before, move, after)
    ensures TurnBookkeeping(after)
  {
    var n := |before.moveHistory|;
    forall i | 0 <= i < |after.moveHistory|
      ensures after.moveHistory[i].piece.color == (if i % 2 == 0 then White else Black)
    {
      if i < n {
        assert after.moveHistory[i] == before.moveHistory[i];
      } else {
        assert after.moveHistory[i] == move;
      }
    }
  }

  /** Every request, accepted or not, keeps the bookkeeping. */
  lemma HandleMoveKeepsBookkeeping(state: GameState, from: Position, to: Position)
    requires 0 <= from.row < 8
    requires TurnBookkeeping(state)
    ensures TurnBookkeeping(HandleMove(state, from, to))
  {
    var piece := GetPieceAt(state.board, from);
    if piece.Some? {
      var move := Candidate(from, to, piece.value, None);
      if IsValidMove(state, move) {
        CommitKeepsBookkeeping(state, move, HandleMove(state, from, to));
      }
    }
  }

  /** Every request starts on one of the board's rows. */
  predicate RowsOnBoard(requests: seq<(Position, Position)>) {
    forall i :: 0 <= i < |requests| ==> 0 <= requests[i].0.row < 8
  }

  /** Replays a list of requests from a state, one after another. */
  function Replay(state: GameState, requests: seq<(Position, Position)>): GameState
    requires RowsOnBoard(requests)
    decreases |requests|
  {
    if requests == [] then state
    else Replay(HandleMove(state, requests[0].0, requests[0].1), requests[1..])
  }

  /** From any state that keeps the turn bookkeeping, any sequence of
      requests leads to a state that keeps it too: the move number is one
      more than the number of completed move pairs, the side to move matches
      the parity of the history, and the recorded moves alternate colours
      starting with white. */
  lemma {:induction false} ReplayKeepsBookkeeping(state: GameState, requests: seq<(Position, Position)>)
    requires RowsOnBoard(requests)
    requires TurnBookkeeping(state)
    ensures TurnBookkeeping(Replay(state, requests))
    decreases |requests|
  {
    if requests != [] {
      HandleMoveKeepsBookkeeping(state, requests[0].0, requests[0].1);
      ReplayKeepsBookkeeping(HandleMove(state, requests[0].0, requests[0].1), requests[1..]);
    }
  }
}
