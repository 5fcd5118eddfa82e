/** A declarative statement of where each piece may go, written with board
    geometry (differences of coordinates, distance, sign) instead of the
    direction tables and loops of the generators, together with the proofs
    that the generators list exactly these destinations. */
module MoveRules {
  import opened ChessTypes
  import opened BoardOps
  import opened MoveGen

  function Abs(x: int): nat {
    if x < 0 then -x else x
  }

  function Sign(x: int): int {
    if x > 0 then 1 else if x < 0 then -1 else 0
  }

  /** The number of king steps between two squares. */
  function Distance(from: Position, to: Position): nat {
    var dr := Abs(to.row - from.row);
    var dc := Abs(to.col - from.col);
    if dr < dc then dc else dr
  }

  /** `to` is on the same row or the same column as `from`, and differs from it. */
  predicate Orthogonal(from: Position, to: Position) {
    (to.row == from.row) != (to.col == from.col)
  }

  /** `to` is on a diagonal through `from`, and differs from it. */
  predicate Diagonal(from: Position, to: Position) {
    to.row != from.row && Abs(to.row - from.row) == Abs(to.col - from.col)
  }

  /** The square `j` steps from `from` towards `to`. */
  function Toward(from: Position, to: Position, j: int): Position {
    Position(from.row + j * Sign(to.row - from.row), from.col + j * Sign(to.col - from.col))
  }

  /** Every square strictly between `from` and `to` is on the board and empty. */
  predicate PathClear(board: Board, from: Position, to: Position) {
    forall j :: 0 < j < Distance(from, to) ==>
      IsValidPosition(Toward(from, to, j)) && GetPieceAt(board, Toward(from, to, j)).None?
  }

  /** A piece of colour `c` may end its move on `to`: the square is on the
      board and does not hold a piece of colour `c`. */
  predicate Enterable(board: Board, to: Position, c: PieceColor) {
    IsValidPosition(to) && (GetPieceAt(board, to).None? || GetPieceAt(board, to).value.color != c)
  }

  /** A slide of fewer than eight steps over empty squares onto an enterable square. */
  predicate SlidesTo(board: Board, from: Position, to: Position, c: PieceColor) {
    Distance(from, to) < 8 && PathClear(board, from, to) && Enterable(board, to, c)
  }

  predicate KnightJump(from: Position, to: Position) {
    var dr := Abs(to.row - from.row);
    var dc := Abs(to.col - from.col);
    (dr == 1 && dc == 2) || (dr == 2 && dc == 1)
  }

  /** Where a pawn of colour `c` on `from` may go: one square forward onto an
      empty square; two squares forward from its start row over two empty
      squares; one square diagonally forward onto an opposing piece. */
  predicate PawnReaches(board: Board, from: Position, c: PieceColor, to: Position) {
    var dir := PawnDirection(c);
    var one := Position(from.row + dir, from.col);
    || (to == one && IsValidPosition(to) && GetPieceAt(board, to).None?)
    || (&& from.row == PawnStartRow(c) && to == Position(from.row + 2 * dir, from.col)
        && IsValidPosition(one) && GetPieceAt(board, one).None?
        && IsValidPosition(to) && GetPieceAt(board, to).None?)
    || (&& to.row == from.row + dir && Abs(to.col - from.col) == 1
        && IsValidPosition(to) && GetPieceAt(board, to).Some? && GetPieceAt(board, to).value.color != c)
  }

  /** Whether `piece` standing on `from` may move to `to`, ignoring checks. */
  predicate Reaches(board: Board, from: Position, piece: Piece, to: Position) {
    match piece.kind
    case Pawn => PawnReaches(board, from, piece.color, to)
    case Knight => KnightJump(from, to) && Enterable(board, to, piece.color)
    case King => Distance(from, to) == 1 && Enterable(board, to, piece.color)
    case Rook => Orthogonal(from, to) && SlidesTo(board, from, to, piece.color)
    case Bishop => Diagonal(from, to) && SlidesTo(board, from, to, piece.color)
    case Queen => (Orthogonal(from, to) || Diagonal(from, to)) && SlidesTo(board, from, to, piece.color)
  }

  // ----- Pawns ---------------------------------------------------------

  /** The forward moves reach exactly the empty square ahead and, from the
      start row, the second square ahead when both are empty. */
  lemma PawnForwardDestinations(board: Board, from: Position, piece: Piece, to: Position)
    ensures var dir := PawnDirection(piece.color);
            var one := Position(from.row + dir, from.col);
            HasDestination(PawnForward(board, from, piece), to) <==>
              || (to == one && IsValidPosition(to) && GetPieceAt(board, to).None?)
              || (&& from.row == PawnStartRow(piece.color) && to == Position(from.row + 2 * dir, from.col)
                  && IsValidPosition(one) && GetPieceAt(board, one).None?
                  && IsValidPosition(to) && GetPieceAt(board, to).None?)
  {
    var dir := PawnDirection(piece.color);
    var oneStep := Position(from.row + dir, from.col);
    var twoStep := Position(from.row + 2 * dir, from.col);
    if IsValidPosition(oneStep) && GetPieceAt(board, oneStep).None? {
      var second := if from.row == PawnStartRow(piece.color) && IsValidPosition(twoStep) && GetPieceAt(board, twoStep).None?
                    then [Candidate(from, twoStep, piece, None)] else [];
      HasDestinationAppend([Candidate(from, oneStep, piece, None)], second, to);
      assert [Candidate(from, oneStep, piece, None)][0].to == oneStep;
    }
  }

  /** A diagonal capture reaches its square exactly when an opposing piece stands there. */
  lemma PawnCaptureDestination(board: Board, from: Position, piece: Piece, pos: Position, to: Position)
    ensures HasDestination(PawnCapture(board, from, piece, pos), to) <==>
      to == pos && IsValidPosition(pos) && GetPieceAt(board, pos).Some? && GetPieceAt(board, pos).value.color != piece.color
  {
    var c := PawnCapture(board, from, piece, pos);
    if |c| == 1 {
      assert c[0] in c;
    }
  }

  lemma PawnDestinations(board: Board, from: Position, piece: Piece, to: Position)
    ensures HasDestination(PawnMoves(board, from, piece), to) <==> PawnReaches(board, from, piece.color, to)
  {
    var dir := PawnDirection(piece.color);
    var forward := PawnForward(board, from, piece);
    var lpos := Position(from.row + dir, from.col - 1);
    var rpos := Position(from.row + dir, from.col + 1);
    var left := PawnCapture(board, from, piece, lpos);
    var right := PawnCapture(board, from, piece, rpos);
    assert PawnMoves(board, from, piece) == forward + left + right;
    HasDestinationAppend(forward + left, right, to);
    HasDestinationAppend(forward, left, to);
    PawnForwardDestinations(board, from, piece, to);
    PawnCaptureDestination(board, from, piece, lpos, to);
    PawnCaptureDestination(board, from, piece, rpos, to);
  }

  /** A two-square pawn advance is generated only from the pawn's start row
      and only across two empty squares. */
  lemma PawnTwoStepFromStartRow(board: Board, from: Position, piece: Piece, m: Move)
    requires piece.kind == Pawn
    requires m in PossibleMoves(board, from, piece)
    requires m.to.row == from.row + 2 * PawnDirection(piece.color)
    ensures from.row == PawnStartRow(piece.color) && m.to.col == from.col
    ensures GetPieceAt(board, Position(from.row + PawnDirection(piece.color), from.col)) == None
    ensures GetPieceAt(board, m.to) == None
  {
    var moves := PawnMoves(board, from, piece);
    var i :| 0 <= i < |moves| && moves[i] == m;
    assert HasDestination(moves, m.to);
    PawnDestinations(board, from, piece, m.to);
  }

  // ----- Sliding pieces -------------------------------------------------

  /** Every square from step `i` up to (not including) step `k` of the ray
      is on the board and empty. */
  predicate RayClear(board: Board, from: Position, dr: int, dc: int, i: int, k: int) {
    forall j :: i <= j < k ==>
      IsValidPosition(Offset(from, dr, dc, j)) && GetPieceAt(board, Offset(from, dr, dc, j)).None?
  }

  /** The destinations of one ray, in terms of the step count. */
  lemma {:induction false} RayDestinations(board: Board, from: Position, piece: Piece, dr: int, dc: int, i: int, to: Position)
    ensures HasDestination(Ray(board, from, piece, dr, dc, i), to) <==>
      exists k :: i <= k < 8 && to == Offset(from, dr, dc, k)
                  && RayClear(board, from, dr, dc, i, k) && Enterable(board, to, piece.color)
    decreases 8 - i
  {
    var ray := Ray(board, from, piece, dr, dc, i);
    if i >= 8 {
    } else {
      var here := Offset(from, dr, dc, i);
      if !IsValidPosition(here) {
        assert ray == [];
        forall k | i < k < 8
          ensures !RayClear(board, from, dr, dc, i, k)
        {
          assert !IsValidPosition(Offset(from, dr, dc, i));
        }
      } else {
        var target := GetPieceAt(board, here);
        if target.None? {
          var rest := Ray(board, from, piece, dr, dc, i + 1);
          assert ray == [Candidate(from, here, piece, None)] + rest;
          HasDestinationAppend([Candidate(from, here, piece, None)], rest, to);
          RayDestinations(board, from, piece, dr, dc, i + 1, to);
          if HasDestination(rest, to) {
            var k :| i + 1 <= k < 8 && to == Offset(from, dr, dc, k)
                     && RayClear(board, from, dr, dc, i + 1, k) && Enterable(board, to, piece.color);
            assert RayClear(board, from, dr, dc, i, k);
          }
          if to == here {
            assert RayClear(board, from, dr, dc, i, i);
            assert [Candidate(from, here, piece, None)][0].to == to;
          }
          if exists k :: i <= k < 8 && to == Offset(from, dr, dc, k)
                         && RayClear(board, from, dr, dc, i, k) && Enterable(board, to, piece.color) {
            var k :| i <= k < 8 && to == Offset(from, dr, dc, k)
                     && RayClear(board, from, dr, dc, i, k) && Enterable(board, to, piece.color);
            if k > i {
              assert RayClear(board, from, dr, dc, i + 1, k);
            }
          }
        } else {
          forall k | i < k < 8
            ensures !RayClear(board, from, dr, dc, i, k)
          {
            assert GetPieceAt(board, Offset(from, dr, dc, i)).Some?;
          }
          if target.value.color != piece.color {
            assert ray == [Candidate(from, here, piece, target)];
            assert HasDestination(ray, to) <==> to == here by {
              if to == here {
                assert ray[0].to == to;
              }
            }
            if to == here {
              assert RayClear(board, from, dr, dc, i, i);
            }
          } else {
            assert ray == [];
          }
        }
      }
    }
  }

  /** A unit direction: one of the eight king steps. */
  predicate IsUnitDirection(dr: int, dc: int) {
    -1 <= dr <= 1 && -1 <= dc <= 1 && (dr != 0 || dc != 0)
  }

  /** `to` lies on the ray from `from` in direction `(dr, dc)`, past `from`. */
  predicate OnRay(from: Position, dr: int, dc: int, to: Position) {
    Distance(from, to) >= 1 && to == Offset(from, dr, dc, Distance(from, to))
  }

  /** `k` unit steps along a ray are `k` king steps away, and walking towards
      the end square retraces the ray. */
  lemma RayGeometry(from: Position, dr: int, dc: int, k: int)
    requires IsUnitDirection(dr, dc) && k >= 1
    ensures Distance(from, Offset(from, dr, dc, k)) == k
    ensures forall j :: Toward(from, Offset(from, dr, dc, k), j) == Offset(from, dr, dc, j)
  {
    var to := Offset(from, dr, dc, k);
    assert Sign(to.row - from.row) == dr by {
      if dr == 1 { } else if dr == -1 { } else { }
    }
    assert Sign(to.col - from.col) == dc by {
      if dc == 1 { } else if dc == -1 { } else { }
    }
    assert Abs(to.row - from.row) == k * Abs(dr) by {
      if dr == 1 { } else if dr == -1 { } else { }
    }
    assert Abs(to.col - from.col) == k * Abs(dc) by {
      if dc == 1 { } else if dc == -1 { } else { }
    }
  }

  /** The destinations of one full ray, in geometric terms. */
  lemma RayReaches(board: Board, from: Position, piece: Piece, dr: int, dc: int, to: Position)
    requires IsUnitDirection(dr, dc)
    ensures HasDestination(Ray(board, from, piece, dr, dc, 1), to) <==>
      OnRay(from, dr, dc, to) && SlidesTo(board, from, to, piece.color)
  {
    RayDestinations(board, from, piece, dr, dc, 1, to);
    if HasDestination(Ray(board, from, piece, dr, dc, 1), to) {
      var k :| 1 <= k < 8 && to == Offset(from, dr, dc, k)
               && RayClear(board, from, dr, dc, 1, k) && Enterable(board, to, piece.color);
      RayGeometry(from, dr, dc, k);
      forall j | 0 < j < Distance(from, to)
        ensures IsValidPosition(Toward(from, to, j)) && GetPieceAt(board, Toward(from, to, j)).None?
      {
        assert Toward(from, to, j) == Offset(from, dr, dc, j);
      }
    }
    if OnRay(from, dr, dc, to) && SlidesTo(board, from, to, piece.color) {
      var k := Distance(from, to);
      RayGeometry(from, dr, dc, k);
      forall j | 1 <= j < k
        ensures IsValidPosition(Offset(from, dr, dc, j)) && GetPieceAt(board, Offset(from, dr, dc, j)).None?
      {
        assert Toward(from, to, j) == Offset(from, dr, dc, j);
      }
      assert RayClear(board, from, dr, dc, 1, k);
    }
  }

  /** The destinations of a list of rays are those of its members. */
  lemma {:induction false} RaysDestinations(board: Board, from: Position, piece: Piece, directions: seq<(int, int)>, to: Position)
    ensures HasDestination(Rays(board, from, piece, directions), to) <==>
      exists i :: 0 <= i < |directions| && HasDestination(Ray(board, from, piece, directions[i].0, directions[i].1, 1), to)
  {
    if directions != [] {
      var first := Ray(board, from, piece, directions[0].0, directions[0].1, 1);
      var rest := Rays(board, from, piece, directions[1..]);
      HasDestinationAppend(first, rest, to);
      RaysDestinations(board, from, piece, directions[1..], to);
      if HasDestination(rest, to) {
        var i :| 0 <= i < |directions[1..]| && HasDestination(Ray(board, from, piece, directions[1..][i].0, directions[1..][i].1, 1), to);
        assert directions[1..][i] == directions[i + 1];
      }
      if exists i :: 0 <= i < |directions| && HasDestination(Ray(board, from, piece, directions[i].0, directions[i].1, 1), to) {
        var i :| 0 <= i < |directions| && HasDestination(Ray(board, from, piece, directions[i].0, directions[i].1, 1), to);
        if i > 0 {
          assert directions[1..][i - 1] == directions[i];
        }
      }
    }
  }

  /** A square is on one of the rook's rays exactly when it is on the same
      row or column. */
  lemma OrthogonalIsRookRay(from: Position, to: Position)
    ensures Orthogonal(from, to) <==> exists i :: 0 <= i < 4 && OnRay(from, RookDirections[i].0, RookDirections[i].1, to)
  {
    if Orthogonal(from, to) {
      var d := Distance(from, to);
      if to.row == from.row {
        if to.col > from.col {
          assert OnRay(from, RookDirections[0].0, RookDirections[0].1, to);
        } else {
          assert OnRay(from, RookDirections[1].0, RookDirections[1].1, to);
        }
      } else if to.row > from.row {
        assert OnRay(from, RookDirections[2].0, RookDirections[2].1, to);
      } else {
        assert OnRay(from, RookDirections[3].0, RookDirections[3].1, to);
      }
    }
  }

  /** A square is on one of the bishop's rays exactly when it is on a
      diagonal through the start square. */
  lemma DiagonalIsBishopRay(from: Position, to: Position)
    ensures Diagonal(from, to) <==> exists i :: 0 <= i < 4 && OnRay(from, BishopDirections[i].0, BishopDirections[i].1, to)
  {
    if Diagonal(from, to) {
      if to.row > from.row {
        if to.col > from.col {
          assert OnRay(from, BishopDirections[0].0, BishopDirections[0].1, to);
        } else {
          assert OnRay(from, BishopDirections[1].0, BishopDirections[1].1, to);
        }
      } else {
        if to.col > from.col {
          assert OnRay(from, BishopDirections[2].0, BishopDirections[2].1, to);
        } else {
          assert OnRay(from, BishopDirections[3].0, BishopDirections[3].1, to);
        }
      }
    }
  }

  /** The union of the rays in `directions` reaches exactly the squares on
      one of those rays that a slide can end on. */
  lemma UnitRaysReach(board: Board, from: Position, piece: Piece, directions: seq<(int, int)>, to: Position)
    requires forall i :: 0 <= i < |directions| ==> IsUnitDirection(directions[i].0, directions[i].1)
    ensures HasDestination(Rays(board, from, piece, directions), to) <==>
      (exists i :: 0 <= i < |directions| && OnRay(from, directions[i].0, directions[i].1, to))
      && SlidesTo(board, from, to, piece.color)
  {
    RaysDestinations(board, from, piece, directions, to);
    forall i | 0 <= i < |directions|
      ensures HasDestination(Ray(board, from, piece, directions[i].0, directions[i].1, 1), to) <==>
        OnRay(from, directions[i].0, directions[i].1, to) && SlidesTo(board, from, to, piece.color)
    {
      RayReaches(board, from, piece, directions[i].0, directions[i].1, to);
    }
  }

  lemma RookDestinations(board: Board, from: Position, piece: Piece, to: Position)
    ensures HasDestination(RookMoves(board, from, piece), to) <==>
      Orthogonal(from, to) && SlidesTo(board, from, to, piece.color)
  {
    UnitRaysReach(board, from, piece, RookDirections, to);
    OrthogonalIsRookRay(from, to);
  }

  lemma BishopDestinations(board: Board, from: Position, piece: Piece, to: Position)
    ensures HasDestination(BishopMoves(board, from, piece), to) <==>
      Diagonal(from, to) && SlidesTo(board, from, to, piece.color)
  {
    UnitRaysReach(board, from, piece, BishopDirections, to);
    DiagonalIsBishopRay(from, to);
  }

  // ----- Leaping pieces -------------------------------------------------

  /** The destinations of a list of leaps. */
  lemma {:induction false} LeapsDestinations(board: Board, from: Position, piece: Piece, offsets: seq<(int, int)>, to: Position)
    ensures HasDestination(Leaps(board, from, piece, offsets), to) <==>
      (exists i :: 0 <= i < |offsets| && to == Position(from.row + offsets[i].0, from.col + offsets[i].1))
      && Enterable(board, to, piece.color)
  {
    if offsets != [] {
      var first := Position(from.row + offsets[0].0, from.col + offsets[0].1);
      var rest := Leaps(board, from, piece, offsets[1..]);
      LeapsDestinations(board, from, piece, offsets[1..], to);
      if IsValidPosition(first) && Enterable(board, first, piece.color) {
        var target := GetPieceAt(board, first);
        assert Leaps(board, from, piece, offsets) == [Candidate(from, first, piece, target)] + rest;
        HasDestinationAppend([Candidate(from, first, piece, target)], rest, to);
      } else {
        assert Leaps(board, from, piece, offsets) == rest;
      }
      if exists i :: 0 <= i < |offsets[1..]| && to == Position(from.row + offsets[1..][i].0, from.col + offsets[1..][i].1) {
        var i :| 0 <= i < |offsets[1..]| && to == Position(from.row + offsets[1..][i].0, from.col + offsets[1..][i].1);
        assert to == Position(from.row + offsets[i + 1].0, from.col + offsets[i + 1].1);
      }
      if exists i :: 0 <= i < |offsets| && to == Position(from.row + offsets[i].0, from.col + offsets[i].1) {
        var i :| 0 <= i < |offsets| && to == Position(from.row + offsets[i].0, from.col + offsets[i].1);
        if i > 0 {
          assert to == Position(from.row + offsets[1..][i - 1].0, from.col + offsets[1..][i - 1].1);
        } else if Enterable(board, to, piece.color) {
          assert Leaps(board, from, piece, offsets)[0].to == to;
        }
      }
    }
  }

  /** The knight's offset table lists exactly the (1, 2) and (2, 1) jumps. */
  lemma KnightTable(from: Position, to: Position)
    ensures KnightJump(from, to) <==>
      exists i :: 0 <= i < |KnightOffsets| && to == Position(from.row + KnightOffsets[i].0, from.col + KnightOffsets[i].1)
  {
    var dr := to.row - from.row;
    var dc := to.col - from.col;
    if KnightJump(from, to) {
      var i :=
        if dr == -2 && dc == -1 then 0 else if dr == -2 && dc == 1 then 1
        else if dr == -1 && dc == -2 then 2 else if dr == -1 && dc == 2 then 3
        else if dr == 1 && dc == -2 then 4 else if dr == 1 && dc == 2 then 5
        else if dr == 2 && dc == -1 then 6 else 7;
      assert to == Position(from.row + KnightOffsets[i].0, from.col + KnightOffsets[i].1);
    }
  }

  /** The king's offset table lists exactly the squares one king step away. */
  lemma KingTable(from: Position, to: Position)
    ensures Distance(from, to) == 1 <==>
      exists i :: 0 <= i < |KingOffsets| && to == Position(from.row + KingOffsets[i].0, from.col + KingOffsets[i].1)
  {
    var dr := to.row - from.row;
    var dc := to.col - from.col;
    if Distance(from, to) == 1 {
      var i :=
        if dr == -1 && dc == -1 then 0 else if dr == -1 && dc == 0 then 1
        else if dr == -1 && dc == 1 then 2 else if dr == 0 && dc == -1 then 3
        else if dr == 0 && dc == 1 then 4 else if dr == 1 && dc == -1 then 5
        else if dr == 1 && dc == 0 then 6 else 7;
      assert to == Position(from.row + KingOffsets[i].0, from.col + KingOffsets[i].1);
    }
  }

  // ----- All pieces -----------------------------------------------------

  /** The generators list a destination exactly when the piece's movement
      rule allows it. */
  lemma PossibleMovesReach(board: Board, from: Position, piece: Piece, to: Position)
    ensures HasDestination(PossibleMoves(board, from, piece), to) <==> Reaches(board, from, piece, to)
  {
    match piece.kind
    case Pawn => PawnDestinations(board, from, piece, to);
    case Rook => RookDestinations(board, from, piece, to);
    case Bishop => BishopDestinations(board, from, piece, to);
    case Queen =>
      HasDestinationAppend(RookMoves(board, from, piece), BishopMoves(board, from, piece), to);
      RookDestinations(board, from, piece, to);
      BishopDestinations(board, from, piece, to);
    case Knight =>
      LeapsDestinations(board, from, piece, KnightOffsets, to);
      KnightTable(from, to);
    case King =>
      LeapsDestinations(board, from, piece, KingOffsets, to);
      KingTable(from, to);
  }

  /** A rook, bishop or queen move passes only over empty squares, along a
      line of the piece's kind. */
  lemma SlidingMovesPassOverEmptySquares(board: Board, from: Position, piece: Piece, m: Move)
    requires piece.kind == Rook || piece.kind == Bishop || piece.kind == Queen
    requires m in PossibleMoves(board, from, piece)
    ensures PathClear(board, from, m.to)
    ensures piece.kind == Rook ==> Orthogonal(from, m.to)
    ensures piece.kind == Bishop ==> Diagonal(from, m.to)
    ensures Orthogonal(from, m.to) || Diagonal(from, m.to)
  {
    var moves := PossibleMoves(board, from, piece);
    var i :| 0 <= i < |moves| && moves[i] == m;
    assert HasDestination(moves, m.to);
    PossibleMovesReach(board, from, piece, m.to);
  }
  /** Every destination a piece reaches is an enterable square other than
      its own. */
  lemma ReachedSquareIsEnterable(board: Board, from: Position, piece: Piece, to: Position)
    requires Reaches(board, from, piece, to)
    ensures to != from && Enterable(board, to, piece.color)
  {
  }

  // ----- Attacks --------------------------------------------------------

  /** The squares a piece controls in the usual chess sense: a pawn controls
      the two squares diagonally in front of it whether or not they are
      occupied; every other piece controls the squares it could move to if
      they held an opposing piece. */
  predicate Attacks(board: Board, from: Position, piece: Piece, target: Position) {
    && IsValidPosition(target)
    && match piece.kind
       case Pawn => target.row == from.row + PawnDirection(piece.color) && Abs(target.col - from.col) == 1
       case Knight => KnightJump(from, target)
       case King => Distance(from, target) == 1
       case Rook => Orthogonal(from, target) && Distance(from, target) < 8 && PathClear(board, from, target)
       case Bishop => Diagonal(from, target) && Distance(from, target) < 8 && PathClear(board, from, target)
       case Queen =>
         (Orthogonal(from, target) || Diagonal(from, target)) && Distance(from, target) < 8 && PathClear(board, from, target)
  }

  /** On a square held by an opposing piece, moving there and attacking it
      are the same thing; this is why reusing the move list to detect check
      is sound, since a king's square is always occupied. */
  lemma ReachOccupiedIsAttack(board: Board, from: Position, piece: Piece, target: Position)
    requires GetPieceAt(board, target).Some? && GetPieceAt(board, target).value.color != piece.color
    ensures Reaches(board, from, piece, target) <==> Attacks(board, from, piece, target)
  {
  }

  /** On an empty square diagonally in front of a pawn the two notions part:
      the pawn attacks the square but its move list does not contain it. */
  lemma PawnDiagonalOnEmptySquare(board: Board, from: Position, piece: Piece, target: Position)
    requires piece.kind == Pawn
    requires IsValidPosition(target) && GetPieceAt(board, target).None?
    requires target.row == from.row + PawnDirection(piece.color) && Abs(target.col - from.col) == 1
    ensures Attacks(board, from, piece, target)
    ensures !HasDestination(PossibleMoves(board, from, piece), target)
  {
    PossibleMovesReach(board, from, piece, target);
  }
}
