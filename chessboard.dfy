/**
 * The Chessboard class of js/chessboard.js: a position held in a mutable
 * field, changed in place by removePiece/setSquare/move, and the loops that
 * detect check, generate moves and judge material. Each method is proved
 * against the declarative definitions of the Board, Attacks, MoveRules and
 * Material modules.
 */
module Chessboards {
  import opened Wrappers
  import opened ChessData
  import opened ChessPiece
  import opened Board
  import opened Attacks
  import opened MoveRules
  import opened Material

  class Chessboard {
    var pieces: Pieces

    constructor (pieces: Pieces)
      ensures this.pieces == pieces
    {
      this.pieces := pieces;
    }

    /** getPiece: the piece on a square; None for a missing square or an empty one. */
    function GetPiece(square: Option<Square>): Option<PieceState>
      reads this
    {
      if square.Some? && square.value in pieces then Some(pieces[square.value]) else None
    }

    /** findSquare: some square holding the named piece of `player`, or None when there is none. */
    method FindSquare(player: Player, name: Name) returns (square: Option<Square>)
      ensures square.Some? ==> square.value in pieces && pieces[square.value].player == player && pieces[square.value].name == name
      ensures square.None? <==> forall s :: s in pieces ==> !(pieces[s].player == player && pieces[s].name == name)
    {
      var todo := pieces.Keys;
      while todo != {}
        invariant todo <= pieces.Keys
        invariant forall s :: s in pieces && s !in todo ==> !(pieces[s].player == player && pieces[s].name == name)
        decreases |todo|
      {
        var s :| s in todo;
        if pieces[s].name == name && pieces[s].player == player {
          return Some(s);
        }
        todo := todo - {s};
      }
      return None;
    }

    /** With a single king, findSquare finds it. */
    method FindKing(player: Player) returns (k: Square)
      requires HasOneKing(pieces, player)
      ensures KingAt(pieces, k, player)
    {
      var square := FindSquare(player, King);
      if square.None? {
        assert false;
      }
      k := square.value;
    }

    method RemovePiece(square: Square)
      modifies this
      ensures pieces == Board.RemovePiece(old(pieces), square)
    {
      pieces := pieces - {square};
    }

    method SetSquare(square: Square, newSquare: Square)
      requires square in pieces
      modifies this
      ensures pieces == Board.SetSquare(old(pieces), square, newSquare)
    {
      pieces := pieces[newSquare := pieces[square]];
      pieces := pieces[newSquare := pieces[newSquare].WithWasMoved()];
      RemovePiece(square);
    }

    /** move: plays a move of the given kind in place. */
    method Move(square: Square, newSquare: Square, kind: MoveKind, moveNumber: int)
      requires CanApply(pieces, square, newSquare, kind)
      modifies this
      ensures pieces == Apply(old(pieces), square, newSquare, kind, moveNumber)
    {
      SetSquare(square, newSquare);
      match kind {
        case Moving =>
        case Capture =>
        case PawnBoost =>
          pieces := pieces[newSquare := pieces[newSquare].WithPawnBoostMoveNumber(moveNumber)];
        case EnPassant =>
          RemovePiece(Coord(newSquare.col, square.line));
        case Promotion =>
          pieces := pieces[newSquare := pieces[newSquare].WithName(Queen)];
        case CaptureWithPromotion =>
          pieces := pieces[newSquare := pieces[newSquare].WithName(Queen)];
        case KingsideCastling =>
          SetSquare(GetSquare(newSquare.col + 1, square.line).value, GetSquare(newSquare.col - 1, square.line).value);
        case QueensideCastling =>
          SetSquare(GetSquare(newSquare.col - 2, square.line).value, GetSquare(newSquare.col + 1, square.line).value);
      }
    }

    /** cloneDeepChessboard: a new board holding a copy of the position. */
    method CloneDeepChessboard() returns (newChessboard: Chessboard)
      ensures fresh(newChessboard) && newChessboard.pieces == pieces
    {
      newChessboard := new Chessboard(pieces);
    }

    // ------------------------------------------------------------ check detection

    /** checkByBishop: walks from the king toward the bishop until it meets a piece or the bishop. */
    method CheckByBishop(king: Square, bishop: Square) returns (isChecked: bool)
      ensures isChecked == BishopAttacks(pieces, king, bishop)
    {
      if Abs(king.col - bishop.col) != Abs(king.line - bishop.line) {
        return false;
      }
      isChecked := true;
      var n := 1;
      var j: int := if king.col < bishop.col then 1 else -1;
      var i: int := if king.line < bishop.line then 1 else -1;
      ghost var d := Abs(king.col - bishop.col);
      while isChecked && king.col + n * j != bishop.col && king.line + n * i != bishop.line
        invariant Walking(pieces, king, j, i, d, n, isChecked)
        decreases 9 - n
      {
        BishopWalkStep(pieces, king, bishop, j, i, d, n);
        if !IsEmptySquare(pieces, GetSquare(king.col + n * j, king.line + n * i)) {
          isChecked := false;
        }
        n := n + 1;
      }
      BishopWalkEnd(pieces, king, bishop, n, isChecked);
    }

    /** checkByRook: walks along the shared column (or line) from the king toward the rook. */
    method CheckByRook(king: Square, rook: Square) returns (isChecked: bool)
      ensures isChecked == RookAttacks(pieces, king, rook)
    {
      if king.col != rook.col && king.line != rook.line {
        return false;
      }
      if king.col == rook.col {
        isChecked := CheckAlongColumn(king, rook);
      } else {
        isChecked := CheckAlongLine(king, rook);
      }
    }

    /** The column walk of checkByRook. */
    method CheckAlongColumn(king: Square, rook: Square) returns (isChecked: bool)
      requires king.col == rook.col
      ensures isChecked == RookAttacks(pieces, king, rook)
    {
      isChecked := true;
      var n := 1;
      var i: int := if king.line < rook.line then 1 else -1;
      ghost var d := Abs(king.line - rook.line);
      while isChecked && king.line + n * i != rook.line
        invariant Walking(pieces, king, 0, i, d, n, isChecked)
        decreases 9 - n
      {
        TowardReaches(king.line, rook.line, n);
        WalkAdvance(pieces, king, 0, i, d, n);
        if !IsEmptySquare(pieces, GetSquare(king.col, king.line + n * i)) {
          isChecked := false;
        }
        n := n + 1;
      }
      RookWalkEnd(pieces, king, rook, n, isChecked);
    }

    /** The line walk of checkByRook. */
    method CheckAlongLine(king: Square, rook: Square) returns (isChecked: bool)
      requires king.col != rook.col && king.line == rook.line
      ensures isChecked == RookAttacks(pieces, king, rook)
    {
      isChecked := true;
      var n := 1;
      var j: int := if king.col < rook.col then 1 else -1;
      ghost var d := Abs(king.col - rook.col);
      while isChecked && king.col + n * j != rook.col
        invariant Walking(pieces, king, j, 0, d, n, isChecked)
        decreases 9 - n
      {
        TowardReaches(king.col, rook.col, n);
        WalkAdvance(pieces, king, j, 0, d, n);
        if !IsEmptySquare(pieces, GetSquare(king.col + n * j, king.line)) {
          isChecked := false;
        }
        n := n + 1;
      }
      RookWalkEnd(pieces, king, rook, n, isChecked);
    }

    /** checkByQueen: a bishop's or a rook's threat. */
    method CheckByQueen(king: Square, queen: Square) returns (isChecked: bool)
      ensures isChecked == (BishopAttacks(pieces, king, queen) || RookAttacks(pieces, king, queen))
    {
      isChecked := CheckByBishop(king, queen);
      if !isChecked {
        isChecked := CheckByRook(king, queen);
      }
    }

    /** isChecked: whether some piece of the opponent threatens the king of `player`. */
    method IsChecked(player: Player) returns (isChecked: bool)
      requires HasOneKing(pieces, player)
      ensures isChecked == InCheck(pieces, player)
    {
      var kingSquare := FindKing(player);
      InCheckAtKing(pieces, kingSquare, player);
      isChecked := false;
      var todo := pieces.Keys;
      while todo != {}
        invariant todo <= pieces.Keys
        invariant isChecked <==> exists s :: s in pieces && s !in todo && pieces[s].player == 1 - player
                                             && Threatens(pieces, s, kingSquare, player)
        decreases |todo|
      {
        var square :| square in todo;
        var piece := pieces[square];
        if piece.player == 1 - player {
          if isChecked {
            return;
          }
          match piece.name {
            case Pawn =>
              isChecked := CheckByPawn(kingSquare.col, kingSquare.line, square.col, square.line, player);
            case Knight =>
              isChecked := CheckByKnight(kingSquare.col, kingSquare.line, square.col, square.line);
            case Bishop =>
              isChecked := CheckByBishop(kingSquare, square);
            case Rook =>
              isChecked := CheckByRook(kingSquare, square);
            case Queen =>
              isChecked := CheckByQueen(kingSquare, square);
            case King =>
          }
        }
        todo := todo - {square};
      }
    }
 
    // ------------------------------------------------------------ move generation

    /** The test every generator applies to a candidate: play it on a deep copy and ask whether `player` is then in check. */
    method LeavesNoCheck(square: Square, newSquare: Square, kind: MoveKind, player: Player, moveNumber: int) returns (safe: bool)
      requires HasOneKing(pieces, player) && KeepsKings(pieces, square, newSquare, kind)
      ensures safe == Legal(pieces, square, newSquare, kind, player, moveNumber)
    {
      var newChessboard := CloneDeepChessboard();
      newChessboard.Move(square, newSquare, kind, moveNumber);
      ApplyKeepsOneKing(pieces, square, newSquare, kind, moveNumber, player);
      var checked := newChessboard.IsChecked(player);
      safe := !checked;
    }

    /** One ray of bishopMoves or rookMoves: slides square by square until it leaves the board or meets a piece. */
    method RayMoves(square: Square, player: Player, dc: int, dl: int) returns (moves: MoveMap)
      requires HasOneKing(pieces, player) && square in pieces && IsDirection(dc, dl)
      ensures moves == RayMovesSpec(pieces, square, player, dc, dl)
    {
      moves := map[];
      var n := 1;
      var stop := false;
      while !stop
        invariant 1 <= n <= 9
        invariant !stop ==> n <= 8 && ClearBefore(pieces, square, dc, dl, n)
        invariant !stop ==> moves == RayPart(pieces, square, player, dc, dl, n)
        invariant stop ==> moves == RayMovesSpec(pieces, square, player, dc, dl)
        decreases 9 - n
      {
        var entry;
        entry, stop := RaySquare(square, player, dc, dl, n);
        moves := moves + entry;
        n := n + 1;
      }
    }

    /** The n-th square of a ray: the move onto it, if any, and whether the ray stops there. */
    method RaySquare(square: Square, player: Player, dc: int, dl: int, n: int) returns (entry: MoveMap, stop: bool)
      requires HasOneKing(pieces, player) && square in pieces && IsDirection(dc, dl)
      requires 1 <= n && ClearBefore(pieces, square, dc, dl, n)
      ensures !stop ==> n <= 7 && ClearBefore(pieces, square, dc, dl, n + 1)
                        && RayPart(pieces, square, player, dc, dl, n + 1) == RayPart(pieces, square, player, dc, dl, n) + entry
      ensures stop ==> RayMovesSpec(pieces, square, player, dc, dl) == RayPart(pieces, square, player, dc, dl, n) + entry
    {
      entry := map[];
      var newSquare := GetSquare(square.col + n * dc, square.line + n * dl);
      StepDistance(square, dc, dl, n);
      if IsEmptySquare(pieces, newSquare) {
        StepKeepsKings(pieces, square, newSquare.value);
        RayPartExtend(pieces, square, player, dc, dl, n);
        var safe := LeavesNoCheck(square, newSquare.value, Moving, player, 0);
        if safe {
          entry := entry[newSquare.value := Moving];
        }
        stop := false;
      } else {
        RayPartStop(pieces, square, player, dc, dl, n);
        if IsCapturableSquare(pieces, newSquare, player) {
          StepKeepsKings(pieces, square, newSquare.value);
          var safe := LeavesNoCheck(square, newSquare.value, Capture, player, 0);
          if safe {
            entry := entry[newSquare.value := Capture];
          }
        }
        stop := true;
      }
    }

    /** bishopMoves: the four diagonals, column direction outside, line direction inside. */
    method BishopMoves(square: Square, player: Player) returns (moves: MoveMap)
      requires HasOneKing(pieces, player) && square in pieces
      ensures moves == BishopMovesSpec(pieces, square, player)
    {
      moves := map[];
      ghost var k := 0;
      var j := -1;
      while j <= 1
        invariant (j == -1 && k == 0) || (j == 1 && k == 2) || (j == 3 && k == 4)
        invariant moves == Rays(pieces, square, player, BISHOP_DIRECTIONS[..k])
      {
        var i := -1;
        while i <= 1
          invariant (i == -1 && k == j + 1) || (i == 1 && k == j + 2) || (i == 3 && k == j + 3)
          invariant moves == Rays(pieces, square, player, BISHOP_DIRECTIONS[..k])
        {
          assert BISHOP_DIRECTIONS[k] == (j, i);
          RaysSnoc(pieces, square, player, BISHOP_DIRECTIONS, k);
          var ray := RayMoves(square, player, j, i);
          moves := moves + ray;
          k := k + 1;
          i := i + 2;
        }
        j := j + 2;
      }
      assert BISHOP_DIRECTIONS[..4] == BISHOP_DIRECTIONS;
    }

    /** rookMoves: the column (zeroOrOne = 0) then the line (zeroOrOne = 1), each in both directions. */
    method RookMoves(square: Square, player: Player) returns (moves: MoveMap)
      requires HasOneKing(pieces, player) && square in pieces
      ensures moves == RookMovesSpec(pieces, square, player)
    {
      moves := map[];
      ghost var k := 0;
      var zeroOrOne := 0;
      while zeroOrOne <= 1
        invariant (zeroOrOne == 0 && k == 0) || (zeroOrOne == 1 && k == 2) || (zeroOrOne == 2 && k == 4)
        invariant moves == Rays(pieces, square, player, ROOK_DIRECTIONS[..k])
      {
        var direction := -1;
        while direction <= 1
          invariant (direction == -1 && k == 2 * zeroOrOne) || (direction == 1 && k == 2 * zeroOrOne + 1)
                    || (direction == 3 && k == 2 * zeroOrOne + 2)
          invariant moves == Rays(pieces, square, player, ROOK_DIRECTIONS[..k])
        {
          var dc, dl := zeroOrOne * direction, (1 - zeroOrOne) * direction;
          assert ROOK_DIRECTIONS[k] == (dc, dl);
          RaysSnoc(pieces, square, player, ROOK_DIRECTIONS, k);
          var ray := RayMoves(square, player, dc, dl);
          moves := moves + ray;
          k := k + 1;
          direction := direction + 2;
        }
        zeroOrOne := zeroOrOne + 1;
      }
      assert ROOK_DIRECTIONS[..4] == ROOK_DIRECTIONS;
    }

    /** queenMoves: the bishop's moves, overwritten by the rook's. */
    method QueenMoves(square: Square, player: Player) returns (moves: MoveMap)
      requires HasOneKing(pieces, player) && square in pieces
      ensures moves == QueenMovesSpec(pieces, square, player)
    {
      var bishopMoves := BishopMoves(square, player);
      var rookMoves := RookMoves(square, player);
      moves := bishopMoves + rookMoves;
    }

    /**
     * One knight jump or king step by (dc, dl). For a king, `opposingKing`
     * holds the opposing king's square and a step next to it is refused.
     */
    method JumpMove(square: Square, player: Player, dc: int, dl: int, opposingKing: Option<Square>) returns (entry: MoveMap)
      requires HasOneKing(pieces, player) && square in pieces && (dc, dl) != (0, 0)
      requires opposingKing.Some? ==> HasOneKing(pieces, 1 - player) && KingAt(pieces, opposingKing.value, 1 - player)
      ensures entry == Jump(pieces, square, player, dc, dl, opposingKing.Some?)
    {
      entry := map[];
      var newSquare := GetSquare(square.col + dc, square.line + dl);
      if newSquare.Some? && opposingKing.Some? {
        NextToKingAt(pieces, newSquare.value, 1 - player, opposingKing.value);
      }
      if IsEmptySquare(pieces, newSquare) {
        if opposingKing.None? || !AreCloseSquares(newSquare.value, opposingKing.value) {
          StepKeepsKings(pieces, square, newSquare.value);
          var safe := LeavesNoCheck(square, newSquare.value, Moving, player, 0);
          if safe {
            entry := map[newSquare.value := Moving];
          }
        }
      } else if IsCapturableSquare(pieces, newSquare, player) {
        if opposingKing.None? || !AreCloseSquares(newSquare.value, opposingKing.value) {
          StepKeepsKings(pieces, square, newSquare.value);
          var safe := LeavesNoCheck(square, newSquare.value, Capture, player, 0);
          if safe {
            entry := map[newSquare.value := Capture];
          }
        }
      }
    }

    /** knightMoves: columns -2..2 (skipping 0), and for each the two lines at distance 3 - |j|. */
    method KnightMoves(square: Square, player: Player) returns (moves: MoveMap)
      requires HasOneKing(pieces, player) && square in pieces
      ensures moves == KnightMovesSpec(pieces, square, player)
    {
      moves := map[];
      ghost var k := 0;
      var j := -2;
      while j <= 2
        invariant -2 <= j <= 3 && k == KnightIndex(j)
        invariant Walked(pieces, square, player, KNIGHT_OFFSETS, false, moves, k)
      {
        if j != 0 {
          var lines := [3 - Abs(j), 0 - (3 - Abs(j))];
          for m := 0 to |lines|
            invariant k == KnightIndex(j) + m
            invariant Walked(pieces, square, player, KNIGHT_OFFSETS, false, moves, k)
          {
            var i := lines[m];
            KnightOffsetAt(j, m);
            moves := OffsetJump(square, player, j, i, KNIGHT_OFFSETS, k, None, moves);
            k := k + 1;
          }
        }
        j := j + 1;
      }
      WalkedAll(pieces, square, player, KNIGHT_OFFSETS, false, moves);
    }

    /** One jump of knightMoves or kingMoves: the move by the k-th offset joins the moves found so far. */
    method OffsetJump(square: Square, player: Player, j: int, i: int, ghost offsets: seq<(int, int)>, ghost k: int,
                      opposingKing: Option<Square>, moves: MoveMap) returns (moves': MoveMap)
      requires HasOneKing(pieces, player) && square in pieces && (j, i) != (0, 0)
      requires opposingKing.Some? ==> HasOneKing(pieces, 1 - player) && KingAt(pieces, opposingKing.value, 1 - player)
      requires 0 <= k < |offsets| && offsets[k] == (j, i)
      requires Walked(pieces, square, player, offsets, opposingKing.Some?, moves, k)
      ensures Walked(pieces, square, player, offsets, opposingKing.Some?, moves', k + 1)
    {
      var entry := JumpMove(square, player, j, i, opposingKing);
      WalkedStep(pieces, square, player, offsets, opposingKing.Some?, moves, k, entry);
      moves' := moves + entry;
    }

    /** The king steps of kingMoves: the eight neighbours, none next to the opposing king. */
    method KingSteps(square: Square, player: Player, opposingKingSquare: Square) returns (moves: MoveMap)
      requires Wellformed(pieces) && square in pieces && KingAt(pieces, opposingKingSquare, 1 - player)
      ensures moves == KingStepsSpec(pieces, square, player)
    {
      moves := map[];
      ghost var k := 0;
      var j := -1;
      while j <= 1
        invariant -1 <= j <= 2 && k == KingIndex(j, -1)
        invariant Walked(pieces, square, player, KING_OFFSETS, true, moves, k)
      {
        var i := -1;
        while i <= 1
          invariant -1 <= i <= 2 && k == KingIndex(j, i)
          invariant Walked(pieces, square, player, KING_OFFSETS, true, moves, k)
        {
          if j != 0 || i != 0 {
            KingOffsetAt(j, i);
            moves := OffsetJump(square, player, j, i, KING_OFFSETS, k, Some(opposingKingSquare), moves);
            k := k + 1;
          }
          i := i + 1;
        }
        j := j + 1;
      }
      WalkedAll(pieces, square, player, KING_OFFSETS, true, moves);
    }

    /**
     * One castling test of kingMoves, for a king unmoved on e1/e8 in a game
     * other than Chess960: kingside (dir = 1) crosses f and g towards the
     * corner piece on h; queenside (dir = -1) crosses d, c and b towards a.
     */
    method CastlingMove(square: Square, player: Player, variant: string, dir: int, opposingKingSquare: Square)
      returns (entry: MoveMap)
      requires dir == 1 || dir == -1
      requires Wellformed(pieces) && KingAt(pieces, opposingKingSquare, 1 - player)
      requires variant != "960" && square == InitialKingSquare(player) && square in pieces && !pieces[square].wasMoved
      ensures entry == if CanCastle(pieces, square, player, variant, dir)
                       then map[Coord(5 + 2 * dir, square.line) := if dir == 1 then KingsideCastling else QueensideCastling]
                       else map[]
    {
      entry := map[];
      var column, line := square.col, square.line;
      var kind := if dir == 1 then KingsideCastling else QueensideCastling;
      if IsEmptySquare(pieces, GetSquare(column + dir, line)) && IsEmptySquare(pieces, GetSquare(column + 2 * dir, line))
         && (dir == -1 ==> IsEmptySquare(pieces, GetSquare(column - 3, line)))
      {
        var rook := GetPiece(GetSquare(column + (if dir == 1 then 3 else -4), line));
        if rook.Some? && !rook.value.wasMoved {
          var newSquare := GetSquare(column + dir, line).value;
          StepKeepsKings(pieces, square, newSquare);
          var safe := LeavesNoCheck(square, newSquare, Moving, player, 0);
          if safe {
            newSquare := GetSquare(column + 2 * dir, line).value;
            NextToKingAt(pieces, newSquare, 1 - player, opposingKingSquare);
            if !AreCloseSquares(newSquare, opposingKingSquare) {
              CastlingKeepsKings(pieces, square, player, dir);
              safe := LeavesNoCheck(square, newSquare, kind, player, 0);
              if safe {
                entry := map[newSquare := kind];
              }
            }
          }
        }
      }
    }

    /** kingMoves: the king steps, then (outside Chess960) kingside and queenside castling. */
    method KingMoves(square: Square, player: Player, variant: string) returns (moves: MoveMap)
      requires Wellformed(pieces) && square in pieces
      ensures moves == KingMovesSpec(pieces, square, player, variant)
    {
      var opposingKingSquare := FindKing(1 - player);
      moves := KingSteps(square, player, opposingKingSquare);
      var kingside: MoveMap := map[];
      var queenside: MoveMap := map[];
      if variant != "960" {
        var initialKingSquare := InitialKingSquare(player);
        if square == initialKingSquare {
          if !pieces[square].wasMoved {
            kingside := CastlingMove(square, player, variant, 1, opposingKingSquare);
            queenside := CastlingMove(square, player, variant, -1, opposingKingSquare);
          }
        }
      }
      moves := moves + kingside + queenside;
    }

    /**
     * pawnMoves: on lines 2..7, the one-step advance (a promotion on the final
     * line) and from the starting line the two-step boost, then the two
     * diagonal captures. The source's en-passant test looks the neighbour up
     * with a bare column number as key; no square is named by a digit, so the
     * lookup finds nothing and en passant is never offered.
     */
    method PawnMoves(square: Square, player: Player, moveNumber: int) returns (moves: MoveMap)
      requires HasOneKing(pieces, player) && square in pieces && pieces[square].name == Pawn
      ensures moves == PawnMovesSpec(pieces, square, player, moveNumber)
    {
      moves := map[];
      var column, line := square.col, square.line;
      var lineIncrement, startingLine, finishLine := LineIncrement(player), StartingLine(player), FinishLine(player);
      if !(line < WHITE_FINISH_LINE && line > BLACK_FINISH_LINE) {
        PawnMovesOffLines(pieces, square, player, moveNumber);
        return;
      }
      moves := PawnAdvances(square, player, moveNumber);
      PawnStraightMoves(pieces, square, player, moveNumber);
      var j := -1;
      while j <= 1
        invariant j == -1 || j == 1 || j == 3
        invariant moves == PawnMovesWithin(pieces, square, player, moveNumber, j)
      {
        PawnDiagonalMove(pieces, square, player, moveNumber, j);
        var entry := PawnCapture(square, player, moveNumber, j);
        moves := moves + entry;
        var piece := GetPiece(SquareOfKey(NumberKey(column + j)));
        assert piece.None?;
        j := j + 2;
      }
      PawnMovesAllColumns(pieces, square, player, moveNumber);
    }

    /** One diagonal of pawnMoves: the capture towards column `square.col + j`, with promotion on the final line. */
    method PawnCapture(square: Square, player: Player, moveNumber: int, j: int) returns (entry: MoveMap)
      requires HasOneKing(pieces, player) && square in pieces && pieces[square].name == Pawn
      requires BLACK_FINISH_LINE < square.line < WHITE_FINISH_LINE && (j == -1 || j == 1)
      ensures entry == DiagonalCapture(pieces, square, player, moveNumber, j)
    {
      entry := map[];
      var lineIncrement, finishLine := LineIncrement(player), FinishLine(player);
      var newSquare := GetSquare(square.col + j, square.line + lineIncrement);
      if IsCapturableSquare(pieces, newSquare, player) {
        if square.line + lineIncrement == finishLine {
          var safe := LeavesNoCheck(square, newSquare.value, CaptureWithPromotion, player, moveNumber);
          if safe {
            entry := map[newSquare.value := CaptureWithPromotion];
          }
        } else {
          var safe := LeavesNoCheck(square, newSquare.value, Capture, player, moveNumber);
          if safe {
            entry := map[newSquare.value := Capture];
          }
        }
      }
    }

    /** The straight part of pawnMoves: the one-step advance, or promotion, and the two-step boost. */
    method PawnAdvances(square: Square, player: Player, moveNumber: int) returns (moves: MoveMap)
      requires HasOneKing(pieces, player) && square in pieces && pieces[square].name == Pawn
      requires BLACK_FINISH_LINE < square.line < WHITE_FINISH_LINE
      ensures moves == PawnStraightPart(pieces, square, player, moveNumber)
    {
      moves := map[];
      var column, line := square.col, square.line;
      var lineIncrement, startingLine, finishLine := LineIncrement(player), StartingLine(player), FinishLine(player);
      var newSquare := GetSquare(column, line + lineIncrement);
      if IsEmptySquare(pieces, newSquare) {
        if line + lineIncrement == finishLine {
          var safe := LeavesNoCheck(square, newSquare.value, Promotion, player, moveNumber);
          if safe {
            moves := moves[newSquare.value := Promotion];
          }
        } else {
          StepKeepsKings(pieces, square, newSquare.value);
          var safe := LeavesNoCheck(square, newSquare.value, Moving, player, moveNumber);
          if safe {
            moves := moves[newSquare.value := Moving];
          }
          ghost var step := moves;
          if line == startingLine {
            newSquare := GetSquare(column, line + 2 * lineIncrement);
            if IsEmptySquare(pieces, newSquare) {
              safe := LeavesNoCheck(square, newSquare.value, PawnBoost, player, moveNumber);
              if safe {
                moves := moves[newSquare.value := PawnBoost];
                assert moves == step + map[newSquare.value := PawnBoost];
              }
            }
          }
        }
      }
    }

    /** The switch of allMoves: the generator for the kind of the piece on `square`. */
    method PieceMovesOf(square: Square, player: Player, moveNumber: int, variant: string) returns (pieceMoves: MoveMap)
      requires Wellformed(pieces) && square in pieces && pieces[square].player == player
      ensures pieceMoves == PieceMoves(pieces, square, moveNumber, variant)
    {
      match pieces[square].name {
        case Pawn => pieceMoves := PawnMoves(square, player, moveNumber);
        case Knight => pieceMoves := KnightMoves(square, player);
        case Bishop => pieceMoves := BishopMoves(square, player);
        case Rook => pieceMoves := RookMoves(square, player);
        case Queen => pieceMoves := QueenMoves(square, player);
        case King => pieceMoves := KingMoves(square, player, variant);
      }
    }

    /** allMoves: for every piece of `player` that has a move, its moves. */
    method AllMoves(player: Player, moveNumber: int, variant: string) returns (allMoves: map<Square, MoveMap>)
      requires Wellformed(pieces)
      ensures allMoves == AllMovesSpec(pieces, player, moveNumber, variant)
    {
      allMoves := map[];
      var todo := pieces.Keys;
      ghost var done: set<Square> := {};
      while todo != {}
        invariant todo <= pieces.Keys && done == pieces.Keys - todo
        invariant allMoves == AllMovesAmong(pieces, player, moveNumber, variant, done)
        decreases |todo|
      {
        var square :| square in todo;
        AllMovesAmongAdd(pieces, player, moveNumber, variant, done, square);
        if pieces[square].player == player {
          var pieceMoves := PieceMovesOf(square, player, moveNumber, variant);
          if pieceMoves != map[] {
            allMoves := allMoves[square := pieceMoves];
          }
        }
        todo := todo - {square};
        done := done + {square};
      }
      assert done == pieces.Keys;
      AllMovesAmongAll(pieces, player, moveNumber, variant);
    }

    // ------------------------------------------------------------ material

    /** The counting loop of drawByInsufficientMaterial: each side's pieces, knights and bishops. */
    method CountPieceNumbers() returns (whitePieceNumber: PieceNumber, blackPieceNumber: PieceNumber)
      ensures whitePieceNumber == PieceNumberIn(pieces, pieces.Keys, WHITE)
      ensures blackPieceNumber == PieceNumberIn(pieces, pieces.Keys, BLACK)
    {
      whitePieceNumber := PieceNumber(0, 0, 0);
      blackPieceNumber := PieceNumber(0, 0, 0);
      var todo := pieces.Keys;
      ghost var done: set<Square> := {};
      CountInEmpty(pieces, WHITE, None);
      CountInEmpty(pieces, WHITE, Some(Knight));
      CountInEmpty(pieces, WHITE, Some(Bishop));
      CountInEmpty(pieces, BLACK, None);
      CountInEmpty(pieces, BLACK, Some(Knight));
      CountInEmpty(pieces, BLACK, Some(Bishop));
      while todo != {}
        invariant todo <= pieces.Keys && done == pieces.Keys - todo
        invariant whitePieceNumber == PieceNumberIn(pieces, done, WHITE)
        invariant blackPieceNumber == PieceNumberIn(pieces, done, BLACK)
        decreases |todo|
      {
        var square :| square in todo;
        var piece := pieces[square];
        PieceNumberAdd(pieces, done, square, WHITE);
        PieceNumberAdd(pieces, done, square, BLACK);
        if piece.player == 0 {
          whitePieceNumber := whitePieceNumber.(total := whitePieceNumber.total + 1);
          match piece.name {
            case Knight => whitePieceNumber := whitePieceNumber.(knight := whitePieceNumber.knight + 1);
            case Bishop => whitePieceNumber := whitePieceNumber.(bishop := whitePieceNumber.bishop + 1);
            case _ =>
          }
        } else {
          blackPieceNumber := blackPieceNumber.(total := blackPieceNumber.total + 1);
          match piece.name {
            case Knight => blackPieceNumber := blackPieceNumber.(knight := blackPieceNumber.knight + 1);
            case Bishop => blackPieceNumber := blackPieceNumber.(bishop := blackPieceNumber.bishop + 1);
            case _ =>
          }
        }
        todo := todo - {square};
        done := done + {square};
      }
      assert done == pieces.Keys;
    }

    /** drawByInsufficientMaterial: counts each side's pieces, knights and bishops, then applies the rule. */
    method DrawByInsufficientMaterial() returns (isDraw: bool)
      ensures isDraw == InsufficientMaterial(pieces)
    {
      var w, b := CountPieceNumbers();
      isDraw := false;
      if w.total <= 2 && b.total <= 2 {
        if w.total == 1 && b.total == 1 {
          isDraw := true;
        } else if w.total != 2 || b.total != 2 {
          if w.knight == 1 || b.knight == 1 || w.bishop == 1 || b.bishop == 1 {
            isDraw := true;
          }
        } else if w.bishop == 1 && b.bishop == 1 {
          // The same-coloured-bishops test is switched off: the bishops are located and nothing else happens.
          var whiteBishopSquare := FindSquare(WHITE, Bishop);
          var blackBishopSquare := FindSquare(BLACK, Bishop);
        }
      }
    }

    /** The counting loop of calculateWhiteAdvantage: the non-king pieces of each side by name. */
    method CountPiecesByName() returns (piecesNumber: seq<map<Name, int>>)
      ensures piecesNumber == [NameCounts(pieces, pieces.Keys, WHITE), NameCounts(pieces, pieces.Keys, BLACK)]
    {
      var zero := map[Pawn := 0, Bishop := 0, Knight := 0, Rook := 0, Queen := 0];
      piecesNumber := [zero, zero];
      var todo := pieces.Keys;
      ghost var done: set<Square> := {};
      NameCountsEmpty(pieces, WHITE);
      NameCountsEmpty(pieces, BLACK);
      while todo != {}
        invariant todo <= pieces.Keys && done == pieces.Keys - todo
        invariant piecesNumber == [NameCounts(pieces, done, WHITE), NameCounts(pieces, done, BLACK)]
        decreases |todo|
      {
        var square :| square in todo;
        piecesNumber := CountPiece(square, piecesNumber, done);
        todo := todo - {square};
        done := done + {square};
      }
      assert done == pieces.Keys;
    }

    /** One turn of the counting loop of calculateWhiteAdvantage: `piecesNumber[player][name]++` unless the piece is a king. */
    method CountPiece(square: Square, piecesNumber: seq<map<Name, int>>, ghost done: set<Square>) returns (counted: seq<map<Name, int>>)
      requires square in pieces && square !in done
      requires piecesNumber == [NameCounts(pieces, done, WHITE), NameCounts(pieces, done, BLACK)]
      ensures counted == [NameCounts(pieces, done + {square}, WHITE), NameCounts(pieces, done + {square}, BLACK)]
    {
      var piece := pieces[square];
      TallyStep(pieces, done, square, piecesNumber, piece.player, piece.name);
      counted := piecesNumber;
      if piece.name != King {
        counted := counted[piece.player := counted[piece.player][piece.name := counted[piece.player][piece.name] + 1]];
      }
    }

    /** calculateWhiteAdvantage: counts the non-king pieces by player and name, then weighs the differences. */
    method CalculateWhiteAdvantage() returns (advantage: int)
      ensures advantage == WhiteAdvantage(pieces)
    {
      var piecesNumber := CountPiecesByName();
      advantage := PAWN_VALUE * (piecesNumber[0][Pawn] - piecesNumber[1][Pawn])
                   + KNIGHT_VALUE * (piecesNumber[0][Knight] - piecesNumber[1][Knight])
                   + BISHOP_VALUE * (piecesNumber[0][Bishop] - piecesNumber[1][Bishop])
                   + ROOK_VALUE * (piecesNumber[0][Rook] - piecesNumber[1][Rook])
                   + QUEEN_VALUE * (piecesNumber[0][Queen] - piecesNumber[1][Queen]);
    }
  }
}
