/**
 * Check detection as js/chessboard.js states it (isChecked and the
 * checkByPawn/Knight/Bishop/Rook/Queen tests), as functions on positions.
 * The sliding tests walk from the king toward the attacker; every square
 * strictly between the two must be empty.
 */
module Attacks {
  import opened Wrappers
  import opened ChessData
  import opened ChessPiece
  import opened Board

  /** The square `n` steps from `from` in direction (dc, dl), if it is on the board. */
  function Step(from: Square, dc: int, dl: int, n: int): Option<Square>
  {
    GetSquare(from.col + n * dc, from.line + n * dl)
  }

  /** One of the eight king-step directions. */
  predicate IsDirection(dc: int, dl: int)
  {
    -1 <= dc <= 1 && -1 <= dl <= 1 && (dc != 0 || dl != 0)
  }

  /** The squares 1 .. n-1 steps from `from` in direction (dc, dl) are all on the board and empty. */
  predicate ClearBefore(b: Pieces, from: Square, dc: int, dl: int, n: int)
  {
    forall m :: 1 <= m < n ==> IsEmptySquare(b, Step(from, dc, dl, m))
  }

  /** A step along a direction lands exactly that many king steps away. */
  lemma StepDistance(square: Square, dc: int, dl: int, n: int)
    requires IsDirection(dc, dl) && n >= 0
    ensures Step(square, dc, dl, n).Some? ==> Distance(square, Step(square, dc, dl, n).value) == n && n <= 7
  {
    if Step(square, dc, dl, n).Some? {
      var t := Step(square, dc, dl, n).value;
      assert t.col - square.col == n * dc && t.line - square.line == n * dl;
      if dc == 0 {
        assert n * dc == 0;
      } else if dc == 1 {
        assert n * dc == n;
      } else {
        assert n * dc == -n;
      }
      if dl == 0 {
        assert n * dl == 0;
      } else if dl == 1 {
        assert n * dl == n;
      } else {
        assert n * dl == -n;
      }
    }
  }

  lemma ClearBeforeExtend(b: Pieces, square: Square, dc: int, dl: int, n: int)
    requires ClearBefore(b, square, dc, dl, n) && IsEmptySquare(b, Step(square, dc, dl, n))
    ensures ClearBefore(b, square, dc, dl, n + 1)
  {
  }

  /**
   * The state of a walk from the king in direction (j, i) toward a piece `d` steps away
   * (`d` is 0 when the piece stands on the king's square): while `clear` holds, the squares
   * before the n-th are empty; once it fails, the last square tried was occupied or off the board.
   */
  predicate Walking(b: Pieces, king: Square, j: int, i: int, d: int, n: int, clear: bool)
  {
    && 1 <= n <= 9
    && (clear ==> n <= 8 && ClearBefore(b, king, j, i, n) && (d > 0 ==> n <= d))
    && (!clear ==> 2 <= n && !IsEmptySquare(b, Step(king, j, i, n - 1)) && (d > 0 ==> n - 1 < d))
  }

  /** One turn of a walk that has not reached the piece: it goes on exactly when the next square is empty. */
  lemma WalkAdvance(b: Pieces, king: Square, j: int, i: int, d: int, n: int)
    requires IsDirection(j, i) && Walking(b, king, j, i, d, n, true) && n != d
    ensures Walking(b, king, j, i, d, n + 1, IsEmptySquare(b, Step(king, j, i, n)))
    ensures j == 0 ==> Step(king, j, i, n) == GetSquare(king.col, king.line + n * i)
    ensures i == 0 ==> Step(king, j, i, n) == GetSquare(king.col + n * j, king.line)
  {
    StepDistance(king, j, i, n);
    if IsEmptySquare(b, Step(king, j, i, n)) {
      ClearBeforeExtend(b, king, j, i, n);
    }
    UnitMultiple(n, j);
    UnitMultiple(n, i);
  }

  /** +1 when `c` lies above `a`, -1 otherwise (the source's `a < c ? 1 : -1`). */
  function Toward(a: int, c: int): int
  {
    if a < c then 1 else -1
  }

  /** A multiple of a unit direction component, without the product. */
  lemma UnitMultiple(n: int, u: int)
    requires -1 <= u <= 1
    ensures n * u == (if u == 1 then n else if u == -1 then -n else 0)
  {
  }

  /** Stepping n >= 1 times toward `c` from `a` lands on `c` exactly when n is their distance. */
  lemma TowardReaches(a: int, c: int, n: int)
    requires n >= 1
    ensures (a + n * Toward(a, c) == c) <==> n == Abs(a - c)
  {
    if a < c {
      assert n * Toward(a, c) == n;
    } else {
      assert n * Toward(a, c) == -n;
    }
  }

  /** One turn of the walk of checkByBishop, while the bishop's column is not reached yet. */
  lemma BishopWalkStep(b: Pieces, king: Square, bishop: Square, j: int, i: int, d: int, n: int)
    requires j == Toward(king.col, bishop.col) && i == Toward(king.line, bishop.line) && d == Abs(king.col - bishop.col)
    requires Walking(b, king, j, i, d, n, true) && king.col + n * j != bishop.col
    ensures Walking(b, king, j, i, d, n + 1, IsEmptySquare(b, GetSquare(king.col + n * j, king.line + n * i)))
  {
    TowardReaches(king.col, bishop.col, n);
    assert n != d && IsDirection(j, i);
    WalkAdvance(b, king, j, i, d, n);
  }

  /** How the walk of checkByBishop ends: with `isChecked` true exactly when the bishop threatens the king. */
  lemma BishopWalkEnd(b: Pieces, king: Square, bishop: Square, n: int, isChecked: bool)
    requires Abs(king.col - bishop.col) == Abs(king.line - bishop.line)
    requires var j, i, d := Toward(king.col, bishop.col), Toward(king.line, bishop.line), Abs(king.col - bishop.col);
      && Walking(b, king, j, i, d, n, isChecked)
      && !(isChecked && king.col + n * j != bishop.col && king.line + n * i != bishop.line)
    ensures isChecked == BishopAttacks(b, king, bishop)
  {
    TowardReaches(king.col, bishop.col, n);
    TowardReaches(king.line, bishop.line, n);
  }

  /** How the walks of checkByRook end: along the column when the columns agree, otherwise along the line. */
  lemma RookWalkEnd(b: Pieces, king: Square, rook: Square, n: int, isChecked: bool)
    requires king.col == rook.col || king.line == rook.line
    requires var vertical := king.col == rook.col;
      var j := if vertical then 0 else Toward(king.col, rook.col);
      var i := if vertical then Toward(king.line, rook.line) else 0;
      var d := if vertical then Abs(king.line - rook.line) else Abs(king.col - rook.col);
      && Walking(b, king, j, i, d, n, isChecked)
      && !(isChecked && (if vertical then king.line + n * i != rook.line else king.col + n * j != rook.col))
    ensures isChecked == RookAttacks(b, king, rook)
  {
    TowardReaches(king.col, rook.col, n);
    TowardReaches(king.line, rook.line, n);
  }

  /** checkByPawn: a pawn of the opponent of `player` stands one step behind the king's line, on a neighbouring column. */
  function CheckByPawn(kingColumn: int, kingLine: int, pawnColumn: int, pawnLine: int, player: Player): bool
  {
    var lineIncrement := if 1 - player == WHITE then WHITE_LINE_INCREMENT else BLACK_LINE_INCREMENT;
    (pawnLine + lineIncrement == kingLine && pawnColumn - 1 == kingColumn)
    || (pawnLine + lineIncrement == kingLine && pawnColumn + 1 == kingColumn)
  }

  /** checkByKnight: the two squares are a knight's jump apart. */
  function CheckByKnight(kingColumn: int, kingLine: int, knightColumn: int, knightLine: int): bool
  {
    (Abs(kingColumn - knightColumn) == 1 && Abs(kingLine - knightLine) == 2)
    || (Abs(kingLine - knightLine) == 1 && Abs(kingColumn - knightColumn) == 2)
  }

  /** checkByBishop on two different squares: same diagonal, nothing in between. */
  predicate BishopAttacks(b: Pieces, king: Square, bishop: Square)
  {
    && king != bishop
    && Abs(king.col - bishop.col) == Abs(king.line - bishop.line)
    && ClearBefore(b, king, Toward(king.col, bishop.col), Toward(king.line, bishop.line), Abs(king.col - bishop.col))
  }

  /** checkByRook on two different squares: same column or same line, nothing in between. */
  predicate RookAttacks(b: Pieces, king: Square, rook: Square)
  {
    && king != rook
    && ((king.col == rook.col && ClearBefore(b, king, 0, Toward(king.line, rook.line), Abs(king.line - rook.line)))
        || (king.line == rook.line && ClearBefore(b, king, Toward(king.col, rook.col), 0, Abs(king.col - rook.col))))
  }

  /** isChecked's switch: what the piece on `s` threatens on `k`, the king of `player`; a king threatens nothing. */
  predicate Threatens(b: Pieces, s: Square, k: Square, player: Player)
    requires s in b
  {
    match b[s].name
    case Pawn => CheckByPawn(k.col, k.line, s.col, s.line, player)
    case Knight => CheckByKnight(k.col, k.line, s.col, s.line)
    case Bishop => BishopAttacks(b, k, s)
    case Rook => RookAttacks(b, k, s)
    case Queen => BishopAttacks(b, k, s) || RookAttacks(b, k, s)
    case King => false
  }

  /** Some piece of the opponent of `player` threatens `k`. */
  ghost predicate Attacked(b: Pieces, k: Square, player: Player)
  {
    exists s :: s in b && b[s].player == 1 - player && Threatens(b, s, k, player)
  }

  /** The king of `player` is threatened. */
  ghost predicate InCheck(b: Pieces, player: Player)
  {
    exists k :: KingAt(b, k, player) && Attacked(b, k, player)
  }

  /** With a single king, being in check is that king's square being attacked. */
  lemma InCheckAtKing(b: Pieces, k: Square, player: Player)
    requires HasOneKing(b, player) && KingAt(b, k, player)
    ensures InCheck(b, player) <==> Attacked(b, k, player)
  {
  }

  /** An opponent's pawn threatens exactly the two squares diagonally ahead of it in its own direction of travel. */
  lemma PawnThreatSquares(k: Square, s: Square, player: Player)
    ensures CheckByPawn(k.col, k.line, s.col, s.line, player)
        <==> k.line == s.line + LineIncrement(1 - player) && Abs(k.col - s.col) == 1
  {
  }

  /** The knight test is symmetric: a knight threatens a square iff it could jump there. */
  lemma KnightThreatSymmetric(a: Square, c: Square)
    ensures CheckByKnight(a.col, a.line, c.col, c.line) <==> CheckByKnight(c.col, c.line, a.col, a.line)
    ensures CheckByKnight(a.col, a.line, c.col, c.line) ==> a != c && Distance(a, c) == 2
  {
  }

  /** A sliding threat runs along a diagonal (bishop) or a column or a line (rook) from a different square. */
  lemma SlidingThreatGeometry(b: Pieces, k: Square, s: Square)
    ensures BishopAttacks(b, k, s) ==> k != s && Abs(k.col - s.col) == Abs(k.line - s.line)
    ensures RookAttacks(b, k, s) ==> k != s && (k.col == s.col || k.line == s.line)
    ensures BishopAttacks(b, k, s) && RookAttacks(b, k, s) ==> false
  {
  }
}
