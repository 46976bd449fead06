/**
 * What the move generators of js/chessboard.js produce, stated declaratively:
 * each generator's result as a map from destination to kind of move. The
 * imperative generators in the Chessboard class are proved equal to these.
 * Every candidate is kept only when playing it leaves the mover out of check.
 */
module MoveRules {
  import opened Wrappers
  import opened ChessData
  import opened ChessPiece
  import opened Board
  import opened Attacks

  /** A plain step onto `to` is a capture when `to` is occupied and a move otherwise. */
  function StepKind(b: Pieces, to: Square): MoveKind
  {
    if to in b then Capture else Moving
  }

  /** A plain step may end on `to`: it is empty or holds a capturable piece. */
  predicate CanLand(b: Pieces, to: Square, player: Player)
  {
    to !in b || IsCapturableSquare(b, Some(to), player)
  }

  /** Playing the move is possible and leaves the king of `player` out of check. */
  ghost predicate Legal(b: Pieces, square: Square, newSquare: Square, kind: MoveKind, player: Player, moveNumber: int)
  {
    CanApply(b, square, newSquare, kind) && !InCheck(Apply(b, square, newSquare, kind, moveNumber), player)
  }

  /** `t` touches the king of `p`. */
  ghost predicate NextToKing(b: Pieces, t: Square, p: Player)
  {
    exists k :: KingAt(b, k, p) && AreCloseSquares(t, k)
  }

  // ---------------------------------------------------------------- jumps

  /** The knight offsets in the order knightMoves visits them. */
  const KNIGHT_OFFSETS: seq<(int, int)> :=
    [(-2, 1), (-2, -1), (-1, 2), (-1, -2), (1, 2), (1, -2), (2, 1), (2, -1)]

  /** Where the offsets of column step `j` start in KNIGHT_OFFSETS. */
  function KnightIndex(j: int): int
  {
    if j <= 0 then 2 * (j + 2) else 2 * (j + 1)
  }

  /** knightMoves visits, for column step `j`, the line steps 3 - |j| and then -(3 - |j|). */
  lemma KnightOffsetAt(j: int, m: int)
    requires -2 <= j <= 2 && j != 0 && 0 <= m < 2
    ensures 0 <= KnightIndex(j) + m < |KNIGHT_OFFSETS|
    ensures KNIGHT_OFFSETS[KnightIndex(j) + m] == (j, if m == 0 then 3 - Abs(j) else 0 - (3 - Abs(j)))
  {
  }

  /** `moves` holds the jumps by the first `k` offsets of the list. */
  ghost predicate Walked(b: Pieces, square: Square, player: Player, offsets: seq<(int, int)>, kingRule: bool, moves: MoveMap, k: int)
  {
    0 <= k <= |offsets| && moves == Jumps(b, square, player, offsets[..k], kingRule)
  }

  /** Adding the jump by the next offset extends the walk by one offset. */
  lemma WalkedStep(b: Pieces, square: Square, player: Player, offsets: seq<(int, int)>, kingRule: bool, moves: MoveMap, k: int, entry: MoveMap)
    requires 0 <= k < |offsets| && Walked(b, square, player, offsets, kingRule, moves, k)
    requires entry == Jump(b, square, player, offsets[k].0, offsets[k].1, kingRule)
    ensures Walked(b, square, player, offsets, kingRule, moves + entry, k + 1)
  {
    JumpsSnoc(b, square, player, offsets, k, kingRule);
  }

  /** The walk over the whole list gives the jumps by all its offsets. */
  lemma WalkedAll(b: Pieces, square: Square, player: Player, offsets: seq<(int, int)>, kingRule: bool, moves: MoveMap)
    requires Walked(b, square, player, offsets, kingRule, moves, |offsets|)
    ensures moves == Jumps(b, square, player, offsets, kingRule)
  {
    assert offsets[..|offsets|] == offsets;
  }

  /** The king offsets in the order kingMoves visits them. */
  const KING_OFFSETS: seq<(int, int)> :=
    [(-1, -1), (-1, 0), (-1, 1), (0, -1), (0, 1), (1, -1), (1, 0), (1, 1)]

  /** Where kingMoves' step (j, i) sits in KING_OFFSETS, the step (0, 0) being skipped. */
  function KingIndex(j: int, i: int): int
  {
    3 * (j + 1) + (i + 1) - (if j > 0 || (j == 0 && i > 0) then 1 else 0)
  }

  /** kingMoves visits the steps (j, i) in the order of KING_OFFSETS. */
  lemma KingOffsetAt(j: int, i: int)
    requires -1 <= j <= 1 && -1 <= i <= 1 && (j, i) != (0, 0)
    ensures 0 <= KingIndex(j, i) < |KING_OFFSETS| && KING_OFFSETS[KingIndex(j, i)] == (j, i)
  {
  }


  /** A single knight jump or king step may end on `t` (for a king, not next to the opposing king). */
  ghost predicate JumpOk(b: Pieces, square: Square, player: Player, t: Square, kingRule: bool)
  {
    && CanLand(b, t, player)
    && (kingRule ==> !NextToKing(b, t, 1 - player))
    && Legal(b, square, t, StepKind(b, t), player, 0)
  }

  /** The move, if any, produced by the offset (dc, dl). */
  ghost function Jump(b: Pieces, square: Square, player: Player, dc: int, dl: int, kingRule: bool): MoveMap
  {
    var t := GetSquare(square.col + dc, square.line + dl);
    if t.Some? && JumpOk(b, square, player, t.value, kingRule) then map[t.value := StepKind(b, t.value)] else map[]
  }

  /** The moves produced by a list of offsets, in order. */
  ghost function Jumps(b: Pieces, square: Square, player: Player, offsets: seq<(int, int)>, kingRule: bool): MoveMap
    decreases |offsets|
  {
    if offsets == [] then map[]
    else
      var last := offsets[|offsets| - 1];
      Jumps(b, square, player, offsets[..|offsets| - 1], kingRule) + Jump(b, square, player, last.0, last.1, kingRule)
  }

  /** `t` is reached from `square` by one of the offsets. */
  ghost predicate ByOffset(square: Square, offsets: seq<(int, int)>, t: Square)
  {
    exists i :: 0 <= i < |offsets| && GetSquare(square.col + offsets[i].0, square.line + offsets[i].1) == Some(t)
  }

  /** Some entry of a non-empty list satisfies `p` exactly when its last entry or one of the others does. */
  lemma ExistsSnoc<T>(xs: seq<T>, init: seq<T>, p: T -> bool)
    requires xs != [] && init == xs[..|xs| - 1]
    ensures (exists i :: 0 <= i < |xs| && p(xs[i])) <==> (exists i :: 0 <= i < |init| && p(init[i])) || p(xs[|xs| - 1])
  {
    if exists i :: 0 <= i < |xs| && p(xs[i]) {
      var i :| 0 <= i < |xs| && p(xs[i]);
      if i < |init| {
        assert init[i] == xs[i];
      }
    }
    if exists i :: 0 <= i < |init| && p(init[i]) {
      var i :| 0 <= i < |init| && p(init[i]);
      assert xs[i] == init[i];
    }
  }

  /** A square is reached by a list of offsets exactly when it is reached by its last offset or by the others. */
  lemma ByOffsetSnoc(square: Square, offsets: seq<(int, int)>, t: Square)
    requires offsets != []
    ensures var last := offsets[|offsets| - 1];
      ByOffset(square, offsets, t)
      <==> ByOffset(square, offsets[..|offsets| - 1], t) || GetSquare(square.col + last.0, square.line + last.1) == Some(t)
  {
    ExistsSnoc(offsets, offsets[..|offsets| - 1], (o: (int, int)) => GetSquare(square.col + o.0, square.line + o.1) == Some(t));
  }

  /** The destinations of a list of offsets are the reachable squares that pass JumpOk, each with its step kind. */
  lemma {:induction false} JumpsMembership(b: Pieces, square: Square, player: Player, offsets: seq<(int, int)>, kingRule: bool, t: Square)
    ensures t in Jumps(b, square, player, offsets, kingRule)
        <==> ByOffset(square, offsets, t) && JumpOk(b, square, player, t, kingRule)
    ensures t in Jumps(b, square, player, offsets, kingRule) ==> Jumps(b, square, player, offsets, kingRule)[t] == StepKind(b, t)
    decreases |offsets|
  {
    if offsets != [] {
      JumpsMembership(b, square, player, offsets[..|offsets| - 1], kingRule, t);
      ByOffsetSnoc(square, offsets, t);
    }
  }

  /** knightMoves, declaratively. */
  ghost function KnightMovesSpec(b: Pieces, square: Square, player: Player): MoveMap
  {
    Jumps(b, square, player, KNIGHT_OFFSETS, false)
  }

  /** The king steps of kingMoves, declaratively. */
  ghost function KingStepsSpec(b: Pieces, square: Square, player: Player): MoveMap
  {
    Jumps(b, square, player, KING_OFFSETS, true)
  }

  /** The knight offsets reach exactly the squares a knight on `square` gives check to. */
  lemma KnightOffsetsAreKnightJumps(square: Square, t: Square)
    ensures ByOffset(square, KNIGHT_OFFSETS, t) <==> CheckByKnight(t.col, t.line, square.col, square.line)
  {
    if CheckByKnight(t.col, t.line, square.col, square.line) {
      var dc, dl := t.col - square.col, t.line - square.line;
      var i := if dc == -2 && dl == 1 then 0 else if dc == -2 then 1
        else if dc == -1 && dl == 2 then 2 else if dc == -1 then 3
        else if dc == 1 && dl == 2 then 4 else if dc == 1 then 5
        else if dc == 2 && dl == 1 then 6 else 7;
      assert KNIGHT_OFFSETS[i] == (dc, dl);
      assert GetSquare(square.col + KNIGHT_OFFSETS[i].0, square.line + KNIGHT_OFFSETS[i].1) == Some(t);
    }
  }

  /** The king offsets reach exactly the squares at Chebyshev distance 1. */
  lemma KingOffsetsAreNeighbours(square: Square, t: Square)
    ensures ByOffset(square, KING_OFFSETS, t) <==> Distance(square, t) == 1
  {
    if Distance(square, t) == 1 {
      var dc, dl := t.col - square.col, t.line - square.line;
      var i := if dc == -1 then dl + 1 else if dc == 0 then (if dl == -1 then 3 else 4) else dl + 6;
      assert KING_OFFSETS[i] == (dc, dl);
      assert GetSquare(square.col + KING_OFFSETS[i].0, square.line + KING_OFFSETS[i].1) == Some(t);
    }
  }

  /** A knight goes exactly to the knight-jump squares that are empty or capturable and leave no check. */
  lemma KnightMovesExactly(b: Pieces, square: Square, player: Player, t: Square)
    ensures t in KnightMovesSpec(b, square, player)
        <==> CheckByKnight(t.col, t.line, square.col, square.line) && CanLand(b, t, player)
             && Legal(b, square, t, StepKind(b, t), player, 0)
    ensures t in KnightMovesSpec(b, square, player) ==> KnightMovesSpec(b, square, player)[t] == StepKind(b, t)
  {
    JumpsMembership(b, square, player, KNIGHT_OFFSETS, false, t);
    KnightOffsetsAreKnightJumps(square, t);
  }

  /** A king steps exactly to the neighbouring squares that are empty or capturable, do not touch the opposing king and leave no check. */
  lemma KingStepsExactly(b: Pieces, square: Square, player: Player, t: Square)
    ensures t in KingStepsSpec(b, square, player)
        <==> Distance(square, t) == 1 && CanLand(b, t, player) && !NextToKing(b, t, 1 - player)
             && Legal(b, square, t, StepKind(b, t), player, 0)
    ensures t in KingStepsSpec(b, square, player) ==> KingStepsSpec(b, square, player)[t] == StepKind(b, t)
  {
    JumpsMembership(b, square, player, KING_OFFSETS, true, t);
    KingOffsetsAreNeighbours(square, t);
  }

  // ---------------------------------------------------------------- rays

  /** `to` is reached from `square` by sliding in direction (dc, dl) over empty squares only. */
  predicate Slides(b: Pieces, square: Square, dc: int, dl: int, to: Square)
  {
    to != square && Step(square, dc, dl, Distance(square, to)) == Some(to)
    && ClearBefore(b, square, dc, dl, Distance(square, to))
  }

  /** The moves of one ray that lie fewer than `n` steps away. */
  ghost function RayPart(b: Pieces, square: Square, player: Player, dc: int, dl: int, n: int): MoveMap
  {
    map t | t in AllSquares() && Distance(square, t) < n && Slides(b, square, dc, dl, t) && CanLand(b, t, player)
              && Legal(b, square, t, StepKind(b, t), player, 0)
          :: StepKind(b, t)
  }

  /** The moves of one ray of a bishop, rook or queen. */
  ghost function RayMovesSpec(b: Pieces, square: Square, player: Player, dc: int, dl: int): MoveMap
  {
    RayPart(b, square, player, dc, dl, 8)
  }

  /** The moves of a list of rays, in order. */
  ghost function Rays(b: Pieces, square: Square, player: Player, directions: seq<(int, int)>): MoveMap
    decreases |directions|
  {
    if directions == [] then map[]
    else
      var last := directions[|directions| - 1];
      Rays(b, square, player, directions[..|directions| - 1]) + RayMovesSpec(b, square, player, last.0, last.1)
  }

  /** The diagonals in the order bishopMoves visits them. */
  const BISHOP_DIRECTIONS: seq<(int, int)> := [(-1, -1), (-1, 1), (1, -1), (1, 1)]

  /** The columns and lines in the order rookMoves visits them. */
  const ROOK_DIRECTIONS: seq<(int, int)> := [(0, -1), (0, 1), (-1, 0), (1, 0)]

  /** Every entry of the bishop and rook direction lists is a step of one square. */
  lemma DirectionsAreSteps()
    ensures forall i :: 0 <= i < |BISHOP_DIRECTIONS| ==> IsDirection(BISHOP_DIRECTIONS[i].0, BISHOP_DIRECTIONS[i].1)
    ensures forall i :: 0 <= i < |ROOK_DIRECTIONS| ==> IsDirection(ROOK_DIRECTIONS[i].0, ROOK_DIRECTIONS[i].1)
  {
  }

  ghost function BishopMovesSpec(b: Pieces, square: Square, player: Player): MoveMap
  {
    Rays(b, square, player, BISHOP_DIRECTIONS)
  }

  ghost function RookMovesSpec(b: Pieces, square: Square, player: Player): MoveMap
  {
    Rays(b, square, player, ROOK_DIRECTIONS)
  }

  /** queenMoves: the bishop's moves overwritten by the rook's. */
  ghost function QueenMovesSpec(b: Pieces, square: Square, player: Player): MoveMap
  {
    BishopMovesSpec(b, square, player) + RookMovesSpec(b, square, player)
  }

  /**
   * One turn of the ray loop over an empty square: while the first n-1
   * squares are empty and the n-th is empty too, the ray extends by that
   * square, kept when the move is legal.
   */
  lemma {:induction false} RayPartExtend(b: Pieces, square: Square, player: Player, dc: int, dl: int, n: int)
    requires IsDirection(dc, dl) && 1 <= n && ClearBefore(b, square, dc, dl, n)
    requires IsEmptySquare(b, Step(square, dc, dl, n))
    ensures n <= 7 && ClearBefore(b, square, dc, dl, n + 1)
    ensures var sq := Step(square, dc, dl, n).value;
      RayPart(b, square, player, dc, dl, n + 1)
      == RayPart(b, square, player, dc, dl, n)
         + (if Legal(b, square, sq, Moving, player, 0) then map[sq := Moving] else map[])
  {
    var sq := Step(square, dc, dl, n).value;
    StepDistance(square, dc, dl, n);
    var lo := RayPart(b, square, player, dc, dl, n);
    var extra := if Legal(b, square, sq, Moving, player, 0) then map[sq := Moving] else map[];
    var hi := RayPart(b, square, player, dc, dl, n + 1);
    ClearBeforeExtend(b, square, dc, dl, n);
    forall t | t in hi ensures t in lo + extra && hi[t] == (lo + extra)[t] {
      if Distance(square, t) == n {
        assert t == sq;
      } else {
        assert t in lo;
      }
    }
    forall t | t in lo + extra ensures t in hi {
      if t !in lo {
        assert t == sq;
        assert Slides(b, square, dc, dl, t);
      }
    }
  }

  /** A slide cannot pass the first occupied or off-board square of its ray. */
  lemma SlideStopsAt(b: Pieces, square: Square, dc: int, dl: int, n: int, t: Square)
    requires 1 <= n && !IsEmptySquare(b, Step(square, dc, dl, n))
    requires Slides(b, square, dc, dl, t)
    ensures Distance(square, t) < n || (Distance(square, t) == n && Step(square, dc, dl, n) == Some(t))
  {
    assert Distance(square, t) > n ==> IsEmptySquare(b, Step(square, dc, dl, n));
  }

  /**
   * The last turn of the ray loop: while the first n-1 squares are empty and
   * the n-th is off the board or occupied, the ray ends there, contributing
   * that square only when it is capturable and the capture is legal.
   */
  lemma RayPartStop(b: Pieces, square: Square, player: Player, dc: int, dl: int, n: int)
    requires IsDirection(dc, dl) && 1 <= n && ClearBefore(b, square, dc, dl, n)
    requires !IsEmptySquare(b, Step(square, dc, dl, n))
    ensures var sq := Step(square, dc, dl, n);
      RayMovesSpec(b, square, player, dc, dl)
      == RayPart(b, square, player, dc, dl, n)
         + (if IsCapturableSquare(b, sq, player) && Legal(b, square, sq.value, Capture, player, 0)
            then map[sq.value := Capture] else map[])
  {
    var sq := Step(square, dc, dl, n);
    var lo := RayPart(b, square, player, dc, dl, n);
    var extra := if IsCapturableSquare(b, sq, player) && Legal(b, square, sq.value, Capture, player, 0)
      then map[sq.value := Capture] else map[];
    var hi := RayMovesSpec(b, square, player, dc, dl);
    forall t | t in hi ensures t in lo + extra && hi[t] == (lo + extra)[t] {
      RayStopPoint(b, square, player, dc, dl, n, t);
    }
    forall t | t in lo + extra ensures t in hi {
      RayStopPoint(b, square, player, dc, dl, n, t);
    }
  }

  /** RayPartStop, one square at a time. */
  lemma RayStopPoint(b: Pieces, square: Square, player: Player, dc: int, dl: int, n: int, t: Square)
    requires IsDirection(dc, dl) && 1 <= n && ClearBefore(b, square, dc, dl, n)
    requires !IsEmptySquare(b, Step(square, dc, dl, n))
    ensures var sq := Step(square, dc, dl, n);
      var lo := RayPart(b, square, player, dc, dl, n);
      var extra := if IsCapturableSquare(b, sq, player) && Legal(b, square, sq.value, Capture, player, 0)
        then map[sq.value := Capture] else map[];
      var hi := RayMovesSpec(b, square, player, dc, dl);
      (t in hi <==> t in lo + extra) && (t in hi ==> hi[t] == (lo + extra)[t])
  {
    var sq := Step(square, dc, dl, n);
    StepDistance(square, dc, dl, n);
    var lo := RayPart(b, square, player, dc, dl, n);
    var hi := RayMovesSpec(b, square, player, dc, dl);
    if t in hi {
      SlideStopsAt(b, square, dc, dl, n, t);
      if Distance(square, t) == n {
        assert t == sq.value;
      } else {
        assert t in lo;
      }
    } else if t !in lo && sq == Some(t) {
      assert Slides(b, square, dc, dl, t);
    }
  }

  /** A ray's destinations are the squares it slides to that are empty or capturable and leave no check. */
  lemma RayMovesExactly(b: Pieces, square: Square, player: Player, dc: int, dl: int, t: Square)
    requires IsDirection(dc, dl)
    ensures t in RayMovesSpec(b, square, player, dc, dl)
        <==> Slides(b, square, dc, dl, t) && CanLand(b, t, player) && Legal(b, square, t, StepKind(b, t), player, 0)
  {
    if Slides(b, square, dc, dl, t) {
      StepDistance(square, dc, dl, Distance(square, t));
    }
  }

  /** `t` is a move of one of the rays in `directions`. */
  ghost predicate OnSomeRay(b: Pieces, square: Square, player: Player, directions: seq<(int, int)>, t: Square)
  {
    exists i :: 0 <= i < |directions| && t in RayMovesSpec(b, square, player, directions[i].0, directions[i].1)
  }

  /** A move is on one of a list of rays exactly when it is on its last ray or on one of the others. */
  lemma OnSomeRaySnoc(b: Pieces, square: Square, player: Player, directions: seq<(int, int)>, t: Square)
    requires directions != []
    ensures var last := directions[|directions| - 1];
      OnSomeRay(b, square, player, directions, t)
      <==> OnSomeRay(b, square, player, directions[..|directions| - 1], t) || t in RayMovesSpec(b, square, player, last.0, last.1)
  {
    ExistsSnoc(directions, directions[..|directions| - 1], (d: (int, int)) => t in RayMovesSpec(b, square, player, d.0, d.1));
  }

  /** The moves of a list of rays are the moves of one of its rays. */
  lemma {:induction false} RaysMembership(b: Pieces, square: Square, player: Player, directions: seq<(int, int)>, t: Square)
    ensures t in Rays(b, square, player, directions) <==> OnSomeRay(b, square, player, directions, t)
    ensures t in Rays(b, square, player, directions) ==> Rays(b, square, player, directions)[t] == StepKind(b, t)
    decreases |directions|
  {
    if directions != [] {
      RaysMembership(b, square, player, directions[..|directions| - 1], t);
      OnSomeRaySnoc(b, square, player, directions, t);
    }
  }

  /** Extending a list of rays by one more ray adds that ray's moves. */
  lemma RaysSnoc(b: Pieces, square: Square, player: Player, directions: seq<(int, int)>, k: int)
    requires 0 <= k < |directions|
    ensures Rays(b, square, player, directions[..k + 1])
         == Rays(b, square, player, directions[..k]) + RayMovesSpec(b, square, player, directions[k].0, directions[k].1)
  {
    assert directions[..k + 1][..k] == directions[..k];
  }

  /** Extending a list of offsets by one more offset adds that offset's move. */
  lemma JumpsSnoc(b: Pieces, square: Square, player: Player, offsets: seq<(int, int)>, k: int, kingRule: bool)
    requires 0 <= k < |offsets|
    ensures Jumps(b, square, player, offsets[..k + 1], kingRule)
         == Jumps(b, square, player, offsets[..k], kingRule) + Jump(b, square, player, offsets[k].0, offsets[k].1, kingRule)
  {
    assert offsets[..k + 1][..k] == offsets[..k];
  }

  /** A plain step of a piece onto a square that is not a king keeps kings, whether it moves or captures. */
  lemma StepKeepsKings(b: Pieces, square: Square, t: Square)
    requires square in b && t != square && (t !in b || b[t].name != King)
    ensures KeepsKings(b, square, t, Moving) && KeepsKings(b, square, t, Capture)
  {
  }

  // ---------------------------------------------------------------- pawns

  /** The kind of pawn move from `square` to `t` the generator considers, before the check test. */
  ghost function PawnKind(b: Pieces, square: Square, player: Player, t: Square): Option<MoveKind>
  {
    var inc := LineIncrement(player);
    if !(BLACK_FINISH_LINE < square.line < WHITE_FINISH_LINE) then None
    else if t.col == square.col && t.line == square.line + inc then
      if t in b then None else if t.line == FinishLine(player) then Some(Promotion) else Some(Moving)
    else if t.col == square.col && t.line == square.line + 2 * inc then
      if square.line == StartingLine(player) && square.line + inc != FinishLine(player)
         && IsEmptySquare(b, GetSquare(square.col, square.line + inc)) && t !in b
      then Some(PawnBoost) else None
    else if Abs(t.col - square.col) == 1 && t.line == square.line + inc && IsCapturableSquare(b, Some(t), player) then
      if t.line == FinishLine(player) then Some(CaptureWithPromotion) else Some(Capture)
    else None
  }

  /** pawnMoves, declaratively: every considered move that leaves no check. */
  ghost function PawnMovesSpec(b: Pieces, square: Square, player: Player, moveNumber: int): MoveMap
  {
    map t | t in AllSquares() && PawnKind(b, square, player, t).Some?
              && Legal(b, square, t, PawnKind(b, square, player, t).value, player, moveNumber)
          :: PawnKind(b, square, player, t).value
  }

  /**
   * The pawn rules: nothing off lines 2..7; straight moves only onto empty
   * squares; the boost only from the starting line over two empty squares;
   * the final line turns a move into a promotion and a capture into a capture
   * with promotion; diagonal moves only onto capturable squares; never en passant.
   */
  lemma PawnRules(b: Pieces, square: Square, player: Player, moveNumber: int, t: Square)
    requires t in PawnMovesSpec(b, square, player, moveNumber)
    ensures var kind := PawnMovesSpec(b, square, player, moveNumber)[t];
      && 2 <= square.line <= 7
      && t.line - square.line == (if kind.PawnBoost? then 2 * LineIncrement(player) else LineIncrement(player))
      && (kind.Moving? || kind.Promotion? || kind.PawnBoost? ==> t.col == square.col && t !in b)
      && (kind.PawnBoost? ==>
            square.line == StartingLine(player)
            && IsEmptySquare(b, GetSquare(square.col, square.line + LineIncrement(player))))
      && (kind.Promotion? || kind.CaptureWithPromotion? <==> t.line == FinishLine(player))
      && (kind.Capture? || kind.CaptureWithPromotion? <==> t.col != square.col)
      && (t.col != square.col ==> Abs(t.col - square.col) == 1 && IsCapturableSquare(b, Some(t), player))
      && !kind.EnPassant? && !IsCastling(kind)
  {
  }

  /** Conversely, every considered pawn move that leaves no check is generated. */
  lemma PawnMovesComplete(b: Pieces, square: Square, player: Player, moveNumber: int, t: Square)
    requires PawnKind(b, square, player, t).Some?
    requires Legal(b, square, t, PawnKind(b, square, player, t).value, player, moveNumber)
    ensures t in PawnMovesSpec(b, square, player, moveNumber)
  {
  }

  /** The pawn moves among the straight ones and the diagonals to the columns left of `square.col + j`; the generator's loop state. */
  ghost function PawnMovesWithin(b: Pieces, square: Square, player: Player, moveNumber: int, j: int): MoveMap
  {
    map t | t in AllSquares() && (t.col == square.col || t.col - square.col < j) && PawnKind(b, square, player, t).Some?
              && Legal(b, square, t, PawnKind(b, square, player, t).value, player, moveNumber)
          :: PawnKind(b, square, player, t).value
  }

  /** A pawn off lines 2..7 has no move. */
  lemma PawnMovesOffLines(b: Pieces, square: Square, player: Player, moveNumber: int)
    requires !(BLACK_FINISH_LINE < square.line < WHITE_FINISH_LINE)
    ensures PawnMovesSpec(b, square, player, moveNumber) == map[]
  {
  }

  /** The kinds the pawn rules give to the squares straight ahead. */
  lemma PawnKindStraight(b: Pieces, square: Square, player: Player, t: Square)
    requires BLACK_FINISH_LINE < square.line < WHITE_FINISH_LINE
    ensures var inc := LineIncrement(player);
      var two := GetSquare(square.col, square.line + 2 * inc);
      PawnKind(b, square, player, t).Some? && t.col == square.col ==>
        if t.line == square.line + inc then
          t !in b && PawnKind(b, square, player, t) == Some(if t.line == FinishLine(player) then Promotion else Moving)
        else
          && two == Some(t) && t !in b && square.line == StartingLine(player)
          && square.line + inc != FinishLine(player)
          && IsEmptySquare(b, GetSquare(square.col, square.line + inc))
          && PawnKind(b, square, player, t) == Some(PawnBoost)
    ensures var inc := LineIncrement(player);
      var two := GetSquare(square.col, square.line + 2 * inc);
      && (t.col == square.col && t.line == square.line + inc && t !in b ==> PawnKind(b, square, player, t).Some?)
      && (two == Some(t) && t !in b && square.line == StartingLine(player)
          && IsEmptySquare(b, GetSquare(square.col, square.line + inc))
          ==> PawnKind(b, square, player, t) == Some(PawnBoost))
  {
  }

  /** The straight moves as pawnMoves writes them: the one-step move or promotion, then the boost. */
  ghost function PawnStraightPart(b: Pieces, square: Square, player: Player, moveNumber: int): MoveMap
    requires BLACK_FINISH_LINE < square.line < WHITE_FINISH_LINE
  {
    var inc := LineIncrement(player);
    var one := GetSquare(square.col, square.line + inc).value;
    var two := GetSquare(square.col, square.line + 2 * inc);
    (if one in b then map[]
     else if square.line + inc == FinishLine(player) then
       (if Legal(b, square, one, Promotion, player, moveNumber) then map[one := Promotion] else map[])
     else
       (if Legal(b, square, one, Moving, player, moveNumber) then map[one := Moving] else map[]))
    + (if one !in b && square.line + inc != FinishLine(player)
          && square.line == StartingLine(player) && IsEmptySquare(b, two)
          && Legal(b, square, two.value, PawnBoost, player, moveNumber)
       then map[two.value := PawnBoost] else map[])
  }

  lemma PawnStraightSub(b: Pieces, square: Square, player: Player, moveNumber: int, t: Square)
    requires BLACK_FINISH_LINE < square.line < WHITE_FINISH_LINE
    requires t in PawnMovesWithin(b, square, player, moveNumber, -1)
    ensures t in PawnStraightPart(b, square, player, moveNumber)
    ensures PawnStraightPart(b, square, player, moveNumber)[t] == PawnMovesWithin(b, square, player, moveNumber, -1)[t]
  {
    PawnKindStraight(b, square, player, t);
    var kind := PawnKind(b, square, player, t).value;
    if t.line == square.line + LineIncrement(player) {
      StraightOneStep(b, square, player, moveNumber, t, kind);
    } else {
      StraightBoost(b, square, player, moveNumber, t);
    }
  }

  /** The one-step move or promotion, when legal, is among the straight moves. */
  lemma StraightOneStep(b: Pieces, square: Square, player: Player, moveNumber: int, t: Square, kind: MoveKind)
    requires BLACK_FINISH_LINE < square.line < WHITE_FINISH_LINE
    requires t.col == square.col && t.line == square.line + LineIncrement(player) && t !in b
    requires kind == if t.line == FinishLine(player) then Promotion else Moving
    requires Legal(b, square, t, kind, player, moveNumber)
    ensures t in PawnStraightPart(b, square, player, moveNumber) && PawnStraightPart(b, square, player, moveNumber)[t] == kind
  {
    assert GetSquare(square.col, square.line + LineIncrement(player)) == Some(t);
  }

  /** The boost, when legal, is among the straight moves. */
  lemma StraightBoost(b: Pieces, square: Square, player: Player, moveNumber: int, t: Square)
    requires BLACK_FINISH_LINE < square.line < WHITE_FINISH_LINE
    requires GetSquare(square.col, square.line + 2 * LineIncrement(player)) == Some(t) && t !in b
    requires square.line == StartingLine(player) && square.line + LineIncrement(player) != FinishLine(player)
    requires IsEmptySquare(b, GetSquare(square.col, square.line + LineIncrement(player)))
    requires Legal(b, square, t, PawnBoost, player, moveNumber)
    ensures t in PawnStraightPart(b, square, player, moveNumber) && PawnStraightPart(b, square, player, moveNumber)[t] == PawnBoost
  {
  }

  lemma PawnStraightSuper(b: Pieces, square: Square, player: Player, moveNumber: int, t: Square)
    requires BLACK_FINISH_LINE < square.line < WHITE_FINISH_LINE
    requires t in PawnStraightPart(b, square, player, moveNumber)
    ensures t in PawnMovesWithin(b, square, player, moveNumber, -1)
  {
    PawnKindStraight(b, square, player, t);
  }

  /** Before the diagonal loop, the loop state is the straight part. */
  lemma PawnStraightMoves(b: Pieces, square: Square, player: Player, moveNumber: int)
    requires BLACK_FINISH_LINE < square.line < WHITE_FINISH_LINE
    ensures PawnMovesWithin(b, square, player, moveNumber, -1) == PawnStraightPart(b, square, player, moveNumber)
  {
    forall t | t in PawnMovesWithin(b, square, player, moveNumber, -1) ensures t in PawnStraightPart(b, square, player, moveNumber) {
      PawnStraightSub(b, square, player, moveNumber, t);
    }
    forall t | t in PawnStraightPart(b, square, player, moveNumber) ensures t in PawnMovesWithin(b, square, player, moveNumber, -1) {
      PawnStraightSuper(b, square, player, moveNumber, t);
    }
    forall t | t in PawnMovesWithin(b, square, player, moveNumber, -1)
      ensures PawnStraightPart(b, square, player, moveNumber)[t] == PawnMovesWithin(b, square, player, moveNumber, -1)[t]
    {
      PawnStraightSub(b, square, player, moveNumber, t);
    }
  }

  /** The capture of pawnMoves towards column `square.col + j`: kept when the square is capturable and no check follows. */
  ghost function DiagonalCapture(b: Pieces, square: Square, player: Player, moveNumber: int, j: int): MoveMap
  {
    var t := GetSquare(square.col + j, square.line + LineIncrement(player));
    var kind := if square.line + LineIncrement(player) == FinishLine(player) then CaptureWithPromotion else Capture;
    if IsCapturableSquare(b, t, player) && Legal(b, square, t.value, kind, player, moveNumber)
    then map[t.value := kind] else map[]
  }

  /** One turn of the diagonal loop: the capture towards column `square.col + j` joins the moves. */
  lemma PawnDiagonalMove(b: Pieces, square: Square, player: Player, moveNumber: int, j: int)
    requires BLACK_FINISH_LINE < square.line < WHITE_FINISH_LINE
    requires j == -1 || j == 1
    ensures PawnMovesWithin(b, square, player, moveNumber, j + 2)
         == PawnMovesWithin(b, square, player, moveNumber, j) + DiagonalCapture(b, square, player, moveNumber, j)
  {
    var lo := PawnMovesWithin(b, square, player, moveNumber, j);
    var hi := PawnMovesWithin(b, square, player, moveNumber, j + 2);
    var extra := DiagonalCapture(b, square, player, moveNumber, j);
    forall u | u in hi ensures u in lo + extra && hi[u] == (lo + extra)[u] {
      DiagonalSub(b, square, player, moveNumber, j, u);
    }
    forall u | u in lo + extra ensures u in hi {
      DiagonalSuper(b, square, player, moveNumber, j, u);
    }
  }

  /** A move found once the diagonal towards `square.col + j` is done was found before it or is that capture. */
  lemma DiagonalSub(b: Pieces, square: Square, player: Player, moveNumber: int, j: int, u: Square)
    requires BLACK_FINISH_LINE < square.line < WHITE_FINISH_LINE
    requires j == -1 || j == 1
    requires u in PawnMovesWithin(b, square, player, moveNumber, j + 2)
    ensures var m := PawnMovesWithin(b, square, player, moveNumber, j) + DiagonalCapture(b, square, player, moveNumber, j);
      u in m && m[u] == PawnMovesWithin(b, square, player, moveNumber, j + 2)[u]
  {
    if u.col == square.col || u.col - square.col < j {
      DiagonalSubBefore(b, square, player, moveNumber, j, u);
    } else {
      DiagonalSubNew(b, square, player, moveNumber, j, u);
    }
  }

  /** DiagonalSub for a square left of column `square.col + j` or straight ahead: it was found before. */
  lemma DiagonalSubBefore(b: Pieces, square: Square, player: Player, moveNumber: int, j: int, u: Square)
    requires BLACK_FINISH_LINE < square.line < WHITE_FINISH_LINE
    requires j == -1 || j == 1
    requires u in PawnMovesWithin(b, square, player, moveNumber, j + 2)
    requires u.col == square.col || u.col - square.col < j
    ensures u in PawnMovesWithin(b, square, player, moveNumber, j) && u !in DiagonalCapture(b, square, player, moveNumber, j)
    ensures PawnMovesWithin(b, square, player, moveNumber, j)[u] == PawnMovesWithin(b, square, player, moveNumber, j + 2)[u]
  {
    WithinMember(b, square, player, moveNumber, j + 2, u);
    WithinFrom(b, square, player, moveNumber, j, u);
    DiagonalCaptureColumn(b, square, player, moveNumber, j);
  }

  /** DiagonalSub for a square in column `square.col + j`: it is the capture. */
  lemma DiagonalSubNew(b: Pieces, square: Square, player: Player, moveNumber: int, j: int, u: Square)
    requires BLACK_FINISH_LINE < square.line < WHITE_FINISH_LINE
    requires j == -1 || j == 1
    requires u in PawnMovesWithin(b, square, player, moveNumber, j + 2)
    requires !(u.col == square.col || u.col - square.col < j)
    ensures u in DiagonalCapture(b, square, player, moveNumber, j)
    ensures DiagonalCapture(b, square, player, moveNumber, j)[u] == PawnMovesWithin(b, square, player, moveNumber, j + 2)[u]
  {
    var kind := if square.line + LineIncrement(player) == FinishLine(player) then CaptureWithPromotion else Capture;
    WithinMember(b, square, player, moveNumber, j + 2, u);
    DiagonalColumn(b, square, player, j, u);
    DiagonalCaptureAt(b, square, player, moveNumber, j, u, kind);
  }

  /** What membership in the generator's loop state says about a square. */
  lemma WithinMember(b: Pieces, square: Square, player: Player, moveNumber: int, j: int, u: Square)
    requires u in PawnMovesWithin(b, square, player, moveNumber, j)
    ensures PawnKind(b, square, player, u).Some?
    ensures Legal(b, square, u, PawnKind(b, square, player, u).value, player, moveNumber)
    ensures PawnMovesWithin(b, square, player, moveNumber, j)[u] == PawnKind(b, square, player, u).value
    ensures u.col == square.col || u.col - square.col < j
  {
  }

  /** A square the pawn rules allow, legal and within the columns scanned so far, is in the loop state. */
  lemma WithinFrom(b: Pieces, square: Square, player: Player, moveNumber: int, j: int, u: Square)
    requires PawnKind(b, square, player, u).Some?
    requires Legal(b, square, u, PawnKind(b, square, player, u).value, player, moveNumber)
    requires u.col == square.col || u.col - square.col < j
    ensures u in PawnMovesWithin(b, square, player, moveNumber, j)
    ensures PawnMovesWithin(b, square, player, moveNumber, j)[u] == PawnKind(b, square, player, u).value
  {
    assert u in AllSquares();
  }

  /** The diagonal capture towards column `square.col + j` lies in that column. */
  lemma DiagonalCaptureColumn(b: Pieces, square: Square, player: Player, moveNumber: int, j: int)
    ensures forall k :: k in DiagonalCapture(b, square, player, moveNumber, j) ==> k.col == square.col + j
  {
  }

  /** The diagonal capture, when there is one, is a capturable square the pawn rules allow, and legal. */
  lemma DiagonalCaptureMember(b: Pieces, square: Square, player: Player, moveNumber: int, j: int, u: Square)
    requires BLACK_FINISH_LINE < square.line < WHITE_FINISH_LINE
    requires j == -1 || j == 1
    requires u in DiagonalCapture(b, square, player, moveNumber, j)
    ensures var kind := if square.line + LineIncrement(player) == FinishLine(player) then CaptureWithPromotion else Capture;
      && u.col == square.col + j
      && PawnKind(b, square, player, u) == Some(kind)
      && Legal(b, square, u, kind, player, moveNumber)
      && DiagonalCapture(b, square, player, moveNumber, j)[u] == kind
  {
  }

  /** The diagonal capture onto a capturable square, when legal, is exactly that move. */
  lemma DiagonalCaptureAt(b: Pieces, square: Square, player: Player, moveNumber: int, j: int, u: Square, kind: MoveKind)
    requires GetSquare(square.col + j, square.line + LineIncrement(player)) == Some(u)
    requires kind == if square.line + LineIncrement(player) == FinishLine(player) then CaptureWithPromotion else Capture
    requires IsCapturableSquare(b, Some(u), player) && Legal(b, square, u, kind, player, moveNumber)
    ensures DiagonalCapture(b, square, player, moveNumber, j) == map[u := kind]
  {
  }

  /** The only square a pawn reaches in column `square.col + j` is the diagonal capture square. */
  lemma DiagonalColumn(b: Pieces, square: Square, player: Player, j: int, u: Square)
    requires BLACK_FINISH_LINE < square.line < WHITE_FINISH_LINE
    requires j == -1 || j == 1
    requires PawnKind(b, square, player, u).Some? && u.col != square.col && j <= u.col - square.col < j + 2
    ensures GetSquare(square.col + j, square.line + LineIncrement(player)) == Some(u)
    ensures PawnKind(b, square, player, u)
         == Some(if square.line + LineIncrement(player) == FinishLine(player) then CaptureWithPromotion else Capture)
    ensures IsCapturableSquare(b, Some(u), player)
  {
  }

  /** A move found before the diagonal towards `square.col + j`, or that capture, is found once it is done. */
  lemma DiagonalSuper(b: Pieces, square: Square, player: Player, moveNumber: int, j: int, u: Square)
    requires BLACK_FINISH_LINE < square.line < WHITE_FINISH_LINE
    requires j == -1 || j == 1
    requires u in PawnMovesWithin(b, square, player, moveNumber, j) + DiagonalCapture(b, square, player, moveNumber, j)
    ensures u in PawnMovesWithin(b, square, player, moveNumber, j + 2)
  {
    if u in PawnMovesWithin(b, square, player, moveNumber, j) {
      WithinMember(b, square, player, moveNumber, j, u);
    } else {
      DiagonalCaptureMember(b, square, player, moveNumber, j, u);
    }
    WithinFrom(b, square, player, moveNumber, j + 2, u);
  }

  /** After both diagonals the loop state is the whole of pawnMoves. */
  lemma PawnMovesAllColumns(b: Pieces, square: Square, player: Player, moveNumber: int)
    ensures PawnMovesWithin(b, square, player, moveNumber, 3) == PawnMovesSpec(b, square, player, moveNumber)
  {
  }

  // ---------------------------------------------------------------- kings

  /** The castling test of kingMoves for one side; `dir` is +1 for kingside and -1 for queenside. */
  ghost predicate CanCastle(b: Pieces, square: Square, player: Player, variant: string, dir: int)
    requires dir == 1 || dir == -1
  {
    var l := square.line;
    var kind := if dir == 1 then KingsideCastling else QueensideCastling;
    && variant != "960"
    && square == InitialKingSquare(player)
    && square in b && !b[square].wasMoved
    && IsEmptySquare(b, GetSquare(5 + dir, l)) && IsEmptySquare(b, GetSquare(5 + 2 * dir, l))
    && (dir == -1 ==> IsEmptySquare(b, GetSquare(2, l)))
    && var corner := if dir == 1 then GetSquare(8, l) else GetSquare(1, l);
    && corner.Some? && corner.value in b && !b[corner.value].wasMoved
    && Legal(b, square, GetSquare(5 + dir, l).value, Moving, player, 0)
    && !NextToKing(b, GetSquare(5 + 2 * dir, l).value, 1 - player)
    && Legal(b, square, GetSquare(5 + 2 * dir, l).value, kind, player, 0)
  }

  /** kingMoves, declaratively: the steps, then kingside and queenside castling. */
  ghost function KingMovesSpec(b: Pieces, square: Square, player: Player, variant: string): MoveMap
  {
    var steps: MoveMap := KingStepsSpec(b, square, player);
    var kingside: MoveMap := if CanCastle(b, square, player, variant, 1) then map[Coord(7, square.line) := KingsideCastling] else map[];
    var queenside: MoveMap := if CanCastle(b, square, player, variant, -1) then map[Coord(3, square.line) := QueensideCastling] else map[];
    steps + kingside + queenside
  }

  /** No king move ends next to the opposing king; castling starts from e1/e8 and ends on g or c of that line. */
  lemma KingMovesAvoidOpposingKing(b: Pieces, square: Square, player: Player, variant: string, t: Square)
    requires t in KingMovesSpec(b, square, player, variant)
    ensures !NextToKing(b, t, 1 - player)
    ensures var kind := KingMovesSpec(b, square, player, variant)[t];
      IsCastling(kind) ==>
        && variant != "960" && square == InitialKingSquare(player)
        && square in b && !b[square].wasMoved
        && t == Coord(if kind.KingsideCastling? then 7 else 3, square.line)
  {
    var l := square.line;
    if t == Coord(7, l) && CanCastle(b, square, player, variant, 1) {
    } else if t == Coord(3, l) && CanCastle(b, square, player, variant, -1) {
    } else {
      KingStepsExactly(b, square, player, t);
    }
  }

  /** With a single opposing king on `k`, being next to that king is being close to `k`. */
  lemma NextToKingAt(b: Pieces, t: Square, p: Player, k: Square)
    requires HasOneKing(b, p) && KingAt(b, k, p)
    ensures NextToKing(b, t, p) <==> AreCloseSquares(t, k)
  {
  }

  /** Castling from e1/e8 over empty squares towards an occupied corner removes no king. */
  lemma CastlingKeepsKings(b: Pieces, square: Square, player: Player, dir: int)
    requires dir == 1 || dir == -1
    requires square == InitialKingSquare(player) && square in b
    requires IsEmptySquare(b, GetSquare(5 + dir, square.line)) && IsEmptySquare(b, GetSquare(5 + 2 * dir, square.line))
    requires Coord(if dir == 1 then 8 else 1, square.line) in b
    ensures KeepsKings(b, square, Coord(5 + 2 * dir, square.line), if dir == 1 then KingsideCastling else QueensideCastling)
  {
    var t := Coord(5 + 2 * dir, square.line);
    assert Coord(5 + dir, square.line) !in SetSquare(b, square, t);
  }

  // ---------------------------------------------------------------- all moves

  /** The moves of the piece on `square`, by its kind. */
  ghost function PieceMoves(b: Pieces, square: Square, moveNumber: int, variant: string): MoveMap
    requires square in b
  {
    var player := b[square].player;
    match b[square].name
    case Pawn => PawnMovesSpec(b, square, player, moveNumber)
    case Knight => KnightMovesSpec(b, square, player)
    case Bishop => BishopMovesSpec(b, square, player)
    case Rook => RookMovesSpec(b, square, player)
    case Queen => QueenMovesSpec(b, square, player)
    case King => KingMovesSpec(b, square, player, variant)
  }

  /** allMoves: the pieces of `player` that have a move, each with its moves. */
  ghost function AllMovesSpec(b: Pieces, player: Player, moveNumber: int, variant: string): map<Square, MoveMap>
  {
    map s | s in b && b[s].player == player && PieceMoves(b, s, moveNumber, variant) != map[]
          :: PieceMoves(b, s, moveNumber, variant)
  }

  /** No piece of `player` has a move: the position is checkmate or stalemate. */
  ghost predicate NoPieceMoves(b: Pieces, player: Player, moveNumber: int, variant: string)
  {
    forall s :: s in b && b[s].player == player ==> PieceMoves(b, s, moveNumber, variant) == map[]
  }

  /** The part of allMoves contributed by the squares in `done`; the state of the generator's loop. */
  ghost function AllMovesAmong(b: Pieces, player: Player, moveNumber: int, variant: string, done: set<Square>): map<Square, MoveMap>
  {
    map s | s in b && s in done && b[s].player == player && PieceMoves(b, s, moveNumber, variant) != map[]
          :: PieceMoves(b, s, moveNumber, variant)
  }

  /** Visiting one more square adds its moves when it holds a piece of `player` that has some. */
  lemma AllMovesAmongAdd(b: Pieces, player: Player, moveNumber: int, variant: string, done: set<Square>, x: Square)
    requires x in b
    ensures AllMovesAmong(b, player, moveNumber, variant, done + {x})
         == if b[x].player == player && PieceMoves(b, x, moveNumber, variant) != map[]
            then AllMovesAmong(b, player, moveNumber, variant, done)[x := PieceMoves(b, x, moveNumber, variant)]
            else AllMovesAmong(b, player, moveNumber, variant, done)
  {
    var lo := AllMovesAmong(b, player, moveNumber, variant, done);
    var hi := AllMovesAmong(b, player, moveNumber, variant, done + {x});
    var extra := if b[x].player == player && PieceMoves(b, x, moveNumber, variant) != map[]
                 then map[x := PieceMoves(b, x, moveNumber, variant)] else map[];
    assert hi.Keys == lo.Keys + extra.Keys;
    forall u | u in hi ensures hi[u] == (lo + extra)[u] {
    }
    assert hi == lo + extra;
  }

  /** Once every square is visited, the loop's map is allMoves. */
  lemma AllMovesAmongAll(b: Pieces, player: Player, moveNumber: int, variant: string)
    ensures AllMovesAmong(b, player, moveNumber, variant, b.Keys) == AllMovesSpec(b, player, moveNumber, variant)
  {
  }

  /** A plain step kept as legal at any move number: the number only stamps pawn boosts. */
  lemma StepLegalAnyMoveNumber(b: Pieces, square: Square, t: Square, player: Player, moveNumber: int)
    requires Legal(b, square, t, StepKind(b, t), player, 0)
    ensures Legal(b, square, t, StepKind(b, t), player, moveNumber)
  {
    assert Apply(b, square, t, StepKind(b, t), 0) == Apply(b, square, t, StepKind(b, t), moveNumber);
  }

  /** A move of a ray lands on an empty or capturable square other than the origin. */
  lemma RaysSound(b: Pieces, square: Square, player: Player, directions: seq<(int, int)>, t: Square)
    requires forall i :: 0 <= i < |directions| ==> IsDirection(directions[i].0, directions[i].1)
    requires t in Rays(b, square, player, directions)
    ensures Rays(b, square, player, directions)[t] == StepKind(b, t)
    ensures t != square && CanLand(b, t, player) && Legal(b, square, t, StepKind(b, t), player, 0)
  {
    RaysMembership(b, square, player, directions, t);
    var i :| 0 <= i < |directions| && t in RayMovesSpec(b, square, player, directions[i].0, directions[i].1);
    RayMovesExactly(b, square, player, directions[i].0, directions[i].1, t);
  }

  /** A move that lands on an empty or capturable square, is not en passant, removes no king and leaves `player` out of check. */
  ghost predicate SoundMove(b: Pieces, square: Square, t: Square, kind: MoveKind, player: Player, moveNumber: int)
  {
    && CanLand(b, t, player)
    && !kind.EnPassant?
    && KeepsKings(b, square, t, kind)
    && Legal(b, square, t, kind, player, moveNumber)
  }

  lemma PawnMovesSound(b: Pieces, square: Square, player: Player, moveNumber: int, t: Square)
    requires square in b && b[square].name == Pawn
    requires t in PawnMovesSpec(b, square, player, moveNumber)
    ensures SoundMove(b, square, t, PawnMovesSpec(b, square, player, moveNumber)[t], player, moveNumber)
  {
    PawnRules(b, square, player, moveNumber, t);
  }

  /** A plain step to an empty or capturable square other than the origin that leaves no check is sound. */
  lemma StepSound(b: Pieces, square: Square, t: Square, player: Player, moveNumber: int)
    requires t != square && CanLand(b, t, player) && Legal(b, square, t, StepKind(b, t), player, 0)
    ensures SoundMove(b, square, t, StepKind(b, t), player, moveNumber)
  {
    StepLegalAnyMoveNumber(b, square, t, player, moveNumber);
  }

  lemma KnightMovesSound(b: Pieces, square: Square, player: Player, moveNumber: int, t: Square)
    requires t in KnightMovesSpec(b, square, player)
    ensures SoundMove(b, square, t, KnightMovesSpec(b, square, player)[t], player, moveNumber)
  {
    KnightMovesExactly(b, square, player, t);
    KnightThreatSymmetric(t, square);
    StepSound(b, square, t, player, moveNumber);
  }

  lemma BishopMovesSound(b: Pieces, square: Square, player: Player, moveNumber: int, t: Square)
    requires t in BishopMovesSpec(b, square, player)
    ensures SoundMove(b, square, t, BishopMovesSpec(b, square, player)[t], player, moveNumber)
  {
    DirectionsAreSteps();
    RaysSound(b, square, player, BISHOP_DIRECTIONS, t);
    StepSound(b, square, t, player, moveNumber);
  }

  lemma RookMovesSound(b: Pieces, square: Square, player: Player, moveNumber: int, t: Square)
    requires t in RookMovesSpec(b, square, player)
    ensures SoundMove(b, square, t, RookMovesSpec(b, square, player)[t], player, moveNumber)
  {
    DirectionsAreSteps();
    RaysSound(b, square, player, ROOK_DIRECTIONS, t);
    StepSound(b, square, t, player, moveNumber);
  }

  lemma QueenMovesSound(b: Pieces, square: Square, player: Player, moveNumber: int, t: Square)
    requires t in QueenMovesSpec(b, square, player)
    ensures SoundMove(b, square, t, QueenMovesSpec(b, square, player)[t], player, moveNumber)
  {
    if t in RookMovesSpec(b, square, player) {
      RookMovesSound(b, square, player, moveNumber, t);
    } else {
      BishopMovesSound(b, square, player, moveNumber, t);
    }
  }

  /** Castling that passes the generator's test is sound. */
  lemma CastlingSound(b: Pieces, square: Square, player: Player, moveNumber: int, variant: string, dir: int)
    requires dir == 1 || dir == -1
    requires CanCastle(b, square, player, variant, dir)
    ensures SoundMove(b, square, Coord(5 + 2 * dir, square.line),
                      if dir == 1 then KingsideCastling else QueensideCastling, player, moveNumber)
  {
    var l := square.line;
    var t := Coord(5 + 2 * dir, l);
    var kind := if dir == 1 then KingsideCastling else QueensideCastling;
    assert GetSquare(5 + 2 * dir, l) == Some(t);
    assert Coord(5 + dir, l) !in SetSquare(b, square, t);
    assert Apply(b, square, t, kind, 0) == Apply(b, square, t, kind, moveNumber);
  }

  lemma KingMovesSound(b: Pieces, square: Square, player: Player, moveNumber: int, variant: string, t: Square)
    requires t in KingMovesSpec(b, square, player, variant)
    ensures SoundMove(b, square, t, KingMovesSpec(b, square, player, variant)[t], player, moveNumber)
  {
    var l := square.line;
    var steps := KingStepsSpec(b, square, player);
    var kingside: MoveMap := if CanCastle(b, square, player, variant, 1) then map[Coord(7, l) := KingsideCastling] else map[];
    var queenside: MoveMap := if CanCastle(b, square, player, variant, -1) then map[Coord(3, l) := QueensideCastling] else map[];
    var all := KingMovesSpec(b, square, player, variant);
    assert all == steps + kingside + queenside;
    if t in queenside {
      assert t == Coord(3, l) && all[t] == QueensideCastling;
      CastlingSound(b, square, player, moveNumber, variant, -1);
    } else if t in kingside {
      assert t == Coord(7, l) && all[t] == KingsideCastling;
      CastlingSound(b, square, player, moveNumber, variant, 1);
    } else {
      assert t in steps && all[t] == steps[t];
      KingStepsExactly(b, square, player, t);
      StepSound(b, square, t, player, moveNumber);
    }
  }

  /** Every move generated for a piece is sound for its player. */
  lemma PieceMovesSound(b: Pieces, square: Square, moveNumber: int, variant: string, t: Square)
    requires square in b && t in PieceMoves(b, square, moveNumber, variant)
    ensures SoundMove(b, square, t, PieceMoves(b, square, moveNumber, variant)[t], b[square].player, moveNumber)
  {
    var player := b[square].player;
    match b[square].name
    case Pawn => PawnMovesSound(b, square, player, moveNumber, t);
    case Knight => KnightMovesSound(b, square, player, moveNumber, t);
    case Bishop => BishopMovesSound(b, square, player, moveNumber, t);
    case Rook => RookMovesSound(b, square, player, moveNumber, t);
    case Queen => QueenMovesSound(b, square, player, moveNumber, t);
    case King => KingMovesSound(b, square, player, moveNumber, variant, t);
  }

  /**
   * The generated moves of `player`: each starts from one of that player's
   * pieces, lands on an empty or capturable square, and leads to a position
   * that still has one king per colour and in which `player` is not in check.
   */
  lemma AllMovesSound(b: Pieces, player: Player, moveNumber: int, variant: string, s: Square, t: Square)
    requires Wellformed(b)
    requires s in AllMovesSpec(b, player, moveNumber, variant) && t in AllMovesSpec(b, player, moveNumber, variant)[s]
    ensures var kind := AllMovesSpec(b, player, moveNumber, variant)[s][t];
      && s in b && b[s].player == player
      && (t !in b || IsCapturableSquare(b, Some(t), player))
      && KeepsKings(b, s, t, kind)
      && Wellformed(Apply(b, s, t, kind, moveNumber))
      && !InCheck(Apply(b, s, t, kind, moveNumber), player)
  {
    var kind := AllMovesSpec(b, player, moveNumber, variant)[s][t];
    PieceMovesSound(b, s, moveNumber, variant, t);
    ApplyKeepsWellformed(b, s, t, kind, moveNumber);
  }
}
