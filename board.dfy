/**
 * Positions and the effect of a move on them (the state-changing half of
 * js/chessboard.js: isEmptySquare, isCapturableSquare, areCloseSquares,
 * removePiece, setSquare and move), stated on piece maps.
 */
module Board {
  import opened Wrappers
  import opened ChessData
  import opened ChessPiece

  /** A position: the piece standing on each occupied square. */
  type Pieces = map<Square, PieceState>

  datatype MoveKind =
    | Moving | Capture | PawnBoost | EnPassant | Promotion | CaptureWithPromotion
    | KingsideCastling | QueensideCastling

  /** The moves of one piece: its destinations and the kind of move to each. */
  type MoveMap = map<Square, MoveKind>

  /** Writing an entry into a move map, when a condition holds, is adding a one-entry map. */
  lemma UpdateIsUnion(before: MoveMap, square: Square, kind: MoveKind, added: bool, after: MoveMap)
    requires after == if added then before[square := kind] else before
    ensures after == before + (if added then map[square := kind] else map[])
  {
  }

  /** The 64 squares. */
  function AllSquares(): (all: set<Square>)
    ensures forall s: Square :: s in all
  {
    var all: set<Square> := set c: int, l: int | MIN <= c <= MAX && MIN <= l <= MAX :: Coord(c, l);
    assert forall s: Square :: s == Coord(s.col, s.line);
    all
  }

  /** A square that exists and holds no piece. */
  predicate IsEmptySquare(b: Pieces, square: Option<Square>)
  {
    square.Some? && square.value !in b
  }

  /** A square that exists and holds a piece of the opponent other than its king. */
  predicate IsCapturableSquare(b: Pieces, square: Option<Square>, player: Player)
  {
    square.Some? && square.value in b && b[square.value].player == 1 - player
    && b[square.value].name != King
  }

  /** Neither condition holds on a square off the board, and no square satisfies both. */
  lemma EmptyAndCapturableExclusive(b: Pieces, square: Option<Square>, player: Player)
    ensures square.None? ==> !IsEmptySquare(b, square) && !IsCapturableSquare(b, square, player)
    ensures !(IsEmptySquare(b, square) && IsCapturableSquare(b, square, player))
  {
  }

  /** Chebyshev distance: the number of king steps between two squares. */
  function Distance(s1: Square, s2: Square): nat
  {
    var dc := Abs(s1.col - s2.col);
    var dl := Abs(s1.line - s2.line);
    if dc < dl then dl else dc
  }

  /** Two different squares that touch by a side or a corner. */
  predicate AreCloseSquares(square1: Square, square2: Square)
  {
    (Abs(square1.col - square2.col) == 0 && Abs(square1.line - square2.line) == 1)
    || (Abs(square1.col - square2.col) == 1 && Abs(square1.line - square2.line) == 0)
    || (Abs(square1.col - square2.col) == 1 && Abs(square1.line - square2.line) == 1)
  }

  /** Closeness is exactly Chebyshev distance 1, and so it is symmetric. */
  lemma CloseMeansDistanceOne(s1: Square, s2: Square)
    ensures AreCloseSquares(s1, s2) <==> Distance(s1, s2) == 1
    ensures AreCloseSquares(s1, s2) <==> AreCloseSquares(s2, s1)
  {
  }

  /** `k` holds the king of `player`. */
  predicate KingAt(b: Pieces, k: Square, player: Player)
  {
    k in b && b[k].name == King && b[k].player == player
  }

  /** `player` has exactly one king on the board. */
  ghost predicate HasOneKing(b: Pieces, player: Player)
  {
    exists k :: KingAt(b, k, player) && forall s :: KingAt(b, s, player) ==> s == k
  }

  /** The invariant every position of a game keeps: one king per colour. */
  ghost predicate Wellformed(b: Pieces)
  {
    HasOneKing(b, WHITE) && HasOneKing(b, BLACK)
  }

  /** removePiece: the square becomes empty. */
  function RemovePiece(b: Pieces, square: Square): Pieces
  {
    b - {square}
  }

  /** setSquare: the piece goes to `newSquare`, is marked as moved, and `square` is emptied. */
  function SetSquare(b: Pieces, square: Square, newSquare: Square): Pieces
    requires square in b
  {
    RemovePiece(b[newSquare := b[square].WithWasMoved()], square)
  }

  predicate IsCastling(kind: MoveKind)
  {
    kind.KingsideCastling? || kind.QueensideCastling?
  }

  /** Where castling takes the rook from: one column right of the king's destination (kingside), two left (queenside). */
  function RookFrom(square: Square, newSquare: Square, kind: MoveKind): Option<Square>
    requires IsCastling(kind)
  {
    if kind.KingsideCastling? then GetSquare(newSquare.col + 1, square.line)
    else GetSquare(newSquare.col - 2, square.line)
  }

  /** Where castling puts the rook: one column left of the king's destination (kingside), one right (queenside). */
  function RookTo(square: Square, newSquare: Square, kind: MoveKind): Option<Square>
    requires IsCastling(kind)
  {
    if kind.KingsideCastling? then GetSquare(newSquare.col - 1, square.line)
    else GetSquare(newSquare.col + 1, square.line)
  }

  /** The pawn removed by an en-passant capture: the destination's column on the origin's line. */
  function EnPassantVictim(square: Square, newSquare: Square): Square
  {
    Coord(newSquare.col, square.line)
  }

  /**
   * What `move` needs to run without a TypeError: a piece on the origin; for
   * the kinds that touch the piece again after setSquare, a destination other
   * than the origin; for castling, both rook squares on the board and a piece
   * on the first.
   */
  predicate CanApply(b: Pieces, square: Square, newSquare: Square, kind: MoveKind)
  {
    && square in b
    && (kind.PawnBoost? || kind.Promotion? || kind.CaptureWithPromotion? ==> square != newSquare)
    && (IsCastling(kind) ==>
          && RookFrom(square, newSquare, kind).Some?
          && RookTo(square, newSquare, kind).Some?
          && RookFrom(square, newSquare, kind).value in SetSquare(b, square, newSquare))
  }

  /** move: the position after playing `kind` from `square` to `newSquare` at ply `moveNumber`. */
  function Apply(b: Pieces, square: Square, newSquare: Square, kind: MoveKind, moveNumber: int): Pieces
    requires CanApply(b, square, newSquare, kind)
  {
    var moved := SetSquare(b, square, newSquare);
    match kind
    case Moving => moved
    case Capture => moved
    case PawnBoost => moved[newSquare := moved[newSquare].WithPawnBoostMoveNumber(moveNumber)]
    case EnPassant => RemovePiece(moved, EnPassantVictim(square, newSquare))
    case Promotion => moved[newSquare := moved[newSquare].WithName(Queen)]
    case CaptureWithPromotion => moved[newSquare := moved[newSquare].WithName(Queen)]
    case KingsideCastling =>
      SetSquare(moved, RookFrom(square, newSquare, kind).value, RookTo(square, newSquare, kind).value)
    case QueensideCastling =>
      SetSquare(moved, RookFrom(square, newSquare, kind).value, RookTo(square, newSquare, kind).value)
  }

  /** The piece that lands on the destination of a move. */
  function Landed(p: PieceState, kind: MoveKind, moveNumber: int): PieceState
  {
    match kind
    case PawnBoost => p.WithWasMoved().WithPawnBoostMoveNumber(moveNumber)
    case Promotion => p.WithWasMoved().WithName(Queen)
    case CaptureWithPromotion => p.WithWasMoved().WithName(Queen)
    case _ => p.WithWasMoved()
  }

  /**
   * A move other than castling puts the origin's piece on the destination
   * (marked as moved, stamped by a boost, renamed queen by a promotion),
   * empties the origin and, for en passant, the victim's square, and changes
   * no other square.
   */
  lemma ApplyPlainMove(b: Pieces, square: Square, newSquare: Square, kind: MoveKind, moveNumber: int, s: Square)
    requires CanApply(b, square, newSquare, kind) && !IsCastling(kind) && square != newSquare
    requires kind.EnPassant? ==> EnPassantVictim(square, newSquare) != newSquare
    ensures var r := Apply(b, square, newSquare, kind, moveNumber);
      && newSquare in r && r[newSquare] == Landed(b[square], kind, moveNumber)
      && square !in r
      && (kind.EnPassant? ==> EnPassantVictim(square, newSquare) !in r)
      && (s != square && s != newSquare && (kind.EnPassant? ==> s != EnPassantVictim(square, newSquare))
          ==> (s in r <==> s in b) && (s in b ==> r[s] == b[s]))
  {
  }

  /**
   * Castling moves the king to its destination and the rook from RookFrom to
   * RookTo, both marked as moved, empties their origins and changes no other
   * square.
   */
  lemma ApplyCastling(b: Pieces, square: Square, newSquare: Square, kind: MoveKind, moveNumber: int, s: Square)
    requires CanApply(b, square, newSquare, kind) && IsCastling(kind)
    requires var rf, rt := RookFrom(square, newSquare, kind).value, RookTo(square, newSquare, kind).value;
      square != newSquare && rf != rt && rf != newSquare && rt != newSquare && rt != square
    ensures var r := Apply(b, square, newSquare, kind, moveNumber);
      var rf, rt := RookFrom(square, newSquare, kind).value, RookTo(square, newSquare, kind).value;
      && newSquare in r && r[newSquare] == b[square].WithWasMoved()
      && rt in r && r[rt] == b[rf].WithWasMoved()
      && square !in r && rf !in r
      && (s != square && s != newSquare && s != rf && s != rt ==> (s in r <==> s in b) && (s in b ==> r[s] == b[s]))
  {
  }

  /** From e1 (or e8), kingside castling to g1 takes the rook h1 to f1; queenside castling to c1 takes a1 to d1. */
  lemma CastlingRookSquares(player: Player)
    ensures var e := InitialKingSquare(player);
      && RookFrom(e, Coord(7, e.line), KingsideCastling) == Some(Coord(8, e.line))
      && RookTo(e, Coord(7, e.line), KingsideCastling) == Some(Coord(6, e.line))
      && RookFrom(e, Coord(3, e.line), QueensideCastling) == Some(Coord(1, e.line))
      && RookTo(e, Coord(3, e.line), QueensideCastling) == Some(Coord(4, e.line))
  {
  }

  /**
   * A move that removes and renames no king: the destination holds no king,
   * a promoted piece is not a king, the en-passant victim is not a king, and
   * castling drops its rook on a different square that holds no king.
   */
  predicate KeepsKings(b: Pieces, square: Square, newSquare: Square, kind: MoveKind)
  {
    && CanApply(b, square, newSquare, kind)
    && square != newSquare
    && (newSquare !in b || b[newSquare].name != King)
    && (kind.Promotion? || kind.CaptureWithPromotion? ==> b[square].name != King)
    && (kind.EnPassant? ==> var v := EnPassantVictim(square, newSquare);
          v != newSquare && (v !in b || b[v].name != King))
    && (IsCastling(kind) ==>
          var moved := SetSquare(b, square, newSquare);
          var rf, rt := RookFrom(square, newSquare, kind).value, RookTo(square, newSquare, kind).value;
          rf != rt && (rt !in moved || moved[rt].name != King))
  }

  lemma SetSquareKeepsOneKing(b: Pieces, square: Square, newSquare: Square, player: Player)
    requires square in b && square != newSquare
    requires newSquare !in b || b[newSquare].name != King
    requires HasOneKing(b, player)
    ensures HasOneKing(SetSquare(b, square, newSquare), player)
  {
    var r := SetSquare(b, square, newSquare);
    var k :| KingAt(b, k, player) && forall s :: KingAt(b, s, player) ==> s == k;
    var k' := if k == square then newSquare else k;
    assert KingAt(r, k', player);
    forall s | KingAt(r, s, player) ensures s == k' {
      if s == newSquare {
        assert KingAt(b, square, player);
      } else {
        assert KingAt(b, s, player);
      }
    }
  }

  lemma RemovePieceKeepsOneKing(b: Pieces, square: Square, player: Player)
    requires square !in b || b[square].name != King
    requires HasOneKing(b, player)
    ensures HasOneKing(RemovePiece(b, square), player)
  {
    var r := RemovePiece(b, square);
    var k :| KingAt(b, k, player) && forall s :: KingAt(b, s, player) ==> s == k;
    assert KingAt(r, k, player);
    forall s | KingAt(r, s, player) ensures s == k {
      assert KingAt(b, s, player);
    }
  }

  lemma RenameKeepsOneKing(b: Pieces, square: Square, p: PieceState, player: Player)
    requires square in b && b[square].name != King && p.name != King
    requires HasOneKing(b, player)
    ensures HasOneKing(b[square := p], player)
  {
    var r := b[square := p];
    var k :| KingAt(b, k, player) && forall s :: KingAt(b, s, player) ==> s == k;
    assert KingAt(r, k, player);
    forall s | KingAt(r, s, player) ensures s == k {
      assert KingAt(b, s, player);
    }
  }

  lemma RestampKeepsOneKing(b: Pieces, square: Square, m: int, player: Player)
    requires square in b
    requires HasOneKing(b, player)
    ensures HasOneKing(b[square := b[square].WithPawnBoostMoveNumber(m)], player)
  {
    var r := b[square := b[square].WithPawnBoostMoveNumber(m)];
    var k :| KingAt(b, k, player) && forall s :: KingAt(b, s, player) ==> s == k;
    assert KingAt(r, k, player);
    forall s | KingAt(r, s, player) ensures s == k {
      assert KingAt(b, s, player);
    }
  }

  /** A move that keeps kings keeps each player's single king. */
  lemma {:induction false} ApplyKeepsOneKing(b: Pieces, square: Square, newSquare: Square, kind: MoveKind, moveNumber: int, player: Player)
    requires KeepsKings(b, square, newSquare, kind)
    requires HasOneKing(b, player)
    ensures HasOneKing(Apply(b, square, newSquare, kind, moveNumber), player)
  {
    var moved := SetSquare(b, square, newSquare);
    SetSquareKeepsOneKing(b, square, newSquare, player);
    match kind
    case Moving =>
    case Capture =>
    case PawnBoost => RestampKeepsOneKing(moved, newSquare, moveNumber, player);
    case EnPassant => RemovePieceKeepsOneKing(moved, EnPassantVictim(square, newSquare), player);
    case Promotion => RenameKeepsOneKing(moved, newSquare, moved[newSquare].WithName(Queen), player);
    case CaptureWithPromotion => RenameKeepsOneKing(moved, newSquare, moved[newSquare].WithName(Queen), player);
    case KingsideCastling =>
      SetSquareKeepsOneKing(moved, RookFrom(square, newSquare, kind).value, RookTo(square, newSquare, kind).value, player);
    case QueensideCastling =>
      SetSquareKeepsOneKing(moved, RookFrom(square, newSquare, kind).value, RookTo(square, newSquare, kind).value, player);
  }

  lemma ApplyKeepsWellformed(b: Pieces, square: Square, newSquare: Square, kind: MoveKind, moveNumber: int)
    requires KeepsKings(b, square, newSquare, kind) && Wellformed(b)
    ensures Wellformed(Apply(b, square, newSquare, kind, moveNumber))
  {
    ApplyKeepsOneKing(b, square, newSquare, kind, moveNumber, WHITE);
    ApplyKeepsOneKing(b, square, newSquare, kind, moveNumber, BLACK);
  }
}
