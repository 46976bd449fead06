/**
 * The starting positions of js/chessModel.js (setupChessboard): the standard layout and the
 * Chess960 shuffle of the back rank. `Math.random` is replaced by a sequence of draws given
 * as input, each draw being the value `Math.floor(Math.random() * k)` the shuffle asks for.
 */
module Setup {
  import opened Wrappers
  import opened ChessData
  import opened ChessPiece
  import opened Board
  import opened Material

  /* ---------- Back ranks ---------- */

  /** The columns of `names` (0-based) that hold `n`. */
  predicate OnlyAt(names: seq<Name>, n: Name, x: int, y: int)
  {
    && 0 <= x < |names| && 0 <= y < |names|
    && names[x] == n && names[y] == n
    && forall i :: 0 <= i < |names| && names[i] == n ==> i == x || i == y
  }

  /**
   * A Chess960 back rank: two bishops on squares of opposite colours (an even and an odd
   * index), one queen, two knights, and the king strictly between the two rooks.
   */
  ghost predicate Chess960Rank(names: seq<Name>)
  {
    && |names| == 8
    && (forall i :: 0 <= i < 8 ==> names[i] != Pawn)
    && (exists e, o :: OnlyAt(names, Bishop, e, o) && e % 2 == 0 && o % 2 == 1)
    && (exists q :: OnlyAt(names, Queen, q, q))
    && (exists n1, n2 :: OnlyAt(names, Knight, n1, n2) && n1 != n2)
    && (exists a, k, c :: OnlyAt(names, Rook, a, c) && OnlyAt(names, King, k, k) && a < k < c)
  }

  /** The standard back rank is one of the Chess960 back ranks. */
  lemma StandardRankIs960()
    ensures Chess960Rank(NAMES)
  {
    assert OnlyAt(NAMES, Bishop, 2, 5);
    assert OnlyAt(NAMES, Queen, 3, 3);
    assert OnlyAt(NAMES, Knight, 1, 6);
    assert OnlyAt(NAMES, Rook, 0, 7) && OnlyAt(NAMES, King, 4, 4);
  }

  /* ---------- Positions ---------- */

  /** What a starting position holds on `s`: the back rank `names` on lines 1 and 8, pawns on lines 2 and 7. */
  function HomePiece(names: seq<Name>, s: Square): Option<PieceState>
    requires |names| == 8
  {
    if s.line == MIN then Some(NewPiece(WHITE, names[s.col - 1]))
    else if s.line == MIN + 1 then Some(NewPiece(WHITE, Pawn))
    else if s.line == MAX - 1 then Some(NewPiece(BLACK, Pawn))
    else if s.line == MAX then Some(NewPiece(BLACK, names[s.col - 1]))
    else None
  }

  /** The part of the starting position on the columns before `j`. */
  function PositionUpTo(names: seq<Name>, j: int): Pieces
    requires |names| == 8
  {
    map s | s in AllSquares() && s.col < j && HomePiece(names, s).Some? :: HomePiece(names, s).value
  }

  /** The starting position with back rank `names`. */
  function Position(names: seq<Name>): Pieces
    requires |names| == 8
  {
    PositionUpTo(names, MAX + 1)
  }

  /** Filling column `j` adds its four home squares and nothing else. */
  lemma PositionColumn(names: seq<Name>, j: int)
    requires |names| == 8 && MIN <= j <= MAX
    ensures PositionUpTo(names, j + 1)
         == PositionUpTo(names, j)[Coord(j, 1) := NewPiece(WHITE, names[j - 1])]
                                  [Coord(j, 2) := NewPiece(WHITE, Pawn)]
                                  [Coord(j, 7) := NewPiece(BLACK, Pawn)]
                                  [Coord(j, 8) := NewPiece(BLACK, names[j - 1])]
  {
    var next := PositionUpTo(names, j + 1);
    var filled := PositionUpTo(names, j)[Coord(j, 1) := NewPiece(WHITE, names[j - 1])]
                                        [Coord(j, 2) := NewPiece(WHITE, Pawn)]
                                        [Coord(j, 7) := NewPiece(BLACK, Pawn)]
                                        [Coord(j, 8) := NewPiece(BLACK, names[j - 1])];
    assert next.Keys == filled.Keys;
  }

  /** A starting position holds exactly the home pieces. */
  lemma PositionAt(names: seq<Name>, s: Square)
    requires |names| == 8
    ensures s in Position(names) <==> HomePiece(names, s).Some?
    ensures s in Position(names) ==> Position(names)[s] == HomePiece(names, s).value
  {
  }

  /** The keys of a starting position are exactly the squares of lines 1, 2, 7 and 8. */
  lemma PositionKeys(names: seq<Name>, s: Square)
    requires |names| == 8
    ensures s in Position(names) <==> s.line in {1, 2, 7, 8}
    ensures s in Position(names) ==> !Position(names)[s].wasMoved && Position(names)[s].pawnBoostMoveNumber.None?
  {
  }

  /** The squares of column `c` are not yet in the part of the position before `c`. */
  lemma PositionUpToFresh(names: seq<Name>, c: int)
    requires |names| == 8 && MIN <= c <= MAX
    ensures forall l :: MIN <= l <= MAX ==> Coord(c, l) !in PositionUpTo(names, c)
  {
  }

  /** Before the first column there is nothing. */
  lemma PositionUpToNone(names: seq<Name>)
    requires |names| == 8
    ensures |PositionUpTo(names, MIN)| == 0
  {
    assert PositionUpTo(names, MIN) == map[];
  }

  /** Four updates of a map at four new keys add four entries. */
  lemma UpdateFourSize(m: Pieces, k1: Square, k2: Square, k3: Square, k4: Square, v1: PieceState, v2: PieceState, v3: PieceState, v4: PieceState)
    requires k1 !in m && k2 !in m && k3 !in m && k4 !in m
    requires k1 != k2 && k1 != k3 && k1 != k4 && k2 != k3 && k2 != k4 && k3 != k4
    ensures |m[k1 := v1][k2 := v2][k3 := v3][k4 := v4]| == |m| + 4
  {
    assert |m[k1 := v1]| == |m| + 1;
    assert |m[k1 := v1][k2 := v2]| == |m| + 2;
    assert |m[k1 := v1][k2 := v2][k3 := v3]| == |m| + 3;
  }

  /** The home squares of the columns before `j`: four per column. */
  lemma {:induction false} PositionUpToCard(names: seq<Name>, j: int)
    requires |names| == 8 && MIN <= j <= MAX + 1
    ensures |PositionUpTo(names, j)| == 4 * (j - MIN)
    decreases j
  {
    if j == MIN {
      PositionUpToNone(names);
    } else {
      PositionUpToCard(names, j - 1);
      PositionColumnSize(names, j);
    }
  }

  /** Filling one column adds four pieces. */
  lemma PositionColumnSize(names: seq<Name>, j: int)
    requires |names| == 8 && MIN < j <= MAX + 1
    ensures |PositionUpTo(names, j)| == |PositionUpTo(names, j - 1)| + 4
  {
    var c := j - 1;
    PositionColumn(names, c);
    PositionUpToFresh(names, c);
    UpdateFourSize(PositionUpTo(names, c), Coord(c, 1), Coord(c, 2), Coord(c, 7), Coord(c, 8),
                   NewPiece(WHITE, names[c - 1]), NewPiece(WHITE, Pawn), NewPiece(BLACK, Pawn), NewPiece(BLACK, names[c - 1]));
  }

  /** A starting position holds 32 pieces, none of them moved. */
  lemma PositionSize(names: seq<Name>)
    requires |names| == 8
    ensures |Position(names)| == 32
    ensures forall s :: s in Position(names) ==> !Position(names)[s].wasMoved
  {
    PositionUpToCard(names, MAX + 1);
  }

  /** Black's pieces mirror White's: the position is its own mirror image, so material is level. */
  lemma PositionMirrored(names: seq<Name>)
    requires |names| == 8
    ensures Mirror(Position(names)) == Position(names)
    ensures WhiteAdvantage(Position(names)) == 0
  {
    var p := Position(names);
    forall s: Square
      ensures s in Mirror(p) <==> s in p
      ensures s in p ==> Mirror(p)[s] == p[s]
    {
      MirroredAt(names, s);
    }
    assert Mirror(p) == p;
    MirrorNegatesAdvantage(p);
  }

  /** On each square, the mirrored starting position holds what the position itself holds. */
  lemma MirroredAt(names: seq<Name>, s: Square)
    requires |names| == 8
    ensures s in Mirror(Position(names)) <==> s in Position(names)
    ensures s in Position(names) ==> Mirror(Position(names))[s] == Position(names)[s]
  {
    PositionAt(names, s);
    PositionAt(names, Flip(s));
  }

  /** With the king at index `k` of the back rank, each side has its one king on column k + 1. */
  lemma PositionKing(names: seq<Name>, k: int, player: Player)
    requires |names| == 8 && OnlyAt(names, King, k, k)
    ensures HasOneKing(Position(names), player)
  {
    var p := Position(names);
    var home := Coord(k + 1, if player == WHITE then MIN else MAX);
    PositionAt(names, home);
    assert KingAt(p, home, player);
    forall s | KingAt(p, s, player)
      ensures s == home
    {
      PositionAt(names, s);
    }
  }

  /** A Chess960 back rank (the standard one included) gives each side exactly one king. */
  lemma PositionWellformed(names: seq<Name>)
    requires Chess960Rank(names)
    ensures Wellformed(Position(names))
  {
    var a, k, c :| OnlyAt(names, Rook, a, c) && OnlyAt(names, King, k, k) && a < k < c;
    PositionKing(names, k, WHITE);
    PositionKing(names, k, BLACK);
  }

  /* ---------- The Chess960 shuffle ---------- */

  /** The draws the shuffle makes, each `Math.floor(Math.random() * k)` for the k it uses. */
  predicate RandomDraws(draws: seq<int>)
  {
    && |draws| == 5
    && 0 <= draws[0] < 4 && 0 <= draws[1] < 4
    && 0 <= draws[2] < 6 && 0 <= draws[3] < 5 && 0 <= draws[4] < 4
  }

  predicate Increasing(s: seq<int>)
  {
    forall i, j :: 0 <= i < j < |s| ==> s[i] < s[j]
  }

  /** `columns.filter(column => column !== a && column !== b)`. */
  function FilterOut(s: seq<int>, a: int, b: int): (r: seq<int>)
    ensures forall x :: x in r <==> x in s && x != a && x != b
    ensures Increasing(s) ==> Increasing(r)
  {
    if s == [] then []
    else
      var rest := FilterOut(s[1..], a, b);
      if s[0] != a && s[0] != b then
        assert Increasing(s) ==> forall k :: 0 <= k < |rest| ==> s[0] < rest[k] by {
          if Increasing(s) {
            forall k | 0 <= k < |rest|
              ensures s[0] < rest[k]
            {
              HeadBelow(s, rest[k]);
            }
          }
        }
        [s[0]] + rest
      else rest
  }

  /** In a strictly increasing list, the head is below every later entry. */
  lemma HeadBelow(s: seq<int>, y: int)
    requires Increasing(s) && s != [] && y in s[1..]
    ensures s[0] < y
  {
    var j :| 0 <= j < |s| - 1 && s[1..][j] == y;
    assert s[j + 1] == y;
  }

  /** Filtering out two values of a strictly increasing list shortens it by one per value present. */
  lemma {:induction false} FilterOutLength(s: seq<int>, a: int, b: int)
    requires Increasing(s)
    ensures |FilterOut(s, a, b)| == |s| - (if a in s then 1 else 0) - (if b in s && b != a then 1 else 0)
  {
    if s != [] {
      assert s == [s[0]] + s[1..];
      FilterOutLength(s[1..], a, b);
      assert s[0] !in s[1..];
    }
  }

  /** `columns.filter((_, i) => i !== k)`: the list without its entry at index `k`. */
  function RemoveAt(s: seq<int>, k: int): (r: seq<int>)
    requires 0 <= k < |s|
    ensures |r| == |s| - 1
    ensures Increasing(s) ==> Increasing(r) && forall x :: x in r <==> x in s && x != s[k]
  {
    assert Increasing(s) ==> forall i :: 0 <= i < |s| && i != k ==> s[i] != s[k];
    s[..k] + s[k + 1..]
  }

  /**
   * The state of the shuffle: `columns` lists, in increasing order, the free columns; `placed`
   * holds the names already put on every other column of the back rank.
   */
  ghost predicate Shuffling(names: seq<Name>, columns: seq<int>, placed: map<int, Name>)
  {
    && |names| == 8 && Increasing(columns)
    && (forall x :: x in columns ==> 0 <= x < 8 && x !in placed)
    && (forall x :: 0 <= x < 8 ==> x in columns || x in placed)
    && (forall x :: x in placed ==> 0 <= x < 8 && names[x] == placed[x])
    && (forall i :: 0 <= i < 8 ==> names[i] != Pawn)
  }

  /** The columns to which `placed` gives the name `n` are exactly `xs`. */
  ghost predicate PlacedAs(placed: map<int, Name>, n: Name, xs: set<int>)
  {
    xs <= placed.Keys && forall x :: x in placed ==> (placed[x] == n <==> x in xs)
  }

  /** After the bishops, the free columns are the six others, in increasing order. */
  lemma BishopsFree(e: int, o: int)
    requires 0 <= e < 8 && 0 <= o < 8 && e != o
    ensures |FilterOut([0, 1, 2, 3, 4, 5, 6, 7], e, o)| == 6
    ensures Increasing(FilterOut([0, 1, 2, 3, 4, 5, 6, 7], e, o))
    ensures forall x :: x in FilterOut([0, 1, 2, 3, 4, 5, 6, 7], e, o) <==> 0 <= x < 8 && x != e && x != o
  {
    AllColumns();
    FilterOutLength([0, 1, 2, 3, 4, 5, 6, 7], e, o);
  }

  /** The list of all columns is increasing and holds exactly 0..7. */
  lemma AllColumns()
    ensures Increasing([0, 1, 2, 3, 4, 5, 6, 7])
    ensures forall x :: x in [0, 1, 2, 3, 4, 5, 6, 7] <==> 0 <= x < 8
  {
    var all := [0, 1, 2, 3, 4, 5, 6, 7];
    assert forall x :: x in all ==> 0 <= x < 8;
    forall x | 0 <= x < 8
      ensures x in all
    {
      assert all[x] == x;
    }
  }

  /** The columns given so far to each kind of piece of the back rank. */
  datatype Roles = Roles(bishops: set<int>, queens: set<int>, knights: set<int>, rooks: set<int>, kings: set<int>)
  {
    /** The roles once column `c` is given the name `n`. */
    function Add(n: Name, c: int): Roles
    {
      match n
      case Bishop => this.(bishops := bishops + {c})
      case Queen => this.(queens := queens + {c})
      case Knight => this.(knights := knights + {c})
      case Rook => this.(rooks := rooks + {c})
      case King => this.(kings := kings + {c})
      case Pawn => this
    }
  }

  /** The state of the shuffle, with `roles` telling which placed columns got which name. */
  ghost predicate Stage(names: seq<Name>, columns: seq<int>, placed: map<int, Name>, roles: Roles)
  {
    && Shuffling(names, columns, placed)
    && PlacedAs(placed, Bishop, roles.bishops) && PlacedAs(placed, Queen, roles.queens)
    && PlacedAs(placed, Knight, roles.knights) && PlacedAs(placed, Rook, roles.rooks)
    && PlacedAs(placed, King, roles.kings)
  }

  /** The two bishops: an even and an odd column, recorded as placed. */
  lemma BishopsStep(e: int, o: int)
    requires 0 <= e < 8 && e % 2 == 0 && 0 <= o < 8 && o % 2 == 1
    ensures |FilterOut([0, 1, 2, 3, 4, 5, 6, 7], e, o)| == 6
    ensures Stage(NAMES[e := Bishop][o := Bishop], FilterOut([0, 1, 2, 3, 4, 5, 6, 7], e, o),
                  map[e := Bishop, o := Bishop], Roles({e, o}, {}, {}, {}, {}))
  {
    BishopsFree(e, o);
    var names := NAMES[e := Bishop][o := Bishop];
    var placed := map[e := Bishop, o := Bishop];
    assert forall i :: 0 <= i < 8 ==> names[i] != Pawn;
    assert Shuffling(names, FilterOut([0, 1, 2, 3, 4, 5, 6, 7], e, o), placed);
    assert PlacedAs(placed, Bishop, {e, o});
  }

  /** Putting `n` on the free column at index `k` keeps the state and records the column under `n`. */
  lemma PlaceStep(names: seq<Name>, columns: seq<int>, placed: map<int, Name>, roles: Roles, k: int, n: Name)
    requires Stage(names, columns, placed, roles) && 0 <= k < |columns| && n != Pawn
    ensures columns[k] !in placed
    ensures Stage(names[columns[k] := n], RemoveAt(columns, k), placed[columns[k] := n], roles.Add(n, columns[k]))
  {
    var c := columns[k];
    assert c in columns;
    assert Shuffling(names[c := n], RemoveAt(columns, k), placed[c := n]);
    var r := roles.Add(n, c);
    assert PlacedAs(placed[c := n], Bishop, r.bishops) && PlacedAs(placed[c := n], Queen, r.queens);
    assert PlacedAs(placed[c := n], Knight, r.knights);
  }

  /** Rook, king and rook on the three columns left, in increasing order. */
  lemma FinishStep(names: seq<Name>, columns: seq<int>, placed: map<int, Name>, roles: Roles)
    requires Stage(names, columns, placed, roles) && |columns| == 3
    ensures 0 <= columns[0] < columns[1] < columns[2] < 8
    ensures Stage(names[columns[0] := Rook][columns[1] := King][columns[2] := Rook], [],
                  placed[columns[0] := Rook][columns[1] := King][columns[2] := Rook],
                  roles.Add(Rook, columns[0]).Add(King, columns[1]).Add(Rook, columns[2]))
  {
    var c0, c1, c2 := columns[0], columns[1], columns[2];
    assert c0 in columns && c2 in columns;
    PlaceStep(names, columns, placed, roles, 0, Rook);
    var columns1 := RemoveAt(columns, 0);
    assert columns1 == [c1, c2];
    PlaceStep(names[c0 := Rook], columns1, placed[c0 := Rook], roles.Add(Rook, c0), 0, King);
    var columns2 := RemoveAt(columns1, 0);
    assert columns2 == [c2];
    PlaceStep(names[c0 := Rook][c1 := King], columns2, placed[c0 := Rook][c1 := King],
              roles.Add(Rook, c0).Add(King, c1), 0, Rook);
    assert RemoveAt(columns2, 0) == [];
  }

  /** Once the bishops, the queen and the knights are placed, rook, king and rook complete a Chess960 rank. */
  lemma FinishRank(names: seq<Name>, columns: seq<int>, placed: map<int, Name>, e: int, o: int, q: int, n1: int, n2: int)
    requires Stage(names, columns, placed, Roles({e, o}, {q}, {n1, n2}, {}, {})) && |columns| == 3
    requires e % 2 == 0 && o % 2 == 1 && n1 != n2
    ensures 0 <= columns[0] < columns[1] < columns[2] < |names|
    ensures Chess960Rank(names[columns[0] := Rook][columns[1] := King][columns[2] := Rook])
  {
    var roles := Roles({e, o}, {q}, {n1, n2}, {}, {});
    FinishStep(names, columns, placed, roles);
    var a, k, c := columns[0], columns[1], columns[2];
    assert roles.Add(Rook, a).Add(King, k).Add(Rook, c) == Roles({e, o}, {q}, {n1, n2}, {a, c}, {k});
    PlacementIsRank(names[a := Rook][k := King][c := Rook], placed[a := Rook][k := King][c := Rook], e, o, q, n1, n2, a, k, c);
  }

  /** A completed placement is a Chess960 rank. */
  lemma PlacementIsRank(names: seq<Name>, placed: map<int, Name>, e: int, o: int, q: int, n1: int, n2: int, a: int, k: int, c: int)
    requires Stage(names, [], placed, Roles({e, o}, {q}, {n1, n2}, {a, c}, {k}))
    requires e % 2 == 0 && o % 2 == 1 && n1 != n2 && a < k < c
    ensures Chess960Rank(names)
  {
    assert forall x :: 0 <= x < 8 ==> x in placed;
    assert OnlyAt(names, Bishop, e, o);
    assert OnlyAt(names, Queen, q, q);
    assert OnlyAt(names, Knight, n1, n2);
    assert OnlyAt(names, Rook, a, c) && OnlyAt(names, King, k, k);
  }

  /** The back rank the Chess960 branch of setupChessboard builds from the draws. */
  method Shuffle960(draws: seq<int>) returns (names: seq<Name>)
    requires RandomDraws(draws)
    ensures Chess960Rank(names)
  {
    var columns := [0, 1, 2, 3, 4, 5, 6, 7];
    names := NAMES;
    // Even square bishop column
    var randomNumber1 := draws[0] * 2;
    names := names[randomNumber1 := Bishop];
    // Odd square bishop column
    var randomNumber2 := draws[1] * 2 + 1;
    names := names[randomNumber2 := Bishop];
    BishopsStep(randomNumber1, randomNumber2);
    columns := FilterOut(columns, randomNumber1, randomNumber2);
    ghost var e, o := randomNumber1, randomNumber2;
    ghost var placed := map[e := Bishop, o := Bishop];
    // Queen column
    randomNumber1 := draws[2];
    ghost var q := columns[randomNumber1];
    PlaceStep(names, columns, placed, Roles({e, o}, {}, {}, {}, {}), randomNumber1, Queen);
    names := names[columns[randomNumber1] := Queen];
    placed := placed[q := Queen];
    columns := RemoveAt(columns, randomNumber1);
    // Knight columns
    ghost var knights: set<int> := {};
    ghost var n1, n2 := 0, 0;
    for i := 0 to 2
      invariant Stage(names, columns, placed, Roles({e, o}, {q}, knights, {}, {})) && |columns| == 5 - i
      invariant knights == (if i == 0 then {} else if i == 1 then {n1} else {n1, n2})
      invariant i == 2 ==> n1 != n2
    {
      randomNumber1 := draws[3 + i];
      ghost var n := columns[randomNumber1];
      PlaceStep(names, columns, placed, Roles({e, o}, {q}, knights, {}, {}), randomNumber1, Knight);
      if i == 0 {
        n1 := n;
      } else {
        n2 := n;
      }
      knights := knights + {n};
      names := names[columns[randomNumber1] := Knight];
      placed := placed[n := Knight];
      columns := RemoveAt(columns, randomNumber1);
    }
    // Left rook, king and right rook columns
    FinishRank(names, columns, placed, e, o, q, n1, n2);
    names := names[columns[0] := Rook];
    names := names[columns[1] := King];
    names := names[columns[2] := Rook];
  }

  /** Lines 1, 2, 7 and 8 filled column by column from the back rank `names`. */
  method PlaceRanks(names: seq<Name>) returns (pieces: Pieces)
    requires |names| == 8
    ensures pieces == Position(names)
  {
    pieces := map[];
    assert pieces == PositionUpTo(names, MIN);
    for j := MIN to MAX + 1
      invariant pieces == PositionUpTo(names, j)
    {
      PositionColumn(names, j);
      pieces := pieces[Coord(j, 1) := NewPiece(WHITE, names[j - 1])];
      pieces := pieces[Coord(j, 2) := NewPiece(WHITE, Pawn)];
      pieces := pieces[Coord(j, 7) := NewPiece(BLACK, Pawn)];
      pieces := pieces[Coord(j, 8) := NewPiece(BLACK, names[j - 1])];
    }
  }

  /**
   * setupChessboard: the standard layout for "std", a shuffled Chess960 back rank for "960",
   * and an empty board for anything else. It reads the page-wide variant, not its argument.
   */
  method SetupChessboard(globalVariant: string, draws: seq<int>) returns (pieces: Pieces)
    requires RandomDraws(draws)
    ensures globalVariant == "std" ==> pieces == Position(NAMES)
    ensures globalVariant == "960" ==> exists names :: Chess960Rank(names) && pieces == Position(names)
    ensures globalVariant != "std" && globalVariant != "960" ==> pieces == map[]
  {
    pieces := map[];
    if globalVariant == "std" {
      pieces := PlaceRanks(NAMES);
    } else if globalVariant == "960" {
      var names := Shuffle960(draws);
      pieces := PlaceRanks(names);
    }
  }

  /** Every starting position the setup produces for a known variant is well formed and level. */
  lemma SetupFacts(names: seq<Name>)
    requires Chess960Rank(names)
    ensures Wellformed(Position(names)) && |Position(names)| == 32
    ensures WhiteAdvantage(Position(names)) == 0
  {
    PositionWellformed(names);
    PositionSize(names);
    PositionMirrored(names);
  }
}
