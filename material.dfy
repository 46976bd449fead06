/**
 * The positional judgements of js/chessboard.js: the insufficient-material
 * draw rule and the material balance, stated over piece counts.
 */
module Material {
  import opened Wrappers
  import opened ChessData
  import opened ChessPiece
  import opened Board

  /** The piece on `s` belongs to `player` and, when a name is given, has that name. */
  predicate Matches(b: Pieces, s: Square, player: Player, name: Option<Name>)
    requires s in b
  {
    b[s].player == player && (name.None? || b[s].name == name.value)
  }

  /** The number of squares among `keys` holding a matching piece. */
  function CountIn(b: Pieces, keys: set<Square>, player: Player, name: Option<Name>): nat
  {
    |set s | s in keys && s in b && Matches(b, s, player, name)|
  }

  /** The number of pieces of `player` (with the given name, if any) on the board. */
  function Count(b: Pieces, player: Player, name: Option<Name>): nat
  {
    CountIn(b, b.Keys, player, name)
  }

  /** Visiting one more square adds one to a count exactly when that square holds a matching piece. */
  lemma CountInAdd(b: Pieces, keys: set<Square>, x: Square, player: Player, name: Option<Name>)
    requires x !in keys
    ensures CountIn(b, keys + {x}, player, name)
         == CountIn(b, keys, player, name) + (if x in b && Matches(b, x, player, name) then 1 else 0)
  {
    var before := set s | s in keys && s in b && Matches(b, s, player, name);
    var after := set s | s in keys + {x} && s in b && Matches(b, s, player, name);
    if x in b && Matches(b, x, player, name) {
      assert after == before + {x};
    } else {
      assert after == before;
    }
  }

  /** Nothing is counted among no squares. */
  lemma CountInEmpty(b: Pieces, player: Player, name: Option<Name>)
    ensures CountIn(b, {}, player, name) == 0
  {
  }

  /** The tallies drawByInsufficientMaterial keeps for one side. */
  datatype PieceNumber = PieceNumber(total: nat, knight: nat, bishop: nat)

  /** The tallies of `player` over the squares in `keys`. */
  function PieceNumberIn(b: Pieces, keys: set<Square>, player: Player): PieceNumber
  {
    PieceNumber(CountIn(b, keys, player, None), CountIn(b, keys, player, Some(Knight)), CountIn(b, keys, player, Some(Bishop)))
  }

  /** Visiting one more piece adds one to its side's total and, for a knight or a bishop, to that tally. */
  lemma PieceNumberAdd(b: Pieces, keys: set<Square>, x: Square, player: Player)
    requires x !in keys && x in b
    ensures var before, after := PieceNumberIn(b, keys, player), PieceNumberIn(b, keys + {x}, player);
      && after.total == before.total + (if b[x].player == player then 1 else 0)
      && after.knight == before.knight + (if b[x].player == player && b[x].name == Knight then 1 else 0)
      && after.bishop == before.bishop + (if b[x].player == player && b[x].name == Bishop then 1 else 0)
  {
    CountInAdd(b, keys, x, player, None);
    CountInAdd(b, keys, x, player, Some(Knight));
    CountInAdd(b, keys, x, player, Some(Bishop));
  }

  /**
   * drawByInsufficientMaterial on the counts of pieces, knights and bishops
   * of each side: king against king; otherwise, unless both sides have two
   * pieces, a single knight or bishop on either side. Two pieces against two
   * are never a draw: the same-coloured-bishops case is switched off.
   */
  function InsufficientMaterialRule(whiteTotal: nat, whiteKnights: nat, whiteBishops: nat,
                                    blackTotal: nat, blackKnights: nat, blackBishops: nat): bool
  {
    if whiteTotal <= 2 && blackTotal <= 2 then
      if whiteTotal == 1 && blackTotal == 1 then true
      else if whiteTotal != 2 || blackTotal != 2 then
        whiteKnights == 1 || blackKnights == 1 || whiteBishops == 1 || blackBishops == 1
      else false
    else false
  }

  /** The draw rule applied to a position. */
  function InsufficientMaterial(b: Pieces): bool
  {
    InsufficientMaterialRule(
      Count(b, WHITE, None), Count(b, WHITE, Some(Knight)), Count(b, WHITE, Some(Bishop)),
      Count(b, BLACK, None), Count(b, BLACK, Some(Knight)), Count(b, BLACK, Some(Bishop)))
  }

  /** A side's knights and bishops together are fewer than its pieces, since its king is neither. */
  lemma MinorsBesideKing(b: Pieces, player: Player)
    requires HasOneKing(b, player)
    ensures Count(b, player, Some(Knight)) + Count(b, player, Some(Bishop)) + 1 <= Count(b, player, None)
  {
    var k :| KingAt(b, k, player);
    var all := set s | s in b.Keys && s in b && Matches(b, s, player, None);
    var knights := set s | s in b.Keys && s in b && Matches(b, s, player, Some(Knight));
    var bishops := set s | s in b.Keys && s in b && Matches(b, s, player, Some(Bishop));
    assert knights !! bishops;
    assert knights + bishops + {k} <= all;
    assert k !in knights + bishops;
    assert |knights + bishops + {k}| == |knights| + |bishops| + 1;
    assert |knights + bishops + {k}| <= |all| by {
      SubsetCard(knights + bishops + {k}, all);
    }
  }

  lemma SubsetCard(a: set<Square>, c: set<Square>)
    requires a <= c
    ensures |a| <= |c|
  {
    assert c == a + (c - a);
  }

  /**
   * With one king per side, the rule declares a draw exactly for king
   * against king, and for a king with a single knight or bishop against a
   * bare king.
   */
  lemma InsufficientMaterialCases(b: Pieces)
    requires Wellformed(b)
    ensures var wt, bt := Count(b, WHITE, None), Count(b, BLACK, None);
      var wm := Count(b, WHITE, Some(Knight)) + Count(b, WHITE, Some(Bishop));
      var bm := Count(b, BLACK, Some(Knight)) + Count(b, BLACK, Some(Bishop));
      InsufficientMaterial(b)
      <==> (wt == 1 && bt == 1) || (wt == 2 && bt == 1 && wm == 1) || (wt == 1 && bt == 2 && bm == 1)
  {
    MinorsBesideKing(b, WHITE);
    MinorsBesideKing(b, BLACK);
  }

  /** Two pieces against two (K+B v K+B, K+N v K+N, ...) and three or more on a side are never a draw. */
  lemma NoDrawWithMoreMaterial(b: Pieces)
    ensures Count(b, WHITE, None) == 2 && Count(b, BLACK, None) == 2 ==> !InsufficientMaterial(b)
    ensures Count(b, WHITE, None) >= 3 || Count(b, BLACK, None) >= 3 ==> !InsufficientMaterial(b)
  {
  }

  /** A tally of the five names other than King. */
  function Tally(pawns: int, bishops: int, knights: int, rooks: int, queens: int): map<Name, int>
  {
    map[Pawn := pawns, Bishop := bishops, Knight := knights, Rook := rooks, Queen := queens]
  }

  /** The tallies calculateWhiteAdvantage keeps for one side: each non-king name with its count over `keys`. */
  function NameCounts(b: Pieces, keys: set<Square>, player: Player): (counts: map<Name, int>)
    ensures Pawn in counts && Bishop in counts && Knight in counts && Rook in counts && Queen in counts && King !in counts
  {
    Tally(CountIn(b, keys, player, Some(Pawn)), CountIn(b, keys, player, Some(Bishop)),
          CountIn(b, keys, player, Some(Knight)), CountIn(b, keys, player, Some(Rook)),
          CountIn(b, keys, player, Some(Queen)))
  }

  /** Before any square is visited every tally is zero. */
  lemma NameCountsEmpty(b: Pieces, player: Player)
    ensures NameCounts(b, {}, player) == map[Pawn := 0, Bishop := 0, Knight := 0, Rook := 0, Queen := 0]
  {
    forall n: Name {
      CountInEmpty(b, player, Some(n));
    }
  }

  /** Every name but King has a tally. */
  lemma TalliedNames(b: Pieces, keys: set<Square>, player: Player, n: Name)
    ensures n in NameCounts(b, keys, player) <==> n != King
  {
    match n
    case King =>
    case _ =>
  }

  /** A tally whose count for `n` alone grows by one (none grows when `inc` is false) is the updated tally. */
  lemma TallyIncrement(p: int, b: int, k: int, r: int, q: int, p': int, b': int, k': int, r': int, q': int, n: Name, inc: bool)
    requires p' == p + (if inc && n == Pawn then 1 else 0) && b' == b + (if inc && n == Bishop then 1 else 0)
    requires k' == k + (if inc && n == Knight then 1 else 0) && r' == r + (if inc && n == Rook then 1 else 0)
    requires q' == q + (if inc && n == Queen then 1 else 0)
    requires inc ==> n != King
    ensures Tally(p', b', k', r', q') == if inc then Tally(p, b, k, r, q)[n := Tally(p, b, k, r, q)[n] + 1] else Tally(p, b, k, r, q)
  {
  }

  /** Visiting one more piece that is not a king adds one to its side's tally for its name. */
  lemma NameCountsAdd(b: Pieces, keys: set<Square>, x: Square, player: Player)
    requires x !in keys && x in b
    ensures b[x].name != King ==> b[x].name in NameCounts(b, keys, player)
    ensures NameCounts(b, keys + {x}, player)
         == if b[x].player == player && b[x].name != King
            then NameCounts(b, keys, player)[b[x].name := NameCounts(b, keys, player)[b[x].name] + 1]
            else NameCounts(b, keys, player)
  {
    TalliedNames(b, keys, player, b[x].name);
    CountInAdd(b, keys, x, player, Some(Pawn));
    CountInAdd(b, keys, x, player, Some(Bishop));
    CountInAdd(b, keys, x, player, Some(Knight));
    CountInAdd(b, keys, x, player, Some(Rook));
    CountInAdd(b, keys, x, player, Some(Queen));
    TallyIncrement(CountIn(b, keys, player, Some(Pawn)), CountIn(b, keys, player, Some(Bishop)),
                   CountIn(b, keys, player, Some(Knight)), CountIn(b, keys, player, Some(Rook)),
                   CountIn(b, keys, player, Some(Queen)),
                   CountIn(b, keys + {x}, player, Some(Pawn)), CountIn(b, keys + {x}, player, Some(Bishop)),
                   CountIn(b, keys + {x}, player, Some(Knight)), CountIn(b, keys + {x}, player, Some(Rook)),
                   CountIn(b, keys + {x}, player, Some(Queen)),
                   b[x].name, b[x].player == player && b[x].name != King);
  }

  /** Adding one to the tally of `n` for side `p` in a pair of tallies, as the counting loop does. */
  lemma PairIncrement(counts: seq<map<Name, int>>, w: map<Name, int>, k: map<Name, int>, w': map<Name, int>, k': map<Name, int>, p: Player, n: Name)
    requires counts == [w, k]
    requires n != King ==> n in w && n in k
    requires w' == if p == WHITE && n != King then w[n := w[n] + 1] else w
    requires k' == if p == BLACK && n != King then k[n := k[n] + 1] else k
    ensures n != King ==> n in counts[p]
    ensures (if n != King then counts[p := counts[p][n := counts[p][n] + 1]] else counts) == [w', k']
  {
  }

  /** One turn of the counting loop of calculateWhiteAdvantage keeps both sides' tallies exact. */
  lemma TallyStep(b: Pieces, keys: set<Square>, x: Square, counts: seq<map<Name, int>>, p: Player, n: Name)
    requires x !in keys && x in b && p == b[x].player && n == b[x].name
    requires counts == [NameCounts(b, keys, WHITE), NameCounts(b, keys, BLACK)]
    ensures n != King ==>
              && n in counts[p]
              && counts[p := counts[p][n := counts[p][n] + 1]] == [NameCounts(b, keys + {x}, WHITE), NameCounts(b, keys + {x}, BLACK)]
    ensures n == King ==> counts == [NameCounts(b, keys + {x}, WHITE), NameCounts(b, keys + {x}, BLACK)]
  {
    NameCountsAdd(b, keys, x, WHITE);
    NameCountsAdd(b, keys, x, BLACK);
    PairIncrement(counts, NameCounts(b, keys, WHITE), NameCounts(b, keys, BLACK),
                  NameCounts(b, keys + {x}, WHITE), NameCounts(b, keys + {x}, BLACK), p, n);
  }

  /** calculateWhiteAdvantage: each kind of piece weighted by its value, white minus black, kings excluded. */
  function WhiteAdvantage(b: Pieces): int
  {
    PAWN_VALUE * (Count(b, WHITE, Some(Pawn)) - Count(b, BLACK, Some(Pawn)))
    + KNIGHT_VALUE * (Count(b, WHITE, Some(Knight)) - Count(b, BLACK, Some(Knight)))
    + BISHOP_VALUE * (Count(b, WHITE, Some(Bishop)) - Count(b, BLACK, Some(Bishop)))
    + ROOK_VALUE * (Count(b, WHITE, Some(Rook)) - Count(b, BLACK, Some(Rook)))
    + QUEEN_VALUE * (Count(b, WHITE, Some(Queen)) - Count(b, BLACK, Some(Queen)))
  }

  /** The square facing `s` across the middle of the board. */
  function Flip(s: Square): Square
  {
    Coord(s.col, MAX + MIN - s.line)
  }

  /** The position with the board turned over and every piece handed to the other side. */
  function Mirror(b: Pieces): Pieces
  {
    map s | s in AllSquares() && Flip(s) in b :: b[Flip(s)].(player := 1 - b[Flip(s)].player)
  }

  /** Flipping squares does not change how many there are. */
  lemma {:induction false} FlipCard(a: set<Square>)
    ensures |set s | s in a :: Flip(s)| == |a|
    decreases |a|
  {
    if a != {} {
      var x :| x in a;
      var rest := a - {x};
      FlipCard(rest);
      var img := set s | s in a :: Flip(s);
      var imgRest := set s | s in rest :: Flip(s);
      assert img == imgRest + {Flip(x)};
      assert Flip(x) !in imgRest;
    }
  }

  /** In the mirrored position each side has the other side's pieces. */
  lemma MirrorCount(b: Pieces, player: Player, name: Option<Name>)
    ensures Count(Mirror(b), player, name) == Count(b, 1 - player, name)
  {
    var m := Mirror(b);
    var src := set s | s in b.Keys && s in b && Matches(b, s, 1 - player, name);
    var dst := set s | s in m.Keys && s in m && Matches(m, s, player, name);
    assert dst == set s | s in src :: Flip(s) by {
      forall s | s in dst ensures s in set t | t in src :: Flip(t) {
        assert Flip(Flip(s)) == s;
      }
    }
    FlipCard(src);
  }

  /** Handing every piece to the other side negates the balance; a position equal to its mirror image is balanced. */
  lemma MirrorNegatesAdvantage(b: Pieces)
    ensures WhiteAdvantage(Mirror(b)) == -WhiteAdvantage(b)
    ensures Mirror(b) == b ==> WhiteAdvantage(b) == 0
  {
    forall player: Player, name: Name
      ensures Count(Mirror(b), player, Some(name)) == Count(b, 1 - player, Some(name))
    {
      MirrorCount(b, player, Some(name));
    }
  }
}
