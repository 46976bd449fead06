/**
 * Board constants and square/coordinate conversions (js/chessData.js).
 *
 * The source names squares by two-character strings ("e4").  The model keys
 * boards by coordinates; `SquareName` renders the source's name of a square,
 * and `GetColumn`/`GetLine` read it back, so the two keyings are
 * interchangeable (`NameRoundTrip`, `SquareNameInjective`).
 */
module ChessData {
  import opened Wrappers

  /* Squares */
  const MIN := 1
  const MAX := 8
  const LETTERS: seq<char> := ['a', 'b', 'c', 'd', 'e', 'f', 'g', 'h']

  /* Players: 0 plays white, 1 plays black */
  type Player = p: int | 0 <= p <= 1
  const WHITE: Player := 0
  const BLACK: Player := 1

  /* Piece names */
  datatype Name = Pawn | Bishop | Knight | Rook | Queen | King

  /* Piece values */
  const PAWN_VALUE := 1
  const BISHOP_VALUE := 3
  const KNIGHT_VALUE := 3
  const ROOK_VALUE := 5
  const QUEEN_VALUE := 9

  /* Piece column order of the standard back rank */
  const NAMES: seq<Name> := [Rook, Knight, Bishop, Queen, King, Bishop, Knight, Rook]

  /* White pawn data */
  const WHITE_LINE_INCREMENT := 1
  const WHITE_STARTING_LINE := MIN + 1
  const WHITE_FINISH_LINE := MAX

  /* Black pawn data */
  const BLACK_LINE_INCREMENT := -1
  const BLACK_STARTING_LINE := MAX - 1
  const BLACK_FINISH_LINE := MIN

  /** A pair of coordinates: column 1..8 stands for the letters a..h. */
  datatype Coord = Coord(col: int, line: int)

  predicate InRange(x: int) { MIN <= x <= MAX }

  /** A square of the board. */
  type Square = c: Coord | InRange(c.col) && InRange(c.line) witness Coord(1, 1)

  /* King data: e1 and e8 */
  const WHITE_INITIAL_KING_SQUARE: Square := Coord(5, 1)
  const BLACK_INITIAL_KING_SQUARE: Square := Coord(5, 8)

  /** The square at a column and a line, `None` (undefined) off the board. */
  function GetSquare(column: int, line: int): (r: Option<Square>)
    ensures r.None? <==> !InRange(column) || !InRange(line)
    ensures r.Some? ==> r.value.col == column && r.value.line == line
  {
    if column < MIN || column > MAX || line < MIN || line > MAX then None
    else Some(Coord(column, line))
  }

  /** The decimal digit of a line number 1..8. */
  function DigitChar(d: int): char
    requires 0 <= d <= 9
  {
    ('0' as int + d) as char
  }

  /** The source's name of a square: its letter followed by its line. */
  function SquareName(s: Square): (name: string)
    ensures |name| == 2
    ensures 'a' <= name[0] <= 'h' && '1' <= name[1] <= '8'
  {
    [LETTERS[s.col - 1], DigitChar(s.line)]
  }

  /** Column number of a square name: the letter's code minus 97 plus 1 (NaN for ""). */
  function GetColumn(name: string): Option<int>
  {
    if |name| == 0 then None else Some(name[0] as int - 97 + MIN)
  }

  /** Line number of a square name: parseInt of its second character (NaN unless a digit). */
  function GetLine(name: string): Option<int>
  {
    if |name| < 2 || !('0' <= name[1] <= '9') then None
    else Some(name[1] as int - '0' as int)
  }

  /** Reading back the name of a square gives its coordinates. */
  lemma NameRoundTrip(s: Square)
    ensures GetColumn(SquareName(s)) == Some(s.col)
    ensures GetLine(SquareName(s)) == Some(s.line)
  {
    var c := s.col;
    assert LETTERS[c - 1] as int == 96 + c by {
      if c == 1 {} else if c == 2 {} else if c == 3 {} else if c == 4 {}
      else if c == 5 {} else if c == 6 {} else if c == 7 {} else {}
    }
  }

  /** Two squares with the same name are the same square. */
  lemma SquareNameInjective(s: Square, t: Square)
    requires SquareName(s) == SquareName(t)
    ensures s == t
  {
    NameRoundTrip(s);
    NameRoundTrip(t);
  }

  /** Every name of the form letter a..h, digit 1..8 is the name of a square. */
  lemma SquareNameOnto(name: string)
    requires |name| == 2 && 'a' <= name[0] <= 'h' && '1' <= name[1] <= '8'
    ensures exists s: Square :: SquareName(s) == name
  {
    var s: Square := Coord(name[0] as int - 96, name[1] as int - '0' as int);
    NameRoundTrip(s);
    var n := SquareName(s);
    assert n[0] == name[0] && n[1] == name[1];
    assert n == name;
  }

  /** The square a property key names when used to index a board: None unless the key is a square name. */
  function SquareOfKey(key: string): (r: Option<Square>)
    ensures r.Some? ==> SquareName(r.value) == key
    ensures r.None? ==> forall s: Square :: SquareName(s) != key
  {
    if |key| == 2 && 'a' <= key[0] <= 'h' && '1' <= key[1] <= '8' then
      var s: Square := Coord(key[0] as int - 96, key[1] as int - '0' as int);
      NameRoundTrip(s);
      assert SquareName(s)[0] == key[0] && SquareName(s)[1] == key[1];
      Some(s)
    else
      None
  }

  /** The property key a number 0..9 becomes: its one decimal digit. */
  function NumberKey(n: int): (key: string)
    requires 0 <= n <= 9
    ensures |key| == 1 && SquareOfKey(key).None?
  {
    [DigitChar(n)]
  }

  /** Height, in percent, of white's part of the advantage bar. */
  function ConvertAdvantageToHeight(advantage: int): (height: int)
    ensures 2 <= height <= 98
    ensures advantage < -9 ==> height == 2
    ensures advantage > 9 ==> height == 98
    ensures -9 <= advantage <= 9 ==> height % 5 == 0 && (height - 50) / 5 == advantage
  {
    if advantage < -9 then 2
    else if advantage > 9 then 98
    else 50 + 5 * advantage
  }

  /** A larger advantage never gives a lower bar, and an even game sits in the middle. */
  lemma AdvantageHeightMonotone(a: int, b: int)
    requires a <= b
    ensures ConvertAdvantageToHeight(a) <= ConvertAdvantageToHeight(b)
    ensures ConvertAdvantageToHeight(0) == 50
  {
  }

  /** Direction, starting line and finishing line of a player's pawns. */
  function LineIncrement(player: Player): int
  {
    if player == WHITE then WHITE_LINE_INCREMENT else BLACK_LINE_INCREMENT
  }

  function StartingLine(player: Player): int
  {
    if player == WHITE then WHITE_STARTING_LINE else BLACK_STARTING_LINE
  }

  function FinishLine(player: Player): int
  {
    if player == WHITE then WHITE_FINISH_LINE else BLACK_FINISH_LINE
  }

  /** The two players' pawn data are mirror images of each other across the board's middle. */
  lemma PawnDataMirror(player: Player)
    ensures LineIncrement(1 - player) == -LineIncrement(player)
    ensures StartingLine(1 - player) == MIN + MAX - StartingLine(player)
    ensures FinishLine(1 - player) == MIN + MAX - FinishLine(player)
    ensures FinishLine(player) == StartingLine(player) + 6 * LineIncrement(player)
    ensures LineIncrement(player) == 1 || LineIncrement(player) == -1
  {
  }

  function InitialKingSquare(player: Player): Square
  {
    if player == WHITE then WHITE_INITIAL_KING_SQUARE else BLACK_INITIAL_KING_SQUARE
  }

  /** The value of a non-king piece in the material count. */
  function PieceValue(name: Name): int
  {
    match name
    case Pawn => PAWN_VALUE
    case Knight => KNIGHT_VALUE
    case Bishop => BISHOP_VALUE
    case Rook => ROOK_VALUE
    case Queen => QUEEN_VALUE
    case King => 0
  }

  function Abs(x: int): nat { if x < 0 then -x else x }
}
