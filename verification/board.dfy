/**
 * The chess board as the engine stores it: an 8x8 grid of glyphs. White
 * pieces are lower-case, Black pieces upper-case, the pawn is `m`/`M` and
 * `_` is an empty square. Row 0 is Black's back rank, column 0 is file A.
 */
module Board {
  import opened Wrappers

  const Rows: int := 8
  const Columns: int := 8
  const EmptyEntry: char := '_'

  datatype Color = Black | White

  /** The other side. */
  function Opponent(c: Color): Color {
    if c == Black then White else Black
  }

  /** The numeric colour the source stores: BLACK = 0, WHITE = 1. */
  function ColorCode(c: Color): int {
    if c == Black then 0 else 1
  }

  datatype PieceType = Pawn | Bishop | Rook | Knight | Queen | King | Blank

  datatype Coord = Coord(row: int, col: int)

  /**
   * A move. The two flags are filled in only by flagged move enumeration;
   * legality never reads them.
   */
  datatype Move = Move(start: Coord, dest: Coord, isThreatened: bool, doesCapturePiece: bool)

  /** A move with both flags clear. */
  function PlainMove(start: Coord, dest: Coord): Move {
    Move(start, dest, false, false)
  }

  type Board = b: seq<seq<char>> | |b| == 8 && forall r | 0 <= r < 8 :: |b[r]| == 8
    witness seq(8, _ => seq(8, _ => '_'))

  /** `isLeagalIndex`. */
  predicate IsLegalIndex(i: int) {
    0 <= i <= 7
  }

  /** `isLegalCoord`: both components on the board. */
  predicate IsLegalCoord(c: Coord) {
    IsLegalIndex(c.row) && IsLegalIndex(c.col)
  }

  /** `isLegalMoveCoordinates`. */
  predicate IsLegalMoveCoordinates(m: Move) {
    IsLegalCoord(m.start) && IsLegalCoord(m.dest)
  }

  /** ASCII lower case, as `islower` in the C locale. */
  predicate IsLower(ch: char) {
    'a' <= ch <= 'z'
  }

  predicate IsUpper(ch: char) {
    'A' <= ch <= 'Z'
  }

  function ToLower(ch: char): char {
    if IsUpper(ch) then (ch as int + 32) as char else ch
  }

  function ToUpper(ch: char): char {
    if IsLower(ch) then (ch as int - 32) as char else ch
  }

  /**
   * `spChessGameGetPieceColor`: `None` for the empty square (the source's
   * value 2), White for a lower-case glyph, Black for anything else.
   */
  function ColorOf(p: char): (r: Option<Color>)
    ensures r.None? <==> p == EmptyEntry
    ensures r == Some(White) <==> IsLower(p)
  {
    if p == EmptyEntry then None
    else if IsLower(p) then Some(White)
    else Some(Black)
  }

  /**
   * `spChessGameGetPieceType`: the type named by the glyph, case-blind. Only
   * the two glyphs the engine creates for a type, one per colour, name it.
   */
  function TypeOf(p: char): (r: PieceType)
    ensures r != Blank ==> p == CreatePiece(White, r) || p == CreatePiece(Black, r)
  {
    var l := ToLower(p);
    if l == 'm' then Pawn
    else if l == 'b' then Bishop
    else if l == 'r' then Rook
    else if l == 'n' then Knight
    else if l == 'q' then Queen
    else if l == 'k' then King
    else Blank
  }

  /**
   * `createPiece`: the glyph of a piece, upper-cased for Black. A blank is
   * the empty square for either colour, and a real piece has the colour
   * asked for.
   */
  function CreatePiece(color: Color, t: PieceType): (r: char)
    ensures r == EmptyEntry <==> t == Blank
    ensures t != Blank ==> ColorOf(r) == Some(color)
  {
    var c := match t
      case Pawn => 'm'
      case Bishop => 'b'
      case Rook => 'r'
      case Knight => 'n'
      case Queen => 'q'
      case King => 'k'
      case Blank => EmptyEntry;
    var r := if color == Black then ToUpper(c) else c;
    assert t != Blank && color == Black ==> ColorOf(r) == Some(Black);
    assert t != Blank && color == White ==> ColorOf(r) == Some(White);
    r
  }

  /** Every real piece's glyph reads back as its own type and colour. */
  lemma CreatePieceRoundTrip(color: Color, t: PieceType)
    requires t != Blank
    ensures TypeOf(CreatePiece(color, t)) == t
    ensures ColorOf(CreatePiece(color, t)) == Some(color)
  {
  }

  /** `spChessGameParseRow`: a rank digit to a row index. */
  function ParseRow(ch: char): int {
    '8' as int - ch as int
  }

  /** `spChessGameParseColumn`: a file letter to a column index. */
  function ParseColumn(ch: char): int {
    ch as int - 'A' as int
  }

  /** `unParseRow`: a row index to its rank digit. */
  function UnParseRow(row: int): char
    requires IsLegalIndex(row)
  {
    ('8' as int - row) as char
  }

  /** `unParseColumn`: a column index to its file letter. */
  function UnParseColumn(col: int): char
    requires IsLegalIndex(col)
  {
    (col + 'A' as int) as char
  }

  /** Rank digits and row indices are inverse on the board. */
  lemma RowRoundTrip(row: int, ch: char)
    requires IsLegalIndex(row)
    ensures ParseRow(UnParseRow(row)) == row
    ensures '1' <= UnParseRow(row) <= '8'
    ensures '1' <= ch <= '8' ==> IsLegalIndex(ParseRow(ch)) && UnParseRow(ParseRow(ch)) == ch
  {
  }

  /** File letters and column indices are inverse on the board. */
  lemma ColumnRoundTrip(col: int, ch: char)
    requires IsLegalIndex(col)
    ensures ParseColumn(UnParseColumn(col)) == col
    ensures 'A' <= UnParseColumn(col) <= 'H'
    ensures 'A' <= ch <= 'H' ==> IsLegalIndex(ParseColumn(ch)) && UnParseColumn(ParseColumn(ch)) == ch
  {
  }

  /** `spChessGameGetPieceAt`. */
  function At(b: Board, c: Coord): char
    requires IsLegalCoord(c)
  {
    b[c.row][c.col]
  }

  /** `setPieceAt`: the board with one square replaced. */
  function SetAt(b: Board, c: Coord, p: char): (r: Board)
    requires IsLegalCoord(c)
    ensures At(r, c) == p
    ensures forall d | IsLegalCoord(d) && d != c :: At(r, d) == At(b, d)
  {
    b[c.row := b[c.row][c.col := p]]
  }

  /** Two boards agreeing on every square are equal. */
  lemma BoardExt(a: Board, b: Board)
    requires forall c | IsLegalCoord(c) :: At(a, c) == At(b, c)
    ensures a == b
  {
    forall r | 0 <= r < 8
      ensures a[r] == b[r]
    {
      forall k | 0 <= k < 8
        ensures a[r][k] == b[r][k]
      {
        assert At(a, Coord(r, k)) == At(b, Coord(r, k));
      }
    }
  }

  /**
   * `applyMove`: the start glyph is written to the destination, then the
   * start square is emptied. The move is not re-validated.
   */
  function ApplyMove(b: Board, m: Move): (r: Board)
    requires IsLegalMoveCoordinates(m)
    ensures m.start != m.dest ==> At(r, m.dest) == At(b, m.start)
    ensures At(r, m.start) == EmptyEntry
    ensures forall c | IsLegalCoord(c) && c != m.start && c != m.dest :: At(r, c) == At(b, c)
  {
    SetAt(SetAt(b, m.dest, At(b, m.start)), m.start, EmptyEntry)
  }

  /**
   * `undoMove`: the reverse move is applied, then the remembered captured
   * glyph is put back on the destination.
   */
  function UndoMove(b: Board, m: Move, capturedPiece: char): (r: Board)
    requires IsLegalMoveCoordinates(m)
    ensures m.start != m.dest ==> At(r, m.start) == At(b, m.dest)
    ensures At(r, m.dest) == capturedPiece
    ensures forall c | IsLegalCoord(c) && c != m.start && c != m.dest :: At(r, c) == At(b, c)
  {
    SetAt(ApplyMove(b, Move(m.dest, m.start, false, false)), m.dest, capturedPiece)
  }

  /**
   * Applying a move and undoing it with the glyph that stood on the
   * destination restores the grid exactly, for every pair of squares.
   */
  lemma UndoApplyRoundTrip(b: Board, m: Move)
    requires IsLegalMoveCoordinates(m)
    ensures UndoMove(ApplyMove(b, m), m, At(b, m.dest)) == b
  {
    var r := UndoMove(ApplyMove(b, m), m, At(b, m.dest));
    forall c | IsLegalCoord(c)
      ensures At(r, c) == At(b, c)
    {
    }
    BoardExt(r, b);
  }

  /** The back rank of one colour: R N B Q K B N R. */
  function BackRank(color: Color): seq<char> {
    seq(8, j requires 0 <= j < 8 =>
      CreatePiece(color, [Rook, Knight, Bishop, Queen, King, Bishop, Knight, Rook][j]))
  }

  /** `initializeBord`: the standard starting layout. */
  function InitialBoard(): (r: Board)
    ensures r[0] == "RNBQKBNR" && r[1] == "MMMMMMMM"
    ensures forall i | 2 <= i < 6 :: r[i] == "________"
    ensures r[6] == "mmmmmmmm" && r[7] == "rnbqkbnr"
  {
    var empty := seq(8, _ => EmptyEntry);
    [BackRank(Black), seq(8, _ => CreatePiece(Black, Pawn)), empty, empty, empty, empty,
     seq(8, _ => CreatePiece(White, Pawn)), BackRank(White)]
  }

  /** `getPieceScore`: material value of a glyph's type. */
  function PieceScore(p: char): (r: int)
    ensures 0 <= r <= 100
    ensures TypeOf(p) == Blank ==> r == 0
  {
    match TypeOf(p)
    case Pawn => 1
    case Knight => 3
    case Bishop => 3
    case Rook => 5
    case Queen => 9
    case King => 100
    case Blank => 0
  }

  /** A square's contribution to the score: added for Black, subtracted otherwise. */
  function SignedScore(p: char): int {
    if ColorOf(p) == Some(Black) then PieceScore(p) else -PieceScore(p)
  }

  /** The scores of the first `n` squares of a row. */
  function RowScore(row: seq<char>, n: nat): int
    requires n <= |row|
  {
    if n == 0 then 0 else RowScore(row, n - 1) + SignedScore(row[n - 1])
  }

  /** The scores of the first `n` rows. */
  function RowsScore(b: Board, n: nat): int
    requires n <= 8
  {
    if n == 0 then 0 else RowsScore(b, n - 1) + RowScore(b[n - 1], 8)
  }

  /** The highest magnitude the material score can reach: 64 squares of 100. */
  const MaxMaterial: int := 6400

  /**
   * `scoreFunc`: the material balance, pawn 1, knight 3, bishop 3, rook 5,
   * queen 9, king 100, positive for Black and negative for White.
   */
  function Score(b: Board): (r: int)
    ensures -MaxMaterial <= r <= MaxMaterial
  {
    RowsScoreBound(b, 8);
    RowsScore(b, 8)
  }

  lemma {:induction false} RowScoreBound(row: seq<char>, n: nat)
    requires n <= |row|
    ensures -100 * n <= RowScore(row, n) <= 100 * n
  {
    if n > 0 {
      RowScoreBound(row, n - 1);
    }
  }

  lemma {:induction false} RowsScoreBound(b: Board, n: nat)
    requires n <= 8
    ensures -800 * n <= RowsScore(b, n) <= 800 * n
  {
    if n > 0 {
      RowsScoreBound(b, n - 1);
      RowScoreBound(b[n - 1], 8);
    }
  }

  lemma {:induction false} RowScoreUpdate(row: seq<char>, n: nat, k: int, p: char)
    requires n <= |row| && 0 <= k < |row|
    ensures RowScore(row[k := p], n)
            == RowScore(row, n) + (if k < n then SignedScore(p) - SignedScore(row[k]) else 0)
  {
    if n > 0 {
      RowScoreUpdate(row, n - 1, k, p);
    }
  }

  lemma {:induction false} RowsScoreUpdate(b: Board, n: nat, c: Coord, p: char)
    requires n <= 8 && IsLegalCoord(c)
    ensures RowsScore(SetAt(b, c, p), n)
            == RowsScore(b, n) + (if c.row < n then SignedScore(p) - SignedScore(At(b, c)) else 0)
  {
    if n > 0 {
      RowsScoreUpdate(b, n - 1, c, p);
      if n - 1 == c.row {
        RowScoreUpdate(b[c.row], 8, c.col, p);
      }
    }
  }

  /** Replacing one glyph changes the score by the difference of their values. */
  lemma ScoreUpdate(b: Board, c: Coord, p: char)
    requires IsLegalCoord(c)
    ensures Score(SetAt(b, c, p)) == Score(b) + SignedScore(p) - SignedScore(At(b, c))
  {
    RowsScoreUpdate(b, 8, c, p);
  }

  /**
   * A move changes the material score only by removing what stood on the
   * destination: the moving piece's value is carried along unchanged.
   */
  lemma ScoreAfterMove(b: Board, m: Move)
    requires IsLegalMoveCoordinates(m) && m.start != m.dest
    ensures Score(ApplyMove(b, m)) == Score(b) - SignedScore(At(b, m.dest))
  {
    var b1 := SetAt(b, m.dest, At(b, m.start));
    ScoreUpdate(b, m.dest, At(b, m.start));
    ScoreUpdate(b1, m.start, EmptyEntry);
  }
}
