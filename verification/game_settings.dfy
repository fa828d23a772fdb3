/**
 * Game settings and the save file: the setters with their range checks,
 * the default settings, the text a game is saved as (side to move, a
 * settings block and the printed board) and the loader that reads such a
 * text back line by line.
 */
module GameSettings {
  import opened Wrappers
  import opened Tokens
  import opened Board
  import opened Rules
  import opened Game
  import AL = ArrayList

  /** `LINE_LEN`: the loader's line buffer; `fgets` fills at most one less. */
  const LineLength: int := 30

  /** The loader's token separators (a tab is not one of them). */
  const LoadDelimiters: set<char> := {' ', '\r', '\n'}

  /** `parseDifficulty`: the name of a level, None (the NULL return) outside 1..5. */
  function ParseDifficulty(d: int): (r: Option<string>)
    ensures r.Some? <==> 1 <= d <= 5
    ensures r.Some? ==> r.value != [] && Free(r.value, LoadDelimiters)
  {
    match d
    case 1 => Some("amateur")
    case 2 => Some("easy")
    case 3 => Some("moderate")
    case 4 => Some("hard")
    case 5 => Some("expert")
    case _ => None
  }

  /**
   * `unParseDifficulty` as the source has it: `"expert"` reads as level 2,
   * the value of `"easy"`; an unknown name is -1.
   */
  function UnParseDifficultyAsWritten(s: string): (r: int)
    ensures r == -1 || 1 <= r <= 4
    ensures r != -1 && s != "expert" ==> ParseDifficulty(r) == Some(s)
    ensures r == -1 <==> forall d | 1 <= d <= 5 :: ParseDifficulty(d) != Some(s)
  {
    if s == "amateur" then 1
    else if s == "easy" then 2
    else if s == "moderate" then 3
    else if s == "hard" then 4
    else if s == "expert" then assert ParseDifficulty(5) == Some(s); 2
    else -1
  }

  /** Saving at level 5 and reading the name back with the source's mapping gives level 2. */
  lemma ExpertReadsAsEasy()
    ensures ParseDifficulty(5) == Some("expert")
    ensures UnParseDifficultyAsWritten(ParseDifficulty(5).value) == 2
  {
  }

  /** The level a saved level comes back as: every level but 5 is itself, 5 comes back as 2. */
  function ReadBackLevel(d: int): int {
    if d == 5 then 2 else d
  }

  /** With the source's mapping, every level's name reads back as `ReadBackLevel` of it. */
  lemma DifficultyReadBack(d: int)
    requires 1 <= d <= 5
    ensures UnParseDifficultyAsWritten(ParseDifficulty(d).value) == ReadBackLevel(d)
    ensures ReadBackLevel(d) == d <==> d != 5
  {
    var s := ParseDifficulty(d).value;
    assert ParseDifficulty(d) == Some(s);
  }

  /**
   * `unParseDifficulty` with `"expert"` read as level 5, as its documentation
   * states; the loader below keeps the source's mapping.
   */
  function UnParseDifficulty(s: string): (r: int)
    ensures r == -1 || 1 <= r <= 5
    ensures r != -1 ==> ParseDifficulty(r) == Some(s)
    ensures r == -1 <==> forall d | 1 <= d <= 5 :: ParseDifficulty(d) != Some(s)
  {
    if s == "amateur" then 1
    else if s == "easy" then 2
    else if s == "moderate" then 3
    else if s == "hard" then 4
    else if s == "expert" then 5
    else -1
  }

  /** Every level's name reads back as that level. */
  lemma DifficultyRoundTrip(d: int)
    requires 1 <= d <= 5
    ensures UnParseDifficulty(ParseDifficulty(d).value) == d
  {
    var s := ParseDifficulty(d).value;
    assert ParseDifficulty(d) == Some(s);
  }

  /** `unParseColor`: `"black"` is 0, every other word is 1 (white). */
  function UnParseColor(s: string): (r: int)
    ensures r == 0 <==> s == "black"
    ensures r == 0 || r == 1
  {
    if s == "black" then 0 else 1
  }

  /** `parseColor`: 0 is `"black"`, every other code is `"white"`. */
  function ParseColor(c: int): (r: string)
    ensures r != [] && Free(r, LoadDelimiters)
    ensures UnParseColor(r) == (if c == 0 then 0 else 1)
  {
    if c == 0 then "black" else "white"
  }

  /** The colour a code 0 or 1 names. */
  function ColorOfCode(c: int): (r: Color)
    requires c == 0 || c == 1
    ensures ColorCode(r) == c
  {
    if c == 0 then Black else White
  }

  /** `spChessGameSettingsSetGameMode`: only modes 1 and 2 are accepted. */
  function SetGameMode(g: Game, mode: int): (r: (Message, Game))
    ensures r.0 == Success <==> mode == 1 || mode == 2
    ensures r.0 != Success ==> r == (InvalidArgument, g)
    ensures r.0 == Success ==> r.1.gameMode == mode && r.1.(gameMode := g.gameMode) == g
  {
    if mode != 1 && mode != 2 then (InvalidArgument, g)
    else (Success, g.(gameMode := mode))
  }

  /** `spChessGameSettingsSetDifficulty`: only levels 1 to 5 are accepted. */
  function SetDifficulty(g: Game, difficulty: int): (r: (Message, Game))
    ensures r.0 == Success <==> 1 <= difficulty <= 5
    ensures r.0 != Success ==> r == (InvalidArgument, g)
    ensures r.0 == Success ==> r.1.difficulty == difficulty && r.1.(difficulty := g.difficulty) == g
  {
    if difficulty < 1 || difficulty > 5 then (InvalidArgument, g)
    else (Success, g.(difficulty := difficulty))
  }

  /** `spChessGameSettingsSetUserColor`: only 0 (black) and 1 (white) are accepted. */
  function SetUserColor(g: Game, userColor: int): (r: (Message, Game))
    ensures r.0 == Success <==> userColor == 0 || userColor == 1
    ensures r.0 != Success ==> r == (InvalidArgument, g)
    ensures r.0 == Success ==> r.1.userColor == userColor && r.1.(userColor := g.userColor) == g
  {
    if userColor != 0 && userColor != 1 then (InvalidArgument, g)
    else (Success, g.(userColor := userColor))
  }

  /** `spChessGameSettingsSetCurrentPlayer`: the side to move, by colour code. */
  function SetCurrentPlayer(g: Game, playerColor: int): (r: (Message, Game))
    ensures r.0 == Success <==> playerColor == 0 || playerColor == 1
    ensures r.0 != Success ==> r == (InvalidArgument, g)
    ensures r.0 == Success ==> ColorCode(r.1.currentPlayer) == playerColor && r.1.(currentPlayer := g.currentPlayer) == g
  {
    if playerColor != 0 && playerColor != 1 then (InvalidArgument, g)
    else (Success, g.(currentPlayer := ColorOfCode(playerColor)))
  }

  /**
   * `spChessGameSettingsSetDefaultsSettings`: the settings a new game starts
   * with; nothing else changes.
   */
  function SetDefaults(g: Game): (r: Game)
    ensures var c := Create(1).value;
            r.difficulty == c.difficulty && r.gameMode == c.gameMode && r.userColor == c.userColor
    ensures r.(difficulty := g.difficulty, gameMode := g.gameMode, userColor := g.userColor) == g
  {
    g.(difficulty := DefaultDifficulty, gameMode := DefaultGameMode, userColor := DefaultUserColor)
  }

  /** `%d`: the decimal text of an integer. */
  function Decimal(n: int): (r: string)
    ensures r != [] && Free(r, LoadDelimiters)
    decreases if n < 0 then 1 - n else n
  {
    if n < 0 then "-" + Decimal(-n)
    else if n < 10 then [('0' as int + n) as char]
    else Decimal(n / 10) + [('0' as int + n % 10) as char]
  }

  /** `spChessGameSettingsPrintCurrentPlayerToFile`: the side to move. */
  function PlayerLine(c: Color): string {
    ParseColor(ColorCode(c)) + "\n"
  }

  /** A settings line: key, blank, value, newline. */
  function KeyedLine(key: string, value: string): string {
    key + " " + value + "\n"
  }

  /** The game-mode line of the settings block. */
  function ModeLine(mode: int): string {
    KeyedLine("GAME_MODE:", Decimal(mode) + "-player")
  }

  /**
   * `spChessGameSettingsPrintToFile`: the settings block; difficulty and user
   * colour are written only in one-player mode, where the difficulty must
   * have a name.
   */
  function SettingsLines(g: Game): (r: seq<string>)
    requires g.gameMode == 1 ==> 1 <= g.difficulty <= 5
    ensures |r| == (if g.gameMode == 1 then 4 else 2)
  {
    ["SETTINGS:\n", ModeLine(g.gameMode)]
    + (if g.gameMode == 1 then
         [KeyedLine("DIFFICULTY:", ParseDifficulty(g.difficulty).value), KeyedLine("USER_COLOR:", ParseColor(g.userColor))]
       else [])
  }

  /** Each square's glyph followed by a blank. */
  function Cells(row: seq<char>): (r: string)
    ensures |r| == 2 * |row|
    ensures forall k | 0 <= k < |r| :: r[k] == if k % 2 == 0 then row[k / 2] else ' '
  {
    if row == [] then [] else [row[0], ' '] + Cells(row[1..])
  }

  /** One printed board row: rank digit, bar, the eight glyphs, bar. */
  function RowLine(b: Board, i: int): string
    requires 0 <= i < 8
  {
    [UnParseRow(i), '|', ' '] + Cells(b[i]) + "|\n"
  }

  /** The printed rows `i..7`. */
  function RowLines(b: Board, i: nat): (r: seq<string>)
    requires i <= 8
    ensures |r| == 8 - i
    ensures forall k | 0 <= k < |r| :: r[k] == RowLine(b, i + k)
    decreases 8 - i
  {
    if i == 8 then [] else [RowLine(b, i)] + RowLines(b, i + 1)
  }

  /** The rule and file letters printed under the board. */
  const Footer: seq<string> := ["  -----------------\n", "   A B C D E F G H\n"]

  /** `spChessGamePrintBoardToFile`. */
  function BoardLines(b: Board): seq<string> {
    RowLines(b, 0) + Footer
  }

  /** `spChessGameSettingsSave`: the lines of the saved file. */
  function SaveLines(g: Game): seq<string>
    requires g.gameMode == 1 ==> 1 <= g.difficulty <= 5
  {
    [PlayerLine(g.currentPlayer)] + SettingsLines(g) + BoardLines(g.board)
  }

  /**
   * The saved file's text: it opens with the side to move, and for a game
   * the loader accepts, reading it back line by line gives exactly the
   * lines that were written.
   */
  function SaveText(g: Game): (r: string)
    requires g.gameMode == 1 ==> 1 <= g.difficulty <= 5
    ensures PlayerLine(g.currentPlayer) <= r
    ensures (g.gameMode == 1 || g.gameMode == 2) && BoardWritable(g.board) ==> Chunks(r) == SaveLines(g)
  {
    var ls := SaveLines(g);
    assert Concat(ls) == ls[0] + Concat(ls[1..]);
    if (g.gameMode == 1 || g.gameMode == 2) && BoardWritable(g.board) then
      LoadSaveLines(g, g);
      ChunksOfLines(ls);
      Concat(ls)
    else
      Concat(ls)
  }

  /** The characters the board loader copies: the empty square and ASCII letters. */
  predicate Glyph(ch: char) {
    ch == EmptyEntry || 'a' <= ch <= 'z' || 'A' <= ch <= 'Z'
  }

  /** The glyph characters of a line, in order. */
  function Glyphs(s: string): (r: string)
    ensures |r| <= |s|
    ensures forall i | 0 <= i < |r| :: Glyph(r[i])
  {
    if s == [] then [] else (if Glyph(s[0]) then [s[0]] else []) + Glyphs(s[1..])
  }

  /**
   * The loop of `setBoardRow`: every glyph of the line, in order, goes to the
   * next column, starting at `col`.
   */
  function FillRow(cells: seq<char>, line: string, col: nat): (r: seq<char>)
    requires col + |Glyphs(line)| <= |cells|
    ensures |r| == |cells|
    ensures forall i | 0 <= i < col :: r[i] == cells[i]
    ensures forall i | col <= i < col + |Glyphs(line)| :: r[i] == Glyphs(line)[i - col]
    ensures forall i | col + |Glyphs(line)| <= i < |cells| :: r[i] == cells[i]
    decreases |line|
  {
    if line == [] then cells
    else if Glyph(line[0]) then
      assert Glyphs(line) == [line[0]] + Glyphs(line[1..]);
      FillRow(cells[col := line[0]], line[1..], col + 1)
    else
      assert Glyphs(line) == Glyphs(line[1..]);
      FillRow(cells, line[1..], col)
  }

  /**
   * `setBoardRow`: the row named by the line's first character receives the
   * line's glyphs from its first column on; the other rows are untouched.
   */
  function SetBoardRow(b: Board, line: string): (r: Board)
    requires |line| > 0 && '1' <= line[0] <= '8' && |Glyphs(line)| <= Columns
    ensures IsLegalIndex(ParseRow(line[0]))
    ensures r[ParseRow(line[0])] == Glyphs(line) + b[ParseRow(line[0])][|Glyphs(line)|..]
    ensures forall i | 0 <= i < 8 && i != ParseRow(line[0]) :: r[i] == b[i]
  {
    var row := ParseRow(line[0]);
    var filled := FillRow(b[row], line, 0);
    assert filled == Glyphs(line) + b[row][|Glyphs(line)|..];
    b[row := filled]
  }

  /** The first words of the three keyed settings lines. */
  predicate IsSettingKey(t: string) {
    t == "GAME_MODE:" || t == "DIFFICULTY:" || t == "USER_COLOR:"
  }

  predicate IsRank(ch: char) {
    '1' <= ch <= '8'
  }

  /**
   * The lines `parseAndSetLine` handles with defined behaviour: they fit the
   * copy buffer, hold a token, a keyed line has its value, and a board line
   * starts with its rank digit and holds at most eight glyphs.
   */
  predicate Loadable(line: string) {
    && |line| < LineLength
    && var ts := Split(line, LoadDelimiters);
    && ts != []
    && (IsSettingKey(ts[0]) ==> |ts| >= 2)
    && (IsRank(ts[0][0]) ==> line[0] == ts[0][0] && |Glyphs(line)| <= Columns)
  }

  /**
   * `parseAndSetLine`: a colour word sets the side to move, a keyed line sets
   * its setting, a line whose first token starts with a rank digit fills that
   * board row, and anything else is ignored.
   */
  function ParseAndSetLine(g: Game, line: string): (r: Game)
    requires Loadable(line)
    ensures r.history == g.history && r.isSaved == g.isSaved && r.isOver == g.isOver
  {
    var ts := Split(line, LoadDelimiters);
    var token := ts[0];
    if token == "white" || token == "black" then SetCurrentPlayer(g, UnParseColor(token)).1
    else if token == "GAME_MODE:" then SetGameMode(g, if ts[1] == "1-player" then 1 else 2).1
    else if token == "DIFFICULTY:" then SetDifficulty(g, UnParseDifficultyAsWritten(ts[1])).1
    else if token == "USER_COLOR:" then SetUserColor(g, UnParseColor(ts[1])).1
    else if IsRank(token[0]) then g.(board := SetBoardRow(g.board, line))
    else g
  }

  /**
   * What each kind of line does: a colour word sets the side to move, a
   * keyed line sets its setting, a line whose first token starts with a rank
   * digit fills that board row, and anything else is ignored.
   */
  lemma ParseAndSetLineCases(g: Game, line: string)
    requires Loadable(line)
    ensures var ts, r := Split(line, LoadDelimiters), ParseAndSetLine(g, line);
            && (ts[0] == "white" ==> r == g.(currentPlayer := White))
            && (ts[0] == "black" ==> r == g.(currentPlayer := Black))
            && (ts[0] == "GAME_MODE:" ==> r == g.(gameMode := if ts[1] == "1-player" then 1 else 2))
            && (ts[0] == "DIFFICULTY:" ==>
                  && r.(difficulty := g.difficulty) == g
                  && (forall d | ParseDifficulty(d) == Some(ts[1]) :: r.difficulty == ReadBackLevel(d))
                  && (r.difficulty != g.difficulty ==>
                        1 <= r.difficulty <= 4 && (ParseDifficulty(r.difficulty) == Some(ts[1]) || ts[1] == "expert")))
            && (ts[0] == "USER_COLOR:" ==> r == g.(userColor := if ts[1] == "black" then 0 else 1))
            && (IsRank(ts[0][0]) ==> r == g.(board := SetBoardRow(g.board, line)))
            && (ts[0] != "white" && ts[0] != "black" && !IsSettingKey(ts[0]) && !IsRank(ts[0][0]) ==> r == g)
  {
  }

  /** The loader's loop: every line in turn. */
  function LoadLines(g: Game, lines: seq<string>): (r: Game)
    requires forall i | 0 <= i < |lines| :: Loadable(lines[i])
    ensures r.history == g.history && r.isSaved == g.isSaved && r.isOver == g.isOver
    decreases |lines|
  {
    if lines == [] then g else LoadLines(ParseAndSetLine(g, lines[0]), lines[1..])
  }

  /** `fgets`: at most `room` characters (bytes in C), up to and including the first newline. */
  function ReadLine(text: string, room: nat): (r: string)
    ensures r <= text && |r| <= room
    ensures text != [] && room > 0 ==> r != []
  {
    if text == [] || room == 0 then []
    else if text[0] == '\n' then [text[0]]
    else [text[0]] + ReadLine(text[1..], room - 1)
  }

  /** The successive `fgets` reads of a text into a buffer with room for `room` characters (bytes in C). */
  function Reads(text: string, room: nat): (r: seq<string>)
    requires room > 0
    ensures forall i | 0 <= i < |r| :: 0 < |r[i]| <= room
    ensures Concat(r) == text
    decreases |text|
  {
    if text == [] then []
    else
      var l := ReadLine(text, room);
      assert text == l + text[|l|..];
      [l] + Reads(text[|l|..], room)
  }

  /** The successive `fgets` reads of a file's text into the `LINE_LEN` buffer. */
  function Chunks(text: string): (r: seq<string>)
    ensures forall i | 0 <= i < |r| :: 0 < |r[i]| < LineLength
  {
    Reads(text, LineLength - 1)
  }

  /**
   * What the loader gets from an opened file: the text `fgets` delivered,
   * and whether it then stopped on a read error rather than at the end of
   * the file.
   */
  datatype OpenedFile = OpenedFile(text: string, readError: bool)

  /**
   * `spChessGameSettingsLoad`: None is a file that cannot be opened. The
   * lines are applied in order; a read error then reports an I/O error with
   * those lines already applied, while reaching the end of the file clears
   * the move history.
   */
  function Load(g: Game, file: Option<OpenedFile>): (r: (Message, Game))
    requires Valid(g)
    requires file.Some? ==> forall i | 0 <= i < |Chunks(file.value.text)| :: Loadable(Chunks(file.value.text)[i])
    ensures r.0 == Success <==> file.Some? && !file.value.readError
    ensures file.None? ==> r == (IoException, g)
    ensures file.Some? && file.value.readError ==>
              && r.0 == IoException && r.1 == LoadLines(g, Chunks(file.value.text))
              && r.1.history == g.history && Valid(r.1)
    ensures r.0 == Success ==>
              && Valid(r.1)
              && AL.Items(r.1.history) == [] && r.1.history.maxSize == g.history.maxSize
              && r.1.isSaved == g.isSaved && r.1.isOver == g.isOver
  {
    if file.None? then (IoException, g)
    else
      var l := LoadLines(g, Chunks(file.value.text));
      if file.value.readError then (IoException, l)
      else (Success, l.(history := AL.Clear(l.history).list))
  }

  // ----- Reading a saved file back -----

  /** A complete line of a text file that one `fgets` call reads whole. */
  predicate FileLine(l: string) {
    0 < |l| < LineLength && l[|l| - 1] == '\n' && '\n' !in l[..|l| - 1]
  }

  lemma {:induction false} ReadWholeLine(l: string, rest: string, room: nat)
    requires 0 < |l| <= room && l[|l| - 1] == '\n' && '\n' !in l[..|l| - 1]
    ensures ReadLine(l + rest, room) == l
  {
    if |l| > 1 {
      assert (l + rest)[1..] == l[1..] + rest;
      assert l[1..][..|l| - 2] == l[1..|l| - 1];
      ReadWholeLine(l[1..], rest, room - 1);
    }
  }

  /** A text made of whole lines is read back as exactly those lines. */
  lemma {:induction false} ChunksOfLines(ls: seq<string>)
    requires forall i | 0 <= i < |ls| :: FileLine(ls[i])
    ensures Chunks(Concat(ls)) == ls
  {
    if ls != [] {
      var text := Concat(ls);
      assert text == ls[0] + Concat(ls[1..]);
      ReadWholeLine(ls[0], Concat(ls[1..]), LineLength - 1);
      assert text[|ls[0]|..] == Concat(ls[1..]);
      ChunksOfLines(ls[1..]);
      assert ls == [ls[0]] + ls[1..];
    }
  }

  lemma {:induction false} LoadLinesAppend(g: Game, a: seq<string>, b: seq<string>)
    requires forall i | 0 <= i < |a| :: Loadable(a[i])
    requires forall i | 0 <= i < |b| :: Loadable(b[i])
    ensures LoadLines(g, a + b) == LoadLines(LoadLines(g, a), b)
    decreases |a|
  {
    if a == [] {
      assert a + b == b;
    } else {
      assert (a + b)[1..] == a[1..] + b;
      LoadLinesAppend(ParseAndSetLine(g, a[0]), a[1..], b);
    }
  }

  /** Every square holds a character the board loader copies. */
  predicate BoardWritable(b: Board) {
    forall r, c | 0 <= r < 8 && 0 <= c < 8 :: Glyph(b[r][c])
  }

  lemma {:induction false} GlyphsAppend(a: string, b: string)
    ensures Glyphs(a + b) == Glyphs(a) + Glyphs(b)
  {
    if a == [] {
      assert a + b == b;
    } else {
      assert (a + b)[0] == a[0] && (a + b)[1..] == a[1..] + b;
      GlyphsAppend(a[1..], b);
    }
  }

  lemma {:induction false} GlyphsOfCells(row: seq<char>)
    requires forall i | 0 <= i < |row| :: Glyph(row[i])
    ensures Glyphs(Cells(row)) == row
  {
    if row != [] {
      GlyphsOfCells(row[1..]);
      GlyphsAppend([row[0], ' '], Cells(row[1..]));
      assert Glyphs([row[0], ' ']) == [row[0]];
    }
  }

  lemma {:induction false} NoGlyphs(s: string)
    requires forall i | 0 <= i < |s| :: !Glyph(s[i])
    ensures Glyphs(s) == []
  {
    if s != [] {
      NoGlyphs(s[1..]);
    }
  }

  /** A printed row is one whole file line whose glyphs are the row's squares. */
  lemma RowLineShape(b: Board, i: int)
    requires 0 <= i < 8 && BoardWritable(b)
    ensures FileLine(RowLine(b, i))
    ensures Glyphs(RowLine(b, i)) == b[i]
  {
    var line := RowLine(b, i);
    var head, cells := [UnParseRow(i), '|', ' '], Cells(b[i]);
    assert forall k | 0 <= k < 16 :: cells[k] != '\n';
    assert line[..|line| - 1] == head + cells + "|";
    GlyphsOfCells(b[i]);
    GlyphsAppend(head + cells, "|\n");
    GlyphsAppend(head, cells);
    RowRoundTrip(i, head[0]);
    NoGlyphs(head);
    NoGlyphs("|\n");
  }

  /** Loading a printed row replaces that row of the board and nothing else. */
  lemma LoadRowLine(h: Game, b: Board, i: int)
    requires 0 <= i < 8 && BoardWritable(b)
    ensures Loadable(RowLine(b, i))
    ensures ParseAndSetLine(h, RowLine(b, i)) == h.(board := h.board[i := b[i]])
  {
    var line := RowLine(b, i);
    SplitHead(line, LoadDelimiters, 0);
    RowLineShape(b, i);
    RowRoundTrip(i, line[0]);
    var r := SetBoardRow(h.board, line);
    assert h.board[i][8..] == [];
    assert r[i] == b[i];
    assert r == h.board[i := b[i]];
    ParseAndSetLineCases(h, RowLine(b, i));
  }

  /** Loading the printed rows `i..7` replaces exactly those rows. */
  lemma {:induction false} LoadRows(h: Game, b: Board, i: nat)
    requires i <= 8 && BoardWritable(b)
    ensures forall k | 0 <= k < |RowLines(b, i)| :: Loadable(RowLines(b, i)[k])
    ensures var r := LoadLines(h, RowLines(b, i));
            && r == h.(board := r.board)
            && forall k | 0 <= k < 8 :: r.board[k] == if k < i then h.board[k] else b[k]
    decreases 8 - i
  {
    if i < 8 {
      LoadRowLine(h, b, i);
      var next := ParseAndSetLine(h, RowLine(b, i));
      LoadRows(next, b, i + 1);
      assert RowLines(b, i)[1..] == RowLines(b, i + 1);
    }
  }

  /** A line whose first token starts with `first` is ignored by the loader. */
  lemma IgnoredLine(h: Game, line: string, k: nat, first: char)
    requires k < |line| < LineLength && line[k] == first && first !in LoadDelimiters
    requires forall j | 0 <= j < k :: line[j] in LoadDelimiters
    requires first !in "wbGDU12345678"
    ensures Loadable(line) && ParseAndSetLine(h, line) == h
  {
    SplitHead(line, LoadDelimiters, k);
    ParseAndSetLineCases(h, line);
  }

  /** The rule under the board is ignored. */
  lemma LoadRuleLine(h: Game)
    ensures Loadable(Footer[0]) && ParseAndSetLine(h, Footer[0]) == h
  {
    IgnoredLine(h, Footer[0], 2, '-');
  }

  /** The column letters under the board are ignored. */
  lemma LoadLettersLine(h: Game)
    ensures Loadable(Footer[1]) && ParseAndSetLine(h, Footer[1]) == h
  {
    IgnoredLine(h, Footer[1], 3, 'A');
  }

  /** Both lines under the board end in a newline and fit the line buffer. */
  lemma FooterFileLines()
    ensures FileLine(Footer[0]) && FileLine(Footer[1])
  {
  }

  /** The two lines under the board change nothing. */
  lemma LoadFooter(h: Game)
    ensures forall k | 0 <= k < |Footer| :: Loadable(Footer[k]) && FileLine(Footer[k])
    ensures LoadLines(h, Footer) == h
  {
    LoadRuleLine(h);
    LoadLettersLine(h);
    FooterFileLines();
    assert Footer[1..] == [Footer[1]];
  }

  /** A key and a value with no separators in them read back as two tokens. */
  lemma KeyedLineShape(key: string, value: string)
    requires key != [] && Free(key, LoadDelimiters) && value != [] && Free(value, LoadDelimiters)
    requires |key| + |value| + 2 < LineLength
    ensures FileLine(KeyedLine(key, value))
    ensures Split(KeyedLine(key, value), LoadDelimiters) == [key, value]
  {
    var line := KeyedLine(key, value);
    assert line == Join([key, value]) + "\n";
    SplitJoinThen([key, value], "\n", LoadDelimiters);
    assert Split("\n", LoadDelimiters) == [];
    assert line[..|line| - 1] == key + " " + value;
  }

  /** The side-to-move line sets the side to move. */
  lemma LoadPlayerLine(h: Game, c: Color)
    ensures FileLine(PlayerLine(c)) && Loadable(PlayerLine(c))
    ensures ParseAndSetLine(h, PlayerLine(c)) == h.(currentPlayer := c)
  {
    var w := ParseColor(ColorCode(c));
    assert PlayerLine(c) == Join([w]) + "\n";
    SplitJoinThen([w], "\n", LoadDelimiters);
    assert Split("\n", LoadDelimiters) == [];
    ParseAndSetLineCases(h, PlayerLine(c));
  }

  /** The `SETTINGS:` header line is ignored. */
  lemma LoadSettingsHeader(h: Game)
    ensures FileLine("SETTINGS:\n")
    ensures Loadable("SETTINGS:\n") && ParseAndSetLine(h, "SETTINGS:\n") == h
  {
    IgnoredLine(h, "SETTINGS:\n", 0, 'S');
  }

  /** The game-mode line of mode 1 or 2 sets that mode. */
  lemma LoadModeLine(h: Game, mode: int)
    requires mode == 1 || mode == 2
    ensures FileLine(ModeLine(mode)) && Loadable(ModeLine(mode))
    ensures ParseAndSetLine(h, ModeLine(mode)) == h.(gameMode := mode)
  {
    assert Decimal(mode) + "-player" == (if mode == 1 then "1-player" else "2-player");
    KeyedLineShape("GAME_MODE:", Decimal(mode) + "-player");
    ParseAndSetLineCases(h, ModeLine(mode));
  }

  /** A level's difficulty line sets that level, except that level 5 comes back as 2. */
  lemma LoadDifficultyLine(h: Game, d: int)
    requires 1 <= d <= 5
    ensures var line := KeyedLine("DIFFICULTY:", ParseDifficulty(d).value);
            FileLine(line) && Loadable(line) && ParseAndSetLine(h, line) == h.(difficulty := if d == 5 then 2 else d)
  {
    KeyedLineShape("DIFFICULTY:", ParseDifficulty(d).value);
    DifficultyReadBack(d);
    ParseAndSetLineCases(h, KeyedLine("DIFFICULTY:", ParseDifficulty(d).value));
  }

  /** A colour code's user-colour line sets 0 for code 0 and 1 otherwise. */
  lemma LoadColorLine(h: Game, c: int)
    ensures var line := KeyedLine("USER_COLOR:", ParseColor(c));
            FileLine(line) && Loadable(line) && ParseAndSetLine(h, line) == h.(userColor := if c == 0 then 0 else 1)
  {
    KeyedLineShape("USER_COLOR:", ParseColor(c));
    ParseAndSetLineCases(h, KeyedLine("USER_COLOR:", ParseColor(c)));
  }

  /** Two lines are applied one after the other. */
  lemma LoadTwoLines(h: Game, a: string, b: string)
    requires Loadable(a) && Loadable(b)
    ensures LoadLines(h, [a, b]) == ParseAndSetLine(ParseAndSetLine(h, a), b)
  {
    assert [a, b][1..] == [b];
    assert [b][1..] == [];
    assert LoadLines(ParseAndSetLine(h, a), [b]) == LoadLines(ParseAndSetLine(ParseAndSetLine(h, a), b), []);
  }

  /** The one-player settings block sets the mode, the difficulty and the user colour. */
  lemma LoadOnePlayerSettings(h: Game, g: Game)
    requires g.gameMode == 1 && 1 <= g.difficulty <= 5
    ensures forall k | 0 <= k < |SettingsLines(g)| :: Loadable(SettingsLines(g)[k]) && FileLine(SettingsLines(g)[k])
    ensures LoadLines(h, SettingsLines(g)) ==
              h.(gameMode := 1, difficulty := ReadBackLevel(g.difficulty), userColor := if g.userColor == 0 then 0 else 1)
  {
    var dl := KeyedLine("DIFFICULTY:", ParseDifficulty(g.difficulty).value);
    var cl := KeyedLine("USER_COLOR:", ParseColor(g.userColor));
    assert SettingsLines(g) == ["SETTINGS:\n", ModeLine(1)] + [dl, cl];
    LoadSettingsHeader(h);
    LoadModeLine(h, 1);
    var h2 := h.(gameMode := 1);
    LoadDifficultyLine(h2, g.difficulty);
    LoadColorLine(h2.(difficulty := ReadBackLevel(g.difficulty)), g.userColor);
    LoadTwoLines(h, "SETTINGS:\n", ModeLine(1));
    LoadTwoLines(h2, dl, cl);
    LoadLinesAppend(h, ["SETTINGS:\n", ModeLine(1)], [dl, cl]);
  }

  /** The two-player settings block sets the mode only. */
  lemma LoadTwoPlayerSettings(h: Game, g: Game)
    requires g.gameMode == 2
    ensures forall k | 0 <= k < |SettingsLines(g)| :: Loadable(SettingsLines(g)[k]) && FileLine(SettingsLines(g)[k])
    ensures LoadLines(h, SettingsLines(g)) == h.(gameMode := 2)
  {
    assert SettingsLines(g) == ["SETTINGS:\n", ModeLine(2)];
    LoadSettingsHeader(h);
    LoadModeLine(h, 2);
    LoadTwoLines(h, "SETTINGS:\n", ModeLine(2));
  }

  /**
   * The settings block sets the game mode and, in one-player mode, the
   * difficulty (level 5 reads back as 2) and the user colour (any code but 0
   * reads back as white).
   */
  lemma LoadSettingsLines(h: Game, g: Game)
    requires g.gameMode == 1 || g.gameMode == 2
    requires g.gameMode == 1 ==> 1 <= g.difficulty <= 5
    ensures forall k | 0 <= k < |SettingsLines(g)| :: Loadable(SettingsLines(g)[k]) && FileLine(SettingsLines(g)[k])
    ensures LoadLines(h, SettingsLines(g)) ==
              if g.gameMode == 1 then
                h.(gameMode := 1, difficulty := if g.difficulty == 5 then 2 else g.difficulty,
                   userColor := if g.userColor == 0 then 0 else 1)
              else h.(gameMode := 2)
  {
    if g.gameMode == 1 {
      LoadOnePlayerSettings(h, g);
    } else {
      LoadTwoPlayerSettings(h, g);
    }
  }

  /** The printed board, read back over any game, replaces its board and nothing else. */
  lemma LoadBoardLines(h: Game, b: Board)
    requires BoardWritable(b)
    ensures forall k | 0 <= k < |BoardLines(b)| :: Loadable(BoardLines(b)[k]) && FileLine(BoardLines(b)[k])
    ensures LoadLines(h, BoardLines(b)) == h.(board := b)
  {
    var rows := RowLines(b, 0);
    LoadRows(h, b, 0);
    var h2 := LoadLines(h, rows);
    assert h2.board == b;
    LoadFooter(h2);
    forall i | 0 <= i < 8
      ensures FileLine(rows[i])
    {
      RowLineShape(b, i);
    }
    LoadLinesAppend(h, rows, Footer);
  }

  /**
   * The game a saved game `g` leaves behind when it is loaded over `h`: board,
   * side to move and game mode from `g`; difficulty and user colour from `g`
   * in one-player mode (level 5 comes back as 2, a colour code other than 0
   * as 1) and from `h` in two-player mode.
   */
  function Restored(h: Game, g: Game): Game {
    h.(board := g.board, currentPlayer := g.currentPlayer, gameMode := g.gameMode,
       difficulty := if g.gameMode == 1 then ReadBackLevel(g.difficulty) else h.difficulty,
       userColor := if g.gameMode == 1 then (if g.userColor == 0 then 0 else 1) else h.userColor)
  }

  /** The saved lines are whole file lines the loader accepts, and they restore the game. */
  lemma LoadSaveLines(h: Game, g: Game)
    requires g.gameMode == 1 || g.gameMode == 2
    requires g.gameMode == 1 ==> 1 <= g.difficulty <= 5
    requires BoardWritable(g.board)
    ensures forall i | 0 <= i < |SaveLines(g)| :: FileLine(SaveLines(g)[i]) && Loadable(SaveLines(g)[i])
    ensures LoadLines(h, SaveLines(g)) == Restored(h, g)
  {
    var player, settings, board := [PlayerLine(g.currentPlayer)], SettingsLines(g), BoardLines(g.board);
    SaveLinesAccepted(h, g);
    LoadPlayerLine(h, g.currentPlayer);
    var h1 := h.(currentPlayer := g.currentPlayer);
    assert LoadLines(h, player) == h1;
    LoadSettingsLines(h1, g);
    var h2 := LoadLines(h1, settings);
    LoadBoardLines(h2, g.board);
    LoadLinesAppend(h, player, settings);
    LoadLinesAppend(h, player + settings, board);
  }

  /** Every saved line is a whole file line that the loader accepts. */
  lemma SaveLinesAccepted(h: Game, g: Game)
    requires g.gameMode == 1 || g.gameMode == 2
    requires g.gameMode == 1 ==> 1 <= g.difficulty <= 5
    requires BoardWritable(g.board)
    ensures forall i | 0 <= i < |SaveLines(g)| :: FileLine(SaveLines(g)[i]) && Loadable(SaveLines(g)[i])
  {
    var player, settings, board := [PlayerLine(g.currentPlayer)], SettingsLines(g), BoardLines(g.board);
    LoadPlayerLine(h, g.currentPlayer);
    var h1 := h.(currentPlayer := g.currentPlayer);
    LoadSettingsLines(h1, g);
    var h2 := LoadLines(h1, settings);
    LoadBoardLines(h2, g.board);
    var ls := SaveLines(g);
    forall i | 0 <= i < |ls|
      ensures FileLine(ls[i]) && Loadable(ls[i])
    {
      if i == 0 {
      } else if i <= |settings| {
        assert ls[i] == settings[i - 1];
      } else {
        assert ls[i] == board[i - 1 - |settings|];
      }
    }
  }

  /**
   * Loading a saved game, over any game, restores its board, side to move
   * and game mode; in one-player mode also its difficulty and user colour
   * (except that level 5 comes back as level 2, and a colour code other than
   * 0 as 1), while in two-player mode
   * those two keep the values they had. The history ends empty.
   */
  lemma SaveLoadRoundTrip(g: Game, h: Game)
    requires Valid(h)
    requires g.gameMode == 1 || g.gameMode == 2
    requires g.gameMode == 1 ==> 1 <= g.difficulty <= 5
    requires BoardWritable(g.board)
    ensures forall i | 0 <= i < |Chunks(SaveText(g))| :: Loadable(Chunks(SaveText(g))[i])
    ensures var r := Load(h, Some(OpenedFile(SaveText(g), false)));
            && r.0 == Success
            && r.1.board == g.board && r.1.currentPlayer == g.currentPlayer && r.1.gameMode == g.gameMode
            && (g.gameMode == 1 ==> r.1.difficulty == (if g.difficulty == 5 then 2 else g.difficulty) && r.1.userColor == (if g.userColor == 0 then 0 else 1))
            && (g.gameMode == 2 ==> r.1.difficulty == h.difficulty && r.1.userColor == h.userColor)
            && AL.Items(r.1.history) == [] && r.1.history.maxSize == h.history.maxSize
            && r.1.isSaved == h.isSaved && r.1.isOver == h.isOver
  {
    LoadSaveLines(h, g);
    ChunksOfLines(SaveLines(g));
  }
}
