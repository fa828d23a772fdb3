/**
 * The console command parser: one line of user input becomes a command
 * kind, a flag saying whether its argument was well formed, and the
 * argument itself (a one-digit integer, four or two board indices, or a
 * file path).
 *
 * Fields the parser leaves unset in a command are modelled as `0`, `[]`
 * and `""`.
 */
module Parser {
  import opened Wrappers
  import opened Tokens
  import opened Board

  /** `SP_MAX_LINE_LENGTH`: the parser copies the line into a buffer this long. */
  const MaxLineLength: int := 3000

  /** The token separators of a command line. */
  const Delimiters: set<char> := {' ', '\t', '\r', '\n'}

  datatype CommandKind =
    | MoveCmd
    | GetMovesCmd
    | SaveCmd
    | LoadCmd
    | UndoCmd
    | ResetCmd
    | QuitCmd
    | InvalidLine
    | SetMode
    | SetDiff
    | SetColor
    | SetDefault
    | PrintSetting
    | Start

  datatype Command = Command(cmd: CommandKind, validArg: bool, arg: int, args: seq<int>, path: string)

  /** The command with nothing parsed yet. */
  const Blank: Command := Command(InvalidLine, false, 0, [], "")

  /** `cParserIsDigit`. */
  predicate IsDigit(c: char) {
    '0' <= c <= '9'
  }

  /** `cParserIsLetter`: an upper-case Latin letter. */
  predicate IsLetter(c: char) {
    'A' <= c <= 'Z'
  }

  /** The decimal text of a number 0..9. */
  function DigitText(d: int): string
    requires 0 <= d <= 9
  {
    [('0' as int + d) as char]
  }

  /** `cParserIsInt`: exactly one decimal digit, that is, the text of one of the numbers 0..9. */
  function IsInt(s: string): (r: bool)
    ensures r <==> exists d | 0 <= d <= 9 :: s == DigitText(d)
  {
    if |s| == 1 && IsDigit(s[0]) then
      assert s == DigitText(s[0] as int - '0' as int);
      true
    else false
  }

  /** `isspace` in the C locale: blank, tab, newline, vertical tab, form feed, carriage return. */
  predicate IsSpace(c: char) {
    c == ' ' || c == '\t' || c == '\n' || c == '\U{000B}' || c == '\U{000C}' || c == '\r'
  }

  /** `cParserNumOfComma`. */
  function CommaCount(s: string): (r: nat)
    ensures r <= |s|
    ensures r == 0 <==> ',' !in s
  {
    if s == [] then 0 else (if s[0] == ',' then 1 else 0) + CommaCount(s[1..])
  }

  /** `cParserHasBlankSpace`. */
  predicate HasBlankSpace(s: string) {
    exists i | 0 <= i < |s| :: IsSpace(s[i])
  }

  /**
   * `cParseIsWellFormattedCoordinate`: angle brackets around text with one
   * comma and no blanks; the comma then lies strictly inside the brackets.
   */
  function WellFormattedCoordinate(s: string): (r: bool)
    ensures r ==> 3 <= |s| && exists i | 0 < i < |s| - 1 :: s[i] == ','
    ensures r ==> forall i | 0 <= i < |s| :: !IsSpace(s[i])
  {
    |s| > 0 && s[0] == '<' && s[|s| - 1] == '>' && CommaCount(s) == 1 && !HasBlankSpace(s)
  }

  /** The shape of a square the parser accepts: `<digit,LETTER>`. */
  predicate CoordText(t: string) {
    |t| == 5 && t[0] == '<' && IsDigit(t[1]) && t[2] == ',' && IsLetter(t[3]) && t[4] == '>'
  }

  /** The row and column indices a square's text stands for. */
  function CoordArgs(t: string): (r: seq<int>)
    requires CoordText(t)
    ensures |r| == 2 && -1 <= r[0] <= 8 && 0 <= r[1] <= 25
  {
    [ParseRow(t[1]), ParseColumn(t[3])]
  }

  /**
   * The length, digit and letter tests the parser applies after the
   * well-formedness test together accept exactly the `<digit,LETTER>` shape.
   */
  lemma CoordTextShape(t: string)
    ensures (WellFormattedCoordinate(t) && |t| == 5 && IsDigit(t[1]) && IsLetter(t[3])) <==> CoordText(t)
  {
    if |t| == 5 {
      var t1, t2, t3, t4 := t[1..], t[2..], t[3..], t[4..];
      assert t1[1..] == t2 && t2[1..] == t3 && t3[1..] == t4 && t4[1..] == [];
      assert CommaCount(t4) == (if t[4] == ',' then 1 else 0);
      assert CommaCount(t3) == (if t[3] == ',' then 1 else 0) + CommaCount(t4);
      assert CommaCount(t2) == (if t[2] == ',' then 1 else 0) + CommaCount(t3);
      assert CommaCount(t1) == (if t[1] == ',' then 1 else 0) + CommaCount(t2);
      assert CommaCount(t) == (if t[0] == ',' then 1 else 0) + CommaCount(t1);
      if CoordText(t) {
        assert forall i | 0 <= i < 5 :: !IsSpace(t[i]);
      }
    }
  }

  /** The keyword of each command that has one. */
  function Keyword(k: CommandKind): string
    requires k != InvalidLine
  {
    match k
    case MoveCmd => "move"
    case GetMovesCmd => "get_moves"
    case SaveCmd => "save"
    case LoadCmd => "load"
    case UndoCmd => "undo"
    case ResetCmd => "reset"
    case QuitCmd => "quit"
    case SetMode => "game_mode"
    case SetDiff => "difficulty"
    case SetColor => "user_color"
    case SetDefault => "default"
    case PrintSetting => "print_settings"
    case Start => "start"
  }

  /** `cParserParseCommand`: the command a keyword names, INVALID_LINE for any other word. */
  function ParseCommand(s: string): (r: CommandKind)
    ensures r != InvalidLine ==> Keyword(r) == s
    ensures r == InvalidLine ==> forall k | k != InvalidLine :: Keyword(k) != s
  {
    if s == "move" then MoveCmd
    else if s == "undo" then UndoCmd
    else if s == "get_moves" then GetMovesCmd
    else if s == "quit" then QuitCmd
    else if s == "reset" then ResetCmd
    else if s == "save" then SaveCmd
    else if s == "load" then LoadCmd
    else if s == "game_mode" then SetMode
    else if s == "difficulty" then SetDiff
    else if s == "user_color" then SetColor
    else if s == "default" then SetDefault
    else if s == "print_settings" then PrintSetting
    else if s == "start" then Start
    else InvalidLine
  }

  /** Every keyword reads back as its own command. */
  lemma KeywordRoundTrip(k: CommandKind)
    requires k != InvalidLine
    ensures ParseCommand(Keyword(k)) == k
  {
  }

  /** `cParserWithoutArg`: the commands that take no argument. */
  predicate WithoutArg(k: CommandKind) {
    k == QuitCmd || k == SetDefault || k == PrintSetting || k == Start || k == UndoCmd || k == ResetCmd
      || k == InvalidLine
  }

  /** The commands whose argument is one integer. */
  predicate IntArg(k: CommandKind) {
    k == SetMode || k == SetDiff || k == SetColor
  }

  /** `cParseOneInt`: a one-digit token sets the argument; anything else leaves the command alone. */
  function ParseOneInt(c: Command, number: Option<string>): (r: Command)
    ensures number.Some? && IsInt(number.value) ==>
              r == c.(validArg := true, arg := r.arg) && 0 <= r.arg <= 9 && number.value == [('0' as int + r.arg) as char]
    ensures !(number.Some? && IsInt(number.value)) ==> r == c
  {
    if number.Some? && IsInt(number.value) then
      c.(arg := number.value[0] as int - '0' as int, validArg := true)
    else c
  }

  /**
   * `cParseMoveCommand`: a missing token, a middle word other than `to` or an
   * ill-formed square makes the line invalid; otherwise the squares are read
   * when both have the `<digit,LETTER>` shape.
   */
  function ParseMove(c: Command, xy: Option<string>, to: Option<string>, ij: Option<string>): (r: Command)
    requires c.cmd != InvalidLine && !c.validArg
    ensures r.cmd == InvalidLine <==>
              !(xy.Some? && to == Some("to") && ij.Some?
                && WellFormattedCoordinate(xy.value) && WellFormattedCoordinate(ij.value))
    ensures r.cmd != InvalidLine ==> r.cmd == c.cmd
    ensures r.validArg <==> xy.Some? && to == Some("to") && ij.Some? && CoordText(xy.value) && CoordText(ij.value)
    ensures r.validArg ==> r.args == CoordArgs(xy.value) + CoordArgs(ij.value)
    ensures r.(cmd := c.cmd, validArg := false, args := c.args) == c
  {
    if xy.None? || to.None? || ij.None? then c.(cmd := InvalidLine)
    else if to.value != "to" || !WellFormattedCoordinate(xy.value) || !WellFormattedCoordinate(ij.value) then
      CoordTextShape(xy.value);
      CoordTextShape(ij.value);
      c.(cmd := InvalidLine)
    else if |xy.value| != 5 || |ij.value| != 5 then c.(validArg := false)
    else
      var x, y, i, j := xy.value[1], xy.value[3], ij.value[1], ij.value[3];
      CoordTextShape(xy.value);
      CoordTextShape(ij.value);
      if IsDigit(x) && IsDigit(i) && IsLetter(y) && IsLetter(j) then
        c.(validArg := true, args := [ParseRow(x), ParseColumn(y), ParseRow(i), ParseColumn(j)])
      else c.(validArg := false)
  }

  /** `cParseGetMovesCommand`: the one-square version of the move parser. */
  function ParseGetMoves(c: Command, xy: Option<string>): (r: Command)
    requires c.cmd != InvalidLine && !c.validArg
    ensures r.cmd == InvalidLine <==> !(xy.Some? && WellFormattedCoordinate(xy.value))
    ensures r.cmd != InvalidLine ==> r.cmd == c.cmd
    ensures r.validArg <==> xy.Some? && CoordText(xy.value)
    ensures r.validArg ==> r.args == CoordArgs(xy.value)
    ensures r.(cmd := c.cmd, validArg := false, args := c.args) == c
  {
    if xy.None? then c.(cmd := InvalidLine)
    else
      CoordTextShape(xy.value);
      if !WellFormattedCoordinate(xy.value) then c.(cmd := InvalidLine)
      else if |xy.value| != 5 then c.(validArg := false)
      else
        var x, y := xy.value[1], xy.value[3];
        if IsDigit(x) && IsLetter(y) then c.(validArg := true, args := [ParseRow(x), ParseColumn(y)])
        else c.(validArg := false)
  }

  /**
   * `cParserPraseLine` after tokenising: the first token names the command
   * and the following ones are its arguments. Tokens past the ones a command
   * reads are ignored.
   */
  function ParseTokens(ts: seq<string>): (r: Command)
    ensures ts == [] ==> r.cmd == InvalidLine
    ensures r.cmd != InvalidLine ==> ts != [] && ts[0] == Keyword(r.cmd)
    ensures r.validArg ==> !WithoutArg(r.cmd)
    ensures r.cmd == SaveCmd || r.cmd == LoadCmd ==> r.validArg && |ts| >= 2 && r.path == ts[1]
    ensures IntArg(r.cmd) ==> (r.validArg <==> |ts| >= 2 && IsInt(ts[1]))
    ensures IntArg(r.cmd) && r.validArg ==> 0 <= r.arg <= 9 && ts[1] == [('0' as int + r.arg) as char]
    ensures r.cmd == MoveCmd ==> |ts| >= 4 && ts[2] == "to" && (r.validArg <==> CoordText(ts[1]) && CoordText(ts[3]))
    ensures r.cmd == MoveCmd && r.validArg ==> r.args == CoordArgs(ts[1]) + CoordArgs(ts[3])
    ensures r.cmd == GetMovesCmd ==> |ts| >= 2 && (r.validArg <==> CoordText(ts[1]))
    ensures r.cmd == GetMovesCmd && r.validArg ==> r.args == CoordArgs(ts[1])
  {
    if ts == [] then Blank
    else
      var c := Blank.(cmd := ParseCommand(ts[0]));
      if WithoutArg(c.cmd) then c
      else if c.cmd == SaveCmd || c.cmd == LoadCmd then
        if |ts| >= 2 then c.(validArg := true, path := ts[1]) else c.(cmd := InvalidLine)
      else if c.cmd != MoveCmd && c.cmd != GetMovesCmd then ParseOneInt(c, Nth(ts, 1))
      else if c.cmd == MoveCmd then ParseMove(c, Nth(ts, 1), Nth(ts, 2), Nth(ts, 3))
      else ParseGetMoves(c, Nth(ts, 1))
  }

  /**
   * `cParserPraseLine`: the line is copied into a buffer of
   * `SP_MAX_LINE_LENGTH` characters and split on blanks, tabs, carriage
   * returns and newlines.
   */
  function ParseLine(line: string): (r: Command)
    requires |line| < MaxLineLength
    ensures Strip(line, Delimiters) == [] ==> r.cmd == InvalidLine
    ensures r.cmd != InvalidLine ==> Keyword(r.cmd) <= Strip(line, Delimiters)
  {
    var ts := Split(line, Delimiters);
    SplitKeepsText(line, Delimiters);
    assert ts != [] ==> Concat(ts) == ts[0] + Concat(ts[1..]);
    ParseTokens(ts)
  }

  /** The text of a square for a row index in -1..8 and a column index in 0..25. */
  function CoordWord(row: int, col: int): (r: string)
    requires -1 <= row <= 8 && 0 <= col <= 25
    ensures CoordText(r) && CoordArgs(r) == [row, col]
  {
    ['<', ('8' as int - row) as char, ',', (col + 'A' as int) as char, '>']
  }

  /** A path the parser hands back unchanged: a single token that fits in the line. */
  predicate PathWord(p: string) {
    p != [] && Free(p, Delimiters) && |p| < MaxLineLength - 10
  }

  /** The commands a line can denote, with their unset fields at their defaults. */
  predicate Canonical(c: Command) {
    match c.cmd
    case SaveCmd => c.validArg && c.arg == 0 && c.args == [] && PathWord(c.path)
    case LoadCmd => c.validArg && c.arg == 0 && c.args == [] && PathWord(c.path)
    case SetMode => c.args == [] && c.path == [] && (if c.validArg then 0 <= c.arg <= 9 else c.arg == 0)
    case SetDiff => c.args == [] && c.path == [] && (if c.validArg then 0 <= c.arg <= 9 else c.arg == 0)
    case SetColor => c.args == [] && c.path == [] && (if c.validArg then 0 <= c.arg <= 9 else c.arg == 0)
    case MoveCmd =>
      && c.validArg && c.arg == 0 && c.path == [] && |c.args| == 4
      && -1 <= c.args[0] <= 8 && 0 <= c.args[1] <= 25 && -1 <= c.args[2] <= 8 && 0 <= c.args[3] <= 25
    case GetMovesCmd =>
      c.validArg && c.arg == 0 && c.path == [] && |c.args| == 2 && -1 <= c.args[0] <= 8 && 0 <= c.args[1] <= 25
    case _ => !c.validArg && c.arg == 0 && c.args == [] && c.path == []
  }

  /** A command with a one-digit argument, or with none when the argument is missing. */
  function IntWords(c: Command): (r: seq<string>)
    requires IntArg(c.cmd) && Canonical(c)
    ensures forall i | 0 <= i < |r| :: r[i] != [] && Free(r[i], Delimiters)
  {
    if c.validArg then [Keyword(c.cmd), [('0' as int + c.arg) as char]] else [Keyword(c.cmd)]
  }

  /** The words a user types for a command. */
  function Words(c: Command): (r: seq<string>)
    requires Canonical(c)
    ensures forall i | 0 <= i < |r| :: r[i] != [] && Free(r[i], Delimiters)
  {
    match c.cmd
    case InvalidLine => []
    case SaveCmd => ["save", c.path]
    case LoadCmd => ["load", c.path]
    case MoveCmd =>
      ["move", CoordWord(c.args[0], c.args[1]), "to", CoordWord(c.args[2], c.args[3])]
    case GetMovesCmd => ["get_moves", CoordWord(c.args[0], c.args[1])]
    case SetMode => IntWords(c)
    case SetDiff => IntWords(c)
    case SetColor => IntWords(c)
    case _ => [Keyword(c.cmd)]
  }

  /** The line a user types for a command. */
  function Render(c: Command): string
    requires Canonical(c)
  {
    Join(Words(c))
  }

  /** The typed line is short enough for the parser and splits back into its words. */
  lemma RenderSplits(c: Command)
    requires Canonical(c)
    ensures |Render(c)| < MaxLineLength
    ensures Split(Render(c), Delimiters) == Words(c)
  {
    var ws := Words(c);
    SplitJoin(ws, Delimiters);
    if |ws| == 2 {
      assert Join(ws) == ws[0] + " " + ws[1];
    } else if |ws| == 4 {
      assert Join(ws[2..]) == ws[2] + " " + ws[3];
      assert Join(ws) == ws[0] + " " + (ws[1] + " " + (ws[2] + " " + ws[3]));
    }
  }

  lemma ParseWordsMove(c: Command)
    requires Canonical(c) && c.cmd == MoveCmd
    ensures ParseTokens(Words(c)) == c
  {
    var ws := Words(c);
    KeywordRoundTrip(MoveCmd);
    assert CoordArgs(ws[1]) + CoordArgs(ws[3]) == c.args;
  }

  lemma ParseWordsGetMoves(c: Command)
    requires Canonical(c) && c.cmd == GetMovesCmd
    ensures ParseTokens(Words(c)) == c
  {
    KeywordRoundTrip(GetMovesCmd);
  }

  lemma ParseWordsPath(c: Command)
    requires Canonical(c) && (c.cmd == SaveCmd || c.cmd == LoadCmd)
    ensures ParseTokens(Words(c)) == c
  {
    KeywordRoundTrip(c.cmd);
  }

  lemma ParseWordsInt(c: Command)
    requires Canonical(c) && IntArg(c.cmd)
    ensures ParseTokens(Words(c)) == c
  {
    KeywordRoundTrip(c.cmd);
  }

  lemma ParseWordsPlain(c: Command)
    requires Canonical(c) && WithoutArg(c.cmd)
    ensures ParseTokens(Words(c)) == c
  {
    if c.cmd != InvalidLine {
      KeywordRoundTrip(c.cmd);
    }
  }

  /** Parsing the line typed for a command gives back that command. */
  lemma ParseRender(c: Command)
    requires Canonical(c)
    ensures |Render(c)| < MaxLineLength
    ensures ParseLine(Render(c)) == c
  {
    RenderSplits(c);
    if c.cmd == MoveCmd {
      ParseWordsMove(c);
    } else if c.cmd == GetMovesCmd {
      ParseWordsGetMoves(c);
    } else if c.cmd == SaveCmd || c.cmd == LoadCmd {
      ParseWordsPath(c);
    } else if IntArg(c.cmd) {
      ParseWordsInt(c);
    } else {
      ParseWordsPlain(c);
    }
  }
}
