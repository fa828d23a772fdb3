/**
 * The console's settings state: each command line typed before a game
 * starts is parsed and handled, until `start` or `quit`. Text written to
 * stdout is returned as the sequence of strings the handlers print; the
 * files `load` can open are a map from path to what reading them delivers.
 */
module SettingsMenu {
  import opened Wrappers
  import opened Tokens
  import opened Parser
  import opened Game
  import GS = GameSettings
  import Rules

  /** `MAX_COMMAND_LENGTH`: `fgets` reads at most one character less into the command buffer. */
  const MaxCommandLength: int := 3000

  const SettingsRequest: string := "Specify game settings or type 'start' to begin a game with the current settings:\n"
  const InvalidCommandReply: string := "ERROR: invalid command\n"
  const WrongGameModeReply: string := "Wrong game mode\n"
  const WrongDifficultyReply: string := "Wrong difficulty level. The value should be between 1 to 5\n"
  const WrongUserColorReply: string := "Wrong user color. The value should be 0 or 1\n"
  const FileErrorReply: string := "Error: File doesn't exist or cannot be opened\n"
  const DefaultsReply: string := "All settings reset to default\n"
  const StartingReply: string := "Starting game...\n"

  /** The part of `SP_GAME_STATUS` the load handler returns. */
  datatype GameStatus = StatusSuccess | StatusIoException

  /** What a handler prints: the text when its `print` flag is set, nothing otherwise. */
  function Say(show: bool, text: string): string {
    if show then text else ""
  }

  /** The settings every reachable game has: a known mode, a named difficulty, a colour code. */
  predicate InRange(g: Game) {
    && (g.gameMode == 1 || g.gameMode == 2)
    && 1 <= g.difficulty <= 5
    && (g.userColor == 0 || g.userColor == 1)
  }

  /** A file text every line of which the loader can take. */
  predicate LoadableText(text: string) {
    forall i | 0 <= i < |GS.Chunks(text)| :: GS.Loadable(GS.Chunks(text)[i])
  }

  /** Every file `load` can open holds such a text. */
  predicate FilesLoadable(files: map<string, GS.OpenedFile>) {
    forall p | p in files :: LoadableText(files[p].text)
  }

  /** `handleGameModeCommand`: a valid 1 or 2 sets the mode, anything else is refused. */
  function HandleGameMode(g: Game, c: Command, show: bool): (r: (Game, string))
    ensures c.validArg && (c.arg == 1 || c.arg == 2) ==>
              r == (g.(gameMode := c.arg), Say(show, "Game mode is set to " + GS.Decimal(c.arg) + "-player\n"))
    ensures !(c.validArg && (c.arg == 1 || c.arg == 2)) ==> r == (g, Say(show, WrongGameModeReply))
  {
    if c.validArg && (c.arg == 1 || c.arg == 2) then
      (GS.SetGameMode(g, c.arg).1, Say(show, "Game mode is set to " + GS.Decimal(c.arg) + "-player\n"))
    else (g, Say(show, WrongGameModeReply))
  }

  /**
   * `handleDifficultyCommand`: refused as an invalid command in two-player
   * mode; otherwise a valid level 1..5 is set and anything else is refused.
   */
  function HandleDifficulty(g: Game, c: Command, show: bool): (r: (Game, string))
    ensures g.gameMode == 2 ==> r == (g, Say(show, InvalidCommandReply))
    ensures g.gameMode != 2 && c.validArg && 1 <= c.arg <= 5 ==>
              r == (g.(difficulty := c.arg), Say(show, "Difficulty level is set to " + GS.ParseDifficulty(c.arg).value + "\n"))
    ensures g.gameMode != 2 && !(c.validArg && 1 <= c.arg <= 5) ==> r == (g, Say(show, WrongDifficultyReply))
  {
    if g.gameMode == 2 then (g, Say(show, InvalidCommandReply))
    else if c.validArg && 1 <= c.arg <= 5 then
      (GS.SetDifficulty(g, c.arg).1, Say(show, "Difficulty level is set to " + GS.ParseDifficulty(c.arg).value + "\n"))
    else (g, Say(show, WrongDifficultyReply))
  }

  /**
   * `handleUserColorCommand`: refused as an invalid command in two-player
   * mode; otherwise a valid 0 or 1 is set and anything else is refused.
   */
  function HandleUserColor(g: Game, c: Command, show: bool): (r: (Game, string))
    ensures g.gameMode == 2 ==> r == (g, Say(show, InvalidCommandReply))
    ensures g.gameMode != 2 && c.validArg && (c.arg == 0 || c.arg == 1) ==>
              r == (g.(userColor := c.arg), Say(show, "User color is set to " + GS.ParseColor(c.arg) + "\n"))
    ensures g.gameMode != 2 && !(c.validArg && (c.arg == 0 || c.arg == 1)) ==> r == (g, Say(show, WrongUserColorReply))
  {
    if g.gameMode == 2 then (g, Say(show, InvalidCommandReply))
    else if c.validArg && (c.arg == 0 || c.arg == 1) then
      (GS.SetUserColor(g, c.arg).1, Say(show, "User color is set to " + GS.ParseColor(c.arg) + "\n"))
    else (g, Say(show, WrongUserColorReply))
  }

  /**
   * `handleLoadCommand`: a path that names an openable file is loaded, and
   * when the whole file was read it prints nothing; a read error is an I/O
   * error after the lines read so far were applied; no path, or one that
   * cannot be opened, is an I/O error and leaves the game as it was.
   */
  function HandleLoad(g: Game, c: Command, files: map<string, GS.OpenedFile>, show: bool): (r: (GameStatus, Game, string))
    requires Valid(g) && FilesLoadable(files)
    ensures r.0 == StatusSuccess <==> c.validArg && c.path in files && !files[c.path].readError
    ensures c.validArg && c.path in files ==> r.1 == GS.Load(g, Some(files[c.path])).1
    ensures r.0 == StatusSuccess ==> r.2 == ""
    ensures r.0 == StatusIoException ==> r.2 == Say(show, FileErrorReply)
    ensures !(c.validArg && c.path in files) ==> r == (StatusIoException, g, Say(show, FileErrorReply))
    ensures Valid(r.1) && r.1.history.maxSize == g.history.maxSize
  {
    if c.validArg then
      var text := if c.path in files then Some(files[c.path]) else None;
      var (status, loaded) := GS.Load(g, text);
      if status == Rules.IoException then (StatusIoException, loaded, Say(show, FileErrorReply))
      else (StatusSuccess, loaded, "")
    else (StatusIoException, g, Say(show, FileErrorReply))
  }

  /** `handleDefaultCommand`: the default settings, and it always says so. */
  function HandleDefault(g: Game): (r: (Game, string))
    ensures InRange(r.0) && r.1 == DefaultsReply
    ensures r.0.gameMode == DefaultGameMode && r.0.difficulty == DefaultDifficulty && r.0.userColor == DefaultUserColor
    ensures r.0.(gameMode := g.gameMode, difficulty := g.difficulty, userColor := g.userColor) == g
  {
    (GS.SetDefaults(g), DefaultsReply)
  }

  /** A line applied by the loader keeps the settings in range. */
  lemma ParseAndSetLineKeepsRange(g: Game, line: string)
    requires InRange(g) && GS.Loadable(line)
    ensures InRange(GS.ParseAndSetLine(g, line))
  {
    GS.ParseAndSetLineCases(g, line);
  }

  lemma {:induction false} LoadLinesKeepsRange(g: Game, lines: seq<string>)
    requires InRange(g)
    requires forall i | 0 <= i < |lines| :: GS.Loadable(lines[i])
    ensures InRange(GS.LoadLines(g, lines))
    decreases |lines|
  {
    if lines != [] {
      ParseAndSetLineKeepsRange(g, lines[0]);
      LoadLinesKeepsRange(GS.ParseAndSetLine(g, lines[0]), lines[1..]);
    }
  }

  /** Loading any loadable file keeps the settings in range. */
  lemma LoadKeepsRange(g: Game, file: GS.OpenedFile)
    requires Valid(g) && InRange(g) && LoadableText(file.text)
    ensures InRange(GS.Load(g, Some(file)).1)
  {
    LoadLinesKeepsRange(g, GS.Chunks(file.text));
  }

  /** The load handler keeps the settings in range. */
  lemma HandleLoadKeepsRange(g: Game, c: Command, files: map<string, GS.OpenedFile>, show: bool)
    requires Valid(g) && InRange(g) && FilesLoadable(files)
    ensures InRange(HandleLoad(g, c, files, show).1)
  {
    if c.validArg && c.path in files {
      LoadKeepsRange(g, files[c.path]);
    }
  }

  /** The commands the settings loop handles itself, besides `start` and `quit`. */
  predicate SettingsKind(k: CommandKind) {
    k == SetMode || k == SetDiff || k == SetColor || k == LoadCmd || k == SetDefault || k == PrintSetting
  }

  /**
   * One pass of the loop body of `getSettingsFromUser` for a command that is
   * neither `start` nor `quit`: only `load` touches more than the three
   * settings, printing the settings leaves the game alone, and every command
   * of the game proper is an invalid command here.
   */
  function Handle(g: Game, c: Command, files: map<string, GS.OpenedFile>): (r: (Game, string))
    requires Valid(g) && InRange(g) && FilesLoadable(files)
    requires c.cmd != Start && c.cmd != QuitCmd
    ensures Valid(r.0) && InRange(r.0) && r.0.history.maxSize == g.history.maxSize
    ensures c.cmd != LoadCmd ==> r.0 == g.(gameMode := r.0.gameMode, difficulty := r.0.difficulty, userColor := r.0.userColor)
    ensures c.cmd == PrintSetting ==> r == (g, Concat(GS.SettingsLines(g)))
    ensures !SettingsKind(c.cmd) ==> r == (g, InvalidCommandReply)
  {
    if c.cmd == SetMode then HandleGameMode(g, c, true)
    else if c.cmd == SetDiff then HandleDifficulty(g, c, true)
    else if c.cmd == SetColor then HandleUserColor(g, c, true)
    else if c.cmd == LoadCmd then
      HandleLoadKeepsRange(g, c, files, true);
      var r := HandleLoad(g, c, files, true);
      (r.1, r.2)
    else if c.cmd == SetDefault then HandleDefault(g)
    else if c.cmd == PrintSetting then (g, Concat(GS.SettingsLines(g)))
    else (g, InvalidCommandReply)
  }

  /** How the settings state ended: `start`, `quit`, or no more input. */
  datatype Outcome = Started | Quit | OutOfInput

  /** The game after the settings state, what was printed, and how it ended. */
  datatype Session = Session(game: Game, output: seq<string>, outcome: Outcome)

  /** A command that ends the settings state. */
  predicate IsStop(c: Command) {
    c.cmd == Start || c.cmd == QuitCmd
  }

  /**
   * The loop of `getSettingsFromUser`, one parsed command at a time: `start`
   * says so and ends it, `quit` ends it silently, anything else is handled
   * and the loop goes on.
   */
  function Loop(g: Game, cmds: seq<Command>, files: map<string, GS.OpenedFile>): (r: Session)
    requires Valid(g) && InRange(g) && FilesLoadable(files)
    ensures Valid(r.game) && InRange(r.game) && r.game.history.maxSize == g.history.maxSize
    decreases |cmds|
  {
    if cmds == [] then Session(g, [], OutOfInput)
    else if cmds[0].cmd == Start then Session(g, [StartingReply], Started)
    else if cmds[0].cmd == QuitCmd then Session(g, [], Quit)
    else
      var (next, out) := Handle(g, cmds[0], files);
      var rest := Loop(next, cmds[1..], files);
      rest.(output := [out] + rest.output)
  }

  /** The lines of console input as the successive `fgets` calls read them. */
  function InputLines(input: string): (r: seq<string>)
    ensures forall i | 0 <= i < |r| :: 0 < |r[i]| < MaxLineLength
    ensures Concat(r) == input
  {
    GS.Reads(input, MaxCommandLength - 1)
  }

  /** `cParserPraseLine` applied to each line read. */
  function ParseAll(lines: seq<string>): (r: seq<Command>)
    requires forall i | 0 <= i < |lines| :: |lines[i]| < MaxLineLength
    ensures |r| == |lines|
    ensures forall i | 0 <= i < |r| :: r[i] == ParseLine(lines[i])
  {
    if lines == [] then [] else [ParseLine(lines[0])] + ParseAll(lines[1..])
  }

  /**
   * `getSettingsFromUser`: print the request, then handle lines until
   * `start` (the game begins) or `quit`.
   */
  function GetSettingsFromUser(g: Game, input: string, files: map<string, GS.OpenedFile>): (r: Session)
    requires Valid(g) && InRange(g) && FilesLoadable(files)
    ensures Valid(r.game) && InRange(r.game) && r.game.history.maxSize == g.history.maxSize
    ensures r.output != [] && r.output[0] == SettingsRequest
  {
    var s := Loop(g, ParseAll(InputLines(input)), files);
    s.(output := [SettingsRequest] + s.output)
  }

  /** The loop stops at command `k`: no earlier command stops it, and command `k` does. */
  predicate FirstStop(cmds: seq<Command>, k: int) {
    && 0 <= k < |cmds|
    && IsStop(cmds[k])
    && forall j | 0 <= j < k :: !IsStop(cmds[j])
  }

  /** With no `start` or `quit`, the loop handles every command and runs out of input. */
  lemma {:induction false} LoopWithoutStop(g: Game, cmds: seq<Command>, files: map<string, GS.OpenedFile>)
    requires Valid(g) && InRange(g) && FilesLoadable(files)
    ensures var r := Loop(g, cmds, files);
            (r.outcome == OutOfInput <==> forall j | 0 <= j < |cmds| :: !IsStop(cmds[j]))
            && (r.outcome == OutOfInput ==> |r.output| == |cmds|)
    decreases |cmds|
  {
    if cmds != [] && !IsStop(cmds[0]) {
      var next := Handle(g, cmds[0], files).0;
      LoopWithoutStop(next, cmds[1..], files);
      assert forall j | 1 <= j < |cmds| :: cmds[j] == cmds[1..][j - 1];
    }
  }

  /**
   * `start` and `quit` end the loop: its outcome is the first of them, it
   * prints one string per command handled before it, and then the farewell
   * when the game starts.
   */
  lemma {:induction false} LoopOutcome(g: Game, cmds: seq<Command>, files: map<string, GS.OpenedFile>, k: int)
    requires Valid(g) && InRange(g) && FilesLoadable(files)
    requires FirstStop(cmds, k)
    ensures var r := Loop(g, cmds, files);
            && (r.outcome == Started <==> cmds[k].cmd == Start)
            && (r.outcome == Quit <==> cmds[k].cmd == QuitCmd)
            && |r.output| == k + (if r.outcome == Started then 1 else 0)
            && (r.outcome == Started ==> r.output[k] == StartingReply)
    decreases |cmds|
  {
    if k > 0 {
      var next := Handle(g, cmds[0], files).0;
      assert FirstStop(cmds[1..], k - 1);
      LoopOutcome(next, cmds[1..], files, k - 1);
    }
  }

  /** Commands after the one that stops the loop are never read. */
  lemma LoopIgnoresRest(g: Game, cmds: seq<Command>, more: seq<Command>, files: map<string, GS.OpenedFile>, k: int)
    requires Valid(g) && InRange(g) && FilesLoadable(files)
    requires FirstStop(cmds, k)
    ensures Loop(g, cmds + more, files) == Loop(g, cmds, files)
  {
    LoopIgnoresExtension(g, cmds, cmds + more, files, k);
  }

  /** The loop over any input that starts with `cmds` ends as the loop over `cmds` does. */
  lemma {:induction false} LoopIgnoresExtension(g: Game, cmds: seq<Command>, all: seq<Command>, files: map<string, GS.OpenedFile>, k: int)
    requires Valid(g) && InRange(g) && FilesLoadable(files)
    requires FirstStop(cmds, k) && cmds <= all
    ensures Loop(g, all, files) == Loop(g, cmds, files)
    decreases |cmds|
  {
    assert all[0] == cmds[0];
    if k > 0 {
      var next := Handle(g, cmds[0], files).0;
      assert FirstStop(cmds[1..], k - 1);
      assert cmds[1..] <= all[1..];
      LoopIgnoresExtension(next, cmds[1..], all[1..], files, k - 1);
    }
  }

  /** Without a `load` command the loop changes the three settings and nothing else. */
  lemma {:induction false} LoopKeepsPosition(g: Game, cmds: seq<Command>, files: map<string, GS.OpenedFile>)
    requires Valid(g) && InRange(g) && FilesLoadable(files)
    requires forall j | 0 <= j < |cmds| :: cmds[j].cmd != LoadCmd
    ensures var r := Loop(g, cmds, files).game;
            r == g.(gameMode := r.gameMode, difficulty := r.difficulty, userColor := r.userColor)
    decreases |cmds|
  {
    if cmds != [] && !IsStop(cmds[0]) {
      var next := Handle(g, cmds[0], files).0;
      LoopKeepsPosition(next, cmds[1..], files);
    }
  }
}
