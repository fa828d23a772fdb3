/**
 * The game record: board, side to move, settings and the bounded move
 * history, with the operations that play, take back and classify moves.
 */
module Game {
  import opened Wrappers
  import opened Board
  import opened Rules
  import AL = ArrayList

  /** The default settings: difficulty easy, one player, user plays White. */
  const DefaultDifficulty: int := 2
  const DefaultGameMode: int := 1
  const DefaultUserColor: int := 1

  datatype Game = Game(
    board: Board,
    currentPlayer: Color,
    gameMode: int,
    difficulty: int,
    userColor: int,
    history: AL.ArrayList,
    isSaved: int,
    isOver: bool)

  /** The move a history record describes (flags cleared, as the undo path builds it). */
  function NodeMove(n: AL.Node): Move {
    Move(Coord(n.sRow, n.sCol), Coord(n.dRow, n.dCol), false, false)
  }

  /** Every live history record names two squares on the board. */
  predicate Valid(g: Game) {
    AL.Valid(g.history)
    && forall i | 0 <= i < |AL.Items(g.history)| :: IsLegalMoveCoordinates(NodeMove(AL.Items(g.history)[i]))
  }

  /** `spChessGameCreate`: no game for a non-positive history size. */
  function Create(historySize: int): (r: Option<Game>)
    ensures r.None? <==> historySize <= 0
    ensures r.Some? ==>
              && Valid(r.value)
              && r.value.board == InitialBoard() && r.value.currentPlayer == White
              && r.value.history.maxSize == historySize && AL.Items(r.value.history) == []
              && r.value.gameMode == DefaultGameMode && r.value.difficulty == DefaultDifficulty
              && r.value.userColor == DefaultUserColor
              && r.value.isSaved == 0 && !r.value.isOver
  {
    if historySize <= 0 then None
    else
      var history := AL.Create(historySize).value;
      Some(Game(InitialBoard(), White, DefaultGameMode, DefaultDifficulty, DefaultUserColor, history, 0, false))
  }

  /**
   * `spChessGameCopy`: the same position and settings with an empty history
   * of the same capacity.
   */
  function Copy(g: Game): (r: Game)
    requires Valid(g)
    ensures Valid(r) && AL.Items(r.history) == [] && r.history.maxSize == g.history.maxSize
    ensures r.(history := g.history) == g
  {
    var c := Create(g.history.maxSize).value;
    c.(currentPlayer := g.currentPlayer, difficulty := g.difficulty, gameMode := g.gameMode,
       isOver := g.isOver, isSaved := g.isSaved, userColor := g.userColor, board := g.board)
  }

  /**
   * `spChessGameRestartGame`: the initial position with White to move, an
   * empty history and the settings kept; `isOver` is not touched.
   */
  function Restart(g: Game): (r: Game)
    requires Valid(g)
    ensures Valid(r) && AL.Items(r.history) == [] && r.history.maxSize == g.history.maxSize
    ensures r.board == InitialBoard() && r.currentPlayer == White && r.isSaved == 0
    ensures r.gameMode == g.gameMode && r.difficulty == g.difficulty && r.userColor == g.userColor
    ensures r.isOver == g.isOver
  {
    g.(history := AL.Clear(g.history).list, board := InitialBoard(), currentPlayer := White, isSaved := 0)
  }

  /** `spChessGameChangePlayer`. */
  function ChangePlayer(g: Game): (r: Game)
    ensures r.currentPlayer != g.currentPlayer && r.(currentPlayer := g.currentPlayer) == g
  {
    g.(currentPlayer := Opponent(g.currentPlayer))
  }

  /**
   * `spChessGameisValidMove`: the coordinates, then ownership of the start
   * square, then the rules of the piece.
   */
  function IsValidMove(g: Game, m: Move): (r: Message)
    ensures !IsLegalMoveCoordinates(m) ==> r == InvalidArgument
    ensures IsLegalMoveCoordinates(m) && ColorOf(At(g.board, m.start)) != Some(g.currentPlayer) ==> r == NotYourPiece
    ensures r == LegalMove <==>
              IsLegalMoveCoordinates(m) && ColorOf(At(g.board, m.start)) == Some(g.currentPlayer) && IsLegal(g.board, m)
    ensures IsLegalMoveCoordinates(m) && ColorOf(At(g.board, m.start)) == Some(g.currentPlayer) ==> r == MoveStatus(g.board, m)
    ensures r == KingWillBeThreatened <==>
              && IsLegalMoveCoordinates(m) && ColorOf(At(g.board, m.start)) == Some(g.currentPlayer)
              && ShapeOk(g.board, m) && GenericOk(g.board, m) && ExposesKing(g.board, m)
  {
    if !IsLegalMoveCoordinates(m) then InvalidArgument
    // The empty-square test is implied by the colour test; it mirrors the C condition.
    else if At(g.board, m.start) == EmptyEntry || ColorOf(At(g.board, m.start)) != Some(g.currentPlayer) then NotYourPiece
    else
      MoveStatusClassification(g.board, m);
      MoveStatus(g.board, m)
  }

  /** The history record `spChessGameSetMove` writes for a move. */
  function Record(b: Board, m: Move): AL.Node
    requires IsLegalMoveCoordinates(m)
  {
    AL.Node(m.start.row, m.start.col, m.dest.row, m.dest.col, At(b, m.dest))
  }

  /**
   * The history update of `spChessGameSetMove`: append the record, first
   * dropping the oldest one when the list is full.
   */
  function Remember(history: AL.ArrayList, node: AL.Node): (r: AL.ArrayList)
    requires AL.Valid(history)
    ensures AL.Valid(r) && r.maxSize == history.maxSize
    ensures var items := AL.Items(history);
            AL.Items(r) == (if |items| < history.maxSize then items else items[1..]) + [node]
  {
    var added := AL.AddLast(history, node);
    if added.msg == AL.Full then AL.AddLast(AL.RemoveFirst(history).list, node).list
    else added.list
  }

  /** Remembering a record of two board squares keeps every record on the board. */
  lemma RememberKeepsValid(g: Game, node: AL.Node)
    requires Valid(g) && IsLegalMoveCoordinates(NodeMove(node))
    ensures Valid(g.(history := Remember(g.history, node)))
  {
    var items, r := AL.Items(g.history), AL.Items(Remember(g.history, node));
    forall i | 0 <= i < |r|
      ensures IsLegalMoveCoordinates(NodeMove(r[i]))
    {
      if i < |r| - 1 && |items| == g.history.maxSize {
        assert r[i] == items[i + 1];
      } else if i < |r| - 1 {
        assert r[i] == items[i];
      }
    }
  }

  /**
   * `spChessGameSetMove`: remember the move (dropping the oldest record when
   * the history is full), play it and pass the turn.
   */
  function SetMove(g: Game, m: Move): (r: Game)
    requires Valid(g) && IsLegalMoveCoordinates(m)
    ensures Valid(r) && r.history.maxSize == g.history.maxSize
    ensures r.board == ApplyMove(g.board, m) && r.currentPlayer == Opponent(g.currentPlayer)
    ensures var items := AL.Items(g.history);
            AL.Items(r.history) == (if |items| < g.history.maxSize then items else items[1..]) + [Record(g.board, m)]
    ensures r.(board := g.board, currentPlayer := g.currentPlayer, history := g.history) == g
  {
    var node := Record(g.board, m);
    RememberKeepsValid(g, node);
    ChangePlayer(g.(history := Remember(g.history, node), board := ApplyMove(g.board, m)))
  }

  /**
   * `spChessGameUndoPrevMove`: take back the newest remembered move, put the
   * captured glyph back and pass the turn; NO_HISTORY on an empty history.
   */
  function UndoPrevMove(g: Game): (r: (Message, Game))
    requires Valid(g)
    ensures Valid(r.1) && r.1.history.maxSize == g.history.maxSize
    ensures AL.Items(g.history) == [] ==> r == (NoHistory, g)
    ensures AL.Items(g.history) != [] ==>
              var items := AL.Items(g.history);
              var last := items[|items| - 1];
              && r.0 == Success
              && AL.Items(r.1.history) == items[..|items| - 1]
              && r.1.board == UndoMove(g.board, NodeMove(last), last.capturedPiece)
              && r.1.currentPlayer == Opponent(g.currentPlayer)
              && r.1.(board := g.board, currentPlayer := g.currentPlayer, history := g.history) == g
  {
    if g.history.actualSize == 0 then (NoHistory, g)
    else
      var last := AL.GetLast(g.history);
      var history := AL.RemoveLast(g.history).list;
      (Success, ChangePlayer(g.(history := history, board := UndoMove(g.board, NodeMove(last), last.capturedPiece))))
  }

  /**
   * Setting a move and undoing it restores the board and the side to move;
   * the history is back to its old contents unless it was full, in which
   * case the oldest record is gone.
   */
  lemma SetMoveUndoRoundTrip(g: Game, m: Move)
    requires Valid(g) && IsLegalMoveCoordinates(m)
    ensures var r := UndoPrevMove(SetMove(g, m));
            var items := AL.Items(g.history);
            && r.0 == Success
            && r.1.board == g.board && r.1.currentPlayer == g.currentPlayer
            && AL.Items(r.1.history) == (if |items| < g.history.maxSize then items else items[1..])
            && r.1.(history := g.history) == g
  {
    var s := SetMove(g, m);
    var items := AL.Items(s.history);
    assert items[|items| - 1] == Record(g.board, m);
    assert NodeMove(Record(g.board, m)) == Move(m.start, m.dest, false, false);
    UndoApplyRoundTrip(g.board, m);
  }

  datatype GameState = Winner(winner: Color) | Draw | Check | NotOver

  /**
   * `spChessGameGetState`: checkmate names the other side as winner, a side
   * with no move and no check is a draw, otherwise check or play on.
   */
  function GetState(g: Game): (r: GameState)
    ensures r == Winner(Opponent(g.currentPlayer)) <==>
              IsPlayerInCheck(g.board, g.currentPlayer) && !PlayerCanMove(g.board, g.currentPlayer)
    ensures r == Draw <==> !IsPlayerInCheck(g.board, g.currentPlayer) && !PlayerCanMove(g.board, g.currentPlayer)
    ensures r == Check <==> IsPlayerInCheck(g.board, g.currentPlayer) && PlayerCanMove(g.board, g.currentPlayer)
    ensures r == NotOver <==> !IsPlayerInCheck(g.board, g.currentPlayer) && PlayerCanMove(g.board, g.currentPlayer)
    ensures r != Winner(g.currentPlayer)
  {
    var inCheck := IsPlayerInCheck(g.board, g.currentPlayer);
    var hasMoves := DoesPlayerHaveValidMoves(g.board, g.currentPlayer);
    if inCheck && !hasMoves then Winner(Opponent(g.currentPlayer))
    else if !inCheck && !hasMoves then Draw
    else if inCheck then Check
    else NotOver
  }
}
