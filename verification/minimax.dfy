/**
 * The move-suggestion search: depth-limited minimax with alpha-beta
 * pruning over the game record, and the plain minimax value it is proved
 * to compute.
 */
module Minimax {
  import opened Wrappers
  import opened Board
  import opened Rules
  import opened Game

  /** The 32-bit `int` limits used as the search's infinities. */
  const IntMin: int := -0x8000_0000
  const IntMax: int := 0x7FFF_FFFF

  /** Scores of a finished game: mate by Black, mate by White, stalemate. */
  const MaxScore: int := 1000
  const MinScore: int := -1000
  const DrawScore: int := 0

  function Max(a: int, b: int): int {
    if a > b then a else b
  }

  function Min(a: int, b: int): int {
    if a < b then a else b
  }

  // ---------------------------------------------------------------------
  // The moves a node tries

  /** The lists `f` gives the squares from scan position `c` on, concatenated in scan order. */
  function Gather(f: Coord -> seq<Move>, c: Coord): (r: seq<Move>)
    requires ScanPos(c)
    ensures forall i | 0 <= i < |r| :: exists s :: IsLegalCoord(s) && ScanIndex(c) <= ScanIndex(s) && r[i] in f(s)
    decreases 64 - ScanIndex(c)
  {
    if !IsLegalCoord(c) then []
    else
      var rest := Gather(f, NextScan(c));
      assert forall i | 0 <= i < |rest| :: exists s :: IsLegalCoord(s) && ScanIndex(c) <= ScanIndex(s) && rest[i] in f(s);
      f(c) + rest
  }

  lemma {:induction false} GatherCovers(f: Coord -> seq<Move>, c: Coord, s: Coord)
    requires ScanPos(c) && IsLegalCoord(s) && ScanIndex(c) <= ScanIndex(s) && |f(s)| > 0
    ensures |Gather(f, c)| > 0
    decreases 64 - ScanIndex(c)
  {
    if c != s {
      GatherCovers(f, NextScan(c), s);
    }
  }

  /** The moves the search tries from square `c`: those of `color`'s piece there, none for other squares. */
  function SquareMoves(b: Board, color: Color): Coord -> seq<Move> {
    c => if IsLegalCoord(c) && ColorOf(At(b, c)) == Some(color) then GetMoves(b, c, false).moves else []
  }

  /** The moves a search node of `color` tries, in the order it tries them. */
  function NodeMoves(b: Board, color: Color): seq<Move> {
    Gather(SquareMoves(b, color), Coord(7, 0))
  }

  /** `m` is a legal, flag-free move of one of `color`'s pieces. */
  predicate Tried(b: Board, color: Color, m: Move) {
    && IsLegalMoveCoordinates(m) && m == PlainMove(m.start, m.dest)
    && ColorOf(At(b, m.start)) == Some(color)
    && MoveStatus(b, m) == LegalMove
  }

  lemma SquareMovesSound(b: Board, color: Color, s: Coord, j: nat)
    requires IsLegalCoord(s) && j < |SquareMoves(b, color)(s)|
    ensures Tried(b, color, SquareMoves(b, color)(s)[j])
  {
    var ms := GetMoves(b, s, false).moves;
    assert ms == SquareMoves(b, color)(s);
    assert ms[j] in ms;
    assert Enumerated(b, ms[j], false);
  }

  lemma NodeMovesSound(b: Board, color: Color)
    ensures forall m | m in NodeMoves(b, color) :: Tried(b, color, m)
  {
    forall m | m in NodeMoves(b, color)
      ensures Tried(b, color, m)
    {
      var i :| 0 <= i < |NodeMoves(b, color)| && NodeMoves(b, color)[i] == m;
      var s :| IsLegalCoord(s) && m in SquareMoves(b, color)(s);
      var j :| 0 <= j < |SquareMoves(b, color)(s)| && SquareMoves(b, color)(s)[j] == m;
      SquareMovesSound(b, color, s, j);
    }
  }

  lemma NodeMovesOnBoard(b: Board, color: Color)
    ensures forall i | 0 <= i < |NodeMoves(b, color)| :: IsLegalMoveCoordinates(NodeMoves(b, color)[i])
  {
    NodeMovesSound(b, color);
    forall i | 0 <= i < |NodeMoves(b, color)|
      ensures IsLegalMoveCoordinates(NodeMoves(b, color)[i])
    {
      assert Tried(b, color, NodeMoves(b, color)[i]);
    }
  }

  /** A node has something to try exactly when its side has a legal move. */
  lemma NodeMovesNonEmpty(b: Board, color: Color)
    ensures |NodeMoves(b, color)| > 0 <==> DoesPlayerHaveValidMoves(b, color)
  {
    var ms := NodeMoves(b, color);
    if |ms| > 0 {
      NodeMovesSound(b, color);
      assert Tried(b, color, ms[0]);
      assert MovesTo(b, ms[0].start, ms[0].dest, color);
    }
    if DoesPlayerHaveValidMoves(b, color) {
      var s, d :| IsLegalCoord(s) && IsLegalCoord(d) && MovesTo(b, s, d, color);
      assert d in Dests(GetMoves(b, s, false).moves);
      GatherCovers(SquareMoves(b, color), Coord(7, 0), s);
    }
  }

  // ---------------------------------------------------------------------
  // What the search asks of the rules

  /** The score of a side to move that has no legal move: mate for the other side, or a draw. */
  function Terminal(b: Board, color: Color): (r: int)
    ensures -MaxMaterial <= r <= MaxMaterial
    ensures r == DrawScore <==> !IsPlayerInCheck(b, color)
    ensures r == MaxScore <==> IsPlayerInCheck(b, color) && color == White
    ensures r == MinScore <==> IsPlayerInCheck(b, color) && color != White
  {
    if IsPlayerInCheck(b, color) then (if color == White then MaxScore else MinScore) else DrawScore
  }

  /**
   * The search's terminal score agrees with the game's verdict: when the
   * side to move has no legal move, the maximum means Black has mated, the
   * minimum that White has mated, and the draw score a stalemate.
   */
  lemma TerminalMatchesState(g: Game)
    requires Valid(g) && !DoesPlayerHaveValidMoves(g.board, g.currentPlayer)
    ensures Terminal(g.board, g.currentPlayer) == MaxScore <==> GetState(g) == Winner(Black)
    ensures Terminal(g.board, g.currentPlayer) == MinScore <==> GetState(g) == Winner(White)
    ensures Terminal(g.board, g.currentPlayer) == DrawScore <==> GetState(g) == Draw
  {
  }

  /** The score of a leaf: the material balance, which stays well inside `int`. */
  function Leaf(b: Board): (r: int)
    ensures -MaxMaterial <= r <= MaxMaterial
  {
    Score(b)
  }

  /**
   * What the search asks of the rules about a position: whether the side
   * to move has a legal move, what a finished game scores, what a leaf
   * scores, which moves a node tries and where a move leads; and what it
   * asks of the game record: to set a move on it and to take a move back
   * on a board.
   */
  datatype Queries = Queries(
    hasMoves: (Board, Color) -> bool,
    terminal: (Board, Color) -> int,
    leaf: Board -> int,
    moves: (Board, Color) -> seq<Move>,
    play: (Board, Move) -> Board,
    setMove: (Game, Move) -> Game,
    undo: (Board, Move, char) -> Board)

  /** What the search relies on in the answers: moves exactly when there are any, all on the board, scores within the material bound. */
  ghost predicate Sound(q: Queries) {
    && (forall b, c :: q.hasMoves(b, c) <==> |q.moves(b, c)| > 0)
    && (forall b, c :: OnBoard(q.moves(b, c)))
    && (forall b, c :: -MaxMaterial <= q.terminal(b, c) <= MaxMaterial)
    && (forall b :: -MaxMaterial <= q.leaf(b) <= MaxMaterial)
  }

  /**
   * What the search relies on in the record: setting a move keeps the
   * record valid, plays the move on its board and passes the turn, and
   * taking the move back with the glyph it removed restores the board.
   */
  ghost predicate Records(q: Queries) {
    && (forall g: Game, m: Move | Valid(g) && IsLegalMoveCoordinates(m) ::
          && Valid(q.setMove(g, m))
          && q.setMove(g, m).board == q.play(g.board, m)
          && q.setMove(g, m).currentPlayer == Opponent(g.currentPlayer))
    && (forall b: Board, m: Move | IsLegalMoveCoordinates(m) :: q.undo(q.play(b, m), m, At(b, m.dest)) == b)
  }

  /** The answers of the chess rules, as `spMiniMaxAlphaBeta` gets them from the game module. */
  const Chess: Queries := Queries(
    (b: Board, c: Color) => DoesPlayerHaveValidMoves(b, c),
    (b: Board, c: Color) => Terminal(b, c),
    (b: Board) => Leaf(b),
    (b: Board, c: Color) => NodeMoves(b, c),
    (b: Board, m: Move) => if IsLegalMoveCoordinates(m) then ApplyMove(b, m) else b,
    (g: Game, m: Move) => if Valid(g) && IsLegalMoveCoordinates(m) then SetMove(g, m) else g,
    (b: Board, m: Move, c: char) => if IsLegalMoveCoordinates(m) then UndoMove(b, m, c) else b)

  lemma ChessSound()
    ensures Sound(Chess) && Records(Chess)
  {
    forall b: Board, m: Move | IsLegalMoveCoordinates(m)
      ensures Chess.undo(Chess.play(b, m), m, At(b, m.dest)) == b
    {
      UndoApplyRoundTrip(b, m);
    }
    forall b, c
      ensures Chess.hasMoves(b, c) <==> |Chess.moves(b, c)| > 0
    {
      NodeMovesNonEmpty(b, c);
    }
    forall b, c
      ensures OnBoard(Chess.moves(b, c))
    {
      NodeMovesOnBoard(b, c);
    }
  }

  // ---------------------------------------------------------------------
  // The search as the program runs it

  /** What a search node reports: its score, the move it wrote back (if it wrote one) and the game record it leaves. */
  datatype Search = Search(score: int, best: Option<Move>, game: Game)

  /** The running state of a node's loop: its score, alpha, beta and best move so far. */
  datatype Window = Window(score: int, alpha: int, beta: int, best: Move)

  /** The move a node starts its loop with, before any child improves on it. */
  const NoBestYet: Move := Move(Coord(IntMin, IntMax), Coord(IntMin, IntMax), false, false)

  /** Every move names two squares on the board. */
  predicate OnBoard(moves: seq<Move>) {
    forall i | 0 <= i < |moves| :: IsLegalMoveCoordinates(moves[i])
  }

  /** A loop state at move `k`: the initial score before any move, afterwards a child's score and move. */
  predicate Started(isMax: bool, moves: seq<Move>, k: nat, w: Window) {
    (k == 0 && w.score == Identity(isMax)) || (-MaxMaterial <= w.score <= MaxMaterial && w.best in moves)
  }

  /** An open window inside the `int` range that the node's score has not passed. */
  predicate Open(isMax: bool, w: Window) {
    && IntMin <= w.alpha < w.beta <= IntMax
    && (isMax ==> w.score <= w.alpha)
    && (!isMax ==> w.beta <= w.score)
  }

  /** The score a max (min) node starts from: nothing is below (above) it. */
  function Identity(isMax: bool): int {
    if isMax then IntMin else IntMax
  }

  /** The better of two scores for a max or a min node. */
  function Join(isMax: bool, x: int, y: int): int {
    if isMax then Max(x, y) else Min(x, y)
  }

  /**
   * `update`: a max node keeps the larger score and raises alpha to it, a
   * min node keeps the smaller and lowers beta to it; the best move changes
   * only on a strict improvement.
   */
  function Update(w: Window, child: int, isMax: bool, m: Move): (r: Window)
    ensures r.score == Join(isMax, w.score, child)
    ensures isMax ==> r.alpha == Max(w.alpha, r.score) && r.beta == w.beta
    ensures !isMax ==> r.beta == Min(w.beta, r.score) && r.alpha == w.alpha
    ensures r.best == (if r.score != w.score then m else w.best)
  {
    var improves := (isMax && w.score < child) || (!isMax && child < w.score);
    var score := if improves then child else w.score;
    var best := if improves then m else w.best;
    if isMax then Window(score, if w.alpha > score then w.alpha else score, w.beta, best)
    else Window(score, w.alpha, if w.beta < score then w.beta else score, best)
  }

  /**
   * `spMiniMaxAlphaBeta`: a node without legal moves scores the mate or the
   * draw, a leaf scores the material, and an inner node plays each of its
   * moves on the record, searches the reply and takes the move back.
   */
  function AlphaBeta(q: Queries, g: Game, depth: nat, isMax: bool, a: int, b: int): (r: Search)
    requires Sound(q) && Records(q) && Valid(g)
    ensures Valid(r.game) && r.game.board == g.board && r.game.currentPlayer == g.currentPlayer
    ensures -MaxMaterial <= r.score <= MaxMaterial
    ensures r.best.Some? <==> q.hasMoves(g.board, g.currentPlayer) && depth > 0
    ensures r.best.Some? ==> r.best.value in q.moves(g.board, g.currentPlayer)
    decreases depth, 1
  {
    if !q.hasMoves(g.board, g.currentPlayer) then Search(q.terminal(g.board, g.currentPlayer), None, g)
    else if depth == 0 then Search(q.leaf(g.board), None, g)
    else Loop(q, g, depth, isMax, q.moves(g.board, g.currentPlayer), 0, Window(Identity(isMax), a, b, NoBestYet))
  }

  /** The loop of an inner node from its `k`-th move on. */
  function Loop(q: Queries, g: Game, depth: nat, isMax: bool, moves: seq<Move>, k: nat, w: Window): (r: Search)
    requires Sound(q) && Records(q) && Valid(g) && 1 <= depth && 0 < |moves| && k <= |moves|
    requires OnBoard(moves)
    requires Started(isMax, moves, k, w)
    ensures Valid(r.game) && r.game.board == g.board && r.game.currentPlayer == g.currentPlayer
    ensures -MaxMaterial <= r.score <= MaxMaterial && r.best.Some? && r.best.value in moves
    decreases depth, 0, |moves| - k
  {
    if k == |moves| then Search(w.score, Some(w.best), g)
    else
      assert IsLegalMoveCoordinates(moves[k]);
      var turn := Reply(q, g, depth, isMax, moves[k], w.alpha, w.beta);
      var w' := Update(w, turn.0, isMax, moves[k]);
      if w'.beta <= w'.alpha then Search(w'.score, Some(w'.best), turn.1)
      else Loop(q, turn.1, depth, isMax, moves, k + 1, w')
  }

  /**
   * One turn of an inner node's loop: play `m` on the record, search the
   * reply with the node's window, take `m` back (putting the captured glyph
   * back) and hand the turn back.
   */
  function Reply(q: Queries, g: Game, depth: nat, isMax: bool, m: Move, a: int, b: int): (r: (int, Game))
    requires Sound(q) && Records(q) && Valid(g) && 1 <= depth && IsLegalMoveCoordinates(m)
    ensures Valid(r.1) && r.1.board == g.board && r.1.currentPlayer == g.currentPlayer
    ensures -MaxMaterial <= r.0 <= MaxMaterial
    decreases depth - 1, 2
  {
    var removed := At(g.board, m.dest);
    var child := AlphaBeta(q, q.setMove(g, m), depth - 1, !isMax, a, b);
    (child.score, ChangePlayer(child.game.(board := q.undo(child.game.board, m, removed))))
  }

  // ---------------------------------------------------------------------
  // The same search on positions

  /** What a search node reports about a position: its score and the move it wrote back, if any. */
  datatype Outcome = Outcome(score: int, best: Option<Move>)

  /**
   * The search of `AlphaBeta` with the record left out: a child is searched
   * on the position the move leads to, with the other side to move.
   */
  function Evaluate(q: Queries, b: Board, color: Color, depth: nat, isMax: bool, alpha: int, beta: int): (r: Outcome)
    requires Sound(q)
    ensures -MaxMaterial <= r.score <= MaxMaterial
    ensures r.best.Some? <==> q.hasMoves(b, color) && depth > 0
    ensures r.best.Some? ==> r.best.value in q.moves(b, color)
    decreases depth, 1
  {
    if !q.hasMoves(b, color) then Outcome(q.terminal(b, color), None)
    else if depth == 0 then Outcome(q.leaf(b), None)
    else Scan(q, b, color, depth, isMax, q.moves(b, color), 0, Window(Identity(isMax), alpha, beta, NoBestYet))
  }

  /** The loop of `Evaluate` from the `k`-th move on. */
  function Scan(q: Queries, b: Board, color: Color, depth: nat, isMax: bool, moves: seq<Move>, k: nat, w: Window): (r: Outcome)
    requires Sound(q) && 1 <= depth && 0 < |moves| && k <= |moves|
    requires OnBoard(moves)
    requires Started(isMax, moves, k, w)
    ensures -MaxMaterial <= r.score <= MaxMaterial && r.best.Some? && r.best.value in moves
    decreases depth, 0, |moves| - k
  {
    if k == |moves| then Outcome(w.score, Some(w.best))
    else
      assert IsLegalMoveCoordinates(moves[k]);
      var child := Evaluate(q, q.play(b, moves[k]), Opponent(color), depth - 1, !isMax, w.alpha, w.beta);
      var w' := Update(w, child.score, isMax, moves[k]);
      if w'.beta <= w'.alpha then Outcome(w'.score, Some(w'.best))
      else Scan(q, b, color, depth, isMax, moves, k + 1, w')
  }

  /** What a search on the record reports, with the record dropped. */
  function Reported(s: Search): Outcome {
    Outcome(s.score, s.best)
  }

  /**
   * Playing the moves on the game record and taking them back gives the
   * search of the position alone: the history the record piles up plays no
   * part in the result.
   */
  lemma {:induction false} AlphaBetaOnPosition(q: Queries, g: Game, depth: nat, isMax: bool, a: int, b: int)
    requires Sound(q) && Records(q) && Valid(g)
    ensures Reported(AlphaBeta(q, g, depth, isMax, a, b)) == Evaluate(q, g.board, g.currentPlayer, depth, isMax, a, b)
    decreases depth, 1
  {
    if q.hasMoves(g.board, g.currentPlayer) && depth > 0 {
      LoopOnPosition(q, g, depth, isMax, q.moves(g.board, g.currentPlayer), 0, Window(Identity(isMax), a, b, NoBestYet));
    }
  }

  /** What the loop of a node on the record requires, in one place. */
  ghost predicate LoopState(q: Queries, g: Game, depth: nat, isMax: bool, moves: seq<Move>, k: nat, w: Window) {
    && Sound(q) && Records(q) && Valid(g) && 1 <= depth && 0 < |moves| && k <= |moves|
    && OnBoard(moves) && Started(isMax, moves, k, w)
  }

  lemma {:induction false} LoopOnPosition(q: Queries, g: Game, depth: nat, isMax: bool, moves: seq<Move>, k: nat, w: Window)
    requires LoopState(q, g, depth, isMax, moves, k, w)
    ensures Reported(Loop(q, g, depth, isMax, moves, k, w)) == Scan(q, g.board, g.currentPlayer, depth, isMax, moves, k, w)
    decreases depth, 0, |moves| - k, 1
  {
    if k < |moves| {
      assert IsLegalMoveCoordinates(moves[k]);
      var m := moves[k];
      ReplyOnPosition(q, g, depth, isMax, m, w.alpha, w.beta);
      var turn := Reply(q, g, depth, isMax, m, w.alpha, w.beta);
      var w' := Update(w, turn.0, isMax, m);
      if w'.alpha < w'.beta {
        LoopNextState(q, g, depth, isMax, moves, k, w);
        LoopContinueOnPosition(q, g, depth, isMax, moves, k, w, turn, w');
      } else {
        LoopCutoffOnPosition(q, g, depth, isMax, moves, k, w, turn, w');
      }
    }
  }

  /** After a bounded child score, the loop state at the next move is started. */
  lemma StartedNext(isMax: bool, moves: seq<Move>, k: nat, w: Window, c: int)
    requires k < |moves| && Started(isMax, moves, k, w) && -MaxMaterial <= c <= MaxMaterial
    ensures Started(isMax, moves, k + 1, Update(w, c, isMax, moves[k]))
  {
  }

  /** The record and window a turn hands on are a loop state at the next move. */
  lemma LoopNextState(q: Queries, g: Game, depth: nat, isMax: bool, moves: seq<Move>, k: nat, w: Window)
    requires LoopState(q, g, depth, isMax, moves, k, w) && k < |moves|
    ensures var turn := Reply(q, g, depth, isMax, moves[k], w.alpha, w.beta);
            LoopState(q, turn.1, depth, isMax, moves, k + 1, Update(w, turn.0, isMax, moves[k]))
  {
    var turn := Reply(q, g, depth, isMax, moves[k], w.alpha, w.beta);
    StartedNext(isMax, moves, k, w, turn.0);
  }

  /**
   * A turn that closes the window: when the child scores as its position
   * does, the loop stops where the scan does, with the same score and move.
   */
  lemma LoopCutoffOnPosition(q: Queries, g: Game, depth: nat, isMax: bool, moves: seq<Move>, k: nat, w: Window,
                             turn: (int, Game), w': Window)
    requires LoopState(q, g, depth, isMax, moves, k, w) && k < |moves|
    requires turn == Reply(q, g, depth, isMax, moves[k], w.alpha, w.beta) && w' == Update(w, turn.0, isMax, moves[k])
    requires turn.0 == Evaluate(q, q.play(g.board, moves[k]), Opponent(g.currentPlayer), depth - 1, !isMax, w.alpha, w.beta).score
    requires w'.beta <= w'.alpha
    ensures Reported(Loop(q, g, depth, isMax, moves, k, w)) == Scan(q, g.board, g.currentPlayer, depth, isMax, moves, k, w)
  {
  }

  /**
   * A turn that leaves the window open: when the child scores as its
   * position does, the rest of the loop matches the rest of the scan, and
   * so the loop matches the scan.
   */
  lemma {:induction false} LoopContinueOnPosition(q: Queries, g: Game, depth: nat, isMax: bool, moves: seq<Move>, k: nat, w: Window,
                               turn: (int, Game), w': Window)
    requires LoopState(q, g, depth, isMax, moves, k, w) && k < |moves|
    requires turn == Reply(q, g, depth, isMax, moves[k], w.alpha, w.beta) && w' == Update(w, turn.0, isMax, moves[k])
    requires turn.0 == Evaluate(q, q.play(g.board, moves[k]), Opponent(g.currentPlayer), depth - 1, !isMax, w.alpha, w.beta).score
    requires w'.alpha < w'.beta && LoopState(q, turn.1, depth, isMax, moves, k + 1, w')
    ensures Reported(Loop(q, g, depth, isMax, moves, k, w)) == Scan(q, g.board, g.currentPlayer, depth, isMax, moves, k, w)
    decreases depth, 0, |moves| - k, 0
  {
    LoopOnPosition(q, turn.1, depth, isMax, moves, k + 1, w');
    LoopAndScanGoOn(q, g, depth, isMax, moves, k, w, turn, w');
  }

  /** With the window left open, the loop and the scan both go on to the next move on the same position. */
  lemma LoopAndScanGoOn(q: Queries, g: Game, depth: nat, isMax: bool, moves: seq<Move>, k: nat, w: Window,
                        turn: (int, Game), w': Window)
    requires LoopState(q, g, depth, isMax, moves, k, w) && k < |moves|
    requires turn == Reply(q, g, depth, isMax, moves[k], w.alpha, w.beta) && w' == Update(w, turn.0, isMax, moves[k])
    requires turn.0 == Evaluate(q, q.play(g.board, moves[k]), Opponent(g.currentPlayer), depth - 1, !isMax, w.alpha, w.beta).score
    requires w'.alpha < w'.beta && LoopState(q, turn.1, depth, isMax, moves, k + 1, w')
    ensures turn.1.board == g.board && turn.1.currentPlayer == g.currentPlayer
    ensures Loop(q, g, depth, isMax, moves, k, w) == Loop(q, turn.1, depth, isMax, moves, k + 1, w')
    ensures Scan(q, g.board, g.currentPlayer, depth, isMax, moves, k, w) == Scan(q, g.board, g.currentPlayer, depth, isMax, moves, k + 1, w')
  {
  }

  /** One move played on the record and taken back scores as the child position does. */
  lemma {:induction false} ReplyOnPosition(q: Queries, g: Game, depth: nat, isMax: bool, m: Move, a: int, b: int)
    requires Sound(q) && Records(q) && Valid(g) && 1 <= depth && IsLegalMoveCoordinates(m)
    ensures Reply(q, g, depth, isMax, m, a, b).0 == Evaluate(q, q.play(g.board, m), Opponent(g.currentPlayer), depth - 1, !isMax, a, b).score
    decreases depth - 1, 2
  {
    AlphaBetaOnPosition(q, q.setMove(g, m), depth - 1, !isMax, a, b);
  }

  // ---------------------------------------------------------------------
  // The plain minimax value the search is measured against

  /**
   * The minimax value of `color` to move with `depth` plies left, without
   * pruning: the same terminal and leaf scores, and for an inner node the
   * best child value over all of its moves.
   */
  function Value(q: Queries, b: Board, color: Color, depth: nat, isMax: bool): (r: int)
    requires Sound(q)
    ensures -MaxMaterial <= r <= MaxMaterial
    decreases depth, 1
  {
    if !q.hasMoves(b, color) then q.terminal(b, color)
    else if depth == 0 then q.leaf(b)
    else Fold(q, b, color, depth, isMax, q.moves(b, color), 0, Identity(isMax))
  }

  /** `acc` joined with the values of the positions the moves `ms[k..]` lead to. */
  function Fold(q: Queries, b: Board, color: Color, depth: nat, isMax: bool, ms: seq<Move>, k: nat, acc: int): (r: int)
    requires Sound(q) && 1 <= depth && k <= |ms|
    requires OnBoard(ms)
    ensures isMax ==> acc <= r
    ensures !isMax ==> r <= acc
    ensures -MaxMaterial <= acc <= MaxMaterial || (k < |ms| && acc == Identity(isMax)) ==> -MaxMaterial <= r <= MaxMaterial
    decreases depth, 0, |ms| - k
  {
    if k == |ms| then acc
    else
      assert IsLegalMoveCoordinates(ms[k]);
      Fold(q, b, color, depth, isMax, ms, k + 1, Join(isMax, acc, ChildValue(q, b, color, depth, isMax, ms[k])))
  }

  /** The value of the position a move of an inner node leads to. */
  function ChildValue(q: Queries, b: Board, color: Color, depth: nat, isMax: bool, m: Move): int
    requires Sound(q) && 1 <= depth && IsLegalMoveCoordinates(m)
    decreases depth - 1, 2
  {
    Value(q, q.play(b, m), Opponent(color), depth - 1, !isMax)
  }

  /** Joining a score into the accumulator can be done before or after the fold. */
  lemma {:induction false} FoldAbsorbs(q: Queries, b: Board, color: Color, depth: nat, isMax: bool, ms: seq<Move>, k: nat, x: int, y: int)
    requires Sound(q) && 1 <= depth && k <= |ms|
    requires OnBoard(ms)
    ensures Fold(q, b, color, depth, isMax, ms, k, Join(isMax, x, y)) == Join(isMax, x, Fold(q, b, color, depth, isMax, ms, k, y))
    decreases |ms| - k
  {
    if k < |ms| {
      assert IsLegalMoveCoordinates(ms[k]);
      var v := ChildValue(q, b, color, depth, isMax, ms[k]);
      assert Join(isMax, Join(isMax, x, y), v) == Join(isMax, x, Join(isMax, y, v));
      FoldAbsorbs(q, b, color, depth, isMax, ms, k + 1, x, Join(isMax, y, v));
    }
  }

  /**
   * The fold from move `k` on, split into the accumulator, the value of
   * move `k` and the rest; and the same rest after another score `c`.
   */
  lemma FoldStep(q: Queries, b: Board, color: Color, depth: nat, isMax: bool, ms: seq<Move>, k: nat, p: int, c: int)
    requires Sound(q) && 1 <= depth && k < |ms|
    requires OnBoard(ms)
    requires IntMin <= p <= IntMax && IntMin <= c <= IntMax
    ensures IsLegalMoveCoordinates(ms[k])
    ensures var f := Fold(q, b, color, depth, isMax, ms, k + 1, Identity(isMax));
            && Fold(q, b, color, depth, isMax, ms, k, p)
               == Join(isMax, Join(isMax, p, ChildValue(q, b, color, depth, isMax, ms[k])), f)
            && Fold(q, b, color, depth, isMax, ms, k + 1, Join(isMax, p, c)) == Join(isMax, Join(isMax, p, c), f)
  {
    assert IsLegalMoveCoordinates(ms[k]);
    var vc := ChildValue(q, b, color, depth, isMax, ms[k]);
    FoldAbsorbs(q, b, color, depth, isMax, ms, k + 1, Join(isMax, p, vc), Identity(isMax));
    FoldAbsorbs(q, b, color, depth, isMax, ms, k + 1, Join(isMax, p, c), Identity(isMax));
    assert Join(isMax, Join(isMax, p, vc), Identity(isMax)) == Join(isMax, p, vc);
    assert Join(isMax, Join(isMax, p, c), Identity(isMax)) == Join(isMax, p, c);
  }

  // ---------------------------------------------------------------------
  // Alpha-beta computes the minimax value

  /**
   * The fail-soft guarantee of an alpha-beta search with window (a, b)
   * against the true value `v`: a result at or below alpha is an upper
   * bound, one at or above beta is a lower bound, and one strictly inside
   * the window is exact.
   */
  predicate FailSoft(r: int, v: int, a: int, b: int) {
    && (r <= a ==> v <= r)
    && (r >= b ==> v >= r)
    && (a < r < b ==> r == v)
  }

  lemma MaxCutoff(p: int, c: int, vc: int, f: int, a: int, b: int)
    requires p <= a < b && FailSoft(c, vc, a, b) && Max(a, Max(p, c)) >= b
    ensures FailSoft(Max(p, c), Max(Max(p, vc), f), a, b)
  {
  }

  lemma MaxContinue(p: int, c: int, vc: int, f: int, a: int, b: int, r: int)
    requires p <= a < b && FailSoft(c, vc, a, b) && Max(a, Max(p, c)) < b
    requires FailSoft(r, Max(Max(p, c), f), Max(a, Max(p, c)), b)
    ensures FailSoft(r, Max(Max(p, vc), f), a, b)
  {
  }

  lemma MinCutoff(p: int, c: int, vc: int, f: int, a: int, b: int)
    requires a < b <= p && FailSoft(c, vc, a, b) && Min(b, Min(p, c)) <= a
    ensures FailSoft(Min(p, c), Min(Min(p, vc), f), a, b)
  {
  }

  lemma MinContinue(p: int, c: int, vc: int, f: int, a: int, b: int, r: int)
    requires a < b <= p && FailSoft(c, vc, a, b) && a < Min(b, Min(p, c))
    requires FailSoft(r, Min(Min(p, c), f), a, Min(b, Min(p, c)))
    ensures FailSoft(r, Min(Min(p, vc), f), a, b)
  {
  }

  /** One turn of a loop, cut off or not, keeps it fail-soft against what is left to fold. */
  lemma TurnFailSoft(isMax: bool, w: Window, c: int, vc: int, f: int, m: Move, r: int)
    requires Open(isMax, w)
    requires FailSoft(c, vc, w.alpha, w.beta)
    requires var w' := Update(w, c, isMax, m);
             if w'.beta <= w'.alpha then r == w'.score
             else FailSoft(r, Join(isMax, w'.score, f), w'.alpha, w'.beta)
    ensures FailSoft(r, Join(isMax, Join(isMax, w.score, vc), f), w.alpha, w.beta)
  {
    var w' := Update(w, c, isMax, m);
    if w'.beta <= w'.alpha {
      if isMax {
        MaxCutoff(w.score, c, vc, f, w.alpha, w.beta);
      } else {
        MinCutoff(w.score, c, vc, f, w.alpha, w.beta);
      }
    } else if isMax {
      MaxContinue(w.score, c, vc, f, w.alpha, w.beta, r);
    } else {
      MinContinue(w.score, c, vc, f, w.alpha, w.beta, r);
    }
  }

  /** After a turn without cut-off the window is still open and the score is a child's. */
  lemma UpdateWindow(isMax: bool, w: Window, c: int, m: Move, moves: seq<Move>, k: nat)
    requires Open(isMax, w)
    requires -MaxMaterial <= c <= MaxMaterial && m in moves
    requires Started(isMax, moves, k, w)
    requires Update(w, c, isMax, m).alpha < Update(w, c, isMax, m).beta
    ensures Open(isMax, Update(w, c, isMax, m)) && Started(isMax, moves, k + 1, Update(w, c, isMax, m))
  {
  }

  /** What the loop of `Evaluate` requires, with an open window, in one place. */
  ghost predicate ScanState(q: Queries, depth: nat, isMax: bool, moves: seq<Move>, k: nat, w: Window) {
    && Sound(q) && 1 <= depth && 0 < |moves| && k <= |moves|
    && OnBoard(moves) && Started(isMax, moves, k, w) && Open(isMax, w)
  }

  /** A loop is fail-soft against its score joined with the values of the moves it has left. */
  lemma {:induction false} ScanFailSoft(q: Queries, b: Board, color: Color, depth: nat, isMax: bool, moves: seq<Move>, k: nat, w: Window)
    requires ScanState(q, depth, isMax, moves, k, w)
    ensures FailSoft(Scan(q, b, color, depth, isMax, moves, k, w).score, Fold(q, b, color, depth, isMax, moves, k, w.score),
                     w.alpha, w.beta)
    decreases depth, 0, |moves| - k, 1
  {
    if k < |moves| {
      assert IsLegalMoveCoordinates(moves[k]);
      var m := moves[k];
      EvaluateFailSoft(q, q.play(b, m), Opponent(color), depth - 1, !isMax, w.alpha, w.beta);
      var c := Evaluate(q, q.play(b, m), Opponent(color), depth - 1, !isMax, w.alpha, w.beta).score;
      var w' := Update(w, c, isMax, m);
      if w'.alpha < w'.beta {
        UpdateWindow(isMax, w, c, m, moves, k);
        ScanContinueFailSoft(q, b, color, depth, isMax, moves, k, w, c, w');
      } else {
        ScanCutoffFailSoft(q, b, color, depth, isMax, moves, k, w, c, w');
      }
    }
  }

  /** A turn whose child is fail-soft and that closes the window leaves the loop fail-soft. */
  lemma ScanCutoffFailSoft(q: Queries, b: Board, color: Color, depth: nat, isMax: bool, moves: seq<Move>, k: nat, w: Window,
                           c: int, w': Window)
    requires ScanState(q, depth, isMax, moves, k, w) && k < |moves|
    requires c == Evaluate(q, q.play(b, moves[k]), Opponent(color), depth - 1, !isMax, w.alpha, w.beta).score
    requires FailSoft(c, ChildValue(q, b, color, depth, isMax, moves[k]), w.alpha, w.beta)
    requires w' == Update(w, c, isMax, moves[k]) && w'.beta <= w'.alpha
    ensures FailSoft(Scan(q, b, color, depth, isMax, moves, k, w).score, Fold(q, b, color, depth, isMax, moves, k, w.score),
                     w.alpha, w.beta)
  {
    FoldStep(q, b, color, depth, isMax, moves, k, w.score, c);
    assert Scan(q, b, color, depth, isMax, moves, k, w).score == w'.score;
    TurnFailSoft(isMax, w, c, ChildValue(q, b, color, depth, isMax, moves[k]),
                 Fold(q, b, color, depth, isMax, moves, k + 1, Identity(isMax)), moves[k], w'.score);
  }

  /**
   * A turn whose child is fail-soft and that leaves the window open: the
   * rest of the loop is fail-soft with the narrowed window, and so the loop
   * is fail-soft with its own.
   */
  lemma {:induction false} ScanContinueFailSoft(q: Queries, b: Board, color: Color, depth: nat, isMax: bool, moves: seq<Move>,
                                                k: nat, w: Window, c: int, w': Window)
    requires ScanState(q, depth, isMax, moves, k, w) && k < |moves|
    requires c == Evaluate(q, q.play(b, moves[k]), Opponent(color), depth - 1, !isMax, w.alpha, w.beta).score
    requires FailSoft(c, ChildValue(q, b, color, depth, isMax, moves[k]), w.alpha, w.beta)
    requires w' == Update(w, c, isMax, moves[k]) && w'.alpha < w'.beta
    requires ScanState(q, depth, isMax, moves, k + 1, w')
    ensures FailSoft(Scan(q, b, color, depth, isMax, moves, k, w).score, Fold(q, b, color, depth, isMax, moves, k, w.score),
                     w.alpha, w.beta)
    decreases depth, 0, |moves| - k, 0
  {
    ScanFailSoft(q, b, color, depth, isMax, moves, k + 1, w');
    ScanGoesOn(q, b, color, depth, isMax, moves, k, w, c, w');
    ContinueFold(q, b, color, depth, isMax, moves, k, w, c, w', Scan(q, b, color, depth, isMax, moves, k + 1, w').score);
  }

  /** A score fail-soft against the rest of the fold, with the narrowed window, is fail-soft against the whole fold. */
  lemma ContinueFold(q: Queries, b: Board, color: Color, depth: nat, isMax: bool, moves: seq<Move>,
                     k: nat, w: Window, c: int, w': Window, r: int)
    requires ScanState(q, depth, isMax, moves, k, w) && k < |moves|
    requires c == Evaluate(q, q.play(b, moves[k]), Opponent(color), depth - 1, !isMax, w.alpha, w.beta).score
    requires FailSoft(c, ChildValue(q, b, color, depth, isMax, moves[k]), w.alpha, w.beta)
    requires w' == Update(w, c, isMax, moves[k]) && w'.alpha < w'.beta
    requires FailSoft(r, Fold(q, b, color, depth, isMax, moves, k + 1, w'.score), w'.alpha, w'.beta)
    ensures FailSoft(r, Fold(q, b, color, depth, isMax, moves, k, w.score), w.alpha, w.beta)
  {
    FoldStep(q, b, color, depth, isMax, moves, k, w.score, c);
    TurnFailSoft(isMax, w, c, ChildValue(q, b, color, depth, isMax, moves[k]),
                 Fold(q, b, color, depth, isMax, moves, k + 1, Identity(isMax)), moves[k], r);
  }

  /** With the window left open, the scan goes on to the next move. */
  lemma ScanGoesOn(q: Queries, b: Board, color: Color, depth: nat, isMax: bool, moves: seq<Move>, k: nat, w: Window,
                   c: int, w': Window)
    requires ScanState(q, depth, isMax, moves, k, w) && k < |moves|
    requires c == Evaluate(q, q.play(b, moves[k]), Opponent(color), depth - 1, !isMax, w.alpha, w.beta).score
    requires w' == Update(w, c, isMax, moves[k]) && w'.alpha < w'.beta
    requires ScanState(q, depth, isMax, moves, k + 1, w')
    ensures Scan(q, b, color, depth, isMax, moves, k, w) == Scan(q, b, color, depth, isMax, moves, k + 1, w')
  {
  }

  /** Alpha-beta with a window inside the `int` range is fail-soft against the minimax value. */
  lemma {:induction false} EvaluateFailSoft(q: Queries, b: Board, color: Color, depth: nat, isMax: bool, alpha: int, beta: int)
    requires Sound(q) && IntMin <= alpha < beta <= IntMax
    ensures FailSoft(Evaluate(q, b, color, depth, isMax, alpha, beta).score, Value(q, b, color, depth, isMax), alpha, beta)
    decreases depth, 1
  {
    if q.hasMoves(b, color) && depth > 0 {
      ScanFailSoft(q, b, color, depth, isMax, q.moves(b, color), 0, Window(Identity(isMax), alpha, beta, NoBestYet));
    }
  }

  /** Searched with the full `int` window, as the program does at the root, alpha-beta returns the minimax value. */
  lemma AlphaBetaIsMinimax(q: Queries, g: Game, depth: nat, isMax: bool)
    requires Sound(q) && Records(q) && Valid(g)
    ensures AlphaBeta(q, g, depth, isMax, IntMin, IntMax).score == Value(q, g.board, g.currentPlayer, depth, isMax)
  {
    AlphaBetaOnPosition(q, g, depth, isMax, IntMin, IntMax);
    EvaluateFailSoft(q, g.board, g.currentPlayer, depth, isMax, IntMin, IntMax);
  }

  // ---------------------------------------------------------------------
  // The move the root writes back

  /**
   * The window of a root searched with the full `int` window: a max root
   * keeps alpha at its score and never lowers beta, a min root the other
   * way round.
   */
  predicate RootWindow(isMax: bool, w: Window) {
    && (isMax ==> w.alpha == w.score && w.beta == IntMax)
    && (!isMax ==> w.beta == w.score && w.alpha == IntMin)
  }

  /** Before any move the score is the identity; afterwards the best move's value is the score. */
  ghost predicate BestScored(q: Queries, b: Board, color: Color, depth: nat, isMax: bool, moves: seq<Move>, w: Window)
    requires Sound(q) && 1 <= depth && OnBoard(moves)
  {
    w.score == Identity(isMax)
    || (exists i | 0 <= i < |moves| :: moves[i] == w.best && ChildValue(q, b, color, depth, isMax, moves[i]) == w.score)
  }

  /**
   * The root loop never cuts off, and the move it writes back is worth
   * exactly the score it returns.
   */
  lemma {:induction false} ScanBest(q: Queries, b: Board, color: Color, depth: nat, isMax: bool, moves: seq<Move>, k: nat, w: Window)
    requires ScanState(q, depth, isMax, moves, k, w) && RootWindow(isMax, w)
    requires BestScored(q, b, color, depth, isMax, moves, w)
    ensures var r := Scan(q, b, color, depth, isMax, moves, k, w);
            ChildValue(q, b, color, depth, isMax, r.best.value) == r.score
    decreases |moves| - k
  {
    if k < |moves| {
      assert IsLegalMoveCoordinates(moves[k]);
      var m := moves[k];
      EvaluateFailSoft(q, q.play(b, m), Opponent(color), depth - 1, !isMax, w.alpha, w.beta);
      var c := Evaluate(q, q.play(b, m), Opponent(color), depth - 1, !isMax, w.alpha, w.beta).score;
      var w' := Update(w, c, isMax, m);
      RootTurn(q, b, color, depth, isMax, moves, k, w, c, w');
      ScanBest(q, b, color, depth, isMax, moves, k + 1, w');
      ScanGoesOn(q, b, color, depth, isMax, moves, k, w, c, w');
    } else {
      var i :| 0 <= i < |moves| && moves[i] == w.best && ChildValue(q, b, color, depth, isMax, moves[i]) == w.score;
    }
  }

  /** One turn of the root loop keeps its window open and its best move worth its score. */
  lemma RootTurn(q: Queries, b: Board, color: Color, depth: nat, isMax: bool, moves: seq<Move>, k: nat, w: Window,
                 c: int, w': Window)
    requires ScanState(q, depth, isMax, moves, k, w) && RootWindow(isMax, w) && k < |moves|
    requires BestScored(q, b, color, depth, isMax, moves, w)
    requires c == Evaluate(q, q.play(b, moves[k]), Opponent(color), depth - 1, !isMax, w.alpha, w.beta).score
    requires FailSoft(c, ChildValue(q, b, color, depth, isMax, moves[k]), w.alpha, w.beta)
    requires w' == Update(w, c, isMax, moves[k])
    ensures w'.alpha < w'.beta && ScanState(q, depth, isMax, moves, k + 1, w') && RootWindow(isMax, w')
    ensures BestScored(q, b, color, depth, isMax, moves, w')
  {
    UpdateWindow(isMax, w, c, moves[k], moves, k);
    if w'.score != w.score {
      assert ChildValue(q, b, color, depth, isMax, moves[k]) == w'.score;
    }
  }

  /**
   * Searched with the full `int` window, a node that has moves and depth
   * writes back one of its moves whose value is the node's minimax value.
   */
  lemma EvaluateBest(q: Queries, b: Board, color: Color, depth: nat, isMax: bool)
    requires Sound(q) && 1 <= depth && q.hasMoves(b, color)
    ensures var r := Evaluate(q, b, color, depth, isMax, IntMin, IntMax);
            && r.best.Some? && r.best.value in q.moves(b, color)
            && ChildValue(q, b, color, depth, isMax, r.best.value) == Value(q, b, color, depth, isMax)
  {
    var moves := q.moves(b, color);
    var w := Window(Identity(isMax), IntMin, IntMax, NoBestYet);
    ScanBest(q, b, color, depth, isMax, moves, 0, w);
    EvaluateFailSoft(q, b, color, depth, isMax, IntMin, IntMax);
  }

  // ---------------------------------------------------------------------
  // The entry points

  /** What `spMiniMax` leaves in its result when the root writes no move back. */
  const NoMove: Move := Move(Coord(-1, -1), Coord(-1, -1), false, false)

  /** What `spMinimaxSuggestMove` answers for a missing game or a zero depth (the -1 flags read as true). */
  const Refused: Move := Move(Coord(-1, -1), Coord(-1, -1), true, true)

  /** The root of a search is a max node when Black is to move: the score counts in Black's favour. */
  function RootIsMax(g: Game): bool {
    g.currentPlayer == Black
  }

  /**
   * `spMiniMax`: search a copy of the game with the full `int` window; the
   * move the root writes back is the answer, or nothing when the side to
   * move has no legal move or there is no depth to search.
   */
  function SpMiniMax(g: Game, depth: nat): (r: Move)
    requires Valid(g)
    ensures r == NoMove <==> depth == 0 || !DoesPlayerHaveValidMoves(g.board, g.currentPlayer)
    ensures r != NoMove ==> r in NodeMoves(g.board, g.currentPlayer) && IsValidMove(g, r) == LegalMove
  {
    ChessSound();
    var s := AlphaBeta(Chess, Copy(g), depth, RootIsMax(g), IntMin, IntMax);
    if s.best.Some? then
      RootMoveLegal(g, s.best.value);
      s.best.value
    else NoMove
  }

  /** A move the search of `g`'s position may try is one `spChessGameIsValidMove` accepts. */
  lemma RootMoveLegal(g: Game, m: Move)
    requires m in NodeMoves(g.board, g.currentPlayer)
    ensures IsValidMove(g, m) == LegalMove && m != NoMove
  {
    NodeMovesSound(g.board, g.currentPlayer);
    MoveStatusClassification(g.board, m);
  }

  /**
   * The suggested move is optimal: the position it leads to has the
   * minimax value of the current position, searched to the same depth.
   */
  lemma SpMiniMaxOptimal(g: Game, depth: nat)
    requires Valid(g) && SpMiniMax(g, depth) != NoMove
    ensures && Sound(Chess) && 1 <= depth && IsLegalMoveCoordinates(SpMiniMax(g, depth))
            && ChildValue(Chess, g.board, g.currentPlayer, depth, RootIsMax(g), SpMiniMax(g, depth))
               == Value(Chess, g.board, g.currentPlayer, depth, RootIsMax(g))
  {
    ChessSound();
    var c := Copy(g);
    AlphaBetaOnPosition(Chess, c, depth, RootIsMax(g), IntMin, IntMax);
    EvaluateBest(Chess, g.board, g.currentPlayer, depth, RootIsMax(g));
  }

  /**
   * `spMinimaxSuggestMove`: refuse a missing game or a zero depth, otherwise
   * the move `spMiniMax` finds.
   */
  function SuggestMove(g: Option<Game>, maxDepth: nat): (r: Move)
    requires g.Some? ==> Valid(g.value)
    ensures r == Refused <==> g.None? || maxDepth == 0
    ensures r == NoMove <==> g.Some? && maxDepth > 0 && !DoesPlayerHaveValidMoves(g.value.board, g.value.currentPlayer)
    ensures r != Refused && r != NoMove ==> IsValidMove(g.value, r) == LegalMove
  {
    if g.None? || maxDepth == 0 then Refused
    else SpMiniMax(g.value, maxDepth)
  }
}
