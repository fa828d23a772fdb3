# Chess engine core, modelled in Dafny

This project models the core of a two-player C chess engine:

- the bounded move-history list (`SPArrayList.c`);
- the board and game state with its move, undo and state queries (`SPChessGame.c`);
- the rule engine: per-piece move shapes, obstruction, the self-check gate, check detection, and move listing in the engine's scan order (`SPChessGame.c`);
- the alpha-beta minimax search and the move suggestion built on it (`SPMinimaxNode.c`, `SPMinimax.c`);
- the command-line parser (`Parser.c`);
- the settings setters and the save/load text format (`SPChessGameSettings.c`);
- the settings menu that reads commands until `start` or `quit` (`Settings.c`).

Everything is written as pure functions over immutable values.

- A board is eight rows of eight glyphs: `_` is empty, upper case is black and lower case is white, as in the source.
- A game carries the board, the side to move, the settings, the two flags and its history list.
- The history list keeps its whole backing store, so stale slots stay visible.
- The two loops that shift the store are also written as array methods. Each is proved equal to its functional reference.

The search is written once, over a record of the queries it makes: moves, play, undo, score and state. It is then instantiated with the chess rules. Two facts are proved about it:

- with the full window, alpha-beta returns the plain minimax value;
- the move it reports reaches that value and is legal for the side to move.

The modules follow the source files:

| module | models |
|---|---|
| `Wrappers` | `Option` |
| `Tokens` | `strtok` scanning |
| `Board` | glyphs, coordinates, the initial board and the material score |
| `ArrayList` | the history list |
| `Rules` | legality, check, move listing |
| `Game` | game state |
| `Minimax` | the search |
| `Parser` | command lines |
| `GameSettings` | settings, save and load |
| `SettingsMenu` | the settings menu |

## Model

| member | source | states |
|---|---|---|
| ArrayList.Create | SPArrayList.c:17-33 | creation fails exactly when the capacity is not positive; otherwise the list is empty with that capacity |
| ArrayList.Copy | SPArrayList.c:35-48 | the copy holds the same items in the same order with the same capacity |
| ArrayList.Clear | SPArrayList.c:57-63 | clearing succeeds and leaves no items, capacity unchanged |
| ArrayList.AddAt | SPArrayList.c:65-81 | an index outside 0..size is an invalid argument, a full list reports full and is unchanged, otherwise the item is inserted at the index and the rest keep their order |
| ArrayList.AddFirst | SPArrayList.c:83-85 | the item becomes the first element when there is room |
| ArrayList.AddLast | SPArrayList.c:87-89 | the item becomes the last element when there is room |
| ArrayList.RemoveAt | SPArrayList.c:91-106 | never reports empty; an index outside 0..size-1 (including any index of an empty list) is an invalid argument; otherwise exactly that item is removed |
| ArrayList.RemoveFirst | SPArrayList.c:108-110 | removes the first item, invalid argument on an empty list |
| ArrayList.RemoveLast | SPArrayList.c:112-114 | removes the last item, invalid argument on an empty list |
| ArrayList.GetAt | SPArrayList.c:116-121 | an index past the size yields the sentinel; index == size < capacity reads the stale slot; a full list read at its size yields nothing |
| ArrayList.GetFirst | SPArrayList.c:123-128 | the first item, or the sentinel on an empty list |
| ArrayList.GetLast | SPArrayList.c:130-135 | the last item, or the sentinel on an empty list |
| ArrayList.MaxCapacity | SPArrayList.c:137-139 | the capacity the list was created with |
| ArrayList.Size | SPArrayList.c:141-143 | the number of items |
| ArrayList.IsFull | SPArrayList.c:145-150 | full exactly when the size reaches the capacity |
| ArrayList.IsEmpty | SPArrayList.c:152-157 | empty exactly when there are no items |
| ArrayList.InsertedStore | SPArrayList.c:65-81 | shifting the store right from the index inserts the item there and leaves the prefix alone |
| ArrayList.RemovedStore | SPArrayList.c:91-106 | shifting the store left from the index drops exactly that item |
| ArrayList.ShiftRight | SPArrayList.c:75-77 | the right-shift loop moves every slot from the index up by one |
| ArrayList.ShiftingAddAt | SPArrayList.c:65-81 | the array implementation of insertion agrees with the functional reference |
| ArrayList.ShiftLeft | SPArrayList.c:100-102 | the left-shift loop moves every slot after the index down by one |
| ArrayList.ShiftingRemoveAt | SPArrayList.c:91-106 | the array implementation of removal agrees with the functional reference |
| Board.ColorOf | SPChessGame.c:1355-1360 | only the empty glyph has no colour; a glyph is white exactly when it is lower case |
| Board.TypeOf | SPChessGame.c:1392-1409 | a glyph of any type other than blank is exactly the white or the black piece of that type |
| Board.CreatePiece | SPChessGame.c:146-174 | a blank of either colour is the empty glyph and only a blank is; any other piece has the requested colour |
| Board.CreatePieceRoundTrip | SPChessGame.c:146-174 | a created piece reads back with the requested type and colour |
| Board.RowRoundTrip | SPChessGame.c:107-127 | rank digits '1'..'8' and row indices convert into each other and back |
| Board.ColumnRoundTrip | SPChessGame.c:116-136 | file letters 'A'..'H' and column indices convert into each other and back |
| Board.ApplyMove | SPChessGame.c:183-186 | the moving piece lands on the destination, the start becomes empty and no other square changes |
| Board.UndoMove | SPChessGame.c:440-444 | the piece on the destination goes back to the start, the destination gets the remembered captured glyph, and no other square changes |
| Board.UndoApplyRoundTrip | SPChessGame.c:440-444 | undoing a move with the piece it captured restores the board exactly |
| Board.InitialBoard | SPChessGame.c:191-248 | the starting layout: black back rank and pawns on rows 0-1, four empty rows, white pawns and back rank on rows 6-7 |
| Board.PieceScore | SPChessGame.c:1439-1458 | every piece is worth 0..100 and an empty square nothing |
| Board.Score | SPChessGame.c:1470-1486 | the material score of any board lies within plus or minus 6400 |
| Board.ScoreUpdate | SPChessGame.c:1470-1486 | changing one square changes the score by the signed value difference of that square alone |
| Board.ScoreAfterMove | SPChessGame.c:1470-1486 | after a move the score drops by exactly the signed value of the captured piece |
| Rules.PathClear | SPChessGame.c:1229-1284 | the scan is true exactly when every on-board square strictly between start and destination is empty |
| Rules.FindKingFrom | SPChessGame.c:573-587 | the row-major scan finds the first king of that colour from the given square on, or none when there is none |
| Rules.FindKingLocation | SPChessGame.c:573-587 | no location exactly when the board has no king of that colour; otherwise the square holds that king |
| Rules.DoesMoveCapturePiece | SPChessGame.c:482-487 | a move captures exactly when it goes to another, occupied square and, once played, changes the colour standing on that square |
| Rules.RaySees | SPChessGame.c:601-712 | walking one direction from the king, the first occupied square is reported when it holds one of the two sought pieces |
| Rules.ThreatenedByQueenRookBishop | SPChessGame.c:601-712 | true exactly when an enemy queen, rook or bishop on a line it moves along sees the king over empty squares |
| Rules.AnyAt | SPChessGame.c:768-796 | an attack sweep over a list of offsets is true exactly when some offset lands on the board on the sought piece |
| Rules.AnyAtSquares | SPChessGame.c:768-796 | the offset sweep finds the sought piece exactly when some on-board square at one of the offsets holds it |
| Rules.ThreatenedByKnightAsWritten | SPChessGame.c:726-754 | the sweep as written sees an enemy knight a knight's move away, except on the two squares two columns to the king's right |
| Rules.ThreatenedByKnight | SPChessGame.c:726-754 | corrected table: true exactly when an enemy knight stands a knight's move away |
| Rules.ThreatenedByKing | SPChessGame.c:768-796 | true exactly when the enemy king stands on one of the eight neighbouring squares |
| Rules.ThreatenedByPawn | SPChessGame.c:810-844 | true exactly when an enemy pawn stands one row away on its own capturing side and one column off |
| Rules.KingThreatened | SPChessGame.c:858-877 | the square is threatened exactly when some enemy piece attacks it by line, knight jump (with the as-written blind spot), king step or pawn capture |
| Rules.IsPlayerInCheck | SPChessGame.c:889-900 | a player without a king counts as in check; otherwise the player is in check exactly when some enemy piece attacks the first king found |
| Rules.WouldCauseCheck | SPChessGame.c:1012-1019 | the answer is whether the player is in check after the move, and the board is handed back unchanged |
| Rules.IsValidMoveGeneric | SPChessGame.c:1229-1284 | invalid argument off the board; otherwise legal, king-will-be-threatened or invalid exactly by the obstruction-and-capture test and whether the move exposes the king |
| Rules.IsValidMoveRook | SPChessGame.c:1035-1048 | legal exactly when the move is straight, passes the generic test and keeps the king safe; king-will-be-threatened exactly when it would expose the king |
| Rules.IsValidMoveBishop | SPChessGame.c:1064-1074 | the same for a diagonal move |
| Rules.IsValidMoveKing | SPChessGame.c:1090-1099 | the same for a one-square step |
| Rules.IsValidMoveKnight | SPChessGame.c:1115-1125 | the same for a knight's jump |
| Rules.IsValidMovePawn | SPChessGame.c:1141-1181 | the same for a pawn step, double step from the home rank, or diagonal capture |
| Rules.IsValidMoveQueen | SPChessGame.c:1197-1208 | the same for a straight or diagonal move |
| Rules.MoveStatus | SPChessGame.c:501-534 | invalid argument exactly for off-board coordinates; not-your-piece exactly when the start square holds no piece type (empty or an unrecognised glyph) |
| Rules.MoveStatusClassification | SPChessGame.c:501-534 | the status of a move: invalid argument off the board, not-your-piece exactly when the start square holds no piece type (empty or an unrecognised glyph), legal exactly when the shape, path and self-check tests all pass, and the two failure codes exactly in their cases |
| Rules.PawnMoves | SPChessGame.c:1141-1181 | a legal pawn move is a single step onto an empty square, a double step from the home rank over two empty squares, or a diagonal capture of an enemy piece |
| Rules.PawnShapeAndPath | SPChessGame.c:1141-1181 | a pawn move of pawn shape whose path and target pass the generic test is one of the three pawn cases, with the squares it passes over empty |
| Rules.KnightSweepIgnoresRightJumps | SPChessGame.c:726-754 | the knight sweep as written is blind to an enemy knight one row off and two columns to the right; the corrected sweep sees it |
| Rules.CanPlayerMoveToFrom | SPChessGame.c:547-562 | the scan from a square on is true exactly when some piece of the player at or after it can legally move to the target |
| Rules.CanPlayerMoveTo | SPChessGame.c:547-562 | the scan answers whether any piece of the player can legally move to the target |
| Rules.ScanReaches | SPChessGame.c:547-562 | the full row-major scan is true exactly when some piece of the player reaches the target |
| Rules.FlagMove | SPChessGame.c:1286-1323 | the captures flag is computed on the board before the move; the threatened flag asks, on the board after the move, whether the opponent can reach the destination; the board is handed back unchanged |
| Rules.ScanFilter | SPChessGame.c:1286-1323 | the destinations kept by the scan are legal, on the board and not before the scan position |
| Rules.ScanMoves | SPChessGame.c:1286-1323 | the move list from a square has exactly the legal destinations in scan order, each with correct flags |
| Rules.ScanFilterSorted | SPChessGame.c:1286-1323 | destinations come out in the engine's scan order, each once |
| Rules.ScanFilterComplete | SPChessGame.c:1286-1323 | every legal destination at or after the scan position is listed |
| Rules.GetMoves | SPChessGame.c:1286-1323 | off-board squares and empty squares get their error codes; otherwise the list contains exactly the legal destinations, in scan order, with flags right |
| Rules.NoMovesListed | SPChessGame.c:912-928 | a square whose listing is empty has no legal move for the player |
| Rules.HasMovesAt | SPChessGame.c:912-928 | a square's listing is non-empty exactly when a piece of the player there has a legal move |
| Rules.HasValidMovesFrom | SPChessGame.c:912-928 | the scan from a square on is true exactly when some piece there or later has a legal move |
| Rules.PlayerCanMoveBySquare | SPChessGame.c:912-928 | the player can move exactly when some square, in scan order, holds a piece that can |
| Rules.DoesPlayerHaveValidMoves | SPChessGame.c:912-928 | the player has a valid move exactly when some piece of theirs has a legal move somewhere |
| Game.Create | SPChessGame.c:262-283 | creation fails exactly for a non-positive history size; otherwise it is the initial board, white to move, default settings, empty history of that capacity, flags cleared |
| Game.Copy | SPChessGame.c:295-319 | the copy equals the original except for a fresh empty history of the same capacity |
| Game.Restart | SPChessGame.c:1500-1514 | the board is reset and white moves, the history is emptied, the saved flag is cleared, the settings and the game-over flag are kept |
| Game.ChangePlayer | SPChessGame.c:1430-1432 | the side to move flips and nothing else changes |
| Game.IsValidMove | SPChessGame.c:385-401 | off-board coordinates are an invalid argument, a square without the mover's piece is not-your-piece, and a move is legal exactly when it is on the board, from the mover's piece and legal by the rules |
| Game.Remember | SPChessGame.c:414-430 | recording a move appends it to the history, dropping the oldest entry when the history is full |
| Game.RememberKeepsValid | SPChessGame.c:414-430 | recording a move keeps the game well formed |
| Game.SetMove | SPChessGame.c:414-430 | the move is applied, the side to move flips, the history gains the move with its captured piece (oldest evicted when full), nothing else changes |
| Game.UndoPrevMove | SPChessGame.c:457-472 | with no history it reports no-history and changes nothing; otherwise it pops the newest entry, reverses that move, restores the captured piece and flips the side to move back |
| Game.SetMoveUndoRoundTrip | SPChessGame.c:414-472 | making a move and undoing it restores board, side and settings; only an evicted oldest history entry stays lost |
| Game.GetState | SPChessGame.c:940-1000 | the four states partition by in-check and can-move: checkmate names the opponent as winner, stalemate is a draw, and the mover never wins |
| Minimax.Gather | SPMinimaxNode.c:79-101 | every collected move belongs to a square at or after the scan position |
| Minimax.GatherCovers | SPMinimaxNode.c:79-101 | a square with a move makes the collected list non-empty |
| Minimax.SquareMovesSound | SPMinimaxNode.c:82-84 | each move the search tries from a square is a legal move of the side to move |
| Minimax.NodeMovesSound | SPMinimaxNode.c:79-101 | every move the search tries is a legal move of the side to move |
| Minimax.NodeMovesOnBoard | SPMinimaxNode.c:79-101 | every tried move has on-board coordinates |
| Minimax.NodeMovesNonEmpty | SPMinimaxNode.c:53-101 | the search tries some move exactly when the side to move has a valid move |
| Minimax.Terminal | SPMinimaxNode.c:53-66 | a position without moves scores within the material bound: the draw score exactly when the mover is not in check, the maximum exactly when White is mated and the minimum exactly when Black is mated |
| Minimax.TerminalMatchesState | SPMinimaxNode.c:53-66 | for a valid game whose mover has no legal move, the search's terminal score is the maximum exactly when the game names Black the winner, the minimum exactly when it names White, and the draw score exactly when it reports a draw |
| Minimax.Leaf | SPMinimaxNode.c:67-69 | the leaf score stays within the material bound |
| Minimax.ChessSound | SPChessGame.c:414-472 | the chess queries satisfy what the search relies on: play then undo restores the position, and scores are bounded |
| Minimax.Update | SPMinimaxNode.c:24-35 | the node score becomes the better of itself and the child, the window moves on the node's side only, and the best move changes exactly when the score improves |
| Minimax.AlphaBeta | SPMinimaxNode.c:52-105 | the search leaves board and side to move as it found them, its score is bounded, and it reports a best move exactly when the mover has moves and depth remains, and that move is one it tried |
| Minimax.Loop | SPMinimaxNode.c:79-104 | the move loop restores board and side, scores within bounds and ends with a best move from the list |
| Minimax.Reply | SPMinimaxNode.c:86-92 | playing one move, searching below and undoing it restores board and side |
| Minimax.Evaluate | SPMinimaxNode.c:52-105 | the search on the position alone is bounded and reports a best move exactly when moves exist and depth remains |
| Minimax.Scan | SPMinimaxNode.c:79-104 | the move loop on the position alone is bounded and ends with a best move from the list |
| Minimax.AlphaBetaOnPosition | SPMinimaxNode.c:52-105 | the game-threading search reports exactly what the position-only search computes: history drift does not matter |
| Minimax.LoopOnPosition | SPMinimaxNode.c:79-104 | the same for the move loop |
| Minimax.Value | SPMinimaxNode.c:52-105 | the plain minimax value, the reference the search is measured against, is bounded |
| Minimax.Fold | SPMinimaxNode.c:79-104 | the reference fold over the moves only improves the accumulator for the node's side and stays within bounds |
| Minimax.FoldAbsorbs | SPMinimaxNode.c:79-104 | starting the fold from a joined value joins that value into the result |
| Minimax.FoldStep | SPMinimaxNode.c:79-104 | the fold over a move list is the first child joined with the fold over the rest |
| Minimax.MaxCutoff | SPMinimaxNode.c:94-98 | a beta cutoff at a max node keeps the fail-soft bound |
| Minimax.MaxContinue | SPMinimaxNode.c:94-98 | continuing at a max node with the raised alpha keeps the fail-soft bound |
| Minimax.MinCutoff | SPMinimaxNode.c:94-98 | an alpha cutoff at a min node keeps the fail-soft bound |
| Minimax.MinContinue | SPMinimaxNode.c:94-98 | continuing at a min node with the lowered beta keeps the fail-soft bound |
| Minimax.ContinueFold | SPMinimaxNode.c:94-104 | a score fail-soft against the rest of the fold with the narrowed window is fail-soft against the whole fold |
| Minimax.TurnFailSoft | SPMinimaxNode.c:94-98 | one loop turn, cut off or continued, preserves the fail-soft relation to the reference |
| Minimax.UpdateWindow | SPMinimaxNode.c:24-35 | an update that leaves the window open keeps it open and the loop state consistent |
| Minimax.ScanFailSoft | SPMinimaxNode.c:79-104 | the move loop's score is a fail-soft bound of the reference fold for the window it was given |
| Minimax.EvaluateFailSoft | SPMinimaxNode.c:52-105 | alpha-beta within a window returns the exact minimax value when that lies inside the window and a correct bound otherwise |
| Minimax.AlphaBetaIsMinimax | SPMinimaxNode.c:52-105 | with the full integer window alpha-beta returns the plain minimax value |
| Minimax.ScanBest | SPMinimaxNode.c:79-104 | at the root the reported best move's child value equals the returned score |
| Minimax.EvaluateBest | SPMinimaxNode.c:52-105 | at the root the best move is one of the mover's moves and attains the minimax value |
| Minimax.SpMiniMax | SPMinimaxNode.c:120-130 | no move exactly at depth 0 or when the mover has no valid move; otherwise the move is one of the mover's legal moves |
| Minimax.RootMoveLegal | SPMinimaxNode.c:120-130 | every root candidate passes the game's own move validation |
| Minimax.SpMiniMaxOptimal | SPMinimaxNode.c:120-130 | the suggested move attains the minimax value for the side to move, black maximising |
| Minimax.SuggestMove | SPMinimax.c:17-22 | a missing game or depth 0 is refused; no move exactly when the mover has none; any other answer is legal for the side to move |
| Parser.IsInt | Parser.c:47-52 | a word is an integer exactly when it is the one-character text of a digit 0..9 |
| Parser.WellFormattedCoordinate | Parser.c:91-96 | a well-formed coordinate is at least three characters with a comma strictly inside and no whitespace |
| Parser.CommaCount | Parser.c:68-77 | the count is bounded by the length and is zero exactly when there is no comma |
| Parser.CoordArgs | Parser.c:111-141 | a coordinate word yields a row in -1..8 and a column in 0..25 |
| Parser.CoordTextShape | Parser.c:91-96 | a well-formed coordinate of five characters with a digit and a letter is exactly the shape the move command converts |
| Parser.ParseCommand | Parser.c:245-288 | a recognised keyword maps to the command it names, and an invalid line is returned exactly when no keyword matches |
| Parser.KeywordRoundTrip | Parser.c:245-288 | every command's keyword parses back to that command |
| Parser.ParseOneInt | Parser.c:201-206 | a one-digit argument sets the argument and marks it valid; anything else leaves the command unchanged |
| Parser.ParseMove | Parser.c:111-141 | the line is invalid exactly when the `<x,y> to <i,j>` shape is missing; the arguments are valid and converted exactly for in-shape coordinates |
| Parser.ParseGetMoves | Parser.c:154-176 | the line is invalid exactly when the coordinate is missing or malformed; its conversion is valid exactly for an in-shape coordinate |
| Parser.ParseLine | Parser.c:313-361 | a line with no words is an invalid line, and a recognised command's keyword starts the line's text without delimiters |
| Parser.ParseTokens | Parser.c:313-361 | no token is an invalid line; a recognised command starts with its keyword; each command kind carries exactly the arguments its tokens give |
| Parser.CoordWord | Parser.c:111-141 | every row in -1..8 and column in 0..25 has a coordinate word that converts back to it |
| Parser.Words | Parser.c:313-361 | the words of a command line are non-empty and free of delimiters |
| Parser.RenderSplits | Parser.c:313-361 | a rendered command fits the line buffer and splits back into its words |
| Parser.ParseRender | Parser.c:313-361 | parsing the rendered text of any well-formed command gives that command back |
| Tokens.SplitFrom | Parser.c:313-361 | each token from a position on is non-empty and delimiter-free |
| Tokens.Split | Parser.c:313-361 | each token is non-empty and delimiter-free |
| Tokens.Nth | Parser.c:313-361 | the k-th token exists exactly when there are more than k tokens |
| Tokens.SplitKeepsText | Parser.c:313-361 | the tokens, glued together, are the line with its delimiters removed |
| Tokens.SplitAfterWord | Parser.c:313-361 | a delimiter-free word followed by a delimiter or the end is the next token |
| Tokens.SplitHead | Parser.c:313-361 | the first token starts at the first non-delimiter |
| Tokens.SplitJoin | Parser.c:313-361 | words joined by blanks split back into the same words |
| GameSettings.ParseDifficulty | SPChessGameSettings.c:51-66 | exactly the levels 1..5 have a name, and each name is a single word |
| GameSettings.UnParseDifficultyAsWritten | SPChessGameSettings.c:94-112 | as written, every recognised name other than "expert" maps back to its level, and "expert" does not reach 5 |
| GameSettings.ExpertReadsAsEasy | SPChessGameSettings.c:94-112 | the name of level 5 reads back as level 2 |
| GameSettings.UnParseDifficulty | SPChessGameSettings.c:94-112 | corrected: every recognised name maps to the level it names and unknown names to -1 |
| GameSettings.DifficultyRoundTrip | SPChessGameSettings.c:51-112 | corrected: naming a level and reading the name back gives the level |
| GameSettings.DifficultyReadBack | SPChessGameSettings.c:51-112 | as written, naming a level and reading the name back gives the level, except that 5 comes back as 2 |
| GameSettings.UnParseColor | SPChessGameSettings.c:121-126 | "black" reads as 0 and every other word as 1 |
| GameSettings.ParseColor | SPChessGameSettings.c:75-80 | the colour word is a single word that reads back as its code |
| GameSettings.SetGameMode | SPChessGameSettings.c:139-145 | succeeds exactly for modes 1 and 2 and then changes only the mode; otherwise an invalid argument and nothing changes |
| GameSettings.SetDifficulty | SPChessGameSettings.c:158-164 | succeeds exactly for levels 1..5 and then changes only the level; otherwise an invalid argument and nothing changes |
| GameSettings.SetUserColor | SPChessGameSettings.c:178-184 | succeeds exactly for colours 0 and 1 and then changes only the user colour; otherwise an invalid argument and nothing changes |
| GameSettings.SetCurrentPlayer | SPChessGameSettings.c:198-204 | succeeds exactly for colours 0 and 1 and then changes only the side to move; otherwise an invalid argument and nothing changes |
| GameSettings.SetDefaults | SPChessGameSettings.c:402-410 | the three settings become those of a new game, nothing else changes |
| GameSettings.SettingsLines | SPChessGameSettings.c:215-231 | the settings text has four lines in one-player mode and two in two-player mode |
| GameSettings.Cells | SPChessGame.c:355-359 | a saved board row puts a blank after every glyph |
| GameSettings.SetBoardRow | SPChessGameSettings.c:257-267 | the glyphs of the line overwrite the start of the row its rank digit names; every other row is unchanged |
| GameSettings.ParseAndSetLine | SPChessGameSettings.c:279-314 | reading one line never touches the history or the saved and game-over flags |
| GameSettings.ParseAndSetLineCases | SPChessGameSettings.c:279-314 | a colour word sets the side to move, a keyed line sets just its setting (a difficulty name sets its level, "expert" sets 2), a rank line sets just its board row, anything else is ignored |
| GameSettings.LoadLines | SPChessGameSettings.c:339-341 | reading the lines never touches the history or the two flags |
| GameSettings.ReadLine | SPChessGameSettings.c:339-341 | one buffered read is a prefix of the rest of the file, no longer than the buffer, and not empty while text remains |
| GameSettings.Reads | SPChessGameSettings.c:339-341 | the successive reads cover the whole text in order, none empty or longer than the buffer |
| GameSettings.Load | SPChessGameSettings.c:326-354 | an unopenable file is an I/O error and changes nothing; a read error is an I/O error after the lines read so far were applied, with the history kept; a file read to its end succeeds, with the lines applied, the history emptied and the flags kept |
| GameSettings.ReadWholeLine | SPChessGameSettings.c:339-341 | a line that fits the buffer is read whole |
| GameSettings.ChunksOfLines | SPChessGameSettings.c:339-341 | a file made of lines that fit the buffer is read back line by line |
| GameSettings.LoadLinesAppend | SPChessGameSettings.c:339-341 | reading two blocks of lines is reading the first and then the second |
| GameSettings.RowLineShape | SPChessGame.c:351-363 | a saved board row is a file line whose glyphs are exactly that row |
| GameSettings.LoadRowLine | SPChessGameSettings.c:257-314 | loading a saved board row restores exactly that row |
| GameSettings.LoadRows | SPChessGame.c:351-363 | loading the saved rows from a rank on restores those rows and leaves the rest |
| GameSettings.IgnoredLine | SPChessGameSettings.c:279-314 | a line whose first token starts with anything other than a colour, key or rank is ignored |
| GameSettings.LoadFooter | SPChessGame.c:364-369 | the ruler line and the file-letter line under the board change nothing when loaded |
| GameSettings.KeyedLineShape | SPChessGameSettings.c:215-231 | a keyed settings line splits into its key and its value |
| GameSettings.LoadPlayerLine | SPChessGameSettings.c:242-249 | the saved side-to-move line restores the side to move |
| GameSettings.LoadModeLine | SPChessGameSettings.c:215-231 | the saved mode line restores the mode |
| GameSettings.LoadDifficultyLine | SPChessGameSettings.c:215-231 | the saved difficulty line restores the level for levels 1..4 and sets level 2 for level 5 |
| GameSettings.LoadColorLine | SPChessGameSettings.c:215-231 | the saved user-colour line restores the colour code |
| GameSettings.LoadSettingsLines | SPChessGameSettings.c:215-231 | the saved settings block restores the mode, and in one-player mode the user colour and the level (5 comes back as 2) |
| GameSettings.LoadBoardLines | SPChessGame.c:347-371 | the saved board block restores the whole board |
| GameSettings.SaveText | SPChessGameSettings.c:366-389 | the saved text opens with the side-to-move line, and for a game in mode 1 or 2 with a writable board it reads back as exactly the lines written |
| GameSettings.SaveLinesAccepted | SPChessGameSettings.c:366-389 | every saved line fits the read buffer and is one the loader accepts |
| GameSettings.LoadSaveLines | SPChessGameSettings.c:366-389 | the lines of a saved game, read back, restore everything the file records (level 5 as 2) |
| GameSettings.SaveLoadRoundTrip | SPChessGameSettings.c:326-389 | loading the text a game saves restores its board, side to move, mode and (one-player) colour and level, except that level 5 comes back as 2, with an empty history and the loader's flags |
| SettingsMenu.HandleGameMode | Settings.c:37-47 | a valid mode is set and confirmed; anything else leaves the game and reports a wrong mode |
| SettingsMenu.HandleDifficulty | Settings.c:62-76 | refused in two-player mode; a level 1..5 is set and confirmed by name; anything else reports a wrong level |
| SettingsMenu.HandleUserColor | Settings.c:90-104 | refused in two-player mode; colour 0 or 1 is set and confirmed by name; anything else reports a wrong colour |
| SettingsMenu.HandleLoad | Settings.c:115-130 | succeeds exactly when a path was given and the file exists and is read to its end; for an existing file the game is the loader's result, partial after a read error; without a path or file the game is unchanged; every failure reports a file error |
| SettingsMenu.HandleDefault | Settings.c:137-140 | the three settings return to their defaults, nothing else changes |
| SettingsMenu.LoadKeepsRange | SPChessGameSettings.c:326-354 | loading any loadable file keeps mode, level and user colour within their ranges |
| SettingsMenu.HandleLoadKeepsRange | Settings.c:115-130 | the load command keeps the settings within their ranges |
| SettingsMenu.Handle | Settings.c:150-188 | one menu command keeps the game well formed and in range; only loading changes more than the settings; print shows the settings text; a non-settings command is reported invalid |
| SettingsMenu.Loop | Settings.c:150-188 | the menu loop keeps the game well formed and in range |
| SettingsMenu.InputLines | Settings.c:150-188 | the input is read as successive lines that fit the command buffer and together are the whole input |
| SettingsMenu.ParseAll | Settings.c:150-188 | each read line is parsed on its own |
| SettingsMenu.GetSettingsFromUser | Settings.c:150-188 | the menu first asks for settings and keeps the game well formed and in range |
| SettingsMenu.LoopWithoutStop | Settings.c:150-188 | the input runs out exactly when no start or quit command came, and then every command was answered |
| SettingsMenu.LoopOutcome | Settings.c:150-188 | the first start or quit ends the loop with that outcome, after answering every earlier command; start adds the starting message |
| SettingsMenu.LoopIgnoresRest | Settings.c:150-188 | commands after the first start or quit are never read |
| SettingsMenu.LoopIgnoresExtension | Settings.c:150-188 | any input that begins with commands up to a start or quit ends the loop exactly as those commands alone do |
| SettingsMenu.LoopKeepsPosition | Settings.c:150-188 | without a load command the menu changes only the three settings |

## Left out

- Memory: NULL pointers (except the NULL game given to the move suggestion), allocation failure and freeing are not modelled. Every value exists.
- Output: printing to a stream or a file is not modelled. A saved game is the text it would write, and a write error is not modelled.
- GameSettings.Load: a file is given as the text `fgets` delivers plus whether reading stopped on an error; where in the file a read error strikes is part of that input, not modelled from the device.
- Interfaces: the graphical interface, the console game loop and `main` are not part of this model.
- Console output in the settings menu: the C `print` flag becomes the parameter `show`, and the text that would be printed is returned.
- Move flags: when flags are not requested, the source leaves the threatened and captures fields uninitialised. The model sets them to false.
- Unset command fields: fields the parser does not set are modelled as zero or empty.
- Minimax.AlphaBeta: moves, play, undo and scoring are taken from a record of queries rather than called directly. The chess instance is proved to satisfy what the search needs (`Minimax.ChessSound`).
- GameSettings.Load: requires every line to be loadable. A blank line, a key without a value, or a rank line longer than the row passes NULL to `strcmp` or writes past the row in the source, which is undefined behaviour.
- SettingsMenu.HandleLoad: requires every file to be loadable, for the same reason.
- SettingsMenu.Handle: inherits that requirement from `HandleLoad`, since any command may be a load.
- SettingsMenu.Loop: inherits the same requirement through `Handle`.
- SettingsMenu.GetSettingsFromUser: inherits the same requirement through `Loop`.
- GameSettings.ParseAndSetLine: requires a loadable line, for the same reason.
- GameSettings.ReadLine, GameSettings.Reads, SettingsMenu.InputLines: text is modelled as characters, not bytes, so the C buffers, which count bytes, would split a line holding non-ASCII characters at a different point than these members do.
- Line length: parser input lines are shorter than the 3000-byte buffer, as `fgets` guarantees. Longer lines and embedded NUL characters are not modelled.
- PraseLine's last `else`: unreachable, because every command kind is handled before it, so it has no counterpart.
- SettingsMenu.Loop: at end of input the C loop keeps handling the last command, because `fgets` fails and the buffer is unchanged. The model stops with the outcome `OutOfInput` instead.
- Loader delimiters: the loader splits on blanks, carriage returns and newlines only, as its `strtok` call does. Tabs are not delimiters there.

## Findings

| source | as written | input that shows it | evidently intended | confidence | as-written member | corrected member |
|---|---|---|---|---|---|---|
| SPChessGameSettings.c:108 | the name "expert" is read back as level 2 | a saved one-player game at difficulty 5 ("DIFFICULTY: expert") loads at difficulty 2 | "expert" reads back as level 5 | high; not executed | GameSettings.ExpertReadsAsEasy | GameSettings.DifficultyRoundTrip |
| SPChessGame.c:736-739 | the knight table lists (-1,-2) and (+1,-2) twice and never (-1,+2) or (+1,+2) | a king on d4 with an enemy knight on f5 or f3 is not reported in check | all eight knight jumps are examined | high; not executed | Rules.KnightSweepIgnoresRightJumps | Rules.ThreatenedByKnight |

The rest of the model follows the program as written: check detection uses `Rules.ThreatenedByKnightAsWritten`, and the loader reads difficulty names with `GameSettings.UnParseDifficultyAsWritten`. The corrected definitions stand beside them with their properties proved.
