# Puzzles and games: a Dafny model

This project models four small game programs and proves properties of them.

- **Connect Four.** The 6 by 7 board with its move history, and the bots that play on it:
  - the win-first random player;
  - the Monte Carlo player, which runs 2000 random rollouts per candidate column;
  - the depth-8 negamax player;
  - the depth-10 alpha-beta player.
  The search players re-tag the history to two proxy players before searching. The two minimax players score the moves at the depth limit with a positional heuristic. It maps the 1, 2 or 3 own pieces in an unblocked window of four to 1, 4 or 32 points.
- **N-Puzzle.** The sliding-tile board, its text form and its solvability test. A search state carries the board, the blank's index, the Manhattan distance, the move count and a link to the previous state. Four solvers search over these states: breadth-first, depth-first, IDA* and A*. `solve` turns the final state into the list of boards from the start to the solution.
- **Boggle.** A square board of letters with 8-neighbour adjacency. A word is on the board when a path of neighbouring cells, none used twice, spells it. Three solvers are modelled:
  - one looks up every dictionary word;
  - one enumerates every path of at most 20 letters;
  - one enumerates paths but prunes them with a prefix trie.
- **Diamond Dash.** The bot's 9 by 10 grid of brick colours and its per-cell counters. A cell that has stayed grey for 20 frames becomes a diamond. The bot clicks a diamond if there is one. Otherwise it clicks the first coloured brick in reading order that forms a line or an L of three.

The model is functional:
- A board or game is an immutable value. The Java methods that mutate and restore a shared game are functions that return the game, and their contracts say the game comes back unchanged.
- `java.util.Random` and `Collections.shuffle` become an explicit stream of draws (`RandomSource.Rng`). The shuffle is Java's own Fisher-Yates swap order, so a proof can name the element a shuffle puts first.
- Each search is proved against an independent reference. For Connect Four this is the game value as a ghost recursion. For the N-Puzzle it is "a chain of single-tile slides ending in the solved board". For Boggle it is "a simple path of neighbours spelling the word".

Where the description of the program and its code differ, the model follows the code, with three exceptions, each recorded under "## Left out" or "## Findings" (the last bullet below, the Boggle board construction, and the N-Puzzle parity test, of which both versions are modelled):
- `makeMove` on a full column places nothing but still records the move and returns row 6. So "history length equals the number of pieces" holds only for valid moves, and validity is a precondition of the make/undo round trip.
- The heuristic's column term counts the run of the mover's pieces downward from the landing cell (toward row 0, the bottom row). It scores only if four in a column can still be completed upward.
- The players return no move on a full board. The Java code throws an index exception there.

## Model

| member | source | states |
|---|---|---|
| ConnectFourGame.NewGame | 3.Connect4/ConnectFourGame.java:13-16 | A new game has an empty 6 by 7 board and no history, and is consistent: gravity holds and the history length equals the piece count. |
| ConnectFourGame.MakeMove | 3.Connect4/ConnectFourGame.java:67-81 | The piece lands in the lowest empty row of the column, no other cell changes, and the move is appended. On a full column no cell changes, the move is still appended and the row returned is 6. |
| ConnectFourGame.UndoMove | 3.Connect4/ConnectFourGame.java:83-96 | Clears the topmost occupied cell of the last move's column, leaves every other cell alone and pops exactly the last history entry. |
| ConnectFourGame.UndoAfterMake | 3.Connect4/ConnectFourGame.java:67-96 | Round trip: on a game with gravity, undo after a valid move restores the board and the history exactly. |
| ConnectFourGame.MakeMovePreservesConsistency | 3.Connect4/ConnectFourGame.java:67-81 | A valid move keeps gravity, adds exactly one piece and keeps the history length equal to the piece count. |
| ConnectFourGame.UndoMovePreservesConsistency | 3.Connect4/ConnectFourGame.java:83-96 | Undo keeps gravity, removes exactly one piece when there is one, and keeps the history length equal to the piece count. |
| ConnectFourGame.LandingFrom | 3.Connect4/ConnectFourGame.java:71-76 | The landing row is the first empty row from the bottom: every row below it is occupied. |
| ConnectFourGame.LandingIsTop | 3.Connect4/ConnectFourGame.java:71-76 | Under gravity every cell at or above the landing row is empty, so the landing row is the top of the column's stack. |
| ConnectFourGame.TopFrom | 3.Connect4/ConnectFourGame.java:88-93 | The row undo clears is the highest occupied row: every row above it is empty. |
| ConnectFourGame.EmptyAbove | 3.Connect4/ConnectFourGame.java:63-65 | Under gravity an empty cell has only empty cells above it. |
| ConnectFourGame.ColumnFull | 3.Connect4/ConnectFourGame.java:63-65 | isColumnFull tests only the top cell; under gravity that is true iff every cell of the column is occupied. |
| ConnectFourGame.ValidIffRoom | 3.Connect4/ConnectFourGame.java:49-53 | isValidMove rejects every column off the board. On a game with gravity, a move in range is valid iff its column has an empty cell anywhere. |
| ConnectFourGame.IsFull | 3.Connect4/ConnectFourGame.java:37-47 | The board is full iff every column is full. |
| ConnectFourGame.NonFullFrom | 3.Connect4/ConnectFourGame.java:155-166 | The non-full columns in ascending order: every listed column is non-full and every non-full column is listed. |
| ConnectFourGame.PossibleMoves | 3.Connect4/ConnectFourGame.java:135-143 | One move per non-full column, in ascending column order, each valid and tagged with the given player. |
| ConnectFourGame.NoMovesIffFull | 3.Connect4/ConnectFourGame.java:135-143 | The move list is empty iff the board is full. |
| ConnectFourGame.AnyDirectionFrom | 3.Connect4/ConnectFourGame.java:107-128 | True iff one of the four directions from the cell gives an in-bounds run of four equal occupants. |
| ConnectFourGame.ScanFrom | 3.Connect4/ConnectFourGame.java:101-130 | The row-major scan finds a run iff some cell at or after the scan point starts one. |
| ConnectFourGame.HasFourInARow | 3.Connect4/ConnectFourGame.java:98-133 | True iff some occupied cell starts an in-bounds run of four identical occupants along (0,1), (1,1), (1,0) or (1,-1). |
| ConnectFourGame.IsWinningMove | 3.Connect4/ConnectFourGame.java:55-61 | The probe answers whether the board after the move has four in a row, and on a valid move it hands back the game unchanged. |
| ConnectFourGame.ProbeRestores | 3.Connect4/ConnectFourGame.java:55-61 | The make, check, undo probe of a valid move is net-zero on board and history. |
| ConnectFourGame.IsFinished | 3.Connect4/ConnectFourGame.java:33-35 | Finished iff every column is full or there is four in a row. |
| ConnectFourGame.ReplayOnto | 3.Connect4/ConnectFourGame.java:18-23 | Replaying moves appends them to the history and keeps the game sound. |
| ConnectFourGame.Replay | 3.Connect4/ConnectFourGame.java:18-23 | The game rebuilt from a move list has that list as its history and a sound board. |
| RandomSource.NextInt | 3.Connect4/RandomPlayer.java:25 | A draw below the bound, consuming exactly one element of the stream. |
| RandomSource.Shuffle | 3.Connect4/MonteCarloPlayer.java:49 | The shuffled list is a permutation of the input: same length, same multiset. |
| Simulation.Proxy | 3.Connect4/MinMaxAlphaBetaPlayer.java:15 | Index 0 is our proxy and index 1 the opponent's proxy. |
| Simulation.NextIndex | 3.Connect4/MinMaxAlphaBetaPlayer.java:63 | The mover alternates: the next index is the other one of 0 and 1. |
| Simulation.Retag | 3.Connect4/PrintableWithSimulationPlayer.java:18-22 | The column is kept, and the move becomes our proxy's iff this player made it, otherwise the opponent proxy's. |
| Simulation.PrepareMovesForSimulation | 3.Connect4/PrintableWithSimulationPlayer.java:14-26 | Same length and columns as the input, and move i is our proxy's iff the real move i was made by this player, otherwise the opponent proxy's. |
| Simulation.SimulatedBoard | 3.Connect4/PrintableWithSimulationPlayer.java:14-26 | Replaying the re-tagged history gives the real board with our pieces and theirs re-tagged cell by cell. |
| Simulation.ReplayOntoRetag | 3.Connect4/ConnectFourGame.java:18-23 | Re-tagging commutes with replay: replaying re-tagged moves on a re-tagged game gives the re-tagged result. |
| Simulation.SimulatedGame | 3.Connect4/MonteCarloPlayer.java:22-24 | The game a player searches is sound, has the re-tagged history, and its board is the real board re-tagged. |
| BestMoves.MaxFromIsMax | 3.Connect4/MinMaxAlphaBetaPlayer.java:27-39 | The running best score bounds every score and, unless it is the initial MIN_VALUE, is attained by one of them. |
| BestMoves.WithScoreMembers | 3.Connect4/MinMaxAlphaBetaPlayer.java:31-38 | A move is a candidate iff it is a root move whose score equals the given score. |
| BestMoves.Candidates | 3.Connect4/MinMaxAlphaBetaPlayer.java:24-39 | The loop keeps exactly the root moves with the maximal score, and that set is non-empty whenever there is a root move. |
| BestMoves.Choose | 3.Connect4/MinMaxAlphaBetaPlayer.java:41-45 | A single candidate is returned as it is. Several candidates are shuffled and the first one taken. Either way the result is a best-scoring column re-tagged to this player, and there is no move iff there are no root moves. |
| RandomPlayer.FirstWinning | 3.Connect4/RandomPlayer.java:19-23 | Finds the first winning move of the list, and no move before it wins. When it finds none, no move of the list wins. |
| RandomPlayer.SuggestMove | 3.Connect4/RandomPlayer.java:16-26 | The move is one of this player's legal moves and the game is unchanged. If a move wins, the first winning move is returned and no randomness is used. Otherwise move number draw mod size is returned. |
| Heuristic.CountToValue | 3.Connect4/PrintableWithSimulationAndHeuristicsPlayer.java:100-112 | 1, 2 and 3 own pieces score 1, 4 and 32 points; every other count scores 0. |
| Heuristic.AxisFrom | 3.Connect4/PrintableWithSimulationAndHeuristicsPlayer.java:15-16 | Every window scanned lies on the board and contains the landing cell, and every such window along the axis is scanned. |
| Heuristic.AxisWindowsExact | 3.Connect4/PrintableWithSimulationAndHeuristicsPlayer.java:50-51 | A window is scanned iff it has the axis's direction, lies on the board and covers the landing cell. |
| Heuristic.WindowScore | 3.Connect4/PrintableWithSimulationAndHeuristicsPlayer.java:21-34 | A window with an opponent piece scores 0. Otherwise it scores CountToValue of the mover's pieces in it. |
| Heuristic.RunDown | 3.Connect4/PrintableWithSimulationAndHeuristicsPlayer.java:38-44 | The length of the unbroken run of the mover's pieces going down from the landing row. |
| Heuristic.ColumnTerm | 3.Connect4/PrintableWithSimulationAndHeuristicsPlayer.java:45-47 | With count the unbroken run of the mover's pieces down from the landing cell: when moveRow + (4 - count) < 6 the term is the count's value (1, 4 or 32 for 1, 2, 3 pieces), otherwise 0; so it is positive exactly when the run has 1 to 3 pieces and four in the column can still be completed. |
| Heuristic.Heuristic | 3.Connect4/PrintableWithSimulationAndHeuristicsPlayer.java:6-98 | The score is the reference move value (row, column and both diagonals summed) of the board after the move. It lies between 0 and 13 * 32, and the game is handed back unchanged. |
| AlphaBeta.AlphaBetaSearch | 3.Connect4/MinMaxAlphaBetaPlayer.java:48-92 | The game is unchanged. A winning move returns MAX_VALUE for our proxy and MIN_VALUE for theirs, before the depth test. At depth 10 the result is the heuristic. Otherwise it is at least alpha when our proxy replies and at most beta when they reply. Whenever alpha < beta it is the true minimax value or on the same side of the window as that value. |
| AlphaBeta.SearchReplies | 3.Connect4/MinMaxAlphaBetaPlayer.java:61-91 | With no legal replies the incoming alpha (or beta) is returned. Otherwise the reply loop's result is bracketed against the position's minimax value. |
| AlphaBeta.MaxLoop | 3.Connect4/MinMaxAlphaBetaPlayer.java:67-78 | The maximising loop with its beta <= alpha cut-off returns the exact maximum of alpha and the reply values when that stays below beta, and a value at least beta otherwise. |
| AlphaBeta.MinLoop | 3.Connect4/MinMaxAlphaBetaPlayer.java:79-91 | The minimising loop, dually: exactly the minimum above alpha, or a value at most alpha. |
| AlphaBeta.Expand | 3.Connect4/MinMaxAlphaBetaPlayer.java:61-91 | Make the move, search the replies, undo: the game comes back unchanged, the value is a Java int on the right side of alpha or beta for the mover, and whenever alpha < beta it is bracketed against the move's minimax value. |
| AlphaBeta.WholeWindowExact | 3.Connect4/MinMaxAlphaBetaPlayer.java:28 | Searched with the full window [MIN_VALUE, MAX_VALUE], alpha-beta returns the exact minimax value. |
| AlphaBeta.RootScores | 3.Connect4/MinMaxAlphaBetaPlayer.java:27-29 | The root scores are the exact minimax values of the root moves. |
| AlphaBeta.SuggestMove | 3.Connect4/MinMaxAlphaBetaPlayer.java:18-46 | There is no move iff the board is full. Otherwise the result is a column whose root move has the best minimax value, re-tagged to this player. |
| MinMax.Minimax | 3.Connect4/MinMaxPlayer.java:82-103 | Equals the reference negamax value and leaves the game unchanged. The reference is MAX_VALUE for a winning move, the heuristic at depth 8, and otherwise the minimum of the negated reply values (MAX_VALUE when there are no replies). |
| MinMax.Expand | 3.Connect4/MinMaxPlayer.java:91-102 | Make the move, take the least negated reply value, undo: the game comes back unchanged and the value is the move's reference negamax value. |
| MinMax.MinLoop | 3.Connect4/MinMaxPlayer.java:93-98 | The loop computes the minimum of the running value and the negated values of the remaining replies. |
| MinMax.Value | 3.Connect4/MinMaxPlayer.java:82-103 | Every value lies in [-MAX_VALUE, MAX_VALUE], so its negation never overflows a Java int. |
| MinMax.SuggestMove | 3.Connect4/MinMaxPlayer.java:32-60 | There is no move iff the board is full. Otherwise the result is a column with the best negamax value, re-tagged to this player. |
| MonteCarlo.SimulateGame | 3.Connect4/MonteCarloPlayer.java:56-75 | The rollout starts with our proxy's candidate move and plays until the game is finished, the moves after the real history alternating our proxy, opponent, our proxy and so on. There is a winner iff the final board has four in a row, and the winner is the proxy that moved last. A candidate that wins at once is credited to our proxy. |
| MonteCarlo.Rollout | 3.Connect4/MonteCarloPlayer.java:62-74 | The rollout loop ends in a finished, sound game that extends the starting history. The moves it adds alternate between the two proxies, starting with the one after the last mover. A winner, if any, is the last mover. |
| MonteCarlo.Turn | 3.Connect4/MonteCarloPlayer.java:62-66 | Each turn switches the mover, appends one move by that mover and adds one piece, so the 42-cell board bounds the loop. |
| MonteCarlo.Tally | 3.Connect4/MonteCarloPlayer.java:29-36 | The tally lies in [0, 2000], and an immediately winning candidate scores all 2000. |
| MonteCarlo.TallyAll | 3.Connect4/MonteCarloPlayer.java:28-45 | One tally per candidate, each at most 2000, each immediately winning candidate at 2000. |
| MonteCarlo.FirstBest | 3.Connect4/MonteCarloPlayer.java:41-44 | Picks the first candidate with the strictly greatest tally. There is none iff every tally is 0. |
| MonteCarlo.BestOf | 3.Connect4/MonteCarloPlayer.java:28-53 | When some candidate won a rollout, the chosen move is the first with the greatest tally and no randomness is used. When none did, the first move of the shuffled legal moves is taken. |
| MonteCarlo.SuggestMove | 3.Connect4/MonteCarloPlayer.java:20-54 | On the re-tagged game there is no move iff the board is full. The move is legal, re-tagged to this player and chosen by tally with the shuffle fallback. |
| PuzzleBoard.ToStringRoundTrip | 2.N-Puzzle/Board.java:20-33 | Splitting the text at newlines and spaces and reading the numbers gives back the dim rows of the board, value values[row * dim + col] in place (row, col). |
| PuzzleBoard.GridCell | 2.N-Puzzle/Board.java:24-29 | Entry (r, c) of the rows read back is values[r * dim + c]. |
| PuzzleBoard.Newlines | 2.N-Puzzle/Board.java:24-29 | The text has exactly `dimension` newlines, and a board of dimension 0 prints as the empty string. |
| PuzzleBoard.ParseIntText | 2.N-Puzzle/Board.java:27 | Every int, negative ones included, is read back from its decimal text. |
| PuzzleRules.PositionSplit | 2.N-Puzzle/SlidingPuzzleSolver.java:107-117 | A board index splits into an in-range row and column that join back to the same index. |
| PuzzleRules.PositionJoin | 2.N-Puzzle/SlidingPuzzleSolver.java:107-117 | Joining a row and a column and splitting again returns them. |
| PuzzleRules.Manhattan | 2.N-Puzzle/SlidingPuzzleSolver.java:161-172 | Non-negative and 0 for the blank. A tile has distance 0 iff it sits at index tile - 1. |
| PuzzleRules.BoardDistance | 2.N-Puzzle/SlidingPuzzleSolver.java:151-159 | Non-negative, and 0 iff every tile is at home. |
| PuzzleRules.DistanceUpdate | 2.N-Puzzle/SlidingPuzzleSolver.java:125 | Changing one cell changes the board distance by the new tile's distance minus the old one's. |
| PuzzleRules.IsSolved | 2.N-Puzzle/SlidingPuzzleSolver.java:139-145 | Solved iff values[k] == k + 1 for every index but the last. |
| PuzzleRules.SolvedIffNoDistance | 2.N-Puzzle/SlidingPuzzleSolver.java:139-149 | On a permutation of 0 .. n*n-1, the board is solved iff its distance is 0, so the two isSolved overloads agree. |
| Solvability.CountInversions | 2.N-Puzzle/SlidingPuzzleSolver.java:41-47 | The double loop counts exactly the pairs i < j of non-zero values with v[i] > v[j]. |
| Solvability.ZeroPosition | 2.N-Puzzle/SlidingPuzzleSolver.java:52-54 | -1 iff the board has no 0; otherwise the first index holding 0. |
| Solvability.IsSolvableAsWritten | 2.N-Puzzle/SlidingPuzzleSolver.java:35-50 | The rule as written agrees with the corrected rule on even dimensions. On odd dimensions the two disagree exactly when the empty tile's row, counted from 1, is odd. |
| Solvability.CheckSolvable | 2.N-Puzzle/SlidingPuzzleSolver.java:35-50 | Accepts exactly the boards the rule as written accepts: 1 + zeroIndex / dim (Java division) plus the inversion count is even, on every dimension. On even dimensions this is the corrected rule. |
| Solvability.CheckSolvableCorrected | 2.N-Puzzle/SlidingPuzzleSolver.java:35-50 | Accepts exactly the boards the corrected rule accepts, and agrees with the rule as written on even dimensions. |
| Solvability.AsWrittenRejectsSolved | 2.N-Puzzle/SlidingPuzzleSolver.java:35-50 | The rule as written rejects the solved board of every odd dimension. |
| Solvability.SolvableAcceptsSolved | 2.N-Puzzle/SlidingPuzzleSolver.java:35-50 | The corrected rule accepts the solved board of every dimension. |
| PuzzleState.InitBoardState | 2.N-Puzzle/SlidingPuzzleSolver.java:56-64 | The start state has no predecessor and 0 moves. On a valid puzzle its blank index points at 0 and its distance is the board distance. |
| PuzzleState.PigeonZero | 2.N-Puzzle/SlidingPuzzleSolver.java:52-54 | A permutation of 0 .. n-1 contains 0, so indexOf(0) finds the blank. |
| PuzzleState.UpdatePuzzleState | 2.N-Puzzle/SlidingPuzzleSolver.java:119-137 | The tile at (row, col) moves into the blank and the blank moves there; no other cell changes. The move count grows by one and the predecessor is the current state. |
| PuzzleState.MakeMove | 2.N-Puzzle/SlidingPuzzleSolver.java:76-105 | There is no successor iff the target cell is off the board. Otherwise the successor slides the tile at the target cell. |
| PuzzleState.GeneratePossibleMoves | 2.N-Puzzle/SlidingPuzzleSolver.java:66-74 | Exactly four entries in N, E, S, W order. An entry is missing iff the blank is on the corresponding edge. |
| PuzzleState.SuccessorDistance | 2.N-Puzzle/SlidingPuzzleSolver.java:125 | Incremental distance: if the state's distance is the board distance, so is its successor's. |
| PuzzleState.SuccessorConsistent | 2.N-Puzzle/SlidingPuzzleSolver.java:76-137 | A successor of a consistent state is consistent: a permutation, the blank where the index says, the distance exact. |
| PuzzleState.BuildSolutionPath | 2.N-Puzzle/SlidingPuzzleSolver.java:13-25 | Lists the boards of the previous-state chain root first. The last element is the state's own board, and the length is the chain length. |
| PuzzleState.LinkedLength | 2.N-Puzzle/SlidingPuzzleSolver.java:13-25 | On a chain built by moves, the path has moves + 1 boards. |
| PuzzleState.PathSlides | 2.N-Puzzle/SlidingPuzzleSolver.java:13-25 | Consecutive boards of a solution path differ by one slide of a tile into the neighbouring blank. |
| PuzzleState.InUniverse | 2.N-Puzzle/SlidingPuzzleSolver.java:66-74 | Every board lies in a finite universe of value lists, which bounds every search. |
| PuzzleSearch.StateSolved | 2.N-Puzzle/SlidingPuzzleSolver.java:147-149 | On a consistent state, distance 0 iff the board is solved. |
| PuzzleSearch.Expand | 2.N-Puzzle/BFSSolver.java:26-30 | Missing successors and already visited boards are skipped. Each added board is marked visited as it is enqueued, so nothing is enqueued twice. |
| PuzzleBfs.BfsSolve | 2.N-Puzzle/BFSSolver.java:11-35 | A result is a solved state reached from the start by slides, and it is the last state dequeued. Every dequeued state is reached from the start, they come out in non-decreasing move count, their boards come out in the order they were enqueued, and no board is enqueued twice. Every state dequeued before the result is unsolved and had all its successors enqueued. When there is no result, every enqueued board was dequeued and had all its successors enqueued. |
| PuzzleBfs.EnqueueSuccessors | 2.N-Puzzle/BFSSolver.java:26-31 | The new successors of the dequeued, unsolved state join the back of the queue and are marked visited, in step with the enqueued boards. The state then counts as explored, and either a board was newly visited or nothing changed. |
| PuzzleDfs.FindSolution | 2.N-Puzzle/DFSSolver.java:15-37 | A result is a solved state with distance 0, reached from the start. On a failed return the visited set is the one the call started with. |
| PuzzleDfs.DfsSolve | 2.N-Puzzle/DFSSolver.java:8-13 | A result is a solved state reached from the start by slides. |
| PuzzleDfs.FindBounded | 2.N-Puzzle/IDAStarSolver.java:21-43 | Only states with moves + distance within the threshold are explored, so a result uses at most threshold moves. On a failed return visited is restored. |
| PuzzleDfs.IdaStarSolve | 2.N-Puzzle/IDAStarSolver.java:8-19 | The threshold starts at the start distance and grows by 5 per failed round, and a result is a solved state reached by slides. The round k that found it (a ghost output, 1 <= k <= rounds) bounds it: at most distance + 5 (k - 1) moves, hence at most distance + 5 (rounds - 1). |
| PuzzleAStar.Compare | 2.N-Puzzle/AStarSolver.java:38-48 | Returns -1, 0 or 1 by comparing distance + moves, and 0 iff the sums are equal. |
| PuzzleAStar.CompareAntisymmetric | 2.N-Puzzle/AStarSolver.java:38-48 | compare(a, b) == -compare(b, a). |
| PuzzleAStar.CompareTransitive | 2.N-Puzzle/AStarSolver.java:38-48 | compare is transitive. |
| PuzzleAStar.Poll | 2.N-Puzzle/AStarSolver.java:19 | The polled state has the least distance + moves in the queue. |
| PuzzleAStar.PollNext | 2.N-Puzzle/AStarSolver.java:19 | The polled state is a queued state of least distance + moves; it leaves the queue and joins the polled states, and the queued and polled boards together stay the same multiset. |
| PuzzleAStar.PushSuccessors | 2.N-Puzzle/AStarSolver.java:25-30 | The new successors of the polled, unsolved state are queued and marked visited, keeping the queued and polled boards the same multiset as the enqueued ones. The state then counts as explored, and either a board was newly visited or nothing changed. |
| PuzzleAStar.Turn | 2.N-Puzzle/AStarSolver.java:19-30 | One turn of the loop. A solved polled state ends the search as an answer reached from the start, with nothing newly enqueued. Otherwise the turn keeps the loop's bookkeeping and either visits a new board or shortens the queue. |
| PuzzleAStar.AStarSolve | 2.N-Puzzle/AStarSolver.java:10-34 | A result is a solved state reached from the start by slides, and it is the last state polled. Every polled state is reached from the start, every polled board was enqueued, and no board is enqueued twice. Every state polled before the result is unsolved and had all its successors enqueued. When there is no result, the polled boards are exactly the enqueued ones and each had all its successors enqueued. |
| PuzzleSolve.SolvePuzzle | 2.N-Puzzle/SlidingPuzzleSolver.java:8 | Whichever of the four solvers runs, a returned state is a solved state reached from the start by slides. |
| PuzzleSolve.SearchOutcome | 2.N-Puzzle/SlidingPuzzleSolver.java:8-10 | "No solution" iff the solver returned nothing; otherwise the answer is the path of the state it found, which starts at the given board, moves by single slides and ends solved. |
| PuzzleSolve.Solve | 2.N-Puzzle/SlidingPuzzleSolver.java:5-11 | Reports "not solvable" exactly when the rule as written fails, as the code does. Otherwise it reports "no solution" iff the solver found nothing, and a found state becomes its solution path, which starts at the given board, moves by single slides and ends solved. |
| PuzzleSolve.SolveCorrected | 2.N-Puzzle/SlidingPuzzleSolver.java:5-11 | The same with the corrected solvability rule: "not solvable" exactly when the corrected rule fails, so the solved board of every dimension gets past the test. |
| BoggleBoard.Equals | 1.Boggle/Boggle.java:36-49 | Equal iff the other object is a position with the same row and column; false for null and for other classes. |
| BoggleBoard.Neighbours | 1.Boggle/Boggle.java:102-117 | q is listed iff q differs from p by at most one in each coordinate, q != p and q is on the board. The list is in (rowDiff, colDiff) order and has at most 8 entries. |
| BoggleBoard.NeighboursSymmetric | 1.Boggle/Boggle.java:102-125 | On valid positions, q is a neighbour of p iff p is a neighbour of q. |
| BoggleBoard.AscendingDistinct | 1.Boggle/Boggle.java:103-113 | The neighbour list has no duplicates. |
| BoggleBoard.BuildNode | 1.Boggle/Boggle.java:98-100 | A node carries its character, its position and exactly its valid neighbours. |
| BoggleBoard.BuildBoard | 1.Boggle/Boggle.java:85-96 | The board buildBoard evidently means: one node per character, character i at Position(i / dim, i % dim) with its valid neighbours. |
| BoggleBoard.FloorSqrt | 1.Boggle/Boggle.java:88 | The dimension is the integer square root of the input length: d * d <= n < (d + 1) * (d + 1). |
| BoggleBoard.SetNodes | 1.Boggle/Boggle.java:91-93 | The loop of `nodes.set` calls: on a list shorter than the next index it throws IndexOutOfBounds at that index; on a list with one slot per character it succeeds and slot j holds the node of character j. |
| BoggleBoard.BuildBoardAsWritten | 1.Boggle/Boggle.java:85-96 | buildBoard as written fails with IndexOutOfBounds(0, 0) on every non-empty input, because `new ArrayList(n)` is empty; only the empty input yields a board. |
| BoggleBoard.SetNodesIntoSlots | 1.Boggle/Boggle.java:86-93 | With a list of one slot per character, the same loop yields exactly BuildBoard's board. |
| BoggleBoard.PositionToNode | 1.Boggle/FindWordsFromDictionarySolver.java:75-83 | Returns the first node with an equal position, and none iff no node has it. |
| BoggleBoard.BuiltPositionToNode | 1.Boggle/FindWordsFromDictionarySolver.java:75-83 | On a built board every valid position is found, at index row * dim + col. |
| BogglePaths.PathCells | 1.Boggle/GeneratePossibleWordsSolver.java:35-36 | A path marks one cell per letter, so the word built has as many letters as there are visited cells, and no more than the board has nodes. |
| FindWords.StartingNodes | 1.Boggle/FindWordsFromDictionarySolver.java:36-46 | The nodes whose character is the word's first, in board order. An empty word is an error (charAt(0) throws). |
| FindWords.SearchForWord | 1.Boggle/FindWordsFromDictionarySolver.java:48-73 | Succeeds iff the rest of the word extends along unvisited neighbours; on failure visited is unchanged. |
| FindWords.FindWord | 1.Boggle/FindWordsFromDictionarySolver.java:20-34 | Sound and complete: true iff some simple path of neighbours spells the word. |
| FindWords.Solve | 1.Boggle/FindWordsFromDictionarySolver.java:7-18 | The dictionary words on the board, in dictionary order. It fails iff the dictionary holds the empty word and the board is not empty. |
| FindWords.WordsOnBoardComplete | 1.Boggle/FindWordsFromDictionarySolver.java:7-18 | Every non-empty dictionary word that is on the board is returned. |
| GenerateWords.FindAll | 1.Boggle/GeneratePossibleWordsSolver.java:20-39 | Adds exactly the dictionary words of at most 20 letters that extend the current path, and restores visited. |
| GenerateWords.SolveCapped | 1.Boggle/GeneratePossibleWordsSolver.java:7-18 | Returns, without duplicates, exactly the non-empty dictionary words of at most 20 letters that are on the board. |
| GenerateWords.BuildTrie | 1.Boggle/GeneratePossibleWordsWithPruningSolver.java:8-13 | After inserting the dictionary, isWord holds exactly for the dictionary's words. |
| GenerateWords.FindAllPruned | 1.Boggle/GeneratePossibleWordsWithPruningSolver.java:24-43 | Pruning on hasPrefix loses nothing: it adds exactly the dictionary words that extend the current path, and restores visited. |
| GenerateWords.SolvePruned | 1.Boggle/GeneratePossibleWordsWithPruningSolver.java:7-22 | Returns, without duplicates, exactly the non-empty dictionary words that are on the board. |
| GenerateWords.FromSomeNodeOnBoard | 1.Boggle/GeneratePossibleWordsSolver.java:10-16 | Starting one search from every node with that node's letter finds a word iff some simple path spells it. |
| DiamondDash.NewBot | 4.DiamondDash/DiamondDashBot.java:29-41 | The grid starts all grey with every counter 0. |
| DiamondDash.ClusteredIffShape | 4.DiamondDash/DiamondDashBot.java:128-168 | A brick is a straight or L cluster iff one of the line or elbow shapes around it, lying on the grid, has the brick's colour in all its cells. |
| DiamondDash.FindDiamond | 4.DiamondDash/DiamondDashBot.java:170-180 | The first diamond in reading order, and none iff the grid has no diamond. |
| DiamondDash.FindCluster | 4.DiamondDash/DiamondDashBot.java:107-126 | A diamond comes first. Otherwise the result is the first coloured cluster brick in reading order, and none iff no brick is clickable. |
| DiamondDash.GreyGridNothingClickable | 4.DiamondDash/DiamondDashBot.java:115-125 | On an all-grey grid nothing is clicked. |
| DiamondDash.UpdateCell | 4.DiamondDash/DiamondDashBot.java:228-242 | A grey cell's counter goes up, and on reaching 20 the cell becomes a diamond with counter 0. Any other colour resets the counter to 0. |
| DiamondDash.UpdateGridCounters | 4.DiamondDash/DiamondDashBot.java:228-242 | The in-place double loop gives the cell-by-cell reference update: every cell's colour and counter are those UpdateCell gives for that cell alone. |
| DiamondDash.UpdateKeepsBounded | 4.DiamondDash/DiamondDashBot.java:228-242 | Counters stay in [0, 20) from frame to frame. |
| DiamondDash.PromotedOnTwentiethFrame | 4.DiamondDash/DiamondDashBot.java:228-242 | A cell grey for n < 20 frames has counter n, and on the 20th grey frame it turns into a diamond. |
| DiamondDash.PositionToLocation | 4.DiamondDash/DiamondDashBot.java:97-100 | The click point is the top-left brick shifted by 40 pixels per column and 40 per row. |
| DiamondDash.LocationRoundTrip | 4.DiamondDash/DiamondDashBot.java:97-100 | Every point of a brick's 40 by 40 square maps back to that brick. |
| DiamondDash.Frame | 4.DiamondDash/DiamondDashBot.java:69-92 | One frame updates the counters over the observed grid, then clicks the screen point of the brick findCluster picks on the updated grid: the first diamond in reading order if there is one, otherwise the first coloured brick in a straight or L cluster. There is no click exactly when the updated grid has neither a diamond nor a clickable brick. |
| Common.JavaDiv | 2.N-Puzzle/SlidingPuzzleSolver.java:107-109 | Java's `/` truncates toward zero; it agrees with Euclidean division on non-negative operands. |
| Common.JavaRem | 2.N-Puzzle/SlidingPuzzleSolver.java:111-113 | Java's `%` takes the sign of the dividend and satisfies a == b * (a / b) + a % b. |
| Common.ListOf | 1.Boggle/GeneratePossibleWordsSolver.java:17 | A set becomes a list of its elements without duplicates, in an unspecified order. |

## Left out

- Console output: `printBoard`, the score prints of the search players, the Connect Four driver, and the stub `DummyPlayer`.
- Statistical quality of the randomness. Every `Random` and `Collections.shuffle` is replaced by explicit streams of draws, so the model says which moves are eligible, not how likely each is. The Monte Carlo player keeps two rollout streams, one per proxy, and one stream for its shuffle.
- MonteCarlo.Tally: states the bounds [0, 2000] and that an immediately winning move scores 2000, but does not say that the tally counts the rollouts our proxy won, because rollouts depend on the draws.
- The no-blunder property of minimax (blocking an immediate three-in-a-row threat) is not proved as a separate lemma. Both search players are proved to return a move with the best reference game value.
- The players' behaviour on a full board: Java throws an index or argument exception, and the model returns no move.
- IDA*'s outer loop runs until a solution is found, which is unbounded. PuzzleDfs.IdaStarSolve takes a number of rounds as fuel and returns nothing when the rounds run out.
- PuzzleBfs.BfsSolve, PuzzleAStar.AStarSolve: when they return nothing, every enqueued board was dequeued and had its successors enqueued. That this covers every board reachable from the start, so that a solvable board always yields a result, is not proved.
- PuzzleDfs.DfsSolve: soundness only. A returned state is a solution reached by slides, but completeness is not proved.
- PuzzleSolve.Solve, PuzzleSolve.SolveCorrected, PuzzleSolve.SolvePuzzle, PuzzleSolve.SearchOutcome, PuzzleBfs.BfsSolve, PuzzleDfs.DfsSolve, PuzzleDfs.IdaStarSolve, PuzzleAStar.AStarSolve: only square boards of dimension at least 1 holding each of 0 .. n²-1 once are modelled. Java's `solve` checks nothing. On dimension 0 the parity test divides by zero (`zeroPosition / dimension`, an ArithmeticException). A board without a 0 gets the empty-tile index -1, and the first generated slide writes `values.set(-1, …)`, an IndexOutOfBoundsException. A board with repeated tiles is searched as is: BFS and DFS can return null after exhausting it, and IDA* may never stop.
- PuzzleAStar.Poll: Java's `PriorityQueue` leaves the order of equal priorities open. The model takes the earliest entry among the least.
- The BFS and A* queues' bookkeeping (dequeued states, enqueued boards) is returned as ghost outputs that exist only for the proofs.
- Java `int` overflow: values are unbounded integers. Only `Integer.MIN_VALUE` and `Integer.MAX_VALUE` are modelled as constants, and the negamax values are proved to stay in [-MAX_VALUE, MAX_VALUE].
- The superseded draft 2.N-Puzzle/NPuzzle.java, its file parsing and its solver stubs. The solver interface and the plain record classes become datatypes.
- `Board.toString` is modelled with its reader (`Parse`) as a partner. There is no reader in the source.
- Boggle dictionary file I/O (`readDictionary`): the dictionary is a parameter.
- The `Trie` class is not part of this model. It is represented by its answers: isWord is membership, and hasPrefix is "a prefix of some dictionary word".
- BoggleBoard.BuildBoard: builds the list the code evidently meant, with the dimension a parameter such that dim * dim == length. Java's `buildBoard` throws on every non-empty input (see Findings); that behaviour is BoggleBoard.BuildBoardAsWritten. The solvers take a board built by BoggleBoard.BuildBoard.
- `Math.sqrt` is taken as the exact integer square root (BoggleBoard.FloorSqrt); floating-point rounding is not modelled.
- The Boggle stub solvers at the top of Boggle.java and its `main`.
- `positionToNode` returning null: the searches require a sound board, on which every neighbour position has a node.
- The order of `HashSet` iteration: the generating solvers' results are stated as sets without duplicates, in no particular order.
- Diamond Dash:
  - screen capture and pixel colour classification (`updateGridState` with its floating-point SENSITIVITY);
  - Robot mouse clicks, `Thread.sleep`, the SwingWorker life cycle and cancellation;
  - the logo search;
  - the GUI and logo-grabber programs.
  The observed grid is a parameter of DiamondDash.Frame, and the endless loop is modelled one frame at a time.

## Findings

| source | as written | input that shows it | evidently intended | confidence | as-written member | corrected member |
|---|---|---|---|---|---|---|
| 1.Boggle/Boggle.java:86-92 | the node list is `new ArrayList<Node>(input.length())`, which has size 0, and is then filled with `nodes.set(i, …)` | any non-empty input, e.g. "abcd": `nodes.set(0, …)` on an empty list throws IndexOutOfBoundsException, so `new Boggle(input)` fails | one slot per character (or `nodes.add`), node i at (i / dim, i % dim) | not executed | BoggleBoard.BuildBoardAsWritten | BoggleBoard.BuildBoard |
| 2.N-Puzzle/SlidingPuzzleSolver.java:35-50 | solvable iff (1 + zeroIndex / dim + inversions) is even, for every dimension | the solved 3 by 3 board 1 2 3 4 5 6 7 8 0: zero row 3, no inversions, sum 3 odd, so `solve` throws "not solvable" | for odd dimensions solvable iff the inversion count is even; for even dimensions the rule as written is right | not executed | Solvability.AsWrittenRejectsSolved | PuzzleSolve.SolveCorrected |

`PuzzleSolve.Solve` runs the rule as written, as the code does, so it reports the solved 3 by 3 board as not solvable. `PuzzleSolve.SolveCorrected` runs the corrected rule (`Solvability.CheckSolvableCorrected`), and its contract proves that the solved board of every dimension is never reported as not solvable. The two rules agree on every board of even dimension.

`BoggleBoard.BuildBoardAsWritten` follows `buildBoard` call for call and fails on every non-empty input. `BoggleBoard.SetNodesIntoSlots` proves that the same loop of sets, run on a list that already has one slot per character, yields exactly `BoggleBoard.BuildBoard`'s board, which the Boggle solvers use.
