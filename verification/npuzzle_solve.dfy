/** SlidingPuzzleSolver.solve: refuse a board that fails the parity test,
    run one of the four searches, and read the solution path back from the
    state it found. Solve runs the parity test as written; SolveCorrected
    runs the corrected one, and the two agree on every board of even
    dimension. */
module PuzzleSolve {
  import opened Common
  import opened PuzzleBoard
  import opened PuzzleRules
  import opened Solvability
  import opened PuzzleState
  import opened PuzzleSearch
  import opened PuzzleBfs
  import opened PuzzleDfs
  import opened PuzzleAStar

  /** The four solvers; the IDA* one runs for at most `rounds` rounds. */
  datatype Algorithm = Bfs | Dfs | IdaStar(rounds: nat) | AStar

  /** NPuzzleBoardIsNotSolvableException, a null result, or the boards
      from the start board to the solved one. */
  datatype Outcome = NotSolvable | NoSolution | Solution(path: seq<Board>)

  /** solvePuzzle, dispatched on the solver. */
  method SolvePuzzle(board: Board, algorithm: Algorithm) returns (r: Option<BoardState>)
    requires IsPuzzle(board)
    ensures r.Some? ==> Answer(r.value, InitBoardState(board))
  {
    match algorithm
    case Bfs =>
      ghost var dequeued, enqueued;
      r, dequeued, enqueued := BfsSolve(board);
    case Dfs =>
      r := DfsSolve(board);
    case IdaStar(rounds) =>
      ghost var round;
      r, round := IdaStarSolve(board, rounds);
    case AStar =>
      ghost var polled, enqueued;
      r, polled, enqueued := AStarSolve(board);
  }

  /** The path read back from an answer starts at the start board, moves
      one slide at a time and ends on a solved board, one board per move. */
  lemma AnswerPath(r: BoardState, board: Board)
    requires IsPuzzle(board) && Answer(r, InitBoardState(board))
    ensures var path := BuildSolutionPath(r);
            |path| == r.moves + 1 && path[0] == board && Slides(path) &&
            Square(path[|path| - 1]) && IsSolved(path[|path| - 1])
  {
    PathSlides(r);
    LinkedLength(r);
  }

  /** What solve does once the parity test has let the board through:
      search, and read the path back from the state found, if any. */
  method SearchOutcome(board: Board, algorithm: Algorithm) returns (o: Outcome, ghost found: Option<BoardState>)
    requires IsPuzzle(board)
    ensures found.Some? ==> Answer(found.value, InitBoardState(board))
    ensures o.NoSolution? <==> found.None?
    ensures found.Some? ==> o == Solution(BuildSolutionPath(found.value))
    ensures o.Solution? ==>
              |o.path| >= 1 && o.path[0] == board && Slides(o.path) &&
              Square(o.path[|o.path| - 1]) && IsSolved(o.path[|o.path| - 1])
  {
    var r := SolvePuzzle(board, algorithm);
    found := r;
    if r.None? {
      return NoSolution, found;
    }
    AnswerPath(r.value, board);
    o := Solution(BuildSolutionPath(r.value));
  }

  /** solve as written: a board that fails the parity test as written is
      refused as not solvable, on every dimension; otherwise the outcome is
      no solution exactly when the search finds nothing, and a solution is
      a path of slides from the board to a solved board. */
  method Solve(board: Board, algorithm: Algorithm) returns (o: Outcome, ghost found: Option<BoardState>)
    requires IsPuzzle(board)
    ensures o.NotSolvable? <==> !IsSolvableAsWritten(board)
    ensures found.Some? ==> Answer(found.value, InitBoardState(board))
    ensures !o.NotSolvable? ==>
              (o.NoSolution? <==> found.None?) && (found.Some? ==> o == Solution(BuildSolutionPath(found.value)))
    ensures o.Solution? ==>
              |o.path| >= 1 && o.path[0] == board && Slides(o.path) &&
              Square(o.path[|o.path| - 1]) && IsSolved(o.path[|o.path| - 1])
  {
    var solvable := CheckSolvable(board);
    if !solvable {
      return NotSolvable, None;
    }
    o, found := SearchOutcome(board, algorithm);
  }

  /** solve with the corrected parity test: the same as Solve, except that
      on an odd dimension a board is turned away only for an odd number of
      inversions, so the solved board of any dimension is never refused. */
  method SolveCorrected(board: Board, algorithm: Algorithm) returns (o: Outcome, ghost found: Option<BoardState>)
    requires IsPuzzle(board)
    ensures o.NotSolvable? <==> !IsSolvable(board)
    ensures board == SolvedBoard(board.dimension) ==> !o.NotSolvable?
    ensures found.Some? ==> Answer(found.value, InitBoardState(board))
    ensures !o.NotSolvable? ==>
              (o.NoSolution? <==> found.None?) && (found.Some? ==> o == Solution(BuildSolutionPath(found.value)))
    ensures o.Solution? ==>
              |o.path| >= 1 && o.path[0] == board && Slides(o.path) &&
              Square(o.path[|o.path| - 1]) && IsSolved(o.path[|o.path| - 1])
  {
    var solvable := CheckSolvableCorrected(board);
    if board == SolvedBoard(board.dimension) {
      SolvableAcceptsSolved(board.dimension);
    }
    if !solvable {
      return NotSolvable, None;
    }
    o, found := SearchOutcome(board, algorithm);
  }
}
