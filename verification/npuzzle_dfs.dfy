/** DFSSolver and IDAStarSolver: depth-first backtracking over the boards not
    on the current path. The visited set holds the boards of the path from
    the start: a board is added on entry and removed again when the search
    below it fails. The IDA* search is the same with a bound on moves plus
    distance, raised by 5 after every failed round. */
module PuzzleDfs {
  import opened Common
  import opened PuzzleBoard
  import opened PuzzleRules
  import opened PuzzleState
  import opened PuzzleSearch

  /** findSolution of the depth-first solver. A found state is passed up
      unchanged; when nothing is found, visited is handed back as it came
      in. */
  method FindSolution(s: BoardState, ghost start: BoardState, visited: set<seq<int>>)
    returns (r: Option<BoardState>, visitedOut: set<seq<int>>)
    requires start.board.dimension >= 1 && Reached(s, start)
    requires visited <= Universe(start.board.dimension) && s.board.values !in visited
    decreases |Universe(start.board.dimension) - visited|
    ensures r.Some? ==> Answer(r.value, start) && r.value.distance == 0
    ensures r.None? ==> visitedOut == visited
  {
    if StateSolved(s) {
      SolvedAnswer(s, start);
      return Some(s), visited;
    }
    ghost var universe := Universe(start.board.dimension);
    var path := visited + {s.board.values};
    SuccessorsReached(s, start);
    assert Consistent(s);
    InUniverse(s.board);
    VisitShrinks(universe, visited, s.board.values);
    var next := GeneratePossibleMoves(s);
    var k := 0;
    while k < 4
      invariant 0 <= k <= 4
    {
      if next[k].Some? && next[k].value.board.values !in path {
        var found, out := FindSolution(next[k].value, start, path);
        if found.Some? {
          return found, out;
        }
      }
      k := k + 1;
    }
    return None, path - {s.board.values};
  }

  /** solvePuzzle of the depth-first solver. */
  method DfsSolve(board: Board) returns (r: Option<BoardState>)
    requires IsPuzzle(board)
    ensures r.Some? ==> Answer(r.value, InitBoardState(board))
  {
    var start := InitBoardState(board);
    var visited;
    r, visited := FindSolution(start, start, {});
  }

  /** findSolution of the IDA* solver: as the depth-first one, but a
      successor whose moves plus distance exceed the limit is not entered.
      Every state it enters is within the limit, so a found state is at most
      `limit` moves from the start. */
  method FindBounded(s: BoardState, ghost start: BoardState, visited: set<seq<int>>, limit: int)
    returns (r: Option<BoardState>, visitedOut: set<seq<int>>)
    requires start.board.dimension >= 1 && Reached(s, start)
    requires visited <= Universe(start.board.dimension) && s.board.values !in visited
    requires s.moves + s.distance <= limit
    decreases |Universe(start.board.dimension) - visited|
    ensures r.Some? ==> Answer(r.value, start) && r.value.distance == 0 && r.value.moves <= limit
    ensures r.None? ==> visitedOut == visited
  {
    if StateSolved(s) {
      SolvedAnswer(s, start);
      return Some(s), visited;
    }
    ghost var universe := Universe(start.board.dimension);
    var path := visited + {s.board.values};
    SuccessorsReached(s, start);
    assert Consistent(s);
    InUniverse(s.board);
    VisitShrinks(universe, visited, s.board.values);
    var next := GeneratePossibleMoves(s);
    var k := 0;
    while k < 4
      invariant 0 <= k <= 4
    {
      if next[k].Some? && next[k].value.board.values !in path && next[k].value.moves + next[k].value.distance <= limit {
        var found, out := FindBounded(next[k].value, start, path, limit);
        if found.Some? {
          return found, out;
        }
      }
      k := k + 1;
    }
    return None, path - {s.board.values};
  }

  /** solvePuzzle of the IDA* solver, for at most `rounds` rounds: the first
      limit is the start state's distance and every failed round raises it
      by 5. Each round starts from an empty visited set, as the failed round
      before it left it. A result found in round `found` (counting from 1)
      is within that round's limit. */
  method IdaStarSolve(board: Board, rounds: nat) returns (r: Option<BoardState>, ghost found: nat)
    requires IsPuzzle(board)
    ensures r.Some? ==> Answer(r.value, InitBoardState(board))
    ensures r.Some? ==> 1 <= found <= rounds && r.value.moves <= BoardDistance(board) + 5 * (found - 1)
    ensures r.Some? ==> rounds >= 1 && r.value.moves <= BoardDistance(board) + 5 * (rounds - 1)
  {
    found := 0;
    var start := InitBoardState(board);
    var visited: set<seq<int>> := {};
    var limit := start.distance;
    var round := 0;
    while round < rounds
      invariant 0 <= round <= rounds
      invariant limit == BoardDistance(board) + 5 * round && visited == {}
    {
      var hit, out := FindBounded(start, start, visited, limit);
      if hit.Some? {
        return hit, round + 1;
      }
      visited := out;
      limit := limit + 5;
      round := round + 1;
    }
    return None, 0;
  }
}
