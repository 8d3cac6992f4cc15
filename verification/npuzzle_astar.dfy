/** AStarSolver: best-first search ordered by moves plus distance. The
    priority queue hands out a state whose sum is least; a board is marked
    visited when its state is enqueued, as in the breadth-first solver. */
module PuzzleAStar {
  import opened Common
  import opened PuzzleBoard
  import opened PuzzleRules
  import opened PuzzleState
  import opened PuzzleSearch

  /** The priority of a state: its distance plus its moves. */
  function Priority(s: BoardState): int {
    s.distance + s.moves
  }

  /** BoardStateComparator.compare: -1, 0 or 1 as the first state's
      priority is below, equal to or above the second's. */
  function Compare(a: BoardState, b: BoardState): (c: int)
    ensures c == -1 || c == 0 || c == 1
    ensures c < 0 <==> Priority(a) < Priority(b)
    ensures c == 0 <==> Priority(a) == Priority(b)
  {
    if a.distance + a.moves < b.distance + b.moves then -1
    else if a.distance + a.moves > b.distance + b.moves then 1
    else 0
  }

  /** The comparator is antisymmetric, ... */
  lemma CompareAntisymmetric(a: BoardState, b: BoardState)
    ensures Compare(a, b) == -Compare(b, a)
  {
  }

  /** ... transitive, ... */
  lemma CompareTransitive(a: BoardState, b: BoardState, c: BoardState)
    requires Compare(a, b) <= 0 && Compare(b, c) <= 0
    ensures Compare(a, c) <= 0
  {
  }

  /** ... and states that compare equal compare alike with every other. */
  lemma CompareConsistent(a: BoardState, b: BoardState, c: BoardState)
    requires Compare(a, b) == 0
    ensures Compare(a, c) == Compare(b, c)
  {
  }

  /** The head of the priority queue: the first queued state of least
      priority. Java's PriorityQueue leaves the choice among ties open; this
      model takes the earliest. */
  method Poll(queue: seq<BoardState>) returns (i: int)
    requires queue != []
    ensures 0 <= i < |queue|
    ensures forall j :: 0 <= j < |queue| ==> Compare(queue[i], queue[j]) <= 0
    ensures forall j :: 0 <= j < i ==> Compare(queue[j], queue[i]) > 0
  {
    i := 0;
    var j := 1;
    while j < |queue|
      invariant 0 <= i < j <= |queue|
      invariant forall m :: 0 <= m < j ==> Priority(queue[i]) <= Priority(queue[m])
      invariant forall m :: 0 <= m < i ==> Priority(queue[m]) > Priority(queue[i])
    {
      if Compare(queue[j], queue[i]) < 0 {
        i := j;
      }
      j := j + 1;
    }
  }

  /** Removing one state keeps the others reached. */
  lemma RemoveReached(queue: seq<BoardState>, i: int, start: BoardState)
    requires 0 <= i < |queue| && AllReached(queue, start)
    ensures Reached(queue[i], start) && AllReached(queue[..i] + queue[i + 1..], start)
  {
    var rest := queue[..i] + queue[i + 1..];
    forall m | 0 <= m < |rest|
      ensures Reached(rest[m], start)
    {
      if m < i {
        assert rest[m] == queue[m];
      } else {
        assert rest[m] == queue[m + 1];
      }
    }
  }

  /** solvePuzzle of the A* solver. Besides the answer it gives, as ghost
      results, the states in the order they were polled and the boards in
      the order they were enqueued. Every polled state is reached from the
      start, no board is enqueued twice, every polled board was enqueued
      and, when the search fails, every enqueued board was polled; every
      polled state but the answer is unsolved and had all its successors
      enqueued. */
  method AStarSolve(board: Board) returns (r: Option<BoardState>, ghost polled: seq<BoardState>, ghost enqueued: seq<seq<int>>)
    requires IsPuzzle(board)
    ensures r.Some? ==> Answer(r.value, InitBoardState(board))
    ensures r.Some? ==> polled != [] && r.value == polled[|polled| - 1]
    ensures AllReached(polled, InitBoardState(board))
    ensures Distinct(enqueued) && |enqueued| >= 1 && enqueued[0] == board.values
    ensures multiset(Boards(polled)) <= multiset(enqueued)
    ensures r.None? ==> multiset(Boards(polled)) == multiset(enqueued) && AllExplored(polled, enqueued)
    ensures r.Some? ==> AllExplored(polled[..|polled| - 1], enqueued)
  {
    var start := InitBoardState(board);
    ghost var dim := board.dimension;
    var queue := [start];
    var visited := {board.values};
    enqueued := [board.values];
    polled := [];
    AStarStart(board);
    while queue != []
      invariant Marks(dim, visited, enqueued) && |enqueued| >= 1 && enqueued[0] == board.values
      invariant |visited| == |enqueued|
      invariant AllReached(queue, start) && AllReached(polled, start)
      invariant multiset(enqueued) == multiset(Boards(polled)) + multiset(Boards(queue))
      invariant AllExplored(polled, enqueued)
      decreases |Universe(dim) - visited|, |queue|
    {
      var done;
      ghost var before := polled;
      done, queue, visited, enqueued, polled := Turn(queue, visited, enqueued, polled, start);
      if done.Some? {
        assert polled[..|polled| - 1] == before;
        return done, polled, enqueued;
      }
    }
    assert Boards(queue) == [];
    return None, polled, enqueued;
  }

  /** The state before the first turn: only the start state is queued and
      only its board is visited. */
  lemma AStarStart(board: Board)
    requires IsPuzzle(board)
    ensures var start := InitBoardState(board);
            && Marks(board.dimension, {board.values}, [board.values])
            && AllReached([start], start)
            && multiset([board.values]) == multiset(Boards([])) + multiset(Boards([start]))
  {
    InUniverse(board);
    var start := InitBoardState(board);
    assert Boards([start]) == [board.values];
    assert Boards([]) == [];
  }

  /** Taking the state at index i out of the queue: it is reached, the
      rest stays reached, and its board moves from the queued boards to the
      polled ones. */
  lemma Take(queue: seq<BoardState>, i: int, polled: seq<BoardState>, start: BoardState)
    requires 0 <= i < |queue| && AllReached(queue, start) && AllReached(polled, start)
    ensures var rest := queue[..i] + queue[i + 1..];
            && Reached(queue[i], start) && AllReached(rest, start) && AllReached(polled + [queue[i]], start)
            && multiset(Boards(polled)) + multiset(Boards(queue))
               == multiset(Boards(polled + [queue[i]])) + multiset(Boards(rest))
  {
    RemoveReached(queue, i, start);
    TakeBoards(queue, i, polled);
    ReachedAppend(polled, queue[i], start);
  }

  /** One turn of the loop: the head of the priority queue is polled; a
      solved state ends the search, otherwise its new successors are
      queued. */
  method Turn(queue: seq<BoardState>, visited: set<seq<int>>, ghost enqueued: seq<seq<int>>,
              ghost polled: seq<BoardState>, ghost start: BoardState)
    returns (done: Option<BoardState>, queue': seq<BoardState>, visited': set<seq<int>>,
             ghost enqueued': seq<seq<int>>, ghost polled': seq<BoardState>)
    requires start.board.dimension >= 1 && queue != []
    requires Marks(start.board.dimension, visited, enqueued) && |visited| == |enqueued|
    requires AllReached(queue, start) && AllReached(polled, start)
    requires multiset(enqueued) == multiset(Boards(polled)) + multiset(Boards(queue))
    requires AllExplored(polled, enqueued)
    ensures Marks(start.board.dimension, visited', enqueued') && |visited'| == |enqueued'|
    ensures enqueued <= enqueued'
    ensures AllReached(queue', start) && AllReached(polled', start)
    ensures multiset(enqueued') == multiset(Boards(polled')) + multiset(Boards(queue'))
    ensures done.Some? ==> Answer(done.value, start) && polled' == polled + [done.value]
    ensures done.Some? ==> enqueued' == enqueued && AllExplored(polled, enqueued)
    ensures done.None? ==> AllExplored(polled', enqueued')
    ensures done.None? ==> var u := Universe(start.board.dimension);
              |u - visited'| < |u - visited| || (|u - visited'| == |u - visited| && |queue'| < |queue|)
  {
    var current;
    current, queue', polled' := PollNext(queue, polled, start);
    if IsSolved(current.board) {
      visited', enqueued' := visited, enqueued;
      return Some(current), queue', visited', enqueued', polled';
    }
    queue', visited', enqueued' := PushSuccessors(current, queue', visited, enqueued, polled, start);
    done := None;
  }

  /** The first half of a turn of the loop: the head of the priority queue
      is taken out of the queue and recorded as polled. */
  method PollNext(queue: seq<BoardState>, ghost polled: seq<BoardState>, ghost start: BoardState)
    returns (current: BoardState, queue': seq<BoardState>, ghost polled': seq<BoardState>)
    requires queue != [] && AllReached(queue, start) && AllReached(polled, start)
    ensures current in queue && forall j :: 0 <= j < |queue| ==> Compare(current, queue[j]) <= 0
    ensures |queue'| == |queue| - 1 && polled' == polled + [current]
    ensures Reached(current, start) && AllReached(queue', start) && AllReached(polled', start)
    ensures multiset(Boards(polled)) + multiset(Boards(queue))
            == multiset(Boards(polled')) + multiset(Boards(queue'))
  {
    var i := Poll(queue);
    current := queue[i];
    Take(queue, i, polled, start);
    queue' := queue[..i] + queue[i + 1..];
    polled' := polled + [current];
  }

  /** The multiset of boards is unchanged when a queued state is polled. */
  lemma TakeBoards(queue: seq<BoardState>, i: int, polled: seq<BoardState>)
    requires 0 <= i < |queue|
    ensures multiset(Boards(polled)) + multiset(Boards(queue))
            == multiset(Boards(polled + [queue[i]])) + multiset(Boards(queue[..i] + queue[i + 1..]))
  {
    var a, b := queue[..i], queue[i + 1..];
    assert queue == a + [queue[i]] + b;
    BoardsConcat(a + [queue[i]], b);
    BoardsConcat(a, [queue[i]]);
    BoardsConcat(a, b);
    BoardsConcat(polled, [queue[i]]);
  }

  /** Queueing the added states and enqueueing their boards keeps the
      multiset of boards in step. */
  lemma PushBoards(polled: seq<BoardState>, queue: seq<BoardState>, added: seq<BoardState>,
                   enqueued: seq<seq<int>>, enqueuedOut: seq<seq<int>>)
    requires multiset(enqueued) == multiset(Boards(polled)) + multiset(Boards(queue))
    requires enqueuedOut == enqueued + Boards(added)
    ensures multiset(enqueuedOut) == multiset(Boards(polled)) + multiset(Boards(queue + added))
  {
    BoardsConcat(queue, added);
  }

  /** The second half of a turn of the loop: the successors of the polled,
      unsolved state whose boards are new are marked and queued, and the
      state counts as explored. Either a board was newly visited or nothing
      changed. */
  method PushSuccessors(current: BoardState, queue: seq<BoardState>, visited: set<seq<int>>, ghost enqueued: seq<seq<int>>,
                        ghost before: seq<BoardState>, ghost start: BoardState)
    returns (queue': seq<BoardState>, visited': set<seq<int>>, ghost enqueued': seq<seq<int>>)
    requires start.board.dimension >= 1 && Reached(current, start) && !IsSolved(current.board)
    requires Marks(start.board.dimension, visited, enqueued) && |visited| == |enqueued|
    requires AllReached(queue, start)
    requires multiset(enqueued) == multiset(Boards(before + [current])) + multiset(Boards(queue))
    requires AllExplored(before, enqueued)
    ensures Marks(start.board.dimension, visited', enqueued') && |visited'| == |enqueued'|
    ensures enqueued <= enqueued'
    ensures AllReached(queue', start)
    ensures multiset(enqueued') == multiset(Boards(before + [current])) + multiset(Boards(queue'))
    ensures AllExplored(before + [current], enqueued')
    ensures var u := Universe(start.board.dimension);
            |u - visited'| < |u - visited| || (visited' == visited && queue' == queue)
  {
    var next := GeneratePossibleMoves(current);
    SuccessorsReached(current, start);
    var added;
    added, visited', enqueued' := Expand(next, start.board.dimension, visited, enqueued);
    QueueReached(queue, next, added, start);
    PushBoards(before + [current], queue, added, enqueued, enqueued');
    ExpandedAllExplored(before, current, enqueued, added, start.board.dimension, visited', enqueued');
    queue' := queue + added;
  }
}
