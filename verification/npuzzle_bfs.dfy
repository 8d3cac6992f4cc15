/** BFSSolver: breadth-first search from the start state. A board is marked
    visited when its state is enqueued, so no board is enqueued twice, and
    the first dequeued state whose board is solved is the answer. */
module PuzzleBfs {
  import opened Common
  import opened PuzzleBoard
  import opened PuzzleRules
  import opened PuzzleState
  import opened PuzzleSearch

  /** The move counts of a list of states never decrease. */
  predicate MovesAscending(states: seq<BoardState>) {
    forall i, j :: 0 <= i < j < |states| ==> states[i].moves <= states[j].moves
  }

  /** solvePuzzle of the breadth-first solver. Besides the answer it gives,
      as ghost results, the states in the order they left the queue and the
      boards in the order they were enqueued. The queue is first in, first
      out: the dequeued boards are a prefix of the enqueued ones, and when
      the search fails they are all of them. Every dequeued state is reached
      from the start, the queue hands them out in order of their move
      counts, no board is enqueued twice, and every dequeued state but the
      answer is unsolved and had all its successors enqueued. */
  method BfsSolve(board: Board) returns (r: Option<BoardState>, ghost dequeued: seq<BoardState>, ghost enqueued: seq<seq<int>>)
    requires IsPuzzle(board)
    ensures r.Some? ==> Answer(r.value, InitBoardState(board))
    ensures r.Some? ==> dequeued != [] && r.value == dequeued[|dequeued| - 1]
    ensures AllReached(dequeued, InitBoardState(board))
    ensures MovesAscending(dequeued)
    ensures Distinct(enqueued) && |enqueued| >= 1 && enqueued[0] == board.values
    ensures Boards(dequeued) <= enqueued
    ensures r.None? ==> Boards(dequeued) == enqueued && AllExplored(dequeued, enqueued)
    ensures r.Some? ==> AllExplored(dequeued[..|dequeued| - 1], enqueued)
  {
    var start := InitBoardState(board);
    ghost var dim := board.dimension;
    var queue := [start];
    var visited := {board.values};
    enqueued := [board.values];
    dequeued := [];
    ghost var level := 0;
    BfsStart(board);
    while queue != []
      invariant Marks(dim, visited, enqueued) && |enqueued| >= 1 && enqueued[0] == board.values
      invariant |visited| == |enqueued|
      invariant AllReached(queue, start) && AllReached(dequeued, start)
      invariant Levels(queue, dequeued, level)
      invariant enqueued == Boards(dequeued) + Boards(queue)
      invariant AllExplored(dequeued, enqueued)
      decreases |Universe(dim) - visited|, |queue|
    {
      var current := queue[0];
      Pop(queue, dequeued, level, start);
      ghost var before := dequeued;
      queue := queue[1..];
      dequeued := dequeued + [current];
      level := current.moves;
      if IsSolved(current.board) {
        assert dequeued[..|dequeued| - 1] == before;
        return Some(current), dequeued, enqueued;
      }
      queue, visited, enqueued := EnqueueSuccessors(current, queue, visited, enqueued, before, start);
    }
    assert Boards(queue) == [];
    return None, dequeued, enqueued;
  }

  /** The second half of a turn of the loop: the successors of the
      dequeued, unsolved state whose boards are new are marked and queued,
      and the state counts as explored. Either a board was newly visited
      or nothing changed. */
  method EnqueueSuccessors(current: BoardState, queue: seq<BoardState>, visited: set<seq<int>>, ghost enqueued: seq<seq<int>>,
                           ghost before: seq<BoardState>, ghost start: BoardState)
    returns (queue': seq<BoardState>, visited': set<seq<int>>, ghost enqueued': seq<seq<int>>)
    requires start.board.dimension >= 1 && Reached(current, start) && !IsSolved(current.board)
    requires Marks(start.board.dimension, visited, enqueued) && |visited| == |enqueued|
    requires AllReached(queue, start)
    requires Levels(queue, before + [current], current.moves)
    requires enqueued == Boards(before + [current]) + Boards(queue)
    requires AllExplored(before, enqueued)
    ensures Marks(start.board.dimension, visited', enqueued') && |visited'| == |enqueued'|
    ensures enqueued <= enqueued'
    ensures AllReached(queue', start)
    ensures Levels(queue', before + [current], current.moves)
    ensures enqueued' == Boards(before + [current]) + Boards(queue')
    ensures AllExplored(before + [current], enqueued')
    ensures var u := Universe(start.board.dimension);
            |u - visited'| < |u - visited| || (visited' == visited && queue' == queue)
  {
    var next := GeneratePossibleMoves(current);
    SuccessorsReached(current, start);
    var added;
    added, visited', enqueued' := Expand(next, start.board.dimension, visited, enqueued);
    QueueAdded(next, queue, before + [current], current.moves, added, start);
    ExpandBoards(before, current, queue, added, enqueued, start.board.dimension, visited', enqueued');
    queue' := queue + added;
  }

  /** Queueing successors of the state just dequeued keeps the queue
      reached and in order of move counts. */
  lemma QueueAdded(next: seq<Option<BoardState>>, queue: seq<BoardState>, dequeued: seq<BoardState>, level: int,
                   added: seq<BoardState>, start: BoardState)
    requires forall k :: 0 <= k < |next| && next[k].Some? ==> Reached(next[k].value, start) && next[k].value.moves == level + 1
    requires AllReached(queue, start) && Levels(queue, dequeued, level)
    requires forall i :: 0 <= i < |added| ==> Some(added[i]) in next
    ensures AllReached(queue + added, start) && Levels(queue + added, dequeued, level)
  {
    QueueReached(queue, next, added, start);
    AddedMoves(next, added, level + 1);
    AppendLevels(queue, dequeued, added, level);
  }

  /** The state before the first turn: only the start state is queued and
      only its board is visited. */
  lemma BfsStart(board: Board)
    requires IsPuzzle(board)
    ensures var start := InitBoardState(board);
            && Marks(board.dimension, {board.values}, [board.values])
            && AllReached([start], start) && Levels([start], [], 0)
            && [board.values] == Boards([]) + Boards([start])
  {
    InUniverse(board);
    var start := InitBoardState(board);
    assert Boards([start]) == [board.values];
  }

  /** Taking the head of the queue: it is reached, its board comes next
      in the enqueued order, and its move count becomes the level. */
  lemma Pop(queue: seq<BoardState>, dequeued: seq<BoardState>, level: int, start: BoardState)
    requires queue != [] && Levels(queue, dequeued, level)
    requires AllReached(queue, start) && AllReached(dequeued, start)
    ensures Reached(queue[0], start) && AllReached(queue[1..], start) && AllReached(dequeued + [queue[0]], start)
    ensures Levels(queue[1..], dequeued + [queue[0]], queue[0].moves)
    ensures Boards(dequeued) + Boards(queue) == Boards(dequeued + [queue[0]]) + Boards(queue[1..])
  {
    Dequeue(queue, dequeued, level, start);
    DequeueBoards(queue, dequeued, start);
  }

  /** Moving the head of the queue to the dequeued states keeps the boards
      in the order they were enqueued, and keeps the dequeued states
      reached. */
  lemma DequeueBoards(queue: seq<BoardState>, dequeued: seq<BoardState>, start: BoardState)
    requires queue != [] && Reached(queue[0], start) && AllReached(dequeued, start)
    ensures Boards(dequeued) + Boards(queue) == Boards(dequeued + [queue[0]]) + Boards(queue[1..])
    ensures AllReached(dequeued + [queue[0]], start)
  {
    assert queue == [queue[0]] + queue[1..];
    BoardsConcat([queue[0]], queue[1..]);
    BoardsConcat(dequeued, [queue[0]]);
  }

  /** After the successors of an unsolved state are expanded, the state is
      explored, the earlier ones stay explored, and the enqueued boards are
      still the dequeued ones followed by the queue. */
  lemma ExpandBoards(before: seq<BoardState>, current: BoardState, queue: seq<BoardState>, added: seq<BoardState>,
                     enqueued: seq<seq<int>>, dim: int, visitedOut: set<seq<int>>, enqueuedOut: seq<seq<int>>)
    requires enqueued == Boards(before + [current]) + Boards(queue)
    requires enqueuedOut == enqueued + Boards(added)
    requires dim >= 1 && Marks(dim, visitedOut, enqueuedOut) && |visitedOut| == |enqueuedOut|
    requires AllExplored(before, enqueued)
    requires Movable(current) && !IsSolved(current.board)
    requires var next := GeneratePossibleMoves(current);
             forall k :: 0 <= k < |next| && next[k].Some? ==> next[k].value.board.values in visitedOut
    ensures enqueuedOut == Boards(before + [current]) + Boards(queue + added)
    ensures AllExplored(before + [current], enqueuedOut)
  {
    BoardsConcat(queue, added);
    assert enqueuedOut == Boards(before + [current]) + (Boards(queue) + Boards(added));
    ExpandedAllExplored(before, current, enqueued, added, dim, visitedOut, enqueuedOut);
  }

  /** States taken from the successors carry the successors' move count. */
  lemma AddedMoves(next: seq<Option<BoardState>>, added: seq<BoardState>, m: int)
    requires forall k :: 0 <= k < |next| && next[k].Some? ==> next[k].value.moves == m
    requires forall i :: 0 <= i < |added| ==> Some(added[i]) in next
    ensures forall i :: 0 <= i < |added| ==> added[i].moves == m
  {
    forall i | 0 <= i < |added|
      ensures added[i].moves == m
    {
      var k :| 0 <= k < |next| && next[k] == Some(added[i]);
    }
  }

  /** The queue runs in order of move counts, within one move of the
      level (the move count of the state dequeued last); every state
      dequeued so far is at most at that level, and they left in order. */
  predicate Levels(queue: seq<BoardState>, dequeued: seq<BoardState>, level: int) {
    && (forall i :: 0 <= i < |queue| ==> level <= queue[i].moves <= level + 1)
    && MovesAscending(queue)
    && (forall i :: 0 <= i < |dequeued| ==> dequeued[i].moves <= level)
    && MovesAscending(dequeued)
  }

  /** Taking the head of the queue: it is reached, the rest stays reached,
      and the order holds with the head's move count as the new level. */
  lemma Dequeue(queue: seq<BoardState>, dequeued: seq<BoardState>, level: int, start: BoardState)
    requires queue != [] && Levels(queue, dequeued, level) && AllReached(queue, start)
    ensures Reached(queue[0], start) && AllReached(queue[1..], start)
    ensures Levels(queue[1..], dequeued + [queue[0]], queue[0].moves)
  {
    DequeueLevels(queue, dequeued, level);
    forall i | 0 <= i < |queue| - 1
      ensures Reached(queue[1..][i], start)
    {
      assert queue[1..][i] == queue[i + 1];
    }
  }

  lemma DequeueLevels(queue: seq<BoardState>, dequeued: seq<BoardState>, level: int)
    requires queue != [] && Levels(queue, dequeued, level)
    ensures Levels(queue[1..], dequeued + [queue[0]], queue[0].moves)
  {
  }

  /** Appending states one move deeper than the level keeps the order. */
  lemma AppendLevels(queue: seq<BoardState>, dequeued: seq<BoardState>, added: seq<BoardState>, level: int)
    requires Levels(queue, dequeued, level)
    requires forall i :: 0 <= i < |added| ==> added[i].moves == level + 1
    ensures Levels(queue + added, dequeued, level)
  {
  }
}
