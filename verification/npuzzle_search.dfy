/** What the N-Puzzle searches share: isSolved(BoardState), and the loop
    by which the breadth-first and A* solvers expand a dequeued state --
    every successor that is on the board and whose board has not been seen
    is marked visited and enqueued. */
module PuzzleSearch {
  import opened Common
  import opened PuzzleBoard
  import opened PuzzleRules
  import opened PuzzleState

  /** isSolved(BoardState): the stored distance is zero. On a consistent
      state this is isSolved(Board) of its board. */
  function StateSolved(s: BoardState): (r: bool)
    ensures Consistent(s) ==> (r <==> IsSolved(s.board))
  {
    if Consistent(s) then SolvedIffNoDistance(s.board); s.distance == 0
    else s.distance == 0
  }

  /** What a solver's answer is: a state reached from the start whose board
      is solved. */
  predicate Answer(r: BoardState, start: BoardState) {
    Reached(r, start) && Square(r.board) && IsSolved(r.board)
  }

  /** A reached state of distance zero is an answer. */
  lemma SolvedAnswer(s: BoardState, start: BoardState)
    requires Reached(s, start) && StateSolved(s)
    ensures Answer(s, start)
  {
  }

  /** The boards of a list of states. */
  function Boards(states: seq<BoardState>): seq<seq<int>> {
    seq(|states|, i requires 0 <= i < |states| => states[i].board.values)
  }

  lemma BoardsConcat(a: seq<BoardState>, b: seq<BoardState>)
    ensures Boards(a + b) == Boards(a) + Boards(b)
  {
  }

  predicate Distinct(xs: seq<seq<int>>) {
    forall i, j :: 0 <= i < j < |xs| ==> xs[i] != xs[j]
  }

  /** What a queue-based search keeps of its marks: every visited board is
      a board of the dimension, the boards enqueued so far are distinct, and
      the visited boards are exactly the enqueued ones. */
  predicate Marks(dim: int, visited: set<seq<int>>, enqueued: seq<seq<int>>)
    requires dim >= 1
  {
    && visited <= Universe(dim)
    && Distinct(enqueued)
    && (forall i :: 0 <= i < |enqueued| ==> enqueued[i] in visited)
  }

  /** The members of a list, as a set. */
  function Elements(xs: seq<seq<int>>): set<seq<int>> {
    set x | x in xs
  }

  lemma ElementsConcat(a: seq<seq<int>>, b: seq<seq<int>>)
    ensures Elements(a + b) == Elements(a) + Elements(b)
  {
  }

  /** The members of a list without repeats are as many as its length. */
  lemma {:induction false} DistinctElements(xs: seq<seq<int>>)
    requires Distinct(xs)
    ensures |Elements(xs)| == |xs|
  {
    if xs != [] {
      var n := |xs| - 1;
      assert xs == xs[..n] + [xs[n]];
      ElementsConcat(xs[..n], [xs[n]]);
      assert Elements([xs[n]]) == {xs[n]};
      assert xs[n] !in xs[..n];
      DistinctElements(xs[..n]);
    }
  }

  /** Marks whose visited set is as large as the list of enqueued boards:
      the visited boards are exactly the enqueued ones. */
  lemma VisitedEnqueued(dim: int, visited: set<seq<int>>, enqueued: seq<seq<int>>)
    requires dim >= 1 && Marks(dim, visited, enqueued) && |visited| == |enqueued|
    ensures visited == Elements(enqueued)
  {
    var e := Elements(enqueued);
    DistinctElements(enqueued);
    assert e <= visited;
    assert visited == e + (visited - e);
    assert |visited - e| == 0;
  }

  /** A state whose successors a search has put in the queue: the board of
      every slide from it is among the enqueued boards. */
  predicate Explored(s: BoardState, enqueued: seq<seq<int>>) {
    Movable(s) &&
    forall k :: 0 <= k < 4 && MakeMove(s, Directions[k]).Some? ==>
      MakeMove(s, Directions[k]).value.board.values in enqueued
  }

  /** Every state of the list was expanded: it is explored and not
      solved. */
  predicate AllExplored(states: seq<BoardState>, enqueued: seq<seq<int>>) {
    forall i :: 0 <= i < |states| ==> Explored(states[i], enqueued) && !IsSolved(states[i].board)
  }

  /** Enqueueing more boards keeps a state explored. */
  lemma AllExploredGrows(states: seq<BoardState>, enqueued: seq<seq<int>>, more: seq<seq<int>>)
    requires AllExplored(states, enqueued)
    ensures AllExplored(states, enqueued + more)
  {
    forall i, k | 0 <= i < |states| && 0 <= k < 4 && MakeMove(states[i], Directions[k]).Some?
      ensures MakeMove(states[i], Directions[k]).value.board.values in enqueued + more
    {
    }
  }

  /** After the successors of an unsolved state are expanded, it is
      explored, and the states expanded before stay explored. */
  lemma ExpandedAllExplored(before: seq<BoardState>, current: BoardState, enqueued: seq<seq<int>>, added: seq<BoardState>,
                            dim: int, visitedOut: set<seq<int>>, enqueuedOut: seq<seq<int>>)
    requires enqueuedOut == enqueued + Boards(added)
    requires dim >= 1 && Marks(dim, visitedOut, enqueuedOut) && |visitedOut| == |enqueuedOut|
    requires AllExplored(before, enqueued)
    requires Movable(current) && !IsSolved(current.board)
    requires var next := GeneratePossibleMoves(current);
             forall k :: 0 <= k < |next| && next[k].Some? ==> next[k].value.board.values in visitedOut
    ensures AllExplored(before + [current], enqueuedOut)
  {
    AllExploredGrows(before, enqueued, Boards(added));
    VisitedEnqueued(dim, visitedOut, enqueuedOut);
    ExpandExplored(current, visitedOut, enqueuedOut);
    ExploredAppend(before, current, enqueuedOut);
  }

  /** An explored, unsolved state joins a list of expanded ones. */
  lemma ExploredAppend(states: seq<BoardState>, s: BoardState, enqueued: seq<seq<int>>)
    requires AllExplored(states, enqueued) && Explored(s, enqueued) && !IsSolved(s.board)
    ensures AllExplored(states + [s], enqueued)
  {
    var ds := states + [s];
    forall i | 0 <= i < |ds|
      ensures Explored(ds[i], enqueued) && !IsSolved(ds[i].board)
    {
      if i < |states| {
        assert ds[i] == states[i];
      }
    }
  }

  /** After Expand has run over the successors of a state, the state is
      explored: each successor's board is visited, and the visited boards
      are the enqueued ones. */
  lemma ExpandExplored(current: BoardState, visited: set<seq<int>>, enqueued: seq<seq<int>>)
    requires Movable(current) && visited == Elements(enqueued)
    requires var next := GeneratePossibleMoves(current);
             forall k :: 0 <= k < |next| && next[k].Some? ==> next[k].value.board.values in visited
    ensures Explored(current, enqueued)
  {
    var next := GeneratePossibleMoves(current);
    forall k | 0 <= k < 4 && MakeMove(current, Directions[k]).Some?
      ensures MakeMove(current, Directions[k]).value.board.values in enqueued
    {
      assert next[k] == MakeMove(current, Directions[k]);
    }
  }

  /** The loop invariant of Expand after the first k entries of next. */
  predicate Expanded(next: seq<Option<BoardState>>, dim: int, visited: set<seq<int>>, enqueued: seq<seq<int>>,
                     k: int, added: seq<BoardState>, visitedOut: set<seq<int>>, enqueuedOut: seq<seq<int>>)
    requires dim >= 1
  {
    && 0 <= k <= |next|
    && Marks(dim, visitedOut, enqueuedOut)
    && enqueuedOut == enqueued + Boards(added)
    && visited <= visitedOut
    && |visitedOut| == |visited| + |added|
    && (forall i :: 0 <= i < |added| ==> Some(added[i]) in next && added[i].board.values !in visited)
    && (forall j :: 0 <= j < k && next[j].Some? ==> next[j].value.board.values in visitedOut)
    && (added == [] ==> visitedOut == visited)
    && (added != [] ==> |Universe(dim) - visitedOut| < |Universe(dim) - visited|)
  }

  /** The successor loop of the breadth-first and A* solvers, over the
      successors `next` of the dequeued state: every entry that is present
      and whose board is not visited is visited and enqueued, in order.
      Afterwards every present entry is visited, and visiting anything
      leaves fewer boards unvisited. */
  method Expand(next: seq<Option<BoardState>>, ghost dim: int, visited: set<seq<int>>, ghost enqueued: seq<seq<int>>)
    returns (added: seq<BoardState>, visitedOut: set<seq<int>>, ghost enqueuedOut: seq<seq<int>>)
    requires dim >= 1 && Marks(dim, visited, enqueued)
    requires forall k :: 0 <= k < |next| && next[k].Some? ==> next[k].value.board.values in Universe(dim)
    ensures Marks(dim, visitedOut, enqueuedOut)
    ensures enqueuedOut == enqueued + Boards(added)
    ensures |visitedOut| == |visited| + |added|
    ensures forall i :: 0 <= i < |added| ==> Some(added[i]) in next && added[i].board.values !in visited
    ensures forall k :: 0 <= k < |next| && next[k].Some? ==> next[k].value.board.values in visitedOut
    ensures added == [] ==> visitedOut == visited
    ensures added != [] ==> |Universe(dim) - visitedOut| < |Universe(dim) - visited|
  {
    added, visitedOut, enqueuedOut := [], visited, enqueued;
    var k := 0;
    while k < |next|
      invariant Expanded(next, dim, visited, enqueued, k, added, visitedOut, enqueuedOut)
    {
      if next[k].Some? && next[k].value.board.values !in visitedOut {
        var t := next[k].value;
        ExpandAdd(next, dim, visited, enqueued, k, added, visitedOut, enqueuedOut);
        visitedOut := visitedOut + {t.board.values};
        enqueuedOut := enqueuedOut + [t.board.values];
        added := added + [t];
      }
      k := k + 1;
    }
  }

  lemma ExpandAdd(next: seq<Option<BoardState>>, dim: int, visited: set<seq<int>>, enqueued: seq<seq<int>>,
                  k: int, added: seq<BoardState>, visitedOut: set<seq<int>>, enqueuedOut: seq<seq<int>>)
    requires dim >= 1
    requires forall k :: 0 <= k < |next| && next[k].Some? ==> next[k].value.board.values in Universe(dim)
    requires Expanded(next, dim, visited, enqueued, k, added, visitedOut, enqueuedOut) && k < |next|
    requires next[k].Some? && next[k].value.board.values !in visitedOut
    ensures var t := next[k].value;
            Expanded(next, dim, visited, enqueued, k + 1, added + [t],
                     visitedOut + {t.board.values}, enqueuedOut + [t.board.values])
  {
    var t := next[k].value;
    AddMark(dim, visitedOut, enqueuedOut, t.board.values);
    BoardsConcat(added, [t]);
    AddFromNext(next, k, visited, added);
    VisitShrinks(Universe(dim), visitedOut, t.board.values);
  }

  /** Marking a new board of the dimension keeps the marks. */
  lemma AddMark(dim: int, visited: set<seq<int>>, enqueued: seq<seq<int>>, x: seq<int>)
    requires dim >= 1 && Marks(dim, visited, enqueued) && x in Universe(dim) && x !in visited
    ensures Marks(dim, visited + {x}, enqueued + [x])
  {
    var e := enqueued + [x];
    assert forall i :: 0 <= i < |enqueued| ==> e[i] == enqueued[i];
  }

  lemma AddFromNext(next: seq<Option<BoardState>>, k: int, visited: set<seq<int>>, added: seq<BoardState>)
    requires 0 <= k < |next| && next[k].Some? && next[k].value.board.values !in visited
    requires forall i :: 0 <= i < |added| ==> Some(added[i]) in next && added[i].board.values !in visited
    ensures var a := added + [next[k].value];
            forall i :: 0 <= i < |a| ==> Some(a[i]) in next && a[i].board.values !in visited
  {
    assert next[k] in next;
  }

  /** Every state in a list is reached from the start. */
  predicate AllReached(queue: seq<BoardState>, start: BoardState) {
    forall i :: 0 <= i < |queue| ==> Reached(queue[i], start)
  }

  /** The successors of a reached state are reached and lie in the finite
      set of boards of the dimension. */
  lemma SuccessorsReached(current: BoardState, start: BoardState)
    requires Reached(current, start) && start.board.dimension >= 1
    ensures var next := GeneratePossibleMoves(current);
            forall k :: 0 <= k < |next| && next[k].Some? ==>
              Reached(next[k].value, start) && next[k].value.moves == current.moves + 1 &&
              next[k].value.board.values in Universe(start.board.dimension)
  {
    var next := GeneratePossibleMoves(current);
    forall k | 0 <= k < |next| && next[k].Some?
      ensures Reached(next[k].value, start) && next[k].value.moves == current.moves + 1
      ensures next[k].value.board.values in Universe(start.board.dimension)
    {
      SuccessorReached(current, start, k);
      MoveLinks(current, Directions[k]);
      InUniverse(next[k].value.board);
    }
  }

  /** Appending a reached state keeps every state of the list reached. */
  lemma ReachedAppend(states: seq<BoardState>, s: BoardState, start: BoardState)
    requires AllReached(states, start) && Reached(s, start)
    ensures AllReached(states + [s], start)
  {
    var p := states + [s];
    forall m | 0 <= m < |p|
      ensures Reached(p[m], start)
    {
      if m < |states| {
        assert p[m] == states[m];
      }
    }
  }

  /** Appending states taken from the successors keeps every queued state
      reached. */
  lemma QueueReached(queue: seq<BoardState>, next: seq<Option<BoardState>>, added: seq<BoardState>, start: BoardState)
    requires AllReached(queue, start)
    requires forall k :: 0 <= k < |next| && next[k].Some? ==> Reached(next[k].value, start)
    requires forall i :: 0 <= i < |added| ==> Some(added[i]) in next
    ensures AllReached(queue + added, start)
  {
    var q := queue + added;
    forall i | 0 <= i < |q|
      ensures Reached(q[i], start)
    {
      if i >= |queue| {
        var k :| 0 <= k < |next| && next[k] == Some(added[i - |queue|]);
      }
    }
  }
}
