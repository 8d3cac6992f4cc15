/** Search states of the N-Puzzle solvers: a board with the position of its
    empty tile, its distance, the number of moves that led to it and the
    state it was reached from; the four moves of the empty tile; and the
    solution path read back along the previous-state links. */
module PuzzleState {
  import opened Common
  import opened PuzzleBoard
  import opened PuzzleRules
  import opened Solvability

  /** BoardState; `previous` is None for the start state. */
  datatype BoardState = BoardState(board: Board, emptyTile: int, distance: int, moves: int, previous: Option<BoardState>)

  /** The empty tile sits on a square board, so the moves can be computed. */
  predicate Movable(s: BoardState) {
    Square(s.board) && 0 <= s.emptyTile < |s.board.values|
  }

  /** What the solvers rely on: a puzzle board whose empty tile is where the
      state says, with the board distance stored. */
  predicate Consistent(s: BoardState) {
    IsPuzzle(s.board) && 0 <= s.emptyTile < |s.board.values| &&
    s.board.values[s.emptyTile] == 0 && s.distance == BoardDistance(s.board)
  }

  /** initBoardState: the start state of a search. */
  function InitBoardState(b: Board): (s: BoardState)
    requires Square(b)
    ensures s.previous.None? && s.moves == 0 && s.board == b
    ensures IsPuzzle(b) ==> Consistent(s)
  {
    PuzzleHasEmpty(b);
    BoardState(b, ZeroPosition(b), BoardDistance(b), 0, None)
  }

  lemma PuzzleHasEmpty(b: Board)
    ensures IsPuzzle(b) ==> exists k :: 0 <= k < |b.values| && b.values[k] == 0
  {
    if IsPuzzle(b) {
      PigeonZero(b.values);
    }
  }

  /** n distinct values in 0 .. n-1 include 0. */
  lemma PigeonZero(vs: seq<int>)
    requires |vs| >= 1
    requires forall i :: 0 <= i < |vs| ==> 0 <= vs[i] < |vs|
    requires forall i, j :: 0 <= i < j < |vs| ==> vs[i] != vs[j]
    ensures exists k :: 0 <= k < |vs| && vs[k] == 0
  {
    var n := |vs|;
    var values := set i | 0 <= i < n :: vs[i];
    DistinctCount(vs, n);
    RangeHolds(n);
    assert values - {0} <= Range(n) - {0};
    SubsetSize(values - {0}, Range(n) - {0});
    assert 0 in values;
  }

  lemma {:induction false} DistinctCount(vs: seq<int>, n: int)
    requires 0 <= n <= |vs|
    requires forall i, j :: 0 <= i < j < |vs| ==> vs[i] != vs[j]
    ensures |set i | 0 <= i < n :: vs[i]| == n
  {
    var now := set i | 0 <= i < n :: vs[i];
    if n > 0 {
      DistinctCount(vs, n - 1);
      var before := set i | 0 <= i < n - 1 :: vs[i];
      assert now == before + {vs[n - 1]};
      assert vs[n - 1] !in before;
    } else {
      assert now == {};
    }
  }

  /** The numbers 0 .. n-1. */
  function Range(n: int): set<int>
    decreases n
  {
    if n <= 0 then {} else Range(n - 1) + {n - 1}
  }

  lemma {:induction false} RangeHolds(n: int)
    requires n >= 0
    decreases n
    ensures |Range(n)| == n
    ensures forall v :: v in Range(n) <==> 0 <= v < n
  {
    if n > 0 {
      RangeHolds(n - 1);
    }
  }

  // ---------------------------------------------------------------------
  // Moves.

  /** MoveDirection, in declaration order. */
  datatype Direction = North | East | South | West

  const Directions: seq<Direction> := [North, East, South, West]

  /** The row and column steps of the empty tile. */
  function RowStep(d: Direction): int {
    match d
    case North => -1
    case South => 1
    case _ => 0
  }

  function ColumnStep(d: Direction): int {
    match d
    case East => 1
    case West => -1
    case _ => 0
  }

  /** updatePuzzleState: the tile at (row, col) slides into the empty cell,
      the empty tile takes its place, the distance is adjusted by that
      tile's change, one more move is counted and the state links back. */
  function UpdatePuzzleState(s: BoardState, row: int, col: int): (t: BoardState)
    requires Movable(s) && 0 <= row < s.board.dimension && 0 <= col < s.board.dimension
    ensures t.board.dimension == s.board.dimension && |t.board.values| == |s.board.values|
    ensures t.emptyTile == RowColToPosition(s.board.dimension, row, col)
    ensures 0 <= t.emptyTile < |t.board.values| && t.board.values[t.emptyTile] == 0
    ensures t.emptyTile != s.emptyTile ==> t.board.values[s.emptyTile] == s.board.values[t.emptyTile]
    ensures forall k :: 0 <= k < |t.board.values| && k != s.emptyTile && k != t.emptyTile ==>
              t.board.values[k] == s.board.values[k]
    ensures t.moves == s.moves + 1 && t.previous == Some(s)
  {
    var dim := s.board.dimension;
    var values := s.board.values;
    var target := RowColToPosition(dim, row, col);
    PositionRange(dim, row, col);
    var value := values[target];
    var distance := s.distance - Manhattan(value, dim, target) + Manhattan(value, dim, s.emptyTile);
    BoardState(Board(dim, values[s.emptyTile := value][target := 0]), target, distance, s.moves + 1, Some(s))
  }

  lemma PositionRange(dim: int, row: int, col: int)
    requires 0 <= row < dim && 0 <= col < dim
    ensures 0 <= RowColToPosition(dim, row, col) < dim * dim
  {
    assert row * dim <= (dim - 1) * dim;
  }

  /** The switch of makeMove: the cell the empty tile moves to in
      direction d, None when the empty tile is on that edge. */
  function Target(dim: int, emptyTile: int, d: Direction): (t: Option<(int, int)>)
    requires dim > 0 && 0 <= emptyTile < dim * dim
    ensures var row := PositionToRow(dim, emptyTile) + RowStep(d);
            var col := PositionToColumn(dim, emptyTile) + ColumnStep(d);
            (t.None? <==> !(0 <= row < dim && 0 <= col < dim)) &&
            (t.Some? ==> t.value == (row, col))
  {
    var emptyRow := PositionToRow(dim, emptyTile);
    var emptyCol := PositionToColumn(dim, emptyTile);
    PositionSplit(dim, emptyTile);
    match d
    case North => if emptyRow > 0 then Some((emptyRow - 1, emptyCol)) else None
    case East => if emptyCol < dim - 1 then Some((emptyRow, emptyCol + 1)) else None
    case South => if emptyRow < dim - 1 then Some((emptyRow + 1, emptyCol)) else None
    case West => if emptyCol > 0 then Some((emptyRow, emptyCol - 1)) else None
  }

  /** makeMove: the state after moving the empty tile one cell in direction
      d, None when that would leave the board. */
  function MakeMove(s: BoardState, d: Direction): (r: Option<BoardState>)
    requires Movable(s)
    ensures var dim := s.board.dimension;
            var row := PositionToRow(dim, s.emptyTile) + RowStep(d);
            var col := PositionToColumn(dim, s.emptyTile) + ColumnStep(d);
            (r.None? <==> !(0 <= row < dim && 0 <= col < dim)) &&
            (r.Some? ==> r.value == UpdatePuzzleState(s, row, col))
  {
    match Target(s.board.dimension, s.emptyTile, d)
    case None => None
    case Some((row, col)) => Some(UpdatePuzzleState(s, row, col))
  }

  /** generatePossibleMoves: one entry per direction, North, East, South,
      West; an entry is None exactly when the empty tile is on that edge. */
  function GeneratePossibleMoves(s: BoardState): (ms: seq<Option<BoardState>>)
    requires Movable(s)
    ensures |ms| == 4
    ensures forall k :: 0 <= k < 4 ==> ms[k] == MakeMove(s, Directions[k])
    ensures var dim := s.board.dimension;
            var row := PositionToRow(dim, s.emptyTile);
            var col := PositionToColumn(dim, s.emptyTile);
            (ms[0].None? <==> row == 0) && (ms[1].None? <==> col == dim - 1) &&
            (ms[2].None? <==> row == dim - 1) && (ms[3].None? <==> col == 0)
  {
    PositionSplit(s.board.dimension, s.emptyTile);
    seq(4, k requires 0 <= k < 4 => MakeMove(s, Directions[k]))
  }

  // ---------------------------------------------------------------------
  // A move keeps a state consistent.

  /** Incremental distance: when the stored distance is the board distance,
      the successor's stored distance is its board distance. */
  lemma SuccessorDistance(s: BoardState, row: int, col: int)
    requires Movable(s) && 0 <= row < s.board.dimension && 0 <= col < s.board.dimension
    requires s.board.values[s.emptyTile] == 0 && s.distance == BoardDistance(s.board)
    ensures UpdatePuzzleState(s, row, col).distance == BoardDistance(UpdatePuzzleState(s, row, col).board)
  {
    var dim, vs, e := s.board.dimension, s.board.values, s.emptyTile;
    var t := UpdatePuzzleState(s, row, col);
    var p := t.emptyTile;
    var v := vs[p];
    DistanceUpdate(vs, dim, 0, e, v);
    DistanceUpdate(vs[e := v], dim, 0, p, 0);
    assert t.board.values == vs[e := v][p := 0];
  }

  /** Exchanging two cells keeps the values distinct and in range. */
  lemma SwapPuzzle(b: Board, e: int, p: int)
    requires IsPuzzle(b) && 0 <= e < |b.values| && 0 <= p < |b.values|
    ensures IsPuzzle(Board(b.dimension, b.values[e := b.values[p]][p := b.values[e]]))
  {
    var vs := b.values;
    var ws := vs[e := vs[p]][p := vs[e]];
    forall i, j | 0 <= i < j < |ws|
      ensures ws[i] != ws[j]
    {
      var i' := if i == e then p else if i == p then e else i;
      var j' := if j == e then p else if j == p then e else j;
      assert ws[i] == vs[i'] && ws[j] == vs[j'] && i' != j';
    }
  }

  /** A slide keeps a consistent state consistent. */
  lemma UpdateConsistent(s: BoardState, row: int, col: int)
    requires Consistent(s) && 0 <= row < s.board.dimension && 0 <= col < s.board.dimension
    ensures Consistent(UpdatePuzzleState(s, row, col))
  {
    var t := UpdatePuzzleState(s, row, col);
    var vs: seq<int>, e: int, p: int := s.board.values, s.emptyTile, t.emptyTile;
    assert t.board.values == vs[e := vs[p]][p := vs[e]];
    SwapPuzzle(s.board, e, p);
    SuccessorDistance(s, row, col);
  }

  lemma SuccessorConsistent(s: BoardState, d: Direction)
    requires Consistent(s)
    ensures MakeMove(s, d).Some? ==> Consistent(MakeMove(s, d).value)
  {
    var dim := s.board.dimension;
    var row := PositionToRow(dim, s.emptyTile) + RowStep(d);
    var col := PositionToColumn(dim, s.emptyTile) + ColumnStep(d);
    var r := MakeMove(s, d);
    if r.Some? {
      assert 0 <= row < dim && 0 <= col < dim && r.value == UpdatePuzzleState(s, row, col);
      UpdateConsistent(s, row, col);
    }
  }

  // ---------------------------------------------------------------------
  // The chain of previous states.

  /** Every link is a move: each state is one of the generated successors
      of the state before it, with one more move. */
  predicate Linked(s: BoardState)
    decreases s
  {
    match s.previous
    case None => s.moves == 0
    case Some(p) => Linked(p) && Movable(p) && s.moves == p.moves + 1 && Some(s) in GeneratePossibleMoves(p)
  }

  /** The start state of the chain. */
  function Root(s: BoardState): BoardState
    decreases s
  {
    match s.previous
    case None => s
    case Some(p) => Root(p)
  }

  function ChainLength(s: BoardState): (n: nat)
    decreases s
    ensures n >= 1
  {
    match s.previous
    case None => 1
    case Some(p) => 1 + ChainLength(p)
  }

  /** The state k links back from s. */
  function Ancestor(s: BoardState, k: nat): BoardState
    requires k < ChainLength(s)
    decreases s
  {
    if k == 0 then s else Ancestor(s.previous.value, k - 1)
  }

  /** buildSolutionPath: the boards of the chain, start first. */
  function BuildSolutionPath(s: BoardState): (path: seq<Board>)
    decreases s
    ensures |path| == ChainLength(s)
    ensures path[|path| - 1] == s.board
    ensures path[0] == Root(s).board
    ensures forall i :: 0 <= i < |path| ==> path[i] == Ancestor(s, |path| - 1 - i).board
  {
    match s.previous
    case None => [s.board]
    case Some(p) =>
      var before := BuildSolutionPath(p);
      before + [s.board]
  }

  /** A state reached by moves holds its move count in its chain. */
  lemma {:induction false} LinkedLength(s: BoardState)
    requires Linked(s)
    decreases s
    ensures ChainLength(s) == s.moves + 1
  {
    if s.previous.Some? {
      LinkedLength(s.previous.value);
    }
  }

  /** Board b slides to board c: the empty tile of b trades places with a
      tile next to it. */
  predicate Slide(b: Board, c: Board) {
    Square(b) && c.dimension == b.dimension &&
    exists e, p :: 0 <= e < |b.values| && 0 <= p < |b.values| && Adjacent(b.dimension, e, p) &&
      b.values[e] == 0 && c.values == b.values[e := b.values[p]][p := 0]
  }

  /** Two cells side by side or one above the other. */
  predicate Adjacent(dim: int, e: int, p: int)
    requires dim > 0
  {
    Abs(PositionToRow(dim, e) - PositionToRow(dim, p)) + Abs(PositionToColumn(dim, e) - PositionToColumn(dim, p)) == 1
  }

  /** Sliding the tile next to the empty one is one slide. */
  lemma UpdateSlides(s: BoardState, row: int, col: int)
    requires Movable(s) && s.board.values[s.emptyTile] == 0 && 0 <= row < s.board.dimension && 0 <= col < s.board.dimension
    requires var dim := s.board.dimension;
             Abs(PositionToRow(dim, s.emptyTile) - row) + Abs(PositionToColumn(dim, s.emptyTile) - col) == 1
    ensures Slide(s.board, UpdatePuzzleState(s, row, col).board)
  {
    var t := UpdatePuzzleState(s, row, col);
    var dim := s.board.dimension;
    var vs: seq<int>, e: int, p: int := s.board.values, s.emptyTile, t.emptyTile;
    PositionJoin(dim, row, col);
    assert Adjacent(dim, e, p);
    assert t.board.values == vs[e := vs[p]][p := 0];
  }

  lemma MoveSlides(s: BoardState, d: Direction)
    requires Movable(s) && s.board.values[s.emptyTile] == 0
    ensures MakeMove(s, d).Some? ==> Slide(s.board, MakeMove(s, d).value.board)
  {
    var dim := s.board.dimension;
    var row := PositionToRow(dim, s.emptyTile) + RowStep(d);
    var col := PositionToColumn(dim, s.emptyTile) + ColumnStep(d);
    var r := MakeMove(s, d);
    if r.Some? {
      assert 0 <= row < dim && 0 <= col < dim && r.value == UpdatePuzzleState(s, row, col);
      UpdateSlides(s, row, col);
    }
  }

  /** A generated successor of a state is one slide away. */
  lemma SuccessorSlides(s: BoardState, t: BoardState)
    requires Movable(s) && s.board.values[s.emptyTile] == 0 && Some(t) in GeneratePossibleMoves(s)
    ensures Slide(s.board, t.board)
  {
    var ms := GeneratePossibleMoves(s);
    var k :| 0 <= k < 4 && ms[k] == Some(t);
    MoveSlides(s, Directions[k]);
  }

  predicate Slides(path: seq<Board>) {
    forall i :: 0 <= i < |path| - 1 ==> Slide(path[i], path[i + 1])
  }

  lemma SlidesSnoc(path: seq<Board>, c: Board)
    requires |path| >= 1 && Slides(path) && Slide(path[|path| - 1], c)
    ensures Slides(path + [c])
  {
    var q := path + [c];
    forall i | 0 <= i < |q| - 1
      ensures Slide(q[i], q[i + 1])
    {
      assert q[i] == path[i];
    }
  }

  /** Along a chain of consistent states every step of the solution path
      is one slide. */
  lemma {:induction false} PathSlides(s: BoardState)
    requires Linked(s) && AllConsistent(s)
    decreases s
    ensures Slides(BuildSolutionPath(s))
  {
    if s.previous.Some? {
      var p := s.previous.value;
      PathSlides(p);
      SuccessorSlides(p, s);
      SlidesSnoc(BuildSolutionPath(p), s.board);
    }
  }

  /** Every state of the chain is consistent. */
  predicate AllConsistent(s: BoardState)
    decreases s
  {
    Consistent(s) && (s.previous.Some? ==> AllConsistent(s.previous.value))
  }

  /** What every search keeps of the states it holds: consistent, reached
      by moves from the start state, over the start board's dimension. */
  predicate Reached(s: BoardState, start: BoardState) {
    AllConsistent(s) && Linked(s) && Root(s) == start && s.board.dimension == start.board.dimension
  }

  /** Every generated successor of a reached state is reached. */
  lemma SuccessorReached(s: BoardState, start: BoardState, k: int)
    requires Reached(s, start) && 0 <= k < 4
    ensures GeneratePossibleMoves(s)[k].Some? ==> Reached(GeneratePossibleMoves(s)[k].value, start)
  {
    var ms := GeneratePossibleMoves(s);
    if ms[k].Some? {
      var t := ms[k].value;
      SuccessorConsistent(s, Directions[k]);
      MoveLinks(s, Directions[k]);
      assert ms[k] in ms;
      assert t.previous == Some(s) && t.moves == s.moves + 1;
      assert Linked(t) && Root(t) == Root(s);
    }
  }

  /** A move links the new state back to the old one, one move further. */
  lemma MoveLinks(s: BoardState, d: Direction)
    requires Movable(s)
    ensures MakeMove(s, d).Some? ==>
              && MakeMove(s, d).value.previous == Some(s)
              && MakeMove(s, d).value.moves == s.moves + 1
              && MakeMove(s, d).value.board.dimension == s.board.dimension
  {
    var dim := s.board.dimension;
    var row := PositionToRow(dim, s.emptyTile) + RowStep(d);
    var col := PositionToColumn(dim, s.emptyTile) + ColumnStep(d);
    var r := MakeMove(s, d);
    if r.Some? {
      assert 0 <= row < dim && 0 <= col < dim && r.value == UpdatePuzzleState(s, row, col);
    }
  }

  lemma StartReached(b: Board)
    requires IsPuzzle(b)
    ensures Reached(InitBoardState(b), InitBoardState(b))
  {
  }

  // ---------------------------------------------------------------------
  // Termination: every board a search meets is drawn from a finite set.

  /** All lists of len values from 0 .. k-1. */
  function Lists(len: nat, k: int): set<seq<int>>
    decreases len
  {
    if len == 0 then {[]}
    else set s, v | s in Lists(len - 1, k) && 0 <= v < k :: s + [v]
  }

  lemma {:induction false} ListsHold(len: nat, k: int, s: seq<int>)
    requires |s| == len && forall i :: 0 <= i < len ==> 0 <= s[i] < k
    decreases len
    ensures s in Lists(len, k)
  {
    if len > 0 {
      var front := s[..len - 1];
      ListsHold(len - 1, k, front);
      assert s == front + [s[len - 1]];
    }
  }

  /** Every board of a given dimension the solvers can meet. */
  function Universe(dim: int): set<seq<int>>
    requires dim >= 1
  {
    Lists(dim * dim, dim * dim)
  }

  lemma InUniverse(b: Board)
    requires IsPuzzle(b)
    ensures b.values in Universe(b.dimension)
  {
    ListsHold(|b.values|, |b.values|, b.values);
  }
}
