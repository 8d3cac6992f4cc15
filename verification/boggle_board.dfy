/** The Boggle board: a square grid of letters, each cell a node that knows
    its letter, its position and the positions of the up to eight cells
    around it. */
module BoggleBoard {
  import opened Common

  datatype Position = Position(row: int, column: int)

  /** What Position.equals may be handed: null, a position, or an object of
      another class. */
  datatype JavaObject = NullRef | PositionObject(pos: Position) | OtherObject

  /** Position.equals: true exactly for a position with the same row and
      column. (The identity test it starts with only ever answers true for
      an equal position, so it is not modelled apart.) */
  function Equals(p: Position, obj: JavaObject): (r: bool)
    ensures r <==> obj == PositionObject(p)
  {
    if obj.NullRef? then false
    else if obj.PositionObject? then obj.pos.row == p.row && obj.pos.column == p.column
    else false
  }

  /** inRange and validPosition. */
  predicate InRange(x: int, dimension: int) {
    x >= 0 && x < dimension
  }

  predicate ValidPosition(p: Position, dimension: int) {
    InRange(p.row, dimension) && InRange(p.column, dimension)
  }

  // ---------------------------------------------------------------------
  // getNeighbours.

  /** The directions array {-1, 0, 1}. */
  const Offsets: seq<int> := [-1, 0, 1]

  /** The k-th position the double loop of getNeighbours looks at: the
      outer loop runs over the row offset, the inner one over the column
      offset. */
  function Probe(p: Position, k: int): Position
    requires 0 <= k < 9
  {
    Position(p.row + Offsets[k / 3], p.column + Offsets[k % 3])
  }

  /** The double loop from its k-th step on. */
  function ScanNeighbours(p: Position, dimension: int, k: int): seq<Position>
    requires 0 <= k <= 9
    decreases 9 - k
  {
    if k == 9 then []
    else
      var neighbour := Probe(p, k);
      (if !Equals(p, PositionObject(neighbour)) && ValidPosition(neighbour, dimension) then [neighbour] else [])
      + ScanNeighbours(p, dimension, k + 1)
  }

  /** The cells around p: another cell at most one row and one column
      away. */
  predicate Around(p: Position, q: Position) {
    q != p && -1 <= q.row - p.row <= 1 && -1 <= q.column - p.column <= 1
  }

  /** Position order: by row, then by column. */
  predicate Before(a: Position, b: Position) {
    a.row < b.row || (a.row == b.row && a.column < b.column)
  }

  predicate Ascending(ps: seq<Position>) {
    forall i, j :: 0 <= i < j < |ps| ==> Before(ps[i], ps[j])
  }

  /** getNeighbours: the valid cells around p, in row-then-column order,
      so without repeats, and at most eight of them. */
  function Neighbours(p: Position, dimension: int): (ns: seq<Position>)
    ensures forall q :: q in ns <==> Around(p, q) && ValidPosition(q, dimension)
    ensures Ascending(ns)
    ensures |ns| <= 8
  {
    NeighbourMembers(p, dimension);
    ScanAscending(p, dimension, 0);
    ScanLength(p, dimension, 0);
    ScanNeighbours(p, dimension, 0)
  }

  lemma NeighbourMembers(p: Position, dimension: int)
    ensures forall q :: q in ScanNeighbours(p, dimension, 0) <==> Around(p, q) && ValidPosition(q, dimension)
  {
    ScanMembers(p, dimension, 0);
    forall q
      ensures q in ScanNeighbours(p, dimension, 0) <==> Around(p, q) && ValidPosition(q, dimension)
    {
      if Around(p, q) {
        AroundIsProbed(p, q);
      }
      if q in ScanNeighbours(p, dimension, 0) {
        var m :| 0 <= m < 9 && q == Probe(p, m);
        ProbeIsAround(p, m);
      }
    }
  }

  /** The probes from step k on are the cells around p whose offsets come
      at or after step k, p itself excluded. */
  lemma {:induction false} ScanMembers(p: Position, dimension: int, k: int)
    requires 0 <= k <= 9
    decreases 9 - k
    ensures forall q :: q in ScanNeighbours(p, dimension, k) <==>
              q != p && ValidPosition(q, dimension) && exists m :: k <= m < 9 && q == Probe(p, m)
  {
    if k < 9 {
      ScanMembers(p, dimension, k + 1);
      var rest := ScanNeighbours(p, dimension, k + 1);
      var here := Probe(p, k);
      assert ScanNeighbours(p, dimension, k) ==
             (if here != p && ValidPosition(here, dimension) then [here] else []) + rest;
      forall q
        ensures q in ScanNeighbours(p, dimension, k) <==>
                q != p && ValidPosition(q, dimension) && exists m :: k <= m < 9 && q == Probe(p, m)
      {
        if q in rest {
          var m :| k + 1 <= m < 9 && q == Probe(p, m);
          assert k <= m < 9;
        }
        if q != here && exists m :: k <= m < 9 && q == Probe(p, m) {
          var m :| k <= m < 9 && q == Probe(p, m);
          assert k + 1 <= m;
        }
      }
    }
  }

  lemma {:induction false} ScanAscending(p: Position, dimension: int, k: int)
    requires 0 <= k <= 9
    decreases 9 - k
    ensures Ascending(ScanNeighbours(p, dimension, k))
    ensures forall q :: q in ScanNeighbours(p, dimension, k) ==> exists m :: k <= m < 9 && q == Probe(p, m)
  {
    if k < 9 {
      ScanAscending(p, dimension, k + 1);
      var rest := ScanNeighbours(p, dimension, k + 1);
      forall q | q in rest
        ensures Before(Probe(p, k), q)
      {
        var m :| k + 1 <= m < 9 && q == Probe(p, m);
        ProbeOrder(p, k, m);
      }
    }
  }

  lemma ProbeOrder(p: Position, k: int, m: int)
    requires 0 <= k < m < 9
    ensures Before(Probe(p, k), Probe(p, m))
  {
  }

  lemma {:induction false} ScanLength(p: Position, dimension: int, k: int)
    requires 0 <= k <= 9
    decreases 9 - k
    ensures |ScanNeighbours(p, dimension, k)| <= 9 - k
    ensures k <= 4 ==> |ScanNeighbours(p, dimension, k)| <= 8 - k
  {
    if k < 9 {
      ScanLength(p, dimension, k + 1);
      if k == 4 {
        assert Equals(p, PositionObject(Probe(p, 4)));
      }
    }
  }

  /** Every cell around p is one of the nine probes. */
  lemma AroundIsProbed(p: Position, q: Position)
    requires Around(p, q)
    ensures exists m :: 0 <= m < 9 && q == Probe(p, m)
  {
    var m := (q.row - p.row + 1) * 3 + (q.column - p.column + 1);
    assert q == Probe(p, m);
  }

  lemma ProbeIsAround(p: Position, m: int)
    requires 0 <= m < 9 && Probe(p, m) != p
    ensures Around(p, Probe(p, m))
  {
  }

  /** Neighbourhood is symmetric between valid cells. */
  lemma NeighboursSymmetric(p: Position, q: Position, dimension: int)
    requires ValidPosition(p, dimension)
    ensures q in Neighbours(p, dimension) <==> ValidPosition(q, dimension) && p in Neighbours(q, dimension)
  {
  }

  /** A list in strict position order holds no position twice. */
  lemma AscendingDistinct(ps: seq<Position>)
    requires Ascending(ps)
    ensures forall i, j :: 0 <= i < j < |ps| ==> ps[i] != ps[j]
  {
  }

  // ---------------------------------------------------------------------
  // Nodes and boards.

  datatype Node = Node(value: char, position: Position, neighbours: seq<Position>)

  /** buildNode. */
  function BuildNode(value: char, position: Position, dimension: int): (n: Node)
    ensures n.value == value && n.position == position
    ensures forall q :: q in n.neighbours <==> Around(position, q) && ValidPosition(q, dimension)
  {
    Node(value, position, Neighbours(position, dimension))
  }

  /** A board as buildBoard lays it out: character i of the input sits at
      row i / dimension and column i % dimension, with its neighbours. */
  predicate Built(board: seq<Node>, dimension: int) {
    dimension >= 0 && |board| == dimension * dimension &&
    forall i :: 0 <= i < |board| && dimension > 0 ==>
      board[i].position == Position(i / dimension, i % dimension) &&
      board[i].neighbours == Neighbours(board[i].position, dimension)
  }

  /** buildBoard, given the side of the square: the index-to-position
      mapping, one node per character of the input. */
  function BuildBoard(input: seq<char>, dimension: int): (board: seq<Node>)
    requires dimension >= 0 && dimension * dimension == |input|
    ensures Built(board, dimension)
    ensures forall i :: 0 <= i < |input| ==> board[i].value == input[i]
  {
    assert |input| > 0 ==> dimension > 0;
    seq(|input|, i requires 0 <= i < |input| => BuildNode(input[i], Position(i / dimension, i % dimension), dimension))
  }

  // ---------------------------------------------------------------------
  // buildBoard as the code writes it.

  /** The failure ArrayList.set reports: IndexOutOfBoundsException for the
      index and the list's size at the time. */
  datatype ListError = IndexOutOfBounds(index: int, size: int)

  /** ArrayList.set: replaces element i when 0 <= i < size and throws
      otherwise. A list made by `new ArrayList(capacity)` has size 0,
      whatever its capacity. */
  function ListSet(list: seq<Node>, i: int, x: Node): (r: Result<seq<Node>, ListError>)
    ensures r.Failure? <==> !(0 <= i < |list|)
    ensures r.Failure? ==> r.error == IndexOutOfBounds(i, |list|)
    ensures r.Success? ==>
              |r.value| == |list| && r.value[i] == x &&
              forall j :: 0 <= j < |list| && j != i ==> r.value[j] == list[j]
  {
    if 0 <= i < |list| then Success(list[i := x]) else Failure(IndexOutOfBounds(i, |list|))
  }

  /** The integer square root from d upward. */
  function SqrtFrom(n: nat, d: nat): (r: nat)
    requires d * d <= n
    decreases n - d
    ensures r * r <= n < (r + 1) * (r + 1)
  {
    if (d + 1) * (d + 1) > n then d
    else
      assert d <= d * d;
      SqrtFrom(n, d + 1)
  }

  /** (int) Math.sqrt(n) for n >= 0, taken as the exact integer square
      root: the largest d with d * d <= n. */
  function FloorSqrt(n: nat): (d: nat)
    ensures d * d <= n < (d + 1) * (d + 1)
  {
    SqrtFrom(n, 0)
  }

  /** The loop of buildBoard from index i: the node of character i is
      stored with `nodes.set(i, …)`, and the first failing set ends the
      loop with its exception. */
  function SetNodes(nodes: seq<Node>, input: seq<char>, dimension: int, i: nat): (r: Result<seq<Node>, ListError>)
    requires i <= |input| && (dimension >= 1 || |input| == 0)
    decreases |input| - i
    ensures |nodes| <= i < |input| ==> r == Failure(IndexOutOfBounds(i, |nodes|))
    ensures |nodes| == |input| ==>
              r.Success? && |r.value| == |input| &&
              (forall j :: 0 <= j < i ==> r.value[j] == nodes[j]) &&
              forall j :: i <= j < |input| ==>
                r.value[j] == BuildNode(input[j], Position(j / dimension, j % dimension), dimension)
  {
    if i == |input| then Success(nodes)
    else
      var node := BuildNode(input[i], Position(i / dimension, i % dimension), dimension);
      match ListSet(nodes, i, node)
      case Failure(e) => Failure(e)
      case Success(next) => SetNodes(next, input, dimension, i + 1)
  }

  /** buildBoard as written: the node list is created with
      `new ArrayList(input.length())`, which is empty, so the first
      `nodes.set(0, …)` throws on every non-empty input; only the empty
      input yields a board, the empty one. (The `assert` on the dimension
      is off unless the JVM runs with assertions enabled.) */
  function BuildBoardAsWritten(input: seq<char>): (r: Result<seq<Node>, ListError>)
    ensures r.Failure? <==> |input| > 0
    ensures |input| > 0 ==> r == Failure(IndexOutOfBounds(0, 0))
    ensures |input| == 0 ==> r == Success([])
  {
    SetNodes([], input, FloorSqrt(|input|), 0)
  }

  /** The loop as evidently meant: once the list holds one slot per
      character, the same loop of sets succeeds and lays out exactly the
      board BuildBoard describes. */
  lemma SetNodesIntoSlots(slots: seq<Node>, input: seq<char>, dimension: int)
    requires dimension >= 0 && dimension * dimension == |input| && |slots| == |input|
    ensures SetNodes(slots, input, dimension, 0) == Success(BuildBoard(input, dimension))
  {
    var r := SetNodes(slots, input, dimension, 0);
    assert r.value == BuildBoard(input, dimension);
  }

  // ---------------------------------------------------------------------
  // positionToNode.

  /** positionToNode from index i on: the first node at the position, None
      where the Java code reaches its `assert (false)`. */
  function PositionToNode(board: seq<Node>, position: Position, i: nat): (r: Option<nat>)
    requires i <= |board|
    decreases |board| - i
    ensures r.None? <==> forall j :: i <= j < |board| ==> board[j].position != position
    ensures r.Some? ==> i <= r.value < |board| && board[r.value].position == position &&
                        forall j :: i <= j < r.value ==> board[j].position != position
  {
    if i == |board| then None
    else if Equals(position, PositionObject(board[i].position)) then Some(i)
    else PositionToNode(board, position, i + 1)
  }

  /** On a built board every valid position has its node, at index
      row * dimension + column, and no other node is there. */
  lemma BuiltNodeAt(board: seq<Node>, dimension: int, q: Position)
    requires Built(board, dimension) && ValidPosition(q, dimension)
    ensures var k := q.row * dimension + q.column;
            0 <= k < |board| && board[k].position == q &&
            forall j :: 0 <= j < |board| && board[j].position == q ==> j == k
  {
    var k := q.row * dimension + q.column;
    CellIndex(dimension, q.row, q.column);
    forall j | 0 <= j < |board| && board[j].position == q
      ensures j == k
    {
      CellRebuild(dimension, j);
    }
  }

  /** Row and column in the square give an index in it, which splits back
      into them. */
  lemma CellIndex(d: int, row: int, col: int)
    requires 0 <= row < d && 0 <= col < d
    ensures 0 <= row * d + col < d * d
    ensures (row * d + col) / d == row && (row * d + col) % d == col
  {
    assert row * d <= (d - 1) * d;
    DivUnique(row * d + col, d, row, col);
  }

  lemma CellRebuild(d: int, j: int)
    requires d > 0
    ensures j == (j / d) * d + j % d
  {
  }

  /** Every node of a built board is at a valid position. */
  lemma BuiltValid(board: seq<Node>, dimension: int, j: int)
    requires Built(board, dimension) && 0 <= j < |board|
    ensures ValidPosition(board[j].position, dimension)
  {
    SquareSplit(j, dimension);
  }

  /** So positionToNode finds exactly that node for every neighbour. */
  lemma BuiltPositionToNode(board: seq<Node>, dimension: int, q: Position)
    requires Built(board, dimension) && ValidPosition(q, dimension)
    ensures PositionToNode(board, q, 0) == Some(q.row * dimension + q.column)
  {
    BuiltNodeAt(board, dimension, q);
  }
}
