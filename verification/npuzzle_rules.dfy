/** The rules every N-Puzzle solver shares: position arithmetic, the
    Manhattan distance of a tile from its home cell, the distance of a whole
    board, and the test for the solved board (tiles 1 .. n-1 in order, the
    empty tile last). */
module PuzzleRules {
  import opened Common
  import opened PuzzleBoard

  /** A square board: dimension rows of dimension values. */
  predicate Square(b: Board) {
    b.dimension >= 1 && |b.values| == b.dimension * b.dimension
  }

  /** A puzzle: a square board holding each of 0 .. n-1 exactly once. */
  predicate IsPuzzle(b: Board) {
    Square(b) &&
    (forall i :: 0 <= i < |b.values| ==> 0 <= b.values[i] < |b.values|) &&
    (forall i, j :: 0 <= i < j < |b.values| ==> b.values[i] != b.values[j])
  }

  // ---------------------------------------------------------------------
  // Positions: values[row * dimension + col].

  function PositionToRow(dim: int, p: int): int
    requires dim > 0
  {
    JavaDiv(p, dim)
  }

  function PositionToColumn(dim: int, p: int): int
    requires dim > 0
  {
    JavaRem(p, dim)
  }

  function RowColToPosition(dim: int, row: int, col: int): int {
    row * dim + col
  }

  /** A cell index splits into a row and a column on the board and is
      rebuilt from them. */
  lemma PositionSplit(dim: int, p: int)
    requires dim > 0 && 0 <= p < dim * dim
    ensures 0 <= PositionToRow(dim, p) < dim && 0 <= PositionToColumn(dim, p) < dim
    ensures RowColToPosition(dim, PositionToRow(dim, p), PositionToColumn(dim, p)) == p
  {
    var q, r := p / dim, p % dim;
    if q >= dim {
      assert q * dim >= dim * dim;
    }
  }

  /** A row and column on the board give back that row and column. */
  lemma PositionJoin(dim: int, row: int, col: int)
    requires dim > 0 && row >= 0 && 0 <= col < dim
    ensures RowColToPosition(dim, row, col) >= 0
    ensures PositionToRow(dim, RowColToPosition(dim, row, col)) == row
    ensures PositionToColumn(dim, RowColToPosition(dim, row, col)) == col
  {
    DivUnique(row * dim + col, dim, row, col);
  }

  // ---------------------------------------------------------------------
  // Distances.

  /** manhattan: how many rows plus how many columns the tile sits from
      its home cell, index tile - 1; the empty tile costs nothing. A tile is
      at distance 0 exactly when it is at home. */
  function Manhattan(tile: int, dim: int, index: int): (d: int)
    requires dim > 0
    ensures d >= 0
    ensures tile == 0 ==> d == 0
    ensures index >= 0 ==> (d == 0 <==> tile == 0 || index == tile - 1)
  {
    if tile == 0 then 0
    else
      var rowDistance := Abs(PositionToRow(dim, index) - PositionToRow(dim, tile - 1));
      var colDistance := Abs(PositionToColumn(dim, index) - PositionToColumn(dim, tile - 1));
      rowDistance + colDistance
  }

  /** Cell k holds the empty tile or its own tile k + 1. */
  predicate AtHome(vs: seq<int>, k: int)
    requires 0 <= k < |vs|
  {
    vs[k] == 0 || vs[k] == k + 1
  }

  /** The sum of manhattan over the cells from i on. */
  function DistanceFrom(vs: seq<int>, dim: int, i: int): (d: int)
    requires dim > 0 && 0 <= i <= |vs|
    decreases |vs| - i
    ensures d >= 0
    ensures d == 0 <==> forall k :: i <= k < |vs| ==> Manhattan(vs[k], dim, k) == 0
  {
    if i == |vs| then 0 else Manhattan(vs[i], dim, i) + DistanceFrom(vs, dim, i + 1)
  }

  /** boardDistance: zero exactly when every tile is at home. */
  function BoardDistance(b: Board): (d: int)
    requires Square(b)
    ensures d >= 0
    ensures d == 0 <==> forall k :: 0 <= k < |b.values| ==> AtHome(b.values, k)
  {
    assert forall k :: 0 <= k < |b.values| ==> (Manhattan(b.values[k], b.dimension, k) == 0 <==> AtHome(b.values, k));
    DistanceFrom(b.values, b.dimension, 0)
  }

  /** Changing one cell changes the sum by that cell's change. */
  lemma {:induction false} DistanceUpdate(vs: seq<int>, dim: int, i: int, k: int, v: int)
    requires dim > 0 && 0 <= i <= |vs| && 0 <= k < |vs|
    decreases |vs| - i
    ensures DistanceFrom(vs[k := v], dim, i)
            == DistanceFrom(vs, dim, i) + (if k >= i then Manhattan(v, dim, k) - Manhattan(vs[k], dim, k) else 0)
  {
    if i < |vs| {
      DistanceUpdate(vs, dim, i + 1, k, v);
    }
  }

  // ---------------------------------------------------------------------
  // Solved boards.

  /** The loop of isSolved(Board) from tile i on: values[i - 1] must be i
      for every i up to n - 1. */
  function SolvedFrom(b: Board, i: int): (r: bool)
    requires Square(b) && 1 <= i <= |b.values|
    decreases |b.values| - i
    ensures r <==> forall k :: i - 1 <= k < |b.values| - 1 ==> b.values[k] == k + 1
  {
    if i > |b.values| - 1 then true
    else if b.values[i - 1] != i then false
    else SolvedFrom(b, i + 1)
  }

  /** isSolved(Board): tiles 1 .. n-1 fill the first n-1 cells in order;
      the last cell is not looked at. */
  function IsSolved(b: Board): (r: bool)
    requires Square(b)
    ensures r <==> forall k :: 0 <= k < |b.values| - 1 ==> b.values[k] == k + 1
  {
    SolvedFrom(b, 1)
  }

  /** On a puzzle the two isSolved tests agree: the tiles are in order
      exactly when the board distance is zero. */
  lemma SolvedIffNoDistance(b: Board)
    requires IsPuzzle(b)
    ensures IsSolved(b) <==> BoardDistance(b) == 0
  {
    var vs, n := b.values, |b.values|;
    if IsSolved(b) {
      var v := vs[n - 1];
      var k := if v >= 1 then v - 1 else 0;
      assert vs[k] == k + 1 || k == n - 1;
      assert v == 0;
      assert forall k :: 0 <= k < n ==> AtHome(vs, k);
    }
    if BoardDistance(b) == 0 {
      forall k | 0 <= k < n - 1
        ensures vs[k] == k + 1
      {
        assert AtHome(vs, k) && AtHome(vs, n - 1);
        assert vs[k] != vs[n - 1];
      }
    }
  }

  /** The solved board of a dimension: 1 .. n-1, then the empty tile. */
  function SolvedBoard(dim: int): (b: Board)
    requires dim >= 1
    ensures Square(b)
  {
    Board(dim, seq(dim * dim, i => if i == dim * dim - 1 then 0 else i + 1))
  }

  lemma SolvedBoardIsPuzzle(dim: int)
    requires dim >= 1
    ensures IsPuzzle(SolvedBoard(dim)) && IsSolved(SolvedBoard(dim))
    ensures BoardDistance(SolvedBoard(dim)) == 0
  {
    SolvedIffNoDistance(SolvedBoard(dim));
  }
}
