/** The parity test the solvers run before searching: the row of the empty
    tile (counted from 1) plus the number of inversions must be even. As
    written the test is the rule for boards of even dimension; on a board of
    odd dimension it rejects the solved board itself. The corrected test
    keeps the written rule for even dimensions and, for odd ones, asks only
    for an even number of inversions. */
module Solvability {
  import opened Common
  import opened PuzzleBoard
  import opened PuzzleRules

  /** indexOf from position i on: the first cell holding x, -1 when none
      does. */
  function IndexOf(vs: seq<int>, x: int, i: nat): (k: int)
    requires i <= |vs|
    decreases |vs| - i
    ensures k == -1 <==> forall j :: i <= j < |vs| ==> vs[j] != x
    ensures k != -1 ==> i <= k < |vs| && vs[k] == x && forall j :: i <= j < k ==> vs[j] != x
  {
    if i == |vs| then -1 else if vs[i] == x then i else IndexOf(vs, x, i + 1)
  }

  /** zeroPosition: where the empty tile is, -1 for a board without one. */
  function ZeroPosition(b: Board): (k: int)
    ensures k == -1 <==> 0 !in b.values
    ensures k != -1 ==> 0 <= k < |b.values| && b.values[k] == 0 && 0 !in b.values[..k]
  {
    IndexOf(b.values, 0, 0)
  }

  // ---------------------------------------------------------------------
  // Inversions.

  /** A pair the double loop counts: i before j, neither the empty tile,
      the first tile larger. */
  predicate Inverted(vs: seq<int>, i: int, j: int)
    requires 0 <= i < |vs| && 0 <= j < |vs|
  {
    i < j && vs[i] != 0 && vs[j] != 0 && vs[i] > vs[j]
  }

  function InversionPairs(vs: seq<int>): set<(int, int)> {
    set i, j | 0 <= i < |vs| && 0 <= j < |vs| && Inverted(vs, i, j) :: (i, j)
  }

  /** The number of inverted pairs. */
  function Inversions(vs: seq<int>): nat {
    |InversionPairs(vs)|
  }

  /** The inverted pairs the double loop has passed when it is at (i, j). */
  function Scanned(vs: seq<int>, i: int, j: int): set<(int, int)> {
    set a, c | 0 <= a < |vs| && 0 <= c < |vs| && (a < i || (a == i && c < j)) && Inverted(vs, a, c) :: (a, c)
  }

  lemma ScanStep(vs: seq<int>, i: int, j: int)
    requires 0 <= i < |vs| && 0 <= j < |vs|
    ensures (i, j) !in Scanned(vs, i, j)
    ensures Scanned(vs, i, j + 1) == Scanned(vs, i, j) + (if Inverted(vs, i, j) then {(i, j)} else {})
  {
  }

  lemma ScanRow(vs: seq<int>, i: int)
    requires 0 <= i < |vs|
    ensures Scanned(vs, i, |vs|) == Scanned(vs, i + 1, 0)
  {
  }

  lemma ScanEnds(vs: seq<int>)
    ensures Scanned(vs, 0, 0) == {}
    ensures Scanned(vs, |vs|, 0) == InversionPairs(vs)
  {
  }

  /** The double loop of isSolvable: every ordered pair of cells is looked
      at, and the inverted ones are counted. */
  method CountInversions(vs: seq<int>) returns (count: int)
    ensures count == Inversions(vs)
  {
    count := 0;
    ScanEnds(vs);
    var i := 0;
    while i < |vs|
      invariant 0 <= i <= |vs|
      invariant count == |Scanned(vs, i, 0)|
    {
      var j := 0;
      while j < |vs|
        invariant 0 <= j <= |vs|
        invariant count == |Scanned(vs, i, j)|
      {
        ScanStep(vs, i, j);
        if i == j || vs[i] == 0 || vs[j] == 0 {
          j := j + 1;
          continue;
        }
        if i < j && vs[i] > vs[j] {
          count := count + 1;
        }
        j := j + 1;
      }
      ScanRow(vs, i);
      i := i + 1;
    }
  }

  // ---------------------------------------------------------------------
  // The test as written and the corrected test.

  /** The row of the empty tile, counted from 1. */
  function ZeroRow(b: Board): int
    requires b.dimension >= 1
  {
    1 + JavaDiv(ZeroPosition(b), b.dimension)
  }

  /** The corrected test: on an odd dimension the row of the empty tile
      does not count, on an even one the row plus the inversions must be
      even. */
  predicate IsSolvable(b: Board)
    requires b.dimension >= 1
  {
    if b.dimension % 2 == 1 then Inversions(b.values) % 2 == 0
    else (ZeroRow(b) + Inversions(b.values)) % 2 == 0
  }

  /** isSolvable as written: the empty tile's row plus the inversions is
      even, whatever the dimension. It is the corrected test on an even
      dimension; on an odd one the two part ways exactly when the empty
      tile is on an odd row. */
  function IsSolvableAsWritten(b: Board): (r: bool)
    requires b.dimension >= 1
    ensures b.dimension % 2 == 0 ==> (r <==> IsSolvable(b))
    ensures b.dimension % 2 == 1 ==> (r <==> (IsSolvable(b) <==> ZeroRow(b) % 2 == 0))
  {
    RemTwo(ZeroRow(b) + Inversions(b.values));
    SumParity(ZeroRow(b), Inversions(b.values));
    JavaRem(ZeroRow(b) + Inversions(b.values), 2) == 0
  }

  /** Java's remainder by two is zero exactly for the even numbers, negative
      ones included. */
  lemma RemTwo(x: int)
    ensures JavaRem(x, 2) == 0 <==> x % 2 == 0
  {
  }

  /** A sum is even exactly when its two terms have the same parity. */
  lemma SumParity(a: int, b: int)
    ensures (a + b) % 2 == 0 <==> (a % 2 == 0 <==> b % 2 == 0)
  {
  }

  /** isSolvable as written, computed with the double loop: the row of the
      empty tile plus the inversions, on every dimension. On an even
      dimension it agrees with the corrected test. */
  method CheckSolvable(b: Board) returns (ok: bool)
    requires b.dimension >= 1
    ensures ok <==> IsSolvableAsWritten(b)
    ensures b.dimension % 2 == 0 ==> (ok <==> IsSolvable(b))
  {
    var inversions := CountInversions(b.values);
    var zeroRow := 1 + JavaDiv(ZeroPosition(b), b.dimension);
    ok := JavaRem(zeroRow + inversions, 2) == 0;
  }

  /** The corrected isSolvable, computed with the double loop: on an odd
      dimension only the parity of the inversions counts. */
  method CheckSolvableCorrected(b: Board) returns (ok: bool)
    requires b.dimension >= 1
    ensures ok <==> IsSolvable(b)
    ensures b.dimension % 2 == 0 ==> (ok <==> IsSolvableAsWritten(b))
  {
    var inversions := CountInversions(b.values);
    if b.dimension % 2 == 1 {
      ok := inversions % 2 == 0;
    } else {
      var zeroRow := 1 + JavaDiv(ZeroPosition(b), b.dimension);
      ok := JavaRem(zeroRow + inversions, 2) == 0;
    }
  }

  // ---------------------------------------------------------------------
  // The solved board under both tests.

  lemma SolvedNoInversions(dim: int)
    requires dim >= 1
    ensures Inversions(SolvedBoard(dim).values) == 0
  {
    var vs := SolvedBoard(dim).values;
    forall i, j | 0 <= i < |vs| && 0 <= j < |vs|
      ensures !Inverted(vs, i, j)
    {
    }
    assert InversionPairs(vs) == {};
  }

  lemma SolvedZeroRow(dim: int)
    requires dim >= 1
    ensures ZeroRow(SolvedBoard(dim)) == dim
  {
    var b := SolvedBoard(dim);
    var n := dim * dim;
    assert b.values[n - 1] == 0;
    assert forall j :: 0 <= j < n - 1 ==> b.values[j] != 0;
    assert ZeroPosition(b) == n - 1;
    assert n - 1 == (dim - 1) * dim + (dim - 1);
    DivUnique(n - 1, dim, dim - 1, dim - 1);
  }

  /** The test as written turns down the solved board of every odd
      dimension: its empty tile is on row dim, an odd number, and it has no
      inversions. The solved 3 x 3 board is one. */
  lemma AsWrittenRejectsSolved(dim: int)
    requires dim >= 1 && dim % 2 == 1
    ensures !IsSolvableAsWritten(SolvedBoard(dim))
  {
    SolvedNoInversions(dim);
    SolvedZeroRow(dim);
  }

  /** The corrected test accepts the solved board of every dimension. */
  lemma SolvableAcceptsSolved(dim: int)
    requires dim >= 1
    ensures IsSolvable(SolvedBoard(dim))
  {
    SolvedNoInversions(dim);
    SolvedZeroRow(dim);
  }
}
