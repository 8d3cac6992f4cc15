/** Shared vocabulary: optional values (Java's null), results with an error
    case (Java exceptions), and Java's 32-bit int bounds and truncating
    division. */
module Common {

  /** A value or nothing; `None` plays the part of a Java null reference. */
  datatype Option<+T> = None | Some(value: T)

  /** A value or an error; used where the Java code throws. */
  datatype Result<+T, +E> = Success(value: T) | Failure(error: E)

  /** Integer.MIN_VALUE and Integer.MAX_VALUE. */
  const IntMin: int := -0x8000_0000
  const IntMax: int := 0x7FFF_FFFF

  predicate IsJavaInt(x: int) {
    IntMin <= x <= IntMax
  }

  function Max(a: int, b: int): int {
    if a >= b then a else b
  }

  function Min(a: int, b: int): int {
    if a <= b then a else b
  }

  function Abs(x: int): nat {
    if x < 0 then -x else x
  }

  /** Java's `/` on int: the quotient is truncated toward zero. */
  function JavaDiv(a: int, b: int): (q: int)
    requires b > 0
    ensures a >= 0 ==> q == a / b
    ensures a < 0 ==> q == -((-a) / b)
  {
    if a >= 0 then a / b else -((-a) / b)
  }

  /** Java's `%` on int: the remainder takes the sign of the dividend. */
  function JavaRem(a: int, b: int): (r: int)
    requires b > 0
    ensures a >= 0 ==> r == a % b
    ensures a == b * JavaDiv(a, b) + r
    ensures a < 0 ==> -b < r <= 0
  {
    a - b * JavaDiv(a, b)
  }

  lemma MulSplit(a: int, b: int, d: int)
    ensures a * d - b * d == (a - b) * d
  {
  }

  lemma MulAtLeast(a: int, d: int)
    requires a >= 1 && d > 0
    ensures a * d >= d
  {
  }

  /** Euclidean division is unique: a quotient and remainder in range are
      the ones `/` and `%` give. */
  lemma DivUnique(n: int, d: int, q: int, r: int)
    requires d > 0 && 0 <= r < d && n == q * d + r
    ensures n / d == q && n % d == r
  {
    var q', r' := n / d, n % d;
    assert q' * d + r' == n;
    MulSplit(q, q', d);
    if q > q' {
      MulAtLeast(q - q', d);
    } else if q < q' {
      MulSplit(q', q, d);
      MulAtLeast(q' - q, d);
    }
  }

  /** An index into a square of side d splits into a row and a column
      inside the square. */
  lemma SquareSplit(n: int, d: int)
    requires d > 0 && 0 <= n < d * d
    ensures 0 <= n / d < d && 0 <= n % d < d
  {
  }

  /** Marking one more element of a finite universe visited leaves fewer
      to visit. */
  lemma VisitShrinks<T>(u: set<T>, visited: set<T>, x: T)
    requires x in u && x !in visited
    ensures |u - (visited + {x})| < |u - visited|
  {
    assert u - (visited + {x}) == (u - visited) - {x};
  }

  /** A list of a set's elements, each once (new ArrayList<>(set)); the
      order is whatever the set's iteration gives, here left open. */
  method ListOf<T>(s: set<T>) returns (xs: seq<T>)
    ensures forall x :: x in xs <==> x in s
    ensures forall i, j :: 0 <= i < j < |xs| ==> xs[i] != xs[j]
  {
    xs := [];
    var rest := s;
    while rest != {}
      invariant forall x :: x in s <==> x in xs || x in rest
      invariant forall x :: x in xs ==> x !in rest
      invariant forall i, j :: 0 <= i < j < |xs| ==> xs[i] != xs[j]
      decreases |rest|
    {
      var x :| x in rest;
      xs := xs + [x];
      rest := rest - {x};
    }
  }

  /** A subset is no larger than its superset. */
  lemma SubsetSize<T>(a: set<T>, b: set<T>)
    requires a <= b
    ensures |a| <= |b|
  {
    assert b == a + (b - a);
  }

  /** A suffix of a sequence is its first element followed by the rest. */
  lemma ConsTail<T>(vs: seq<T>, i: int, x: T, later: seq<T>)
    requires 0 <= i < |vs| && vs[i] == x && later == vs[i + 1..]
    ensures [x] + later == vs[i..]
  {
  }
}
