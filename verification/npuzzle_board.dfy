/** The N-Puzzle board: a dimension and the tile values in row-major order,
    0 standing for the empty tile; and its text form, one line per row with
    every value followed by a space. */
module PuzzleBoard {

  /** values[row * dimension + col] is the tile at (row, col). The two
      getters of the Java class are the two fields. */
  datatype Board = Board(dimension: int, values: seq<int>)

  /** toString reads values[row * dimension + col] for every row and column
      below the dimension, so it needs that many values. */
  predicate Printable(b: Board) {
    b.dimension <= 0 || b.dimension * b.dimension <= |b.values|
  }

  // ---------------------------------------------------------------------
  // Decimal digits, as StringBuilder.append(int) writes them.

  function Digit(d: int): char
    requires 0 <= d < 10
  {
    "0123456789"[d]
  }

  predicate IsDigit(c: char) {
    '0' <= c <= '9'
  }

  /** The decimal digits of n, most significant first, without leading
      zeros. */
  function NatText(n: nat): (s: string)
    ensures |s| >= 1
    ensures forall i :: 0 <= i < |s| ==> IsDigit(s[i])
  {
    if n < 10 then [Digit(n)] else NatText(n / 10) + [Digit(n % 10)]
  }

  /** Integer.toString: a minus sign before the digits of a negative value. */
  function IntText(x: int): (s: string)
    ensures |s| >= 1
    ensures Free(s, ' ') && Free(s, '\n')
  {
    if x < 0 then "-" + NatText(-x) else NatText(x)
  }

  /** The digits of s read as a decimal number. */
  function ParseNat(s: string): int {
    if s == [] then 0 else 10 * ParseNat(s[..|s| - 1]) + (s[|s| - 1] as int - '0' as int)
  }

  /** Reads back what IntText writes. */
  function ParseInt(s: string): int {
    if s != [] && s[0] == '-' then -ParseNat(s[1..]) else ParseNat(s)
  }

  lemma {:induction false} ParseNatText(n: nat)
    ensures ParseNat(NatText(n)) == n
  {
    if n >= 10 {
      var s := NatText(n);
      assert s[..|s| - 1] == NatText(n / 10);
      ParseNatText(n / 10);
    }
  }

  lemma ParseIntText(x: int)
    ensures ParseInt(IntText(x)) == x
  {
    if x < 0 {
      ParseNegativeText(x);
    } else {
      ParseNatText(x);
      ParseDigits(NatText(x));
    }
  }

  lemma ParseNegativeText(x: int)
    requires x < 0
    ensures ParseInt(IntText(x)) == x
  {
    var d := NatText(-x);
    assert IntText(x) == ['-'] + d;
    assert (['-'] + d)[1..] == d;
    ParseNatText(-x);
  }

  /** Text that starts with a digit reads as a natural number. */
  lemma ParseDigits(d: string)
    requires |d| >= 1 && IsDigit(d[0])
    ensures ParseInt(d) == ParseNat(d)
  {
  }

  // ---------------------------------------------------------------------
  // toString

  /** The inner loop from column col on: each value and one space. */
  function RowText(b: Board, row: int, col: int): (s: string)
    requires 0 <= row < b.dimension && 0 <= col <= b.dimension && Printable(b)
    decreases b.dimension - col
    ensures Free(s, '\n')
  {
    if col == b.dimension then "" else IntText(Cell(b, row, col)) + " " + RowText(b, row, col + 1)
  }

  lemma RowIndex(b: Board, row: int, col: int)
    requires 0 <= row < b.dimension && 0 <= col < b.dimension
    ensures 0 <= row * b.dimension + col < b.dimension * b.dimension
  {
    assert row * b.dimension <= (b.dimension - 1) * b.dimension;
  }

  /** The value at (row, col). */
  function Cell(b: Board, row: int, col: int): int
    requires 0 <= row < b.dimension && 0 <= col < b.dimension && Printable(b)
  {
    RowIndex(b, row, col);
    b.values[row * b.dimension + col]
  }

  /** The outer loop from row on: each row's text and a newline. */
  function RowsText(b: Board, row: int): string
    requires 0 <= row <= b.dimension && Printable(b)
    decreases b.dimension - row
  {
    if row == b.dimension then "" else RowText(b, row, 0) + "\n" + RowsText(b, row + 1)
  }

  /** Board.toString. A dimension of zero or less prints nothing. */
  function ToString(b: Board): string
    requires Printable(b)
  {
    if b.dimension <= 0 then "" else RowsText(b, 0)
  }

  // ---------------------------------------------------------------------
  // What the text holds.

  function Count(s: string, c: char): nat {
    if s == [] then 0 else (if s[0] == c then 1 else 0) + Count(s[1..], c)
  }

  lemma {:induction false} CountConcat(a: string, b: string, c: char)
    ensures Count(a + b, c) == Count(a, c) + Count(b, c)
  {
    if a == [] {
      assert a + b == b;
    } else {
      assert (a + b)[0] == a[0];
      assert (a + b)[1..] == a[1..] + b;
      CountConcat(a[1..], b, c);
    }
  }

  lemma {:induction false} CountAbsent(s: string, c: char)
    requires forall i :: 0 <= i < |s| ==> s[i] != c
    ensures Count(s, c) == 0
  {
    if s != [] {
      CountAbsent(s[1..], c);
    }
  }

  lemma {:induction false} RowsNewlines(b: Board, row: int)
    requires 0 <= row <= b.dimension && Printable(b)
    decreases b.dimension - row
    ensures Count(RowsText(b, row), '\n') == b.dimension - row
  {
    if row < b.dimension {
      RowsNewlines(b, row + 1);
      LineCount(RowText(b, row, 0), RowsText(b, row + 1), '\n');
    }
  }

  /** A line free of the separator, the separator and the rest hold one
      separator more than the rest. */
  lemma LineCount(line: string, rest: string, c: char)
    requires Free(line, c)
    ensures Count(line + [c] + rest, c) == Count(rest, c) + 1
  {
    CountAbsent(line, c);
    CountConcat(line + [c], rest, c);
    CountConcat(line, [c], c);
    assert [c][1..] == [];
  }

  /** The text has exactly one newline per row, and nothing at all when the
      dimension is zero or less. */
  lemma Newlines(b: Board)
    requires Printable(b)
    ensures Count(ToString(b), '\n') == (if b.dimension <= 0 then 0 else b.dimension)
    ensures b.dimension <= 0 ==> ToString(b) == ""
  {
    if b.dimension > 0 {
      RowsNewlines(b, 0);
    }
  }

  // ---------------------------------------------------------------------
  // Reading the text back: split into lines at each newline, each line into
  // fields at each space, each field into a number.

  predicate Free(s: string, sep: char) {
    forall i :: 0 <= i < |s| ==> s[i] != sep
  }

  /** The pieces of s, each ended by sep, reading one character at a time;
      `cur` is the piece read so far, kept when s ends without a separator. */
  function Split(s: string, sep: char, cur: string): seq<string>
    decreases |s|
  {
    if s == [] then (if cur == [] then [] else [cur])
    else if s[0] == sep then [cur] + Split(s[1..], sep, [])
    else Split(s[1..], sep, cur + [s[0]])
  }

  function Pieces(s: string, sep: char): seq<string> {
    Split(s, sep, [])
  }

  lemma {:induction false} SplitCons(x: string, sep: char, rest: string, cur: string)
    requires Free(x, sep)
    decreases |x|
    ensures Split(x + [sep] + rest, sep, cur) == [cur + x] + Split(rest, sep, [])
  {
    var s := x + [sep] + rest;
    if x == [] {
      assert s[0] == sep && s[1..] == rest && cur + x == cur;
    } else {
      assert s[0] == x[0] && s[1..] == x[1..] + [sep] + rest;
      SplitCons(x[1..], sep, rest, cur + [x[0]]);
      assert cur + [x[0]] + x[1..] == cur + x;
    }
  }

  lemma PiecesCons(x: string, sep: char, rest: string)
    requires Free(x, sep)
    ensures Pieces(x + [sep] + rest, sep) == [x] + Pieces(rest, sep)
  {
    SplitCons(x, sep, rest, []);
    assert [] + x == x;
  }

  /** The grid the board prints: row r holds values[r * dimension ..]. */
  function Row(b: Board, row: int, col: int): (r: seq<int>)
    requires 0 <= row < b.dimension && 0 <= col <= b.dimension && Printable(b)
    decreases b.dimension - col
    ensures |r| == b.dimension - col
  {
    if col == b.dimension then [] else [Cell(b, row, col)] + Row(b, row, col + 1)
  }

  function Grid(b: Board, row: int): (g: seq<seq<int>>)
    requires 0 <= row <= b.dimension && Printable(b)
    decreases b.dimension - row
    ensures |g| == b.dimension - row
  {
    if row == b.dimension then [] else [Row(b, row, 0)] + Grid(b, row + 1)
  }

  function ParseFields(fields: seq<string>): (r: seq<int>)
    ensures |r| == |fields|
  {
    if fields == [] then [] else [ParseInt(fields[0])] + ParseFields(fields[1..])
  }

  function ParseLines(lines: seq<string>): (r: seq<seq<int>>)
    ensures |r| == |lines|
  {
    if lines == [] then [] else [ParseFields(Pieces(lines[0], ' '))] + ParseLines(lines[1..])
  }

  /** Reads a printed board back as its rows of values. */
  function Parse(s: string): seq<seq<int>> {
    ParseLines(Pieces(s, '\n'))
  }

  lemma FieldsCons(x: string, rest: string)
    requires Free(x, ' ')
    ensures ParseFields(Pieces(x + [' '] + rest, ' ')) == [ParseInt(x)] + ParseFields(Pieces(rest, ' '))
  {
    PiecesCons(x, ' ', rest);
    var ps := [x] + Pieces(rest, ' ');
    assert ps[0] == x && ps[1..] == Pieces(rest, ' ');
  }

  lemma {:induction false} RowRoundTrip(b: Board, row: int, col: int)
    requires 0 <= row < b.dimension && 0 <= col <= b.dimension && Printable(b)
    decreases b.dimension - col
    ensures ParseFields(Pieces(RowText(b, row, col), ' ')) == Row(b, row, col)
  {
    if col < b.dimension {
      var v := Cell(b, row, col);
      var rest := RowText(b, row, col + 1);
      assert RowText(b, row, col) == IntText(v) + [' '] + rest;
      FieldsCons(IntText(v), rest);
      ParseIntText(v);
      RowRoundTrip(b, row, col + 1);
    }
  }

  lemma ParseCons(line: string, rest: string)
    requires Free(line, '\n')
    ensures Parse(line + ['\n'] + rest) == [ParseFields(Pieces(line, ' '))] + Parse(rest)
  {
    PiecesCons(line, '\n', rest);
    var ps := [line] + Pieces(rest, '\n');
    assert ps[0] == line && ps[1..] == Pieces(rest, '\n');
  }

  lemma RowsStep(b: Board, row: int)
    requires 0 <= row < b.dimension && Printable(b)
    ensures Parse(RowsText(b, row)) == [ParseFields(Pieces(RowText(b, row, 0), ' '))] + Parse(RowsText(b, row + 1))
  {
    var line := RowText(b, row, 0);
    assert RowsText(b, row) == line + ['\n'] + RowsText(b, row + 1);
    ParseCons(line, RowsText(b, row + 1));
  }

  lemma {:induction false} RowsRoundTrip(b: Board, row: int)
    requires 0 <= row <= b.dimension && Printable(b)
    decreases b.dimension - row
    ensures Parse(RowsText(b, row)) == Grid(b, row)
  {
    if row < b.dimension {
      RowsRoundTrip(b, row + 1);
      RowsRoundTripStep(b, row);
    } else {
      RowsRoundTripEnd(b);
    }
  }

  lemma RowsRoundTripEnd(b: Board)
    requires Printable(b) && b.dimension >= 0
    ensures Parse(RowsText(b, b.dimension)) == Grid(b, b.dimension)
  {
    assert RowsText(b, b.dimension) == [];
    assert Pieces([], '\n') == [];
  }

  lemma RowsRoundTripStep(b: Board, row: int)
    requires 0 <= row < b.dimension && Printable(b)
    requires Parse(RowsText(b, row + 1)) == Grid(b, row + 1)
    ensures Parse(RowsText(b, row)) == Grid(b, row)
  {
    RowsStep(b, row);
    RowRoundTrip(b, row, 0);
  }

  /** toString loses nothing: the text reads back as the board's rows, row
      r holding values[r * dimension + c] for c from 0 to dimension - 1. */
  lemma ToStringRoundTrip(b: Board)
    requires Printable(b) && b.dimension >= 0
    ensures Parse(ToString(b)) == Grid(b, 0)
  {
    RowsRoundTrip(b, 0);
  }

  lemma {:induction false} RowAt(b: Board, row: int, col: int, k: int)
    requires 0 <= row < b.dimension && 0 <= col <= k < b.dimension && Printable(b)
    decreases b.dimension - col
    ensures 0 <= row * b.dimension + k < |b.values|
    ensures Row(b, row, col)[k - col] == b.values[row * b.dimension + k]
  {
    RowIndex(b, row, k);
    if col < k {
      RowAt(b, row, col + 1, k);
    }
  }

  lemma {:induction false} GridAt(b: Board, row: int, r: int)
    requires 0 <= row <= r < b.dimension && Printable(b)
    decreases b.dimension - row
    ensures Grid(b, row)[r - row] == Row(b, r, 0) && |Grid(b, row)[r - row]| == b.dimension
  {
    if row < r {
      GridAt(b, row + 1, r);
    }
  }

  /** Cell (r, c) of the grid is values[r * dimension + c]. */
  lemma GridCell(b: Board, r: int, c: int)
    requires 0 <= r < b.dimension && 0 <= c < b.dimension && Printable(b)
    ensures 0 <= r * b.dimension + c < |b.values|
    ensures |Grid(b, 0)[r]| == b.dimension
    ensures Grid(b, 0)[r][c] == b.values[r * b.dimension + c]
  {
    GridAt(b, 0, r);
    RowAt(b, r, 0, c);
  }
}
