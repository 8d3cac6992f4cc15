/** The Connect Four game state: a fixed 6 x 7 grid of optional players and
    the ordered history of moves, with the drop/undo protocol and the
    terminal queries. Row 0 is the bottom row; pieces fall toward it. */
module ConnectFourGame {
  import opened Common

  const Rows: int := 6
  const Columns: int := 7

  /** Players are identity tokens: real players, plus the two anonymous
      proxies a simulating strategy re-tags the history with. Only `==` is
      ever used on them. */
  datatype Player = Real(id: nat) | OurProxy | OpponentProxy

  datatype PlayerMove = PlayerMove(player: Player, column: int)

  type Cell = Option<Player>

  /** Indexed as board[row][column], like the Java array. */
  type Board = seq<seq<Cell>>

  datatype Game = Game(board: Board, moves: seq<PlayerMove>)

  /** What makeMove hands back: the new state and the row it reports. */
  datatype Placement = Placement(game: Game, row: int)

  /** What isWinningMove hands back: the verdict and the state after its
      make/check/undo sequence. */
  datatype Probe = Probe(win: bool, game: Game)

  predicate OnBoard(row: int, col: int) {
    0 <= row < Rows && 0 <= col < Columns
  }

  predicate InRange(col: int) {
    0 <= col < Columns
  }

  predicate Shaped(b: Board) {
    |b| == Rows && forall r :: 0 <= r < Rows ==> |b[r]| == Columns
  }

  /** Every state the Java object can be in: the array has its fixed shape,
      and every recorded move names a column that exists (makeMove throws
      before recording a move whose column is out of range). */
  predicate WellFormed(g: Game) {
    && Shaped(g.board)
    && forall i :: 0 <= i < |g.moves| ==> InRange(g.moves[i].column)
  }

  /** Cell (row, col) is empty, on the bottom row, or above an occupied cell. */
  predicate Rests(b: Board, row: int, col: int)
    requires Shaped(b) && OnBoard(row, col)
  {
    row == 0 || b[row][col] == None || b[row - 1][col].Some?
  }

  /** No floating pieces: an occupied cell above row 0 rests on an occupied cell. */
  predicate Gravity(b: Board)
    requires Shaped(b)
  {
    forall r, c :: 0 <= r < Rows && 0 <= c < Columns ==> Rests(b, r, c)
  }

  predicate Sound(g: Game) {
    WellFormed(g) && Gravity(g.board)
  }

  /** Sound, and every recorded move placed exactly one piece. */
  predicate Consistent(g: Game) {
    Sound(g) && |g.moves| == BoardCount(g.board)
  }

  // ---------------------------------------------------------------------
  // Counting occupied cells

  function Occupancy(c: Cell): nat {
    if c.Some? then 1 else 0
  }

  function RowCount(row: seq<Cell>): (n: nat)
    ensures n <= |row|
  {
    if row == [] then 0 else Occupancy(row[0]) + RowCount(row[1..])
  }

  function BoardCount(b: Board): nat {
    if b == [] then 0 else RowCount(b[0]) + BoardCount(b[1..])
  }

  lemma {:induction false} RowCountUpdate(row: seq<Cell>, i: int, v: Cell)
    requires 0 <= i < |row|
    ensures RowCount(row[i := v]) == RowCount(row) - Occupancy(row[i]) + Occupancy(v)
  {
    if i > 0 {
      assert row[i := v][1..] == row[1..][i - 1 := v];
      RowCountUpdate(row[1..], i - 1, v);
    } else {
      assert row[i := v][1..] == row[1..];
    }
  }

  lemma {:induction false} BoardCountUpdate(b: Board, r: int, x: seq<Cell>)
    requires 0 <= r < |b|
    ensures BoardCount(b[r := x]) == BoardCount(b) - RowCount(b[r]) + RowCount(x)
  {
    if r > 0 {
      assert b[r := x][1..] == b[1..][r - 1 := x];
      BoardCountUpdate(b[1..], r - 1, x);
    } else {
      assert b[r := x][1..] == b[1..];
    }
  }

  lemma {:induction false} BoardCountBound(b: Board)
    requires forall r :: 0 <= r < |b| ==> |b[r]| == Columns
    ensures BoardCount(b) <= Columns * |b|
  {
    if b != [] {
      BoardCountBound(b[1..]);
    }
  }

  lemma {:induction false} BoardCountEmpty(b: Board)
    requires forall r, c :: 0 <= r < |b| && 0 <= c < |b[r]| ==> b[r][c] == None
    ensures BoardCount(b) == 0
  {
    if b != [] {
      RowCountEmpty(b[0]);
      BoardCountEmpty(b[1..]);
    }
  }

  lemma {:induction false} RowCountEmpty(row: seq<Cell>)
    requires forall c :: 0 <= c < |row| ==> row[c] == None
    ensures RowCount(row) == 0
  {
    if row != [] {
      RowCountEmpty(row[1..]);
    }
  }

  // ---------------------------------------------------------------------
  // Construction

  function EmptyBoard(): (b: Board)
    ensures Shaped(b)
    ensures forall r, c :: OnBoard(r, c) ==> b[r][c] == None
  {
    seq(Rows, _ => seq(Columns, _ => None))
  }

  /** The no-argument constructor: an empty grid and an empty history. */
  function NewGame(): (g: Game)
    ensures Consistent(g)
    ensures g.moves == []
    ensures forall r, c :: OnBoard(r, c) ==> g.board[r][c] == None
  {
    var b := EmptyBoard();
    BoardCountEmpty(b);
    Game(b, [])
  }

  /** One cell of the board replaced. */
  function Place(b: Board, row: int, col: int, v: Cell): (b': Board)
    requires Shaped(b) && OnBoard(row, col)
    ensures Shaped(b')
    ensures b'[row][col] == v
    ensures forall r, c :: OnBoard(r, c) && (r != row || c != col) ==> b'[r][c] == b[r][c]
    ensures BoardCount(b') == BoardCount(b) - Occupancy(b[row][col]) + Occupancy(v)
  {
    RowCountUpdate(b[row], col, v);
    BoardCountUpdate(b, row, b[row][col := v]);
    b[row := b[row][col := v]]
  }

  // ---------------------------------------------------------------------
  // Queries

  /** isColumnFull: the top cell of the column is occupied. Under gravity
      that is the column having no empty cell at all. */
  function IsColumnFull(g: Game, col: int): (full: bool)
    requires Shaped(g.board) && InRange(col)
  {
    g.board[Rows - 1][col].Some?
  }

  /** isValidMove: the column exists and is not full. Under gravity that is
      the column existing and having an empty cell somewhere. */
  function IsValidMove(g: Game, m: PlayerMove): (valid: bool)
    requires Shaped(g.board)
  {
    InRange(m.column) && !IsColumnFull(g, m.column)
  }

  /** Under gravity an empty cell has only empty cells above it. */
  lemma {:induction false} EmptyAbove(b: Board, row: int, col: int)
    requires Shaped(b) && Gravity(b) && OnBoard(row, col) && b[row][col] == None
    ensures forall k :: row <= k < Rows ==> b[k][col] == None
    decreases Rows - row
  {
    if row + 1 < Rows {
      assert Rests(b, row + 1, col);
      EmptyAbove(b, row + 1, col);
    }
  }

  /** Under gravity a column counts as full exactly when every cell of it
      is occupied. */
  lemma ColumnFull(g: Game, col: int)
    requires Shaped(g.board) && InRange(col)
    ensures Gravity(g.board) ==> (IsColumnFull(g, col) <==> forall r :: 0 <= r < Rows ==> g.board[r][col].Some?)
  {
    if Gravity(g.board) && exists r :: 0 <= r < Rows && g.board[r][col] == None {
      var r :| 0 <= r < Rows && g.board[r][col] == None;
      EmptyAbove(g.board, r, col);
    }
  }

  /** A move is never valid outside the board; inside it, under gravity, it
      is valid exactly when its column has an empty cell somewhere. */
  lemma ValidIffRoom(g: Game, m: PlayerMove)
    requires Shaped(g.board)
    ensures !InRange(m.column) ==> !IsValidMove(g, m)
    ensures Gravity(g.board) && InRange(m.column) ==>
              (IsValidMove(g, m) <==> exists r :: 0 <= r < Rows && g.board[r][m.column] == None)
  {
    if InRange(m.column) {
      ColumnFull(g, m.column);
    }
  }

  /** The loop of isFull over the top row, from column `col` on. */
  function FullFrom(g: Game, col: int): (full: bool)
    requires Shaped(g.board) && 0 <= col <= Columns
    decreases Columns - col
    ensures full <==> forall c :: col <= c < Columns ==> IsColumnFull(g, c)
  {
    if col == Columns then true
    else if g.board[Rows - 1][col] == None then assert !IsColumnFull(g, col); false
    else FullFrom(g, col + 1)
  }

  /** isFull: every column is full. */
  function IsFull(g: Game): (full: bool)
    requires Shaped(g.board)
    ensures full <==> forall c :: InRange(c) ==> IsColumnFull(g, c)
  {
    FullFrom(g, 0)
  }

  /** getNonFullColumns from column `col` on, ascending. */
  function NonFullFrom(g: Game, col: int): (cols: seq<int>)
    requires Shaped(g.board) && 0 <= col <= Columns
    decreases Columns - col
    ensures forall i :: 0 <= i < |cols| ==> col <= cols[i] < Columns && !IsColumnFull(g, cols[i])
    ensures forall i, j :: 0 <= i < j < |cols| ==> cols[i] < cols[j]
    ensures forall c :: col <= c < Columns && !IsColumnFull(g, c) ==> c in cols
  {
    if col == Columns then []
    else if g.board[Rows - 1][col] == None then [col] + NonFullFrom(g, col + 1)
    else NonFullFrom(g, col + 1)
  }

  /** getPossibleMoves: one move per non-full column, ascending, tagged `p`. */
  function PossibleMoves(g: Game, p: Player): (ms: seq<PlayerMove>)
    requires Shaped(g.board)
    ensures forall i :: 0 <= i < |ms| ==> ms[i].player == p && IsValidMove(g, ms[i])
    ensures forall i, j :: 0 <= i < j < |ms| ==> ms[i].column < ms[j].column
    ensures forall c :: InRange(c) && !IsColumnFull(g, c) ==> PlayerMove(p, c) in ms
  {
    var cols := NonFullFrom(g, 0);
    var ms := seq(|cols|, i requires 0 <= i < |cols| => PlayerMove(p, cols[i]));
    assert forall c :: InRange(c) && !IsColumnFull(g, c) ==> PlayerMove(p, c) in ms by {
      forall c | InRange(c) && !IsColumnFull(g, c)
        ensures PlayerMove(p, c) in ms
      {
        var i :| 0 <= i < |cols| && cols[i] == c;
        assert ms[i] == PlayerMove(p, c);
      }
    }
    ms
  }

  /** Every move of the list may be played. */
  predicate AllValid(g: Game, ms: seq<PlayerMove>)
    requires Shaped(g.board)
  {
    forall j :: 0 <= j < |ms| ==> IsValidMove(g, ms[j])
  }

  /** No legal move exists exactly when the board is full. */
  lemma NoMovesIffFull(g: Game, p: Player)
    requires Shaped(g.board)
    ensures PossibleMoves(g, p) == [] <==> IsFull(g)
  {
    var ms := PossibleMoves(g, p);
    if ms != [] {
      assert IsValidMove(g, ms[0]);
    }
  }

  // ---------------------------------------------------------------------
  // makeMove and undoMove

  /** The drop loop of makeMove, from row `row` upward: the first empty row,
      or Rows when there is none. */
  function LandingFrom(b: Board, col: int, row: int): (r: int)
    requires Shaped(b) && InRange(col) && 0 <= row <= Rows
    decreases Rows - row
    ensures row <= r <= Rows
    ensures forall k :: row <= k < r ==> b[k][col].Some?
    ensures r < Rows ==> b[r][col] == None
  {
    if row == Rows then Rows
    else if b[row][col] != None then LandingFrom(b, col, row + 1)
    else row
  }

  /** Under gravity nothing lies above the landing row. */
  lemma LandingIsTop(b: Board, col: int)
    requires Shaped(b) && InRange(col)
    ensures Gravity(b) && LandingFrom(b, col, 0) < Rows ==>
              forall k :: LandingFrom(b, col, 0) <= k < Rows ==> b[k][col] == None
  {
    var row := LandingFrom(b, col, 0);
    if Gravity(b) && row < Rows {
      EmptyAbove(b, row, col);
    }
  }

  /** makeMove: the piece lands in the lowest empty row of its column; on a
      full column nothing is placed, the move is still recorded and the
      reported row is Rows. */
  function MakeMove(g: Game, m: PlayerMove): (p: Placement)
    requires WellFormed(g) && InRange(m.column)
    ensures WellFormed(p.game)
    ensures p.game.moves == g.moves + [m]
    ensures 0 <= p.row <= Rows
    ensures forall k :: 0 <= k < p.row ==> g.board[k][m.column].Some?
    ensures p.row < Rows ==> g.board[p.row][m.column] == None && p.game.board[p.row][m.column] == Some(m.player)
    ensures forall r, c :: OnBoard(r, c) && (r != p.row || c != m.column) ==> p.game.board[r][c] == g.board[r][c]
    ensures p.row == Rows ==> IsColumnFull(g, m.column) && p.game.board == g.board
    ensures Gravity(g.board) && IsColumnFull(g, m.column) ==> p.row == Rows
  {
    var row := LandingFrom(g.board, m.column, 0);
    LandingIsTop(g.board, m.column);
    var board := if row < Rows then Place(g.board, row, m.column, Some(m.player)) else g.board;
    Placement(Game(board, g.moves + [m]), row)
  }

  /** The scan of undoMove, from row `row` downward: the highest occupied
      row, or -1 when the column is empty. */
  function TopFrom(b: Board, col: int, row: int): (r: int)
    requires Shaped(b) && InRange(col) && -1 <= row < Rows
    decreases row + 1
    ensures -1 <= r <= row
    ensures forall k :: r < k <= row ==> b[k][col] == None
    ensures r >= 0 ==> b[r][col].Some?
  {
    if row < 0 then -1
    else if b[row][col] == None then TopFrom(b, col, row - 1)
    else row
  }

  function TopRow(b: Board, col: int): int
    requires Shaped(b) && InRange(col)
  {
    TopFrom(b, col, Rows - 1)
  }

  function LastMove(g: Game): PlayerMove
    requires |g.moves| > 0
  {
    g.moves[|g.moves| - 1]
  }

  /** undoMove: clear the highest occupied cell in the last move's column
      (nothing when that column is empty) and pop the last move. */
  function UndoMove(g: Game): (g': Game)
    requires WellFormed(g) && |g.moves| > 0
    ensures WellFormed(g')
    ensures g'.moves == g.moves[..|g.moves| - 1]
    ensures var col := LastMove(g).column;
            var t := TopRow(g.board, col);
            && (t >= 0 ==> g.board[t][col].Some? && g'.board[t][col] == None)
            && (forall k :: t < k < Rows ==> g.board[k][col] == None)
            && (forall r, c :: OnBoard(r, c) && (r != t || c != col) ==> g'.board[r][c] == g.board[r][c])
  {
    var col := LastMove(g).column;
    var top := TopRow(g.board, col);
    var board := if top >= 0 then Place(g.board, top, col, None) else g.board;
    Game(board, g.moves[..|g.moves| - 1])
  }

  lemma BoardExt(a: Board, b: Board)
    requires Shaped(a) && Shaped(b)
    requires forall r, c :: OnBoard(r, c) ==> a[r][c] == b[r][c]
    ensures a == b
  {
    forall r | 0 <= r < Rows
      ensures a[r] == b[r]
    {
      assert forall c :: 0 <= c < Columns ==> a[r][c] == b[r][c];
    }
  }

  /** The round trip the search strategies rely on: undoing a valid move
      restores the board and the history exactly. */
  lemma UndoAfterMake(g: Game, m: PlayerMove)
    requires Sound(g) && IsValidMove(g, m)
    ensures UndoMove(MakeMove(g, m).game) == g
  {
    var p := MakeMove(g, m);
    var after := p.game;
    var col := m.column;
    assert p.row < Rows;
    EmptyAbove(g.board, p.row, col);
    assert TopRow(after.board, col) == p.row by {
      var t := TopRow(after.board, col);
      assert after.board[p.row][col].Some?;
      assert forall k :: p.row < k < Rows ==> after.board[k][col] == None;
    }
    var back := UndoMove(after);
    BoardExt(back.board, g.board);
    assert (g.moves + [m])[..|g.moves|] == g.moves;
  }

  /** makeMove keeps the pieces resting on each other, and a valid move adds
      exactly one piece, so a consistent state stays consistent. */
  lemma MakeMovePreservesConsistency(g: Game, m: PlayerMove)
    requires Sound(g) && InRange(m.column)
    ensures Sound(MakeMove(g, m).game)
    ensures IsValidMove(g, m) ==> BoardCount(MakeMove(g, m).game.board) == BoardCount(g.board) + 1
    ensures IsValidMove(g, m) && Consistent(g) ==> Consistent(MakeMove(g, m).game)
  {
    var p := MakeMove(g, m);
    var b: Board := g.board;
    var b': Board := p.game.board;
    forall r, c | OnBoard(r, c)
      ensures Rests(b', r, c)
    {
      assert Rests(b, r, c);
      if r == p.row && c == m.column {
      } else if r - 1 == p.row && c == m.column {
      } else if r > 0 && b'[r][c].Some? {
        assert b[r][c].Some?;
      }
    }
    if IsValidMove(g, m) {
      assert b' == Place(b, p.row, m.column, Some(m.player)) by {
        BoardExt(b', Place(b, p.row, m.column, Some(m.player)));
      }
    }
  }

  /** undoMove keeps the pieces resting on each other; when the last move's
      column holds a piece it removes exactly one, so a consistent state
      whose last column is not empty stays consistent. */
  lemma UndoMovePreservesConsistency(g: Game)
    requires Sound(g) && |g.moves| > 0
    ensures Sound(UndoMove(g))
    ensures TopRow(g.board, LastMove(g).column) >= 0 ==> BoardCount(UndoMove(g).board) + 1 == BoardCount(g.board)
    ensures Consistent(g) && TopRow(g.board, LastMove(g).column) >= 0 ==> Consistent(UndoMove(g))
  {
    var col := LastMove(g).column;
    var t := TopRow(g.board, col);
    var b: Board := g.board;
    var b': Board := UndoMove(g).board;
    forall r, c | OnBoard(r, c)
      ensures Rests(b', r, c)
    {
      assert Rests(b, r, c);
      if r > 0 && r - 1 == t && c == col && b'[r][c].Some? {
        assert false;
      }
    }
    if t >= 0 {
      BoardExt(b', Place(b, t, col, None));
    }
  }

  // ---------------------------------------------------------------------
  // Four in a row

  /** The scan directions: (row step, column step). */
  const Directions: seq<(int, int)> := [(0, 1), (1, 1), (1, 0), (1, -1)]

  /** The i-th cell along direction d from (row, col) exists and holds the
      same occupant as (row, col). */
  predicate Follows(b: Board, row: int, col: int, d: (int, int), i: int)
    requires Shaped(b) && OnBoard(row, col)
  {
    var r := row + d.0 * i;
    var c := col + d.1 * i;
    OnBoard(r, c) && b[r][c] == b[row][col]
  }

  /** An occupied cell that starts a run of four identical occupants along d. */
  predicate RunFrom(b: Board, row: int, col: int, d: (int, int))
    requires Shaped(b) && OnBoard(row, col)
  {
    b[row][col].Some? && Follows(b, row, col, d, 1) && Follows(b, row, col, d, 2) && Follows(b, row, col, d, 3)
  }

  ghost predicate FourInARow(b: Board)
    requires Shaped(b)
  {
    exists r, c, k :: OnBoard(r, c) && 0 <= k < |Directions| && RunFrom(b, r, c, Directions[k])
  }

  /** The direction loop of hasFourInARow, from direction k on. */
  function AnyDirectionFrom(b: Board, row: int, col: int, k: int): (found: bool)
    requires Shaped(b) && OnBoard(row, col) && 0 <= k <= |Directions|
    decreases |Directions| - k
    ensures found <==> exists j :: k <= j < |Directions| && RunFrom(b, row, col, Directions[j])
  {
    if k == |Directions| then false
    else RunFrom(b, row, col, Directions[k]) || AnyDirectionFrom(b, row, col, k + 1)
  }

  /** The row-major cell loop of hasFourInARow from (row, col) on. */
  function ScanFrom(b: Board, row: int, col: int): (found: bool)
    requires Shaped(b) && 0 <= row <= Rows && 0 <= col <= Columns
    decreases Rows - row, Columns - col
    ensures found <==> exists r, c, k :: OnBoard(r, c) && (r > row || (r == row && c >= col))
                                        && 0 <= k < |Directions| && RunFrom(b, r, c, Directions[k])
  {
    if row == Rows then false
    else if col == Columns then ScanFrom(b, row + 1, 0)
    else (b[row][col].Some? && AnyDirectionFrom(b, row, col, 0)) || ScanFrom(b, row, col + 1)
  }

  /** hasFourInARow: some occupied cell starts a run of four identical
      occupants along one of the four directions. */
  function HasFourInARow(b: Board): (found: bool)
    requires Shaped(b)
    ensures found <==> FourInARow(b)
  {
    ScanFrom(b, 0, 0)
  }

  /** Playing m produces four in a row. */
  ghost predicate Wins(g: Game, m: PlayerMove)
    requires WellFormed(g) && InRange(m.column)
  {
    FourInARow(MakeMove(g, m).game.board)
  }

  lemma ProbeRestores(g: Game, m: PlayerMove)
    requires WellFormed(g) && InRange(m.column)
    ensures Sound(g) && IsValidMove(g, m) ==> UndoMove(MakeMove(g, m).game) == g
  {
    if Sound(g) && IsValidMove(g, m) {
      UndoAfterMake(g, m);
    }
  }

  /** isWinningMove: make the move, check for four in a row, undo it. On a
      valid move of a sound state the state comes back unchanged. */
  function IsWinningMove(g: Game, m: PlayerMove): (p: Probe)
    requires WellFormed(g) && InRange(m.column)
    ensures p.win <==> Wins(g, m)
    ensures Sound(g) && IsValidMove(g, m) ==> p.game == g
  {
    var after := MakeMove(g, m).game;
    var four := HasFourInARow(after.board);
    ProbeRestores(g, m);
    Probe(four, UndoMove(after))
  }

  /** isFinished: the board is full or somebody has four in a row. */
  function IsFinished(g: Game): (done: bool)
    requires Shaped(g.board)
    ensures done <==> (forall c :: InRange(c) ==> IsColumnFull(g, c)) || FourInARow(g.board)
  {
    IsFull(g) || HasFourInARow(g.board)
  }

  // ---------------------------------------------------------------------
  // Replay constructor

  predicate ColumnsInRange(moves: seq<PlayerMove>) {
    forall i :: 0 <= i < |moves| ==> InRange(moves[i].column)
  }

  /** makeMove applied to each move in order. */
  function ReplayOnto(g: Game, moves: seq<PlayerMove>): (r: Game)
    requires WellFormed(g) && ColumnsInRange(moves)
    decreases |moves|
    ensures WellFormed(r)
    ensures r.moves == g.moves + moves
    ensures Sound(g) ==> Sound(r)
  {
    if moves == [] then g
    else
      var next := MakeMove(g, moves[0]).game;
      MakePreservesSound(g, moves[0]);
      ReplayStep(g.moves, moves);
      ReplayOnto(next, moves[1..])
  }

  lemma ReplayStep(done: seq<PlayerMove>, moves: seq<PlayerMove>)
    requires moves != [] && ColumnsInRange(moves)
    ensures done + [moves[0]] + moves[1..] == done + moves
    ensures ColumnsInRange(moves[1..])
  {
    assert moves == [moves[0]] + moves[1..];
  }

  lemma MakePreservesSound(g: Game, m: PlayerMove)
    requires WellFormed(g) && InRange(m.column)
    ensures Sound(g) ==> Sound(MakeMove(g, m).game)
  {
    if Sound(g) {
      MakeMovePreservesConsistency(g, m);
    }
  }

  /** The list constructor: an empty game with every move replayed. Its
      history is exactly the given list, and its pieces rest on each other. */
  function Replay(moves: seq<PlayerMove>): (r: Game)
    requires ColumnsInRange(moves)
    ensures Sound(r)
    ensures r.moves == moves
  {
    ReplayOnto(NewGame(), moves)
  }
}
