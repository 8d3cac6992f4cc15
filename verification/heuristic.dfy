/** The positional heuristic shared by the two minimax strategies: after a
    move is played, every four-cell window through the landing cell along
    the row and the two diagonals, plus the run of the mover's pieces below
    it in the column, is scored by how many of the mover's pieces it holds. */
module Heuristic {
  import opened Common
  import opened ConnectFourGame

  /** The non-linear scale: one piece is worth 1, two 4, three 32. */
  function CountToValue(count: int): (v: int)
    ensures 0 <= v <= 32
    ensures v > 0 <==> 1 <= count <= 3
    ensures count == 1 ==> v == 1
    ensures count == 2 ==> v == 4
    ensures count == 3 ==> v == 32
  {
    if count == 1 then 1
    else if count == 2 then 4
    else if count == 3 then 32
    else 0
  }

  /** Four cells from (row, col) in steps of (dRow, dCol). */
  datatype Window = Window(row: int, col: int, dRow: int, dCol: int)

  function CellRow(w: Window, i: int): int {
    w.row + w.dRow * i
  }

  function CellCol(w: Window, i: int): int {
    w.col + w.dCol * i
  }

  /** Both end cells lie on the board, so all four do. */
  predicate Fits(w: Window) {
    OnBoard(w.row, w.col) && OnBoard(CellRow(w, 3), CellCol(w, 3))
  }

  lemma FitsAll(w: Window, i: int)
    requires Fits(w) && 0 <= i < 4 && -1 <= w.dRow <= 1 && w.dCol == 1
    ensures OnBoard(CellRow(w, i), CellCol(w, i))
  {
    CellsAlong(w, i);
  }

  /** Cell i of a window with unit steps, without multiplication. */
  lemma CellsAlong(w: Window, i: int)
    requires -1 <= w.dRow <= 1 && w.dCol == 1
    ensures CellCol(w, i) == w.col + i
    ensures w.dRow == 0 ==> CellRow(w, i) == w.row && CellRow(w, 3) == w.row
    ensures w.dRow == 1 ==> CellRow(w, i) == w.row + i && CellRow(w, 3) == w.row + 3
    ensures w.dRow == -1 ==> CellRow(w, i) == w.row - i && CellRow(w, 3) == w.row - 3
  {
  }

  predicate Covers(w: Window, row: int, col: int) {
    exists i :: 0 <= i < 4 && CellRow(w, i) == row && CellCol(w, i) == col
  }

  /** The window that starts `back` cells behind (row, col) along the axis
      with row step dRow, so that its cell `back` is (row, col). */
  function Start(row: int, col: int, dRow: int, back: int): Window {
    Window(row - dRow * back, col - back, dRow, 1)
  }

  lemma StartCovers(row: int, col: int, dRow: int, back: int)
    requires 0 <= back < 4
    ensures Covers(Start(row, col, dRow, back), row, col)
  {
    var w := Start(row, col, dRow, back);
    assert CellRow(w, back) == row && CellCol(w, back) == col;
  }

  /** The windows the row (dRow = 0), left-diagonal (dRow = 1) and
      right-diagonal (dRow = -1) loops visit, from iteration k on: iteration
      k starts 3 - k cells back from the landing cell, and a window is kept
      exactly when the loop's bound checks let it through. */
  function AxisFrom(row: int, col: int, dRow: int, k: int): (ws: seq<Window>)
    requires 0 <= k <= 4
    decreases 4 - k
    ensures |ws| <= 4 - k
    ensures forall j :: 0 <= j < |ws| ==> ws[j].dRow == dRow && ws[j].dCol == 1 && Fits(ws[j]) && Covers(ws[j], row, col)
    ensures forall back :: 0 <= back <= 3 - k && Fits(Start(row, col, dRow, back)) ==>
              Start(row, col, dRow, back) in ws
  {
    if k == 4 then []
    else
      var w := Start(row, col, dRow, 3 - k);
      StartCovers(row, col, dRow, 3 - k);
      var rest := AxisFrom(row, col, dRow, k + 1);
      var ws := (if Fits(w) then [w] else []) + rest;
      assert forall x :: x in rest ==> x in ws;
      ws
  }

  function AxisWindows(row: int, col: int, dRow: int): seq<Window> {
    AxisFrom(row, col, dRow, 0)
  }

  /** The scored windows along an axis are exactly the windows along that
      axis that lie on the board and contain the landing cell. */
  lemma AxisWindowsExact(row: int, col: int, dRow: int, w: Window)
    ensures w in AxisWindows(row, col, dRow) <==> w.dRow == dRow && w.dCol == 1 && Fits(w) && Covers(w, row, col)
  {
    var ws := AxisWindows(row, col, dRow);
    if w in ws {
      var j :| 0 <= j < |ws| && ws[j] == w;
    }
    if w.dRow == dRow && w.dCol == 1 && Fits(w) && Covers(w, row, col) {
      var i :| 0 <= i < 4 && CellRow(w, i) == row && CellCol(w, i) == col;
      assert w == Start(row, col, dRow, i);
    }
  }

  /** Cell i of the window. */
  function At(b: Board, w: Window, i: int): Cell
    requires Shaped(b) && Fits(w) && -1 <= w.dRow <= 1 && w.dCol == 1 && 0 <= i < 4
  {
    FitsAll(w, i);
    b[CellRow(w, i)][CellCol(w, i)]
  }

  /** Cell i of the window holds an opponent's piece. */
  predicate Blocks(b: Board, w: Window, p: Player, i: int)
    requires Shaped(b) && Fits(w) && -1 <= w.dRow <= 1 && w.dCol == 1 && 0 <= i < 4
  {
    At(b, w, i).Some? && At(b, w, i).value != p
  }

  /** Cells i..3 of the window holding the mover's piece. */
  function OwnFrom(b: Board, w: Window, p: Player, i: int): nat
    requires Shaped(b) && Fits(w) && -1 <= w.dRow <= 1 && w.dCol == 1 && 0 <= i <= 4
    decreases 4 - i
  {
    if i == 4 then 0
    else
      (if At(b, w, i) == Some(p) then 1 else 0) + OwnFrom(b, w, p, i + 1)
  }

  /** The inner loop over a window from cell i on, with `count` pieces of the
      mover seen so far: None when an opponent's piece stops it. */
  function ScanWindow(b: Board, w: Window, p: Player, i: int, count: nat): (r: Option<nat>)
    requires Shaped(b) && Fits(w) && -1 <= w.dRow <= 1 && w.dCol == 1 && 0 <= i <= 4
    decreases 4 - i
    ensures r.None? <==> exists j :: i <= j < 4 && Blocks(b, w, p, j)
    ensures r.Some? ==> r.value == count + OwnFrom(b, w, p, i)
  {
    if i == 4 then Some(count)
    else
      var cell := At(b, w, i);
      if cell.Some? && cell.value != p then
        assert Blocks(b, w, p, i);
        None
      else ScanWindow(b, w, p, i + 1, if cell == Some(p) then count + 1 else count)
  }

  /** A window scores only when it holds no opponent piece, and then scores
      the value of the number of the mover's pieces in it. */
  function WindowScore(b: Board, w: Window, p: Player): (v: int)
    requires Shaped(b) && Fits(w) && -1 <= w.dRow <= 1 && w.dCol == 1
    ensures 0 <= v <= 32
    ensures (exists j :: 0 <= j < 4 && Blocks(b, w, p, j)) ==> v == 0
    ensures (forall j :: 0 <= j < 4 ==> !Blocks(b, w, p, j)) ==> v == CountToValue(OwnFrom(b, w, p, 0))
  {
    match ScanWindow(b, w, p, 0, 0)
    case None => 0
    case Some(count) => CountToValue(count)
  }

  predicate AxisWindow(w: Window) {
    -1 <= w.dRow <= 1 && w.dCol == 1 && Fits(w)
  }

  function SumScores(b: Board, ws: seq<Window>, p: Player): (v: int)
    requires Shaped(b) && forall j :: 0 <= j < |ws| ==> AxisWindow(ws[j])
    ensures 0 <= v <= 32 * |ws|
  {
    if ws == [] then 0
    else
      assert AxisWindow(ws[0]);
      WindowScore(b, ws[0], p) + SumScores(b, ws[1..], p)
  }

  /** The column loop: the unbroken run of the mover's pieces from `row`
      downward. */
  function RunDown(b: Board, row: int, col: int, p: Player): (n: nat)
    requires Shaped(b) && InRange(col) && -1 <= row < Rows
    decreases row + 1
    ensures n <= row + 1
    ensures forall k :: row - n < k <= row ==> b[k][col] == Some(p)
    ensures row - n >= 0 ==> b[row - n][col] != Some(p)
  {
    if row < 0 || b[row][col] != Some(p) then 0
    else 1 + RunDown(b, row - 1, col, p)
  }

  /** The column term: the run below the landing cell counts only when a
      four could still be completed above it. */
  function ColumnTerm(b: Board, row: int, col: int, p: Player): (v: int)
    requires Shaped(b) && OnBoard(row, col)
    ensures 0 <= v <= 32
    ensures v > 0 ==> row + (4 - RunDown(b, row, col, p)) < Rows
    ensures row + (4 - RunDown(b, row, col, p)) < Rows ==>
              v == CountToValue(RunDown(b, row, col, p))
    ensures v > 0 <==> 1 <= RunDown(b, row, col, p) <= 3 &&
                       row + (4 - RunDown(b, row, col, p)) < Rows
  {
    var count := RunDown(b, row, col, p);
    if row + (4 - count) < Rows then CountToValue(count) else 0
  }

  /** The heuristic on the board after the move: row windows, the column,
      the left diagonal, the right diagonal. At most 4 windows per axis and
      one column term, each worth at most 32. */
  function HeuristicValue(b: Board, row: int, col: int, p: Player): (v: int)
    requires Shaped(b) && OnBoard(row, col)
    ensures 0 <= v <= 13 * 32
  {
    SumScores(b, AxisWindows(row, col, 0), p)
    + ColumnTerm(b, row, col, p)
    + SumScores(b, AxisWindows(row, col, 1), p)
    + SumScores(b, AxisWindows(row, col, -1), p)
  }

  datatype Scored = Scored(value: int, game: Game)

  /** The heuristic of the move m: make it, score the landing cell for its
      mover, undo it. */
  ghost function MoveValue(g: Game, m: PlayerMove): int
    requires Sound(g) && IsValidMove(g, m)
  {
    var placed := MakeMove(g, m);
    HeuristicValue(placed.game.board, placed.row, m.column, m.player)
  }

  /** heuristic: the game comes back exactly as it was, and the score is the
      landing-cell score of the post-move board, between 0 and 13 * 32. */
  function Heuristic(g: Game, m: PlayerMove): (r: Scored)
    requires Sound(g) && IsValidMove(g, m)
    ensures r.game == g
    ensures r.value == MoveValue(g, m)
    ensures 0 <= r.value <= 13 * 32
  {
    var placed := MakeMove(g, m);
    var value := HeuristicValue(placed.game.board, placed.row, m.column, m.player);
    UndoAfterMake(g, m);
    Scored(value, UndoMove(placed.game))
  }
}
