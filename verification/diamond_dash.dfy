/** The grid rules of the Diamond Dash bot: a 9 by 10 grid of brick
    colours, one counter per cell that turns a long-grey cell into a
    diamond, and the choice of the brick to click: a diamond first, else the
    first coloured brick that completes a line or an L of three. */
module DiamondDash {
  import opened Common

  const GridRows := 9
  const GridColumns := 10
  const BrickWidth := 40
  const BrickHeight := 40
  const CounterThreshold := 20

  datatype BrickColor = Red | Green | Blue | Yellow | Purple | Grey | Diamond

  datatype GridPosition = GridPosition(row: int, col: int)

  datatype Location = Location(x: int, y: int)

  /** The bot's state: the colour of every brick and, for every brick, the
      number of frames in a row it has been grey. */
  datatype Bot = Bot(grid: seq<seq<BrickColor>>, counter: seq<seq<int>>)

  /** A GRID_ROWS by GRID_COLUMNS array. */
  predicate IsGrid<T>(g: seq<seq<T>>) {
    |g| == GridRows && forall r :: 0 <= r < |g| ==> |g[r]| == GridColumns
  }

  predicate InGrid(row: int, col: int) {
    0 <= row < GridRows && 0 <= col < GridColumns
  }

  predicate WellFormed(b: Bot) {
    IsGrid(b.grid) && IsGrid(b.counter)
  }

  /** Every counter is below the threshold. */
  ghost predicate CountersBounded(b: Bot)
    requires WellFormed(b)
  {
    forall r, c :: InGrid(r, c) ==> 0 <= b.counter[r][c] < CounterThreshold
  }

  /** Row-major order: (r1, c1) is scanned before (r2, c2). */
  predicate ScannedBefore(r1: int, c1: int, r2: int, c2: int) {
    r1 < r2 || (r1 == r2 && c1 < c2)
  }

  // ---------------------------------------------------------------------
  // The constructor.

  /** A new bot: every brick grey, every counter 0. */
  function NewBot(): (b: Bot)
    ensures WellFormed(b) && CountersBounded(b)
    ensures forall r, c :: InGrid(r, c) ==> b.grid[r][c] == Grey && b.counter[r][c] == 0
  {
    Bot(seq(GridRows, _ => seq(GridColumns, _ => Grey)), seq(GridRows, _ => seq(GridColumns, _ => 0)))
  }

  // ---------------------------------------------------------------------
  // Clusters.

  /** isTopDownStraight: the bricks above and below have the centre's
      colour; never on the top or bottom row. */
  predicate IsTopDownStraight(g: seq<seq<BrickColor>>, row: int, col: int)
    requires IsGrid(g) && InGrid(row, col)
  {
    if row == 0 || row == GridRows - 1 then false
    else g[row - 1][col] == g[row][col] && g[row + 1][col] == g[row][col]
  }

  /** isLeftRightStraight: the bricks left and right have the centre's
      colour; never on the first or last column. */
  predicate IsLeftRightStraight(g: seq<seq<BrickColor>>, row: int, col: int)
    requires IsGrid(g) && InGrid(row, col)
  {
    if col == 0 || col == GridColumns - 1 then false
    else g[row][col - 1] == g[row][col] && g[row][col + 1] == g[row][col]
  }

  predicate IsStraightCluster(g: seq<seq<BrickColor>>, row: int, col: int)
    requires IsGrid(g) && InGrid(row, col)
  {
    IsTopDownStraight(g, row, col) || IsLeftRightStraight(g, row, col)
  }

  /** isLCluster: the four elbows, each tried only where both of its arms
      are inside the grid. */
  predicate IsLCluster(g: seq<seq<BrickColor>>, row: int, col: int)
    requires IsGrid(g) && InGrid(row, col)
  {
    var color := g[row][col];
    (row > 0 && col < GridColumns - 1 && g[row - 1][col] == color && g[row][col + 1] == color) ||
    (row < GridRows - 1 && col < GridColumns - 1 && g[row + 1][col] == color && g[row][col + 1] == color) ||
    (row < GridRows - 1 && col > 0 && g[row][col - 1] == color && g[row + 1][col] == color) ||
    (row > 0 && col > 0 && g[row - 1][col] == color && g[row][col - 1] == color)
  }

  predicate Clustered(g: seq<seq<BrickColor>>, row: int, col: int)
    requires IsGrid(g) && InGrid(row, col)
  {
    IsStraightCluster(g, row, col) || IsLCluster(g, row, col)
  }

  /** The six shapes of three bricks the bot looks for, as the offsets of
      the two bricks besides the centre: the vertical and the horizontal
      line, and the four elbows. */
  const Shapes: seq<seq<(int, int)>> := [
    [(-1, 0), (1, 0)],
    [(0, -1), (0, 1)],
    [(-1, 0), (0, 1)],
    [(1, 0), (0, 1)],
    [(0, -1), (1, 0)],
    [(-1, 0), (0, -1)]
  ]

  /** The shape, placed with its centre at (row, col), lies inside the grid
      and all its bricks have the centre's colour. */
  predicate Fits(g: seq<seq<BrickColor>>, row: int, col: int, shape: seq<(int, int)>)
    requires IsGrid(g) && InGrid(row, col)
  {
    forall k :: 0 <= k < |shape| ==>
      InGrid(row + shape[k].0, col + shape[k].1) && g[row + shape[k].0][col + shape[k].1] == g[row][col]
  }

  /** The straight and L tests together find exactly the six shapes. */
  lemma ClusteredIffShape(g: seq<seq<BrickColor>>, row: int, col: int)
    requires IsGrid(g) && InGrid(row, col)
    ensures Clustered(g, row, col) <==> exists i :: 0 <= i < |Shapes| && Fits(g, row, col, Shapes[i])
  {
    if Clustered(g, row, col) {
      var i := ShapeOf(g, row, col);
    }
    if exists i :: 0 <= i < |Shapes| && Fits(g, row, col, Shapes[i]) {
      var i :| 0 <= i < |Shapes| && Fits(g, row, col, Shapes[i]);
      assert InGrid(row + Shapes[i][0].0, col + Shapes[i][0].1);
      assert InGrid(row + Shapes[i][1].0, col + Shapes[i][1].1);
    }
  }

  /** The shape a cluster test matched. */
  lemma ShapeOf(g: seq<seq<BrickColor>>, row: int, col: int) returns (i: int)
    requires IsGrid(g) && InGrid(row, col) && Clustered(g, row, col)
    ensures 0 <= i < |Shapes| && Fits(g, row, col, Shapes[i])
  {
    var color := g[row][col];
    if IsTopDownStraight(g, row, col) {
      i := 0;
    } else if IsLeftRightStraight(g, row, col) {
      i := 1;
    } else if row > 0 && col < GridColumns - 1 && g[row - 1][col] == color && g[row][col + 1] == color {
      i := 2;
    } else if row < GridRows - 1 && col < GridColumns - 1 && g[row + 1][col] == color && g[row][col + 1] == color {
      i := 3;
    } else if row < GridRows - 1 && col > 0 && g[row][col - 1] == color && g[row + 1][col] == color {
      i := 4;
    } else {
      i := 5;
    }
  }

  // ---------------------------------------------------------------------
  // Choosing the brick to click.

  ghost predicate HasDiamond(g: seq<seq<BrickColor>>)
    requires IsGrid(g)
  {
    exists r, c :: InGrid(r, c) && g[r][c] == Diamond
  }

  /** findDiamond: the first diamond in row-major order, None when there is
      none. */
  method FindDiamond(g: seq<seq<BrickColor>>) returns (p: Option<GridPosition>)
    requires IsGrid(g)
    ensures p.None? <==> !HasDiamond(g)
    ensures p.Some? ==> InGrid(p.value.row, p.value.col) && g[p.value.row][p.value.col] == Diamond
    ensures p.Some? ==> forall r, c :: InGrid(r, c) && ScannedBefore(r, c, p.value.row, p.value.col) ==> g[r][c] != Diamond
  {
    var row := 0;
    while row < GridRows
      invariant 0 <= row <= GridRows
      invariant forall r, c :: 0 <= r < row && 0 <= c < GridColumns ==> g[r][c] != Diamond
    {
      var col := 0;
      while col < GridColumns
        invariant 0 <= col <= GridColumns
        invariant forall r, c :: 0 <= r < row && 0 <= c < GridColumns ==> g[r][c] != Diamond
        invariant forall c :: 0 <= c < col ==> g[row][c] != Diamond
      {
        if g[row][col] == Diamond {
          return Some(GridPosition(row, col));
        }
        col := col + 1;
      }
      row := row + 1;
    }
    return None;
  }

  /** A brick findCluster's scan accepts: coloured and in a cluster. */
  predicate Clickable(g: seq<seq<BrickColor>>, row: int, col: int)
    requires IsGrid(g) && InGrid(row, col)
  {
    g[row][col] != Grey && Clustered(g, row, col)
  }

  /** findCluster: the first diamond if there is one; otherwise the first
      coloured brick, in row-major order, that is in a straight or L
      cluster; None when there is no such brick either. */
  method FindCluster(g: seq<seq<BrickColor>>) returns (p: Option<GridPosition>)
    requires IsGrid(g)
    ensures HasDiamond(g) ==>
              p.Some? && InGrid(p.value.row, p.value.col) && g[p.value.row][p.value.col] == Diamond &&
              forall r, c :: InGrid(r, c) && ScannedBefore(r, c, p.value.row, p.value.col) ==> g[r][c] != Diamond
    ensures !HasDiamond(g) && p.Some? ==>
              InGrid(p.value.row, p.value.col) && Clickable(g, p.value.row, p.value.col) &&
              forall r, c :: InGrid(r, c) && ScannedBefore(r, c, p.value.row, p.value.col) ==> !Clickable(g, r, c)
    ensures !HasDiamond(g) && p.None? ==> forall r, c :: InGrid(r, c) ==> !Clickable(g, r, c)
  {
    var diamond := FindDiamond(g);
    if diamond.Some? {
      return diamond;
    }
    var row := 0;
    while row < GridRows
      invariant 0 <= row <= GridRows
      invariant forall r, c :: 0 <= r < row && 0 <= c < GridColumns ==> !Clickable(g, r, c)
    {
      var col := 0;
      while col < GridColumns
        invariant 0 <= col <= GridColumns
        invariant forall r, c :: 0 <= r < row && 0 <= c < GridColumns ==> !Clickable(g, r, c)
        invariant forall c :: 0 <= c < col ==> !Clickable(g, row, c)
      {
        if g[row][col] != Grey && (IsStraightCluster(g, row, col) || IsLCluster(g, row, col)) {
          return Some(GridPosition(row, col));
        }
        col := col + 1;
      }
      row := row + 1;
    }
    return None;
  }

  /** A grid of grey bricks offers nothing to click. */
  lemma GreyGridNothingClickable(g: seq<seq<BrickColor>>)
    requires IsGrid(g) && forall r, c :: InGrid(r, c) ==> g[r][c] == Grey
    ensures !HasDiamond(g) && forall r, c :: InGrid(r, c) ==> !Clickable(g, r, c)
  {
  }

  // ---------------------------------------------------------------------
  // The counters.

  /** One cell of updateGridCounters: a grey brick counts one more frame
      and becomes a diamond, with its count reset, once the count reaches
      the threshold; any other brick resets its count. */
  function UpdateCell(color: BrickColor, count: int): (r: (BrickColor, int))
    ensures count >= 0 ==> 0 <= r.1 < CounterThreshold
    ensures r.0 == Diamond <==> color == Diamond || (color == Grey && count + 1 >= CounterThreshold)
    ensures r.0 == Grey ==> r.1 == count + 1
    ensures color != Grey ==> r == (color, 0)
  {
    if color == Grey then
      if count + 1 >= CounterThreshold then (Diamond, 0) else (Grey, count + 1)
    else (color, 0)
  }

  /** updateGridCounters, cell by cell, as a reference for the method. */
  function UpdateCounters(b: Bot): (r: Bot)
    requires WellFormed(b)
    ensures WellFormed(r)
  {
    Bot(seq(GridRows, r requires 0 <= r < GridRows =>
          seq(GridColumns, c requires 0 <= c < GridColumns => UpdateCell(b.grid[r][c], b.counter[r][c]).0)),
        seq(GridRows, r requires 0 <= r < GridRows =>
          seq(GridColumns, c requires 0 <= c < GridColumns => UpdateCell(b.grid[r][c], b.counter[r][c]).1)))
  }

  /** updateGridCounters: the double loop over the grid, updating one cell
      at a time in place. */
  method UpdateGridCounters(b: Bot) returns (r: Bot)
    requires WellFormed(b)
    ensures r == UpdateCounters(b)
  {
    var grid := b.grid;
    var counter := b.counter;
    var row := 0;
    while row < GridRows
      invariant 0 <= row <= GridRows && IsGrid(grid) && IsGrid(counter)
      invariant forall i :: 0 <= i < row ==> grid[i] == UpdateCounters(b).grid[i] && counter[i] == UpdateCounters(b).counter[i]
      invariant forall i :: row <= i < GridRows ==> grid[i] == b.grid[i] && counter[i] == b.counter[i]
    {
      var gridRow := grid[row];
      var counterRow := counter[row];
      var col := 0;
      while col < GridColumns
        invariant 0 <= col <= GridColumns && |gridRow| == GridColumns && |counterRow| == GridColumns
        invariant forall j :: 0 <= j < col ==> (gridRow[j], counterRow[j]) == UpdateCell(b.grid[row][j], b.counter[row][j])
        invariant forall j :: col <= j < GridColumns ==> gridRow[j] == b.grid[row][j] && counterRow[j] == b.counter[row][j]
      {
        if gridRow[col] == Grey {
          counterRow := counterRow[col := counterRow[col] + 1];
          if counterRow[col] >= CounterThreshold {
            gridRow := gridRow[col := Diamond];
            counterRow := counterRow[col := 0];
          }
        } else {
          counterRow := counterRow[col := 0];
        }
        col := col + 1;
      }
      grid := grid[row := gridRow];
      counter := counter[row := counterRow];
      row := row + 1;
    }
    r := Bot(grid, counter);
  }

  /** The counters stay in [0, COUNTER_THRESHOLD) from one update to the
      next. */
  lemma UpdateKeepsBounded(b: Bot)
    requires WellFormed(b) && CountersBounded(b)
    ensures CountersBounded(UpdateCounters(b))
  {
  }

  /** The counter of a brick seen grey in n frames in a row, starting from
      count; the brick's colour is read again from the screen every frame,
      so only the count carries over. */
  function GreyFrames(count: int, n: nat): (r: (BrickColor, int))
    decreases n
  {
    if n == 0 then (Grey, count)
    else UpdateCell(Grey, GreyFrames(count, n - 1).1)
  }

  /** A brick whose count starts at 0 and that stays grey is still grey,
      with count n, after n < 20 frames, and becomes a diamond on the 20th. */
  lemma {:induction false} PromotedOnTwentiethFrame(n: nat)
    requires 1 <= n <= CounterThreshold
    ensures n < CounterThreshold ==> GreyFrames(0, n) == (Grey, n)
    ensures n == CounterThreshold ==> GreyFrames(0, n) == (Diamond, 0)
  {
    if n > 1 {
      PromotedOnTwentiethFrame(n - 1);
    }
  }

  // ---------------------------------------------------------------------
  // Where to click.

  /** positionToLocation: the brick's column and row scaled by the brick
      size, from the top-left brick. */
  function PositionToLocation(topLeftBrick: Location, p: GridPosition): (l: Location)
    ensures l.x - topLeftBrick.x == BrickWidth * p.col && l.y - topLeftBrick.y == BrickHeight * p.row
  {
    Location(topLeftBrick.x + p.col * BrickWidth, topLeftBrick.y + p.row * BrickHeight)
  }

  /** The brick a screen point falls in. */
  function LocationToPosition(topLeftBrick: Location, l: Location): GridPosition {
    GridPosition((l.y - topLeftBrick.y) / BrickHeight, (l.x - topLeftBrick.x) / BrickWidth)
  }

  /** Every point of a brick's square, measured from the point the bot
      clicks, maps back to that brick; so distinct bricks get distinct
      click points. */
  lemma LocationRoundTrip(topLeftBrick: Location, p: GridPosition, dx: int, dy: int)
    requires 0 <= dx < BrickWidth && 0 <= dy < BrickHeight
    ensures var l := PositionToLocation(topLeftBrick, p);
            LocationToPosition(topLeftBrick, Location(l.x + dx, l.y + dy)) == p
  {
    DivUnique(p.row * BrickHeight + dy, BrickHeight, p.row, dy);
    DivUnique(p.col * BrickWidth + dx, BrickWidth, p.col, dx);
  }

  // ---------------------------------------------------------------------
  // One turn of the bot's loop.

  /** One frame of doInBackground: the grid read from the screen replaces
      the old one, the counters are updated, and the brick findCluster
      picks on the updated grid, `chosen`, is turned into the screen point
      clicked. */
  method Frame(b: Bot, observed: seq<seq<BrickColor>>, topLeftBrick: Location)
    returns (next: Bot, click: Option<Location>, ghost chosen: Option<GridPosition>)
    requires WellFormed(b) && IsGrid(observed)
    ensures next == UpdateCounters(Bot(observed, b.counter))
    ensures click == (if chosen.Some? then Some(PositionToLocation(topLeftBrick, chosen.value)) else None)
    ensures click.None? <==> !HasDiamond(next.grid) && forall r, c :: InGrid(r, c) ==> !Clickable(next.grid, r, c)
    ensures click.Some? ==>
              exists r, c :: InGrid(r, c) && click.value == PositionToLocation(topLeftBrick, GridPosition(r, c)) &&
                (next.grid[r][c] == Diamond || Clickable(next.grid, r, c))
    ensures HasDiamond(next.grid) ==>
              chosen.Some? && InGrid(chosen.value.row, chosen.value.col) &&
              next.grid[chosen.value.row][chosen.value.col] == Diamond &&
              forall r, c :: InGrid(r, c) && ScannedBefore(r, c, chosen.value.row, chosen.value.col) ==>
                next.grid[r][c] != Diamond
    ensures !HasDiamond(next.grid) && chosen.Some? ==>
              InGrid(chosen.value.row, chosen.value.col) && Clickable(next.grid, chosen.value.row, chosen.value.col) &&
              forall r, c :: InGrid(r, c) && ScannedBefore(r, c, chosen.value.row, chosen.value.col) ==>
                !Clickable(next.grid, r, c)
  {
    next := UpdateGridCounters(Bot(observed, b.counter));
    var p := FindCluster(next.grid);
    chosen := p;
    if p.Some? {
      click := Some(PositionToLocation(topLeftBrick, p.value));
    } else {
      click := None;
    }
  }
}
