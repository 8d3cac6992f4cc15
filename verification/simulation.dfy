/** The re-tagging every simulating strategy applies to the real history
    before it replays it: the strategy's own moves go to its proxy, every
    other move to the opponent's proxy. The two proxies are the strategy's
    dummy (or random) players at index 0 and 1. */
module Simulation {
  import opened Common
  import opened ConnectFourGame

  /** dummyPlayers[index]: index 0 is our proxy, index 1 the opponent's. */
  function Proxy(index: int): (p: Player)
    ensures p == OurProxy <==> index == 0
    ensures p.OurProxy? || p.OpponentProxy?
  {
    if index == 0 then OurProxy else OpponentProxy
  }

  /** The index of the player to move after the one at `index`. */
  function NextIndex(index: int): (n: int)
    requires 0 <= index < 2
    ensures 0 <= n < 2 && n != index
  {
    (index + 1) % 2
  }

  /** The move with its player replaced by a proxy: ours when this player
      made it, the opponent's otherwise. */
  function Retag(m: PlayerMove, me: Player): (r: PlayerMove)
    ensures r.column == m.column
    ensures r.player == OurProxy <==> m.player == me
    ensures r.player == OpponentProxy <==> m.player != me
  {
    PlayerMove(if m.player == me then OurProxy else OpponentProxy, m.column)
  }

  /** prepareMovesForSimulation: a new list, move for move. */
  function PrepareMovesForSimulation(moves: seq<PlayerMove>, me: Player): (sim: seq<PlayerMove>)
    ensures |sim| == |moves|
    ensures forall i :: 0 <= i < |moves| ==> sim[i].column == moves[i].column
    ensures forall i :: 0 <= i < |moves| ==> (sim[i].player == OurProxy <==> moves[i].player == me)
    ensures forall i :: 0 <= i < |moves| ==> (sim[i].player == OpponentProxy <==> moves[i].player != me)
  {
    if moves == [] then []
    else [Retag(moves[0], me)] + PrepareMovesForSimulation(moves[1..], me)
  }

  lemma PreparedColumnsInRange(moves: seq<PlayerMove>, me: Player)
    requires ColumnsInRange(moves)
    ensures ColumnsInRange(PrepareMovesForSimulation(moves, me))
  {
  }

  // ---------------------------------------------------------------------
  // The simulated game is the real game seen from `me`.

  function RetagCell(c: Cell, me: Player): (d: Cell)
    ensures d.None? <==> c.None?
    ensures d == Some(OurProxy) <==> c == Some(me)
  {
    match c
    case None => None
    case Some(p) => Some(if p == me then OurProxy else OpponentProxy)
  }

  function RetagBoard(b: Board, me: Player): (d: Board)
    requires Shaped(b)
    ensures Shaped(d)
    ensures forall r, c :: OnBoard(r, c) ==> d[r][c] == RetagCell(b[r][c], me)
  {
    seq(Rows, r requires 0 <= r < Rows => seq(Columns, c requires 0 <= c < Columns => RetagCell(b[r][c], me)))
  }

  lemma {:induction false} LandingRetag(b: Board, me: Player, col: int, row: int)
    requires Shaped(b) && InRange(col) && 0 <= row <= Rows
    decreases Rows - row
    ensures LandingFrom(RetagBoard(b, me), col, row) == LandingFrom(b, col, row)
  {
    if row < Rows {
      LandingRetag(b, me, col, row + 1);
    }
  }

  lemma {:induction false} PrepareSnoc(moves: seq<PlayerMove>, m: PlayerMove, me: Player)
    ensures PrepareMovesForSimulation(moves + [m], me) == PrepareMovesForSimulation(moves, me) + [Retag(m, me)]
  {
    var l := PrepareMovesForSimulation(moves + [m], me);
    var r := PrepareMovesForSimulation(moves, me) + [Retag(m, me)];
    assert |l| == |r|;
    forall i | 0 <= i < |l|
      ensures l[i] == r[i]
    {
      if i < |moves| {
        assert (moves + [m])[i] == moves[i];
      }
    }
  }

  /** One move commutes with the re-tagging. */
  lemma MakeMoveRetag(g: Game, m: PlayerMove, me: Player)
    requires WellFormed(g) && InRange(m.column)
    ensures MakeMove(Game(RetagBoard(g.board, me), PrepareMovesForSimulation(g.moves, me)), Retag(m, me)).game
            == Game(RetagBoard(MakeMove(g, m).game.board, me), PrepareMovesForSimulation(g.moves + [m], me))
  {
    var s := Game(RetagBoard(g.board, me), PrepareMovesForSimulation(g.moves, me));
    PreparedColumnsInRange(g.moves, me);
    LandingRetag(g.board, me, m.column, 0);
    var left := MakeMove(s, Retag(m, me));
    var right := MakeMove(g, m);
    assert left.row == right.row;
    BoardExt(left.game.board, RetagBoard(right.game.board, me));
    PrepareSnoc(g.moves, m, me);
  }

  lemma {:induction false} ReplayOntoRetag(g: Game, moves: seq<PlayerMove>, me: Player)
    requires WellFormed(g) && ColumnsInRange(moves)
    decreases |moves|
    ensures ColumnsInRange(PrepareMovesForSimulation(moves, me))
    ensures WellFormed(Game(RetagBoard(g.board, me), PrepareMovesForSimulation(g.moves, me)))
    ensures ReplayOnto(Game(RetagBoard(g.board, me), PrepareMovesForSimulation(g.moves, me)), PrepareMovesForSimulation(moves, me))
            == Game(RetagBoard(ReplayOnto(g, moves).board, me), PrepareMovesForSimulation(g.moves + moves, me))
  {
    PreparedColumnsInRange(moves, me);
    PreparedColumnsInRange(g.moves, me);
    var s := Game(RetagBoard(g.board, me), PrepareMovesForSimulation(g.moves, me));
    if moves == [] {
      assert g.moves + moves == g.moves;
    } else {
      var sim := PrepareMovesForSimulation(moves, me);
      assert sim[0] == Retag(moves[0], me);
      assert sim[1..] == PrepareMovesForSimulation(moves[1..], me);
      var next := MakeMove(g, moves[0]).game;
      MakeMoveRetag(g, moves[0], me);
      ReplayStep(g.moves, moves);
      ReplayOntoRetag(next, moves[1..], me);
    }
  }

  /** The board the simulating strategies search is the real board with
      `me`'s pieces shown as our proxy and every other piece as the
      opponent's proxy. */
  lemma SimulatedBoard(moves: seq<PlayerMove>, me: Player)
    requires ColumnsInRange(moves)
    ensures ColumnsInRange(PrepareMovesForSimulation(moves, me))
    ensures Replay(PrepareMovesForSimulation(moves, me)).board == RetagBoard(Replay(moves).board, me)
  {
    var e := NewGame();
    BoardExt(RetagBoard(e.board, me), e.board);
    ReplayOntoRetag(e, moves, me);
  }

  /** The game every simulating strategy searches: new ConnectFourGame on
      the re-tagged history. It is the real position seen from `me`. */
  function SimulatedGame(moves: seq<PlayerMove>, me: Player): (sim: Game)
    requires ColumnsInRange(moves)
    ensures Sound(sim)
    ensures sim.moves == PrepareMovesForSimulation(moves, me)
    ensures sim.board == RetagBoard(Replay(moves).board, me)
  {
    SimulatedBoard(moves, me);
    Replay(PrepareMovesForSimulation(moves, me))
  }
}
