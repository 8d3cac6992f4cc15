/** The Monte Carlo strategy: every root move is played out 2000 times by
    two random players on the re-tagged simulation, and the strategy takes
    the first move with the most wins for our side; when no move ever won,
    a shuffled move. */
module MonteCarlo {
  import opened Common
  import opened ConnectFourGame
  import opened RandomSource
  import opened Simulation
  import RandomPlayer

  const Simulations: nat := 2000

  /** The generators of our random player (index 0) and the opponent's
      random player (index 1); each RandomPlayer owns its own. */
  datatype Streams = Streams(ours: Rng, theirs: Rng)

  function Stream(s: Streams, index: int): Rng {
    if index == 0 then s.ours else s.theirs
  }

  function Advance(s: Streams, index: int, rng: Rng): (s': Streams)
    requires 0 <= index < 2
    ensures Stream(s', index) == rng
    ensures Stream(s', 1 - index) == Stream(s, 1 - index)
  {
    if index == 0 then s.(ours := rng) else s.(theirs := rng)
  }

  /** From index `from` on, the moves alternate between the two random
      players, the first of them made by the player of index `first`. */
  predicate Alternates(moves: seq<PlayerMove>, from: nat, first: int) {
    forall i :: from <= i < |moves| ==> moves[i].player == Proxy((first + i - from) % 2)
  }

  /** One move by player `first`, then alternation from the other player,
      is alternation from `first`. */
  lemma AlternatesCons(moves: seq<PlayerMove>, from: nat, first: int)
    requires 0 <= first < 2 && from < |moves| && moves[from].player == Proxy(first)
    requires Alternates(moves, from + 1, NextIndex(first))
    ensures Alternates(moves, from, first)
  {
    forall i | from < i < |moves|
      ensures moves[i].player == Proxy((first + i - from) % 2)
    {
      assert (NextIndex(first) + i - (from + 1)) % 2 == (first + i - from) % 2;
    }
  }

  /** A history that extends `before` by a move of player `first` and then
      alternates from the other player alternates from `first` on. */
  lemma AlternatesAfter(before: seq<PlayerMove>, moves: seq<PlayerMove>, first: int)
    requires 0 <= first < 2 && 1 <= |before| <= |moves| && moves[..|before|] == before
    requires before[|before| - 1].player == Proxy(first)
    requires Alternates(moves, |before|, NextIndex(first))
    ensures Alternates(moves, |before| - 1, first)
  {
    assert moves[|before| - 1] == before[|before| - 1];
    AlternatesCons(moves, |before| - 1, first);
  }

  /** How a playout ended: the index of the winner (None on a draw), the
      final game and the generators after it. */
  datatype Outcome = Outcome(winner: Option<int>, final: Game, streams: Streams)

  /** One turn of the playout loop: the other random player suggests a
      move (there is one, since the game is not finished) and it is made. */
  method Turn(g: Game, current: int, s: Streams) returns (after: Game, next: int, s': Streams)
    requires Sound(g) && 0 <= current < 2 && !IsFinished(g)
    ensures next == NextIndex(current)
    ensures Sound(after)
    ensures |after.moves| == |g.moves| + 1 && after.moves[..|g.moves|] == g.moves
    ensures LastMove(after).player == Proxy(next)
    ensures BoardCount(g.board) < BoardCount(after.board) <= Rows * Columns
  {
    next := NextIndex(current);
    var m, rng := RandomMove(g, Proxy(next), Stream(s, next));
    after := MakeMove(g, m).game;
    MakeMovePreservesConsistency(g, m);
    BoardCountBound(after.board);
    s' := Advance(s, next, rng);
  }

  /** The random player's move in a playout, which exists while the game
      is not finished. */
  method RandomMove(g: Game, p: Player, rng: Rng) returns (m: PlayerMove, rng': Rng)
    requires Sound(g) && !IsFinished(g)
    ensures m.player == p && IsValidMove(g, m)
  {
    var choice := RandomPlayer.SuggestMove(g, p, rng);
    m, rng' := choice.move.value, choice.rng;
  }

  /** The loop of simulateGame: until the game is finished, a turn is
      played. The winner is the player who moved last, if the board shows
      four in a row. Every move fills a cell, so the loop ends. */
  method Rollout(g: Game, current: int, s: Streams) returns (o: Outcome)
    requires Sound(g) && 0 <= current < 2
    decreases Rows * Columns - BoardCount(g.board)
    ensures Sound(o.final) && IsFinished(o.final)
    ensures o.winner.Some? <==> FourInARow(o.final.board)
    ensures o.winner.Some? ==> 0 <= o.winner.value < 2
    ensures |g.moves| <= |o.final.moves| && o.final.moves[..|g.moves|] == g.moves
    ensures IsFinished(g) ==> o.final == g
    ensures |o.final.moves| == |g.moves| ==> o.final == g && (o.winner.Some? ==> o.winner.value == current)
    ensures o.winner.Some? && |o.final.moves| > |g.moves| ==> LastMove(o.final).player == Proxy(o.winner.value)
    ensures Alternates(o.final.moves, |g.moves|, NextIndex(current))
  {
    if IsFinished(g) {
      return Outcome(if HasFourInARow(g.board) then Some(current) else None, g, s);
    }
    var after, next, s' := Turn(g, current, s);
    o := Rollout(after, next, s');
    RolloutStep(g, after, next, o.final);
  }

  /** The history facts of one turn of the loop: the rest of the playout
      extends the history after the turn, which extends the one before. */
  lemma RolloutStep(g: Game, after: Game, next: int, final: Game)
    requires 0 <= next < 2
    requires |after.moves| == |g.moves| + 1 && after.moves[..|g.moves|] == g.moves
    requires LastMove(after).player == Proxy(next)
    requires |after.moves| <= |final.moves| && final.moves[..|after.moves|] == after.moves
    requires Alternates(final.moves, |after.moves|, NextIndex(next))
    ensures |g.moves| < |final.moves| && final.moves[..|g.moves|] == g.moves
    ensures Alternates(final.moves, |g.moves|, next)
  {
    assert final.moves[..|g.moves|] == (final.moves[..|g.moves| + 1])[..|g.moves|];
    AlternatesAfter(after.moves, final.moves, next);
  }

  /** simulateGame: our random player makes the initial move, then the
      playout runs. A move that wins at once wins the playout. */
  method SimulateGame(sim: Game, initial: PlayerMove, s: Streams) returns (o: Outcome)
    requires Sound(sim) && IsValidMove(sim, initial) && initial.player == OurProxy
    ensures Sound(o.final) && IsFinished(o.final)
    ensures o.winner.Some? <==> FourInARow(o.final.board)
    ensures |o.final.moves| > |sim.moves| && o.final.moves[..|sim.moves| + 1] == sim.moves + [initial]
    ensures o.winner.Some? ==> 0 <= o.winner.value < 2 && LastMove(o.final).player == Proxy(o.winner.value)
    ensures Wins(sim, initial) ==> o.winner == Some(0)
    ensures Alternates(o.final.moves, |sim.moves|, 0)
  {
    var after := MakeMove(sim, initial).game;
    MakeMovePreservesConsistency(sim, initial);
    o := Rollout(after, 0, s);
    AlternatesAfter(after.moves, o.final.moves, 0);
  }

  /** The inner loop of suggestMove: n playouts of the move, each from the
      same simulated position, counting those our random player wins. */
  method Tally(sim: Game, m: PlayerMove, n: nat, s: Streams) returns (wins: nat, rest: Streams)
    requires Sound(sim) && IsValidMove(sim, m) && m.player == OurProxy
    ensures wins <= n
    ensures Wins(sim, m) ==> wins == n
  {
    wins := 0;
    rest := s;
    var i := 0;
    while i < n
      invariant 0 <= i <= n && wins <= i
      invariant Wins(sim, m) ==> wins == i
    {
      var o := SimulateGame(sim, m, rest);
      if o.winner == Some(0) {
        wins := wins + 1;
      }
      rest := o.streams;
      i := i + 1;
    }
  }

  /** The outer loop: the win count of each root move. */
  method TallyAll(sim: Game, ms: seq<PlayerMove>, s: Streams) returns (wins: seq<nat>, rest: Streams)
    requires Sound(sim) && AllValid(sim, ms)
    requires forall j :: 0 <= j < |ms| ==> ms[j].player == OurProxy
    ensures |wins| == |ms|
    ensures forall j :: 0 <= j < |ms| ==> wins[j] <= Simulations
    ensures forall j :: 0 <= j < |ms| ==> Wins(sim, ms[j]) ==> wins[j] == Simulations
  {
    ghost var sure := WinningMoves(sim, ms);
    wins := [];
    rest := s;
    var i := 0;
    while i < |ms|
      invariant 0 <= i <= |ms| && |wins| == i
      invariant Credited(sure, wins)
    {
      var w;
      w, rest := TallyAt(sim, ms, i, rest);
      CreditedAppend(sure, wins, w);
      wins := wins + [w];
      i := i + 1;
    }
    CreditedWins(sim, ms, sure, wins);
  }

  /** For each root move, whether it wins at once. */
  ghost function WinningMoves(sim: Game, ms: seq<PlayerMove>): (sure: seq<bool>)
    requires Sound(sim) && AllValid(sim, ms)
    ensures |sure| == |ms|
    ensures forall j :: 0 <= j < |ms| ==> (sure[j] <==> Wins(sim, ms[j]))
  {
    if ms == [] then [] else [Wins(sim, ms[0])] + WinningMoves(sim, ms[1..])
  }

  /** Every tallied count is at most the number of playouts, and the count
      of a move that wins at once is the number of playouts. */
  predicate Credited(sure: seq<bool>, wins: seq<nat>) {
    |wins| <= |sure| && forall j :: 0 <= j < |wins| ==> wins[j] <= Simulations && (sure[j] ==> wins[j] == Simulations)
  }

  lemma CreditedAppend(sure: seq<bool>, wins: seq<nat>, w: nat)
    requires Credited(sure, wins) && |wins| < |sure|
    requires w <= Simulations && (sure[|wins|] ==> w == Simulations)
    ensures Credited(sure, wins + [w])
  {
  }

  lemma CreditedWins(sim: Game, ms: seq<PlayerMove>, sure: seq<bool>, wins: seq<nat>)
    requires Sound(sim) && AllValid(sim, ms) && sure == WinningMoves(sim, ms)
    requires Credited(sure, wins) && |wins| == |ms|
    ensures forall j :: 0 <= j < |ms| ==> wins[j] <= Simulations
    ensures forall j :: 0 <= j < |ms| ==> Wins(sim, ms[j]) ==> wins[j] == Simulations
  {
  }

  /** One root move's tally. */
  method TallyAt(sim: Game, ms: seq<PlayerMove>, i: int, s: Streams) returns (wins: nat, rest: Streams)
    requires Sound(sim) && AllValid(sim, ms) && 0 <= i < |ms|
    requires forall j :: 0 <= j < |ms| ==> ms[j].player == OurProxy
    ensures wins <= Simulations
    ensures Wins(sim, ms[i]) ==> wins == Simulations
  {
    wins, rest := Tally(sim, ms[i], Simulations, s);
  }

  /** Position k is the first with the most wins, and it has some. */
  predicate FirstMost(ws: seq<nat>, k: int)
    requires 0 <= k < |ws|
  {
    && ws[k] > 0
    && (forall j :: 0 <= j < |ws| ==> ws[j] <= ws[k])
    && (forall j :: 0 <= j < k ==> ws[j] < ws[k])
  }

  predicate AllZero(ws: seq<nat>) {
    forall j :: 0 <= j < |ws| ==> ws[j] == 0
  }

  /** The selection of suggestMove: a count replaces the best so far only
      when it is strictly greater, starting from zero. */
  method FirstBest(ws: seq<nat>) returns (k: Option<nat>)
    ensures k.None? <==> AllZero(ws)
    ensures k.Some? ==> k.value < |ws| && FirstMost(ws, k.value)
  {
    var best := 0;
    k := None;
    var i := 0;
    while i < |ws|
      invariant 0 <= i <= |ws|
      invariant k.None? ==> best == 0 && AllZero(ws[..i])
      invariant k.Some? ==> k.value < i && FirstMost(ws[..i], k.value) && best == ws[k.value]
    {
      if ws[i] > best {
        best := ws[i];
        k := Some(i);
      }
      i := i + 1;
    }
    assert ws[..i] == ws;
  }

  /** What suggestMove hands back: the move, the win count of every root
      move, and the generators after the playouts and the shuffle. */
  datatype Choice = Choice(move: Option<PlayerMove>, wins: seq<nat>, streams: Streams, shuffle: Rng)

  /** What suggestMove promises about its choice on the simulated game: a
      move exactly when the board is not full, ours and valid; a win count
      of at most 2000 per root move, all 2000 for a move that wins at once;
      and, when some move ever won, the move is the first with the most
      wins. */
  ghost predicate Chosen(sim: Game, me: Player, c: Choice)
    requires Sound(sim)
  {
    var possible := PossibleMoves(sim, OurProxy);
    && (c.move.None? <==> IsFull(sim))
    && (c.move.Some? ==> c.move.value.player == me && IsValidMove(sim, c.move.value))
    && |c.wins| == |possible|
    && (forall k :: 0 <= k < |possible| ==> c.wins[k] <= Simulations)
    && (forall k :: 0 <= k < |possible| ==> Wins(sim, possible[k]) ==> c.wins[k] == Simulations)
    && (!AllZero(c.wins) ==>
          c.move.Some? && exists k :: 0 <= k < |possible| && possible[k].column == c.move.value.column && FirstMost(c.wins, k))
  }

  /** The choice on the simulated game. The fallback shuffle uses the
      generator behind Collections.shuffle, separate from the players' own.
      On a full board there is no move (Java's get(0) on the empty list
      throws). */
  method BestOf(sim: Game, me: Player, s: Streams, shuffle: Rng) returns (c: Choice)
    requires Sound(sim)
    ensures Chosen(sim, me, c)
    ensures !AllZero(c.wins) ==> c.shuffle == shuffle
    ensures var possible := PossibleMoves(sim, OurProxy);
            AllZero(c.wins) && possible != [] ==>
              c.move == Some(PlayerMove(me, Shuffle(possible, shuffle).list[0].column)) &&
              c.shuffle == Shuffle(possible, shuffle).rng
  {
    var possible := PossibleMoves(sim, OurProxy);
    NoMovesIffFull(sim, OurProxy);
    var wins, rest := TallyAll(sim, possible, s);
    var best := FirstBest(wins);
    if best.Some? {
      c := Choice(Some(PlayerMove(me, possible[best.value].column)), wins, rest, shuffle);
    } else if possible == [] {
      c := Choice(None, wins, rest, shuffle);
    } else {
      var order := Shuffle(possible, shuffle);
      assert order.list[0] in possible;
      c := Choice(Some(PlayerMove(me, order.list[0].column)), wins, rest, order.rng);
    }
  }

  /** suggestMove: re-tag the history, replay it, and choose on the
      simulated game. */
  method SuggestMove(g: Game, me: Player, s: Streams, shuffle: Rng) returns (c: Choice)
    requires ColumnsInRange(g.moves)
    ensures Chosen(SimulatedGame(g.moves, me), me, c)
  {
    var sim := SimulatedGame(g.moves, me);
    c := BestOf(sim, me, s, shuffle);
  }
}
