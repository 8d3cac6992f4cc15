/** The random strategy: take an immediately winning move if there is one,
    otherwise a move picked by the random source. */
module RandomPlayer {
  import opened Common
  import opened ConnectFourGame
  import opened RandomSource

  /** What suggestMove hands back: the move (None where Java's nextInt(0)
      throws, because there is no legal move), the game after the probes and
      the remaining random stream. */
  datatype Choice = Choice(move: Option<PlayerMove>, game: Game, rng: Rng)

  /** No move of ms[i..k] wins. */
  predicate NoWinBetween(g: Game, ms: seq<PlayerMove>, i: int, k: int)
    requires WellFormed(g) && AllValid(g, ms) && 0 <= i <= k <= |ms|
  {
    forall j :: i <= j < k ==> !IsWinningMove(g, ms[j]).win
  }

  /** The probing loop from position i on: the index of the first move that
      wins, probing each with isWinningMove. */
  function FirstWinning(g: Game, ms: seq<PlayerMove>, i: nat): (r: Option<nat>)
    requires Sound(g) && AllValid(g, ms) && i <= |ms|
    decreases |ms| - i
    ensures r.Some? ==> i <= r.value < |ms| && IsWinningMove(g, ms[r.value]).win
    ensures r.Some? ==> NoWinBetween(g, ms, i, r.value)
    ensures r.None? ==> NoWinBetween(g, ms, i, |ms|)
  {
    if i == |ms| then None
    else
      var probe := IsWinningMove(g, ms[i]);
      if probe.win then Some(i)
      else
        assert probe.game == g;
        var rest := FirstWinning(probe.game, ms, i + 1);
        NoWinStep(g, ms, i, if rest.Some? then rest.value else |ms|);
        rest
  }

  /** A move that does not win, followed by moves that do not, makes a
      longer stretch without a win. */
  lemma NoWinStep(g: Game, ms: seq<PlayerMove>, i: int, k: int)
    requires WellFormed(g) && AllValid(g, ms) && 0 <= i < k <= |ms|
    requires !IsWinningMove(g, ms[i]).win && NoWinBetween(g, ms, i + 1, k)
    ensures NoWinBetween(g, ms, i, k)
  {
  }

  /** suggestMove: the first winning move in column order, else the move at a
      drawn index. The probes make and undo, so the game comes back as it was. */
  method SuggestMove(g: Game, self: Player, rng: Rng) returns (c: Choice)
    requires Sound(g)
    ensures c.game == g
    ensures c.move.None? <==> IsFull(g)
    ensures c.move.Some? ==> c.move.value in PossibleMoves(g, self)
    ensures c.move.Some? ==> c.move.value.player == self && IsValidMove(g, c.move.value)
    ensures var ms := PossibleMoves(g, self);
            !NoWinBetween(g, ms, 0, |ms|) ==>
              c.move.Some? && IsWinningMove(g, c.move.value).win && c.rng == rng &&
              exists k :: 0 <= k < |ms| && ms[k] == c.move.value && NoWinBetween(g, ms, 0, k)
    ensures var ms := PossibleMoves(g, self);
            NoWinBetween(g, ms, 0, |ms|) && ms != [] ==>
              c.rng.next == rng.next + 1 && c.rng.draw == rng.draw &&
              c.move == Some(ms[rng.draw(rng.next) % |ms|])
  {
    var possible := PossibleMoves(g, self);
    NoMovesIffFull(g, self);
    var first := FirstWinning(g, possible, 0);
    if first.Some? {
      c := Choice(Some(possible[first.value]), g, rng);
    } else if |possible| == 0 {
      c := Choice(None, g, rng);
    } else {
      var d := NextInt(rng, |possible|);
      c := Choice(Some(possible[d.value]), g, d.rng);
    }
  }
}
