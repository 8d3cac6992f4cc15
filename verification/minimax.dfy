/** The depth-limited minimax strategy, in negamax form: every value is
    from the point of view of the player who made the move, a reply's value
    is negated, and the player to reply picks the reply that leaves the
    mover the least. The replies are visited in column order. */
module MinMax {
  import opened Common
  import opened ConnectFourGame
  import opened RandomSource
  import opened Heuristic
  import opened Simulation
  import opened BestMoves

  const DepthLimit: int := 8

  /** A Java int whose negation is one too: everything but MIN_VALUE. */
  predicate Negatable(v: int) {
    -IntMax <= v <= IntMax
  }

  /** Each value negated. */
  function Negated(vs: seq<int>): (ns: seq<int>)
    ensures |ns| == |vs|
    ensures forall j :: 0 <= j < |vs| ==> ns[j] == -vs[j]
  {
    seq(|vs|, j requires 0 <= j < |vs| => -vs[j])
  }

  // ---------------------------------------------------------------------
  // The reference: negamax over the tree, without the game's make and
  // undo.

  /** The negamax value of the move m made by the player at `index` at
      `depth`. It is Evaluate behind one call, so that a context which only
      needs it as a number does not unfold the game logic behind it. */
  ghost function Value(g: Game, m: PlayerMove, index: int, depth: int): (v: int)
    requires Sound(g) && IsValidMove(g, m) && 0 <= index < 2 && 0 <= depth <= DepthLimit
    decreases DepthLimit - depth, 3
    ensures Negatable(v)
  {
    Evaluate(g, m, index, depth)
  }

  /** A win is worth MAX_VALUE to whoever makes it, the depth limit is
      scored by the heuristic, and otherwise the value is the least that
      the negated replies leave (MAX_VALUE when there are none). */
  ghost function Evaluate(g: Game, m: PlayerMove, index: int, depth: int): (v: int)
    requires Sound(g) && IsValidMove(g, m) && 0 <= index < 2 && 0 <= depth <= DepthLimit
    decreases DepthLimit - depth, 2
    ensures Negatable(v)
  {
    if IsWinningMove(g, m).win then IntMax
    else if depth == DepthLimit then Heuristic.Heuristic(g, m).value
    else ReplyValue(g, m, index, depth)
  }

  /** The value of the position the move leaves for the other player. */
  ghost function ReplyValue(g: Game, m: PlayerMove, index: int, depth: int): (v: int)
    requires Sound(g) && IsValidMove(g, m) && 0 <= index < 2 && 0 <= depth < DepthLimit
    decreases DepthLimit - depth, 1
    ensures Negatable(v)
  {
    MakeMovePreservesConsistency(g, m);
    PositionValue(MakeMove(g, m).game, NextIndex(index), depth + 1)
  }

  /** Making the move gives a sound game whose negamax value, for the
      replying player, is the move's reply value, and undoing it gives back
      the game. */
  lemma MoveAndBack(g: Game, m: PlayerMove, index: int, depth: int)
    requires Sound(g) && IsValidMove(g, m) && 0 <= index < 2 && 0 <= depth < DepthLimit
    ensures Sound(MakeMove(g, m).game)
    ensures ReplyValue(g, m, index, depth) == PositionValue(MakeMove(g, m).game, NextIndex(index), depth + 1)
    ensures UndoMove(MakeMove(g, m).game) == g
  {
    MakeMovePreservesConsistency(g, m);
    UndoAfterMake(g, m);
  }

  /** For the player who just moved, the position is worth the least of
      the negated values of the replies of the player at `index`, played at
      `depth`. */
  ghost function PositionValue(g: Game, index: int, depth: int): (v: int)
    requires Sound(g) && 0 <= index < 2 && 0 < depth <= DepthLimit
    decreases DepthLimit - depth + 1, 0
    ensures Negatable(v)
  {
    var values := ValuesOf(g, PossibleMoves(g, Proxy(index)), index, depth);
    var negated := Negated(values);
    MinFromIsMin(negated, 0);
    MinFrom(negated, 0)
  }

  /** The values of the moves rs, each played at `depth`. */
  ghost function ValuesOf(g: Game, rs: seq<PlayerMove>, index: int, depth: int): (vs: seq<int>)
    requires Sound(g) && AllValid(g, rs) && 0 <= index < 2 && 0 <= depth <= DepthLimit
    decreases DepthLimit - depth, 4
    ensures |vs| == |rs|
    ensures forall j :: 0 <= j < |vs| ==> Negatable(vs[j])
  {
    seq(|rs|, j requires 0 <= j < |rs| => Value(g, rs[j], index, depth))
  }

  // ---------------------------------------------------------------------
  // The search, on the game it makes and undoes moves in.

  /** minimax: the game comes back as it was and the result is the
      move's negamax value. */
  method Minimax(g: Game, m: PlayerMove, index: int, depth: int) returns (r: Scored)
    requires Sound(g) && IsValidMove(g, m) && 0 <= index < 2 && 0 <= depth <= DepthLimit
    decreases DepthLimit - depth, 3
    ensures r.game == g
    ensures r.value == Value(g, m, index, depth)
  {
    assert Value(g, m, index, depth) == Evaluate(g, m, index, depth);
    var probe := IsWinningMove(g, m);
    if probe.win {
      r := Scored(IntMax, probe.game);
    } else if depth == DepthLimit {
      r := Heuristic.Heuristic(probe.game, m);
    } else {
      r := Expand(probe.game, m, index, depth);
    }
  }

  /** The rest of minimax: make the move, take the least negated value of
      the other player's replies, undo the move. */
  method Expand(g: Game, m: PlayerMove, index: int, depth: int) returns (r: Scored)
    requires Sound(g) && IsValidMove(g, m) && 0 <= index < 2 && 0 <= depth < DepthLimit
    decreases DepthLimit - depth, 2
    ensures r.game == g
    ensures r.value == ReplyValue(g, m, index, depth)
  {
    var after := MakeMove(g, m).game;
    MoveAndBack(g, m, index, depth);
    var replies := PossibleMoves(after, Proxy(NextIndex(index)));
    var least := MinLoop(after, replies, NextIndex(index), depth + 1, 0, IntMax);
    r := Scored(least.value, UndoMove(least.game));
  }

  /** The loop over the replies rs[i..], played at `depth`, with the least
      negated value so far in moveValue. */
  method MinLoop(g: Game, rs: seq<PlayerMove>, index: int, depth: int, i: int, moveValue: int)
    returns (r: Scored)
    requires Sound(g) && AllValid(g, rs) && 0 <= i <= |rs| && 0 <= index < 2 && 0 < depth <= DepthLimit
    requires IsJavaInt(moveValue)
    decreases DepthLimit - depth + 1, 1, |rs| - i
    ensures r.game == g
    ensures r.value == Min(moveValue, MinFrom(Negated(ValuesOf(g, rs, index, depth)), i))
  {
    ghost var negated := Negated(ValuesOf(g, rs, index, depth));
    if i == |rs| {
      r := Scored(moveValue, g);
    } else {
      var child := Minimax(g, rs[i], index, depth);
      assert negated[i] == -Value(g, rs[i], index, depth);
      assert MinFrom(negated, i) == Min(-child.value, MinFrom(negated, i + 1));
      r := MinLoop(child.game, rs, index, depth, i + 1, Min(moveValue, -child.value));
    }
  }

  /** The scoring loop of suggestMove from root move i on: each score is
      the move's negamax value. */
  method RootScores(sim: Game, possible: seq<PlayerMove>, i: int) returns (scores: seq<int>)
    requires Sound(sim) && AllValid(sim, possible) && 0 <= i <= |possible|
    decreases |possible| - i
    ensures scores == ValuesOf(sim, possible, 0, 0)[i..]
  {
    if i == |possible| {
      return [];
    }
    var result := Minimax(sim, possible[i], 0, 0);
    ghost var values := ValuesOf(sim, possible, 0, 0);
    assert values[i] == Value(sim, possible[i], 0, 0);
    var later := RootScores(sim, possible, i + 1);
    scores := [result.value] + later;
    ConsTail(values, i, result.value, later);
  }

  /** Our proxy's choice on the simulated game: a move of greatest negamax
      value, and none exactly when the board is full. */
  method BestOf(sim: Game, me: Player, rng: Rng) returns (pick: Pick)
    requires Sound(sim)
    ensures pick.move.None? <==> IsFull(sim)
    ensures pick.move.Some? ==> pick.move.value.player == me
    ensures var possible := PossibleMoves(sim, OurProxy);
            var values := ValuesOf(sim, possible, 0, 0);
            pick.move.Some? ==>
              exists k :: 0 <= k < |possible| && possible[k].column == pick.move.value.column && IsBest(values, k)
  {
    var possible := PossibleMoves(sim, OurProxy);
    NoMovesIffFull(sim, OurProxy);
    var scores := RootScores(sim, possible, 0);
    pick := Choose(possible, scores, me, rng);
  }

  /** suggestMove: re-tag the history, replay it, and pick on the
      simulated game. */
  method SuggestMove(g: Game, me: Player, rng: Rng) returns (pick: Pick)
    requires ColumnsInRange(g.moves)
    ensures var sim := SimulatedGame(g.moves, me);
            pick.move.None? <==> IsFull(sim)
    ensures pick.move.Some? ==> pick.move.value.player == me
    ensures var sim := SimulatedGame(g.moves, me);
            var possible := PossibleMoves(sim, OurProxy);
            var values := ValuesOf(sim, possible, 0, 0);
            pick.move.Some? ==>
              exists k :: 0 <= k < |possible| && possible[k].column == pick.move.value.column && IsBest(values, k)
  {
    var sim := SimulatedGame(g.moves, me);
    pick := BestOf(sim, me, rng);
  }
}
