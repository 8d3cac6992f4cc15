/** The depth-limited alpha-beta strategy. Positions are searched on the
    re-tagged simulation of the real game; index 0 is our proxy (the
    maximiser) and index 1 the opponent's proxy (the minimiser). The replies
    at every node are visited in an order drawn from the random source. */
module AlphaBeta {
  import opened Common
  import opened ConnectFourGame
  import opened RandomSource
  import opened Heuristic
  import opened Simulation
  import opened BestMoves

  const DepthLimit: int := 10

  /** What alphaBeta hands back: its value, the game after the call and the
      remaining random stream. */
  datatype Search = Search(value: int, game: Game, rng: Rng)

  // ---------------------------------------------------------------------
  // The reference: plain minimax over the same tree, without pruning and
  // without regard to the order of the replies.

  /** The minimax value of the move m made by the player at `index` at
      `depth`. It is Evaluate behind one call, so that a context which only
      needs it as a number does not unfold the game logic behind it. */
  ghost function Value(g: Game, m: PlayerMove, index: int, depth: int): (v: int)
    requires Sound(g) && IsValidMove(g, m) && 0 <= index < 2 && 0 <= depth <= DepthLimit
    decreases DepthLimit - depth, 3
    ensures IsJavaInt(v)
  {
    Evaluate(g, m, index, depth)
  }

  /** A win is worth MAX_VALUE to us and MIN_VALUE to the opponent, the
      depth limit is scored by the heuristic, and otherwise the value is
      what the replies leave it. */
  ghost function Evaluate(g: Game, m: PlayerMove, index: int, depth: int): (v: int)
    requires Sound(g) && IsValidMove(g, m) && 0 <= index < 2 && 0 <= depth <= DepthLimit
    decreases DepthLimit - depth, 2
    ensures IsJavaInt(v)
  {
    if IsWinningMove(g, m).win then (if index == 0 then IntMax else IntMin)
    else if depth == DepthLimit then Heuristic.Heuristic(g, m).value
    else ReplyValue(g, m, index, depth)
  }

  /** The value of the position the move leaves for the other player. */
  ghost function ReplyValue(g: Game, m: PlayerMove, index: int, depth: int): (v: int)
    requires Sound(g) && IsValidMove(g, m) && 0 <= index < 2 && 0 <= depth < DepthLimit
    decreases DepthLimit - depth, 1
    ensures IsJavaInt(v)
  {
    MakeMovePreservesConsistency(g, m);
    PositionValue(MakeMove(g, m).game, NextIndex(index), depth + 1)
  }

  lemma ReplyValueUnfold(g: Game, m: PlayerMove, index: int, depth: int)
    requires Sound(g) && IsValidMove(g, m) && 0 <= index < 2 && 0 <= depth < DepthLimit
    ensures Sound(MakeMove(g, m).game)
    ensures ReplyValue(g, m, index, depth) == PositionValue(MakeMove(g, m).game, NextIndex(index), depth + 1)
  {
    MakeMovePreservesConsistency(g, m);
  }

  /** The player at `index` to move, its moves played at `depth`, picks the
      best of them: the largest value when that is our proxy, the smallest
      otherwise (MIN_VALUE and MAX_VALUE when there is none). */
  ghost function PositionValue(g: Game, index: int, depth: int): (v: int)
    requires Sound(g) && 0 <= index < 2 && 0 < depth <= DepthLimit
    decreases DepthLimit - depth + 1, 0
    ensures IsJavaInt(v)
  {
    var values := ValuesOf(g, PossibleMoves(g, Proxy(index)), index, depth);
    MaxFromIsMax(values, 0);
    MinFromIsMin(values, 0);
    if index == 0 then MaxFrom(values, 0) else MinFrom(values, 0)
  }

  /** The values of the moves rs, each played at `depth`. */
  ghost function ValuesOf(g: Game, rs: seq<PlayerMove>, index: int, depth: int): (vs: seq<int>)
    requires Sound(g) && AllValid(g, rs) && 0 <= index < 2 && 0 <= depth <= DepthLimit
    decreases DepthLimit - depth, 4
    ensures |vs| == |rs|
    ensures forall j :: 0 <= j < |vs| ==> IsJavaInt(vs[j])
  {
    seq(|rs|, j requires 0 <= j < |rs| => Value(g, rs[j], index, depth))
  }

  ghost predicate SameMoves(a: seq<PlayerMove>, b: seq<PlayerMove>) {
    forall x :: x in a <==> x in b
  }

  lemma ValidSameMoves(g: Game, a: seq<PlayerMove>, b: seq<PlayerMove>)
    requires Shaped(g.board) && AllValid(g, a) && SameMoves(a, b)
    ensures AllValid(g, b)
  {
    forall j | 0 <= j < |b|
      ensures IsValidMove(g, b[j])
    {
      assert b[j] in a;
    }
  }

  /** Reordering the replies does not change the values they hold. */
  lemma ValuesSameMoves(g: Game, a: seq<PlayerMove>, b: seq<PlayerMove>, index: int, depth: int)
    requires Sound(g) && AllValid(g, a) && AllValid(g, b) && SameMoves(a, b)
    requires 0 <= index < 2 && 0 <= depth <= DepthLimit
    ensures MaxFrom(ValuesOf(g, a, index, depth), 0) == MaxFrom(ValuesOf(g, b, index, depth), 0)
    ensures MinFrom(ValuesOf(g, a, index, depth), 0) == MinFrom(ValuesOf(g, b, index, depth), 0)
  {
    var va, vb := ValuesOf(g, a, index, depth), ValuesOf(g, b, index, depth);
    forall x | x in va
      ensures x in vb
    {
      var j :| 0 <= j < |va| && va[j] == x;
      assert a[j] in b;
      var k :| 0 <= k < |b| && b[k] == a[j];
      assert vb[k] == x;
    }
    forall x | x in vb
      ensures x in va
    {
      var j :| 0 <= j < |vb| && vb[j] == x;
      assert b[j] in a;
      var k :| 0 <= k < |a| && a[k] == b[j];
      assert va[k] == x;
    }
    SameValues(va, vb);
  }

  // ---------------------------------------------------------------------
  // The search.

  /** The fail-hard window property: a result is exact inside the window
      (alpha, beta) and only says on which side it lies outside it. */
  predicate Bracketed(r: int, v: int, alpha: int, beta: int) {
    (v <= alpha ==> r <= alpha) &&
    (v >= beta ==> r >= beta) &&
    (alpha < v < beta ==> r == v)
  }

  /** alphaBeta: a win short-circuits, the depth limit is scored by the
      heuristic, and otherwise the replies decide. Whatever the order the
      random source gives the replies, the result is bracketed around the
      move's minimax value by the window. */
  method AlphaBetaSearch(g: Game, m: PlayerMove, index: int, depth: int, alpha: int, beta: int, rng: Rng)
    returns (r: Search)
    requires Sound(g) && IsValidMove(g, m) && 0 <= index < 2 && 0 <= depth <= DepthLimit
    requires IsJavaInt(alpha) && IsJavaInt(beta)
    decreases DepthLimit - depth, 3
    ensures r.game == g
    ensures IsJavaInt(r.value)
    ensures Wins(g, m) ==> r.value == (if index == 0 then IntMax else IntMin)
    ensures !Wins(g, m) && depth == DepthLimit ==> r.value == MoveValue(g, m)
    ensures !Wins(g, m) && depth < DepthLimit && index == 1 ==> r.value >= alpha
    ensures !Wins(g, m) && depth < DepthLimit && index == 0 ==> r.value <= beta
    ensures alpha < beta ==> Bracketed(r.value, Value(g, m, index, depth), alpha, beta)
  {
    assert Value(g, m, index, depth) == Evaluate(g, m, index, depth);
    var probe := IsWinningMove(g, m);
    if probe.win {
      r := Search(if index == 0 then IntMax else IntMin, probe.game, rng);
    } else if depth == DepthLimit {
      var scored := Heuristic.Heuristic(probe.game, m);
      r := Search(scored.value, scored.game, rng);
    } else {
      r := Expand(probe.game, m, index, depth, alpha, beta, rng);
    }
  }

  /** The rest of alphaBeta: make the move, search the other player's
      replies, undo the move. */
  method Expand(g: Game, m: PlayerMove, index: int, depth: int, alpha: int, beta: int, rng: Rng)
    returns (r: Search)
    requires Sound(g) && IsValidMove(g, m) && 0 <= index < 2 && 0 <= depth < DepthLimit
    requires IsJavaInt(alpha) && IsJavaInt(beta)
    decreases DepthLimit - depth, 2
    ensures r.game == g
    ensures IsJavaInt(r.value)
    ensures index == 1 ==> r.value >= alpha
    ensures index == 0 ==> r.value <= beta
    ensures alpha < beta ==> Bracketed(r.value, ReplyValue(g, m, index, depth), alpha, beta)
  {
    var after := MakeMove(g, m).game;
    ReplyValueUnfold(g, m, index, depth);
    UndoAfterMake(g, m);
    var replies := SearchReplies(after, NextIndex(index), depth + 1, alpha, beta, rng);
    r := Search(replies.value, UndoMove(replies.game), replies.rng);
  }

  /** The replies of the player at `index`: shuffled, then searched with
      the maximising loop for our proxy and the minimising loop otherwise.
      With no replies (a full board) the window bound comes back. */
  method SearchReplies(g: Game, index: int, depth: int, alpha: int, beta: int, rng: Rng)
    returns (r: Search)
    requires Sound(g) && 0 <= index < 2 && 0 < depth <= DepthLimit
    requires IsJavaInt(alpha) && IsJavaInt(beta)
    decreases DepthLimit - depth + 1, 1
    ensures r.game == g
    ensures IsJavaInt(r.value)
    ensures index == 0 ==> r.value >= alpha
    ensures index == 1 ==> r.value <= beta
    ensures IsFull(g) ==> r.value == (if index == 0 then alpha else beta)
    ensures alpha < beta ==> Bracketed(r.value, PositionValue(g, index, depth), alpha, beta)
  {
    var replies := PossibleMoves(g, Proxy(index));
    NoMovesIffFull(g, Proxy(index));
    var shuffled := Shuffle(replies, rng);
    ValidSameMoves(g, replies, shuffled.list);
    ValuesSameMoves(g, replies, shuffled.list, index, depth);
    if index == 0 {
      r := MaxLoop(g, shuffled.list, index, depth, 0, alpha, beta, shuffled.rng);
    } else {
      r := MinLoop(g, shuffled.list, index, depth, 0, alpha, beta, shuffled.rng);
    }
  }

  /** One step of the maximising loop, on values alone: a child bracketed
      in the window either cuts off, and then the rest could not have
      brought the best below beta, or leaves the best of the rest unchanged
      under the raised alpha. */
  lemma MaxStep(alpha: int, beta: int, v: int, c: int, rest: int)
    requires alpha < beta && Bracketed(c, v, alpha, beta)
    ensures Max(alpha, c) >= beta ==> Max(alpha, Max(v, rest)) >= beta
    ensures Max(alpha, c) < beta ==> Max(Max(alpha, c), rest) == Max(alpha, Max(v, rest))
  {
  }

  lemma MinStep(alpha: int, beta: int, v: int, c: int, rest: int)
    requires alpha < beta && Bracketed(c, v, alpha, beta)
    ensures Min(beta, c) <= alpha ==> Min(beta, Min(v, rest)) <= alpha
    ensures Min(beta, c) > alpha ==> Min(Min(beta, c), rest) == Min(beta, Min(v, rest))
  {
  }

  /** The loop over our proxy's moves rs[i..], played at `depth`: raise
      alpha, stop once beta <= alpha. */
  method MaxLoop(g: Game, rs: seq<PlayerMove>, index: int, depth: int, i: int, alpha: int, beta: int, rng: Rng)
    returns (r: Search)
    requires Sound(g) && AllValid(g, rs) && 0 <= i <= |rs| && 0 <= index < 2 && 0 < depth <= DepthLimit
    requires IsJavaInt(alpha) && IsJavaInt(beta)
    decreases DepthLimit - depth + 1, 0, |rs| - i
    ensures r.game == g
    ensures IsJavaInt(r.value) && r.value >= alpha
    ensures i == |rs| ==> r.value == alpha
    ensures alpha < beta ==>
              var best := Max(alpha, MaxFrom(ValuesOf(g, rs, index, depth), i));
              (best < beta ==> r.value == best) && (best >= beta ==> r.value >= beta)
  {
    if i == |rs| {
      r := Search(alpha, g, rng);
    } else {
      var child := AlphaBetaSearch(g, rs[i], index, depth, alpha, beta, rng);
      ghost var vs := ValuesOf(g, rs, index, depth);
      assert vs[i] == Value(g, rs[i], index, depth);
      if alpha < beta {
        MaxStep(alpha, beta, vs[i], child.value, MaxFrom(vs, i + 1));
      }
      var a := Max(alpha, child.value);
      if beta <= a {
        r := Search(a, child.game, child.rng);
      } else {
        r := MaxLoop(child.game, rs, index, depth, i + 1, a, beta, child.rng);
      }
    }
  }

  /** The loop over the opponent's moves rs[i..], played at `depth`: lower
      beta, stop once beta <= alpha. */
  method MinLoop(g: Game, rs: seq<PlayerMove>, index: int, depth: int, i: int, alpha: int, beta: int, rng: Rng)
    returns (r: Search)
    requires Sound(g) && AllValid(g, rs) && 0 <= i <= |rs| && 0 <= index < 2 && 0 < depth <= DepthLimit
    requires IsJavaInt(alpha) && IsJavaInt(beta)
    decreases DepthLimit - depth + 1, 0, |rs| - i
    ensures r.game == g
    ensures IsJavaInt(r.value) && r.value <= beta
    ensures i == |rs| ==> r.value == beta
    ensures alpha < beta ==>
              var worst := Min(beta, MinFrom(ValuesOf(g, rs, index, depth), i));
              (worst > alpha ==> r.value == worst) && (worst <= alpha ==> r.value <= alpha)
  {
    if i == |rs| {
      r := Search(beta, g, rng);
    } else {
      var child := AlphaBetaSearch(g, rs[i], index, depth, alpha, beta, rng);
      ghost var vs := ValuesOf(g, rs, index, depth);
      assert vs[i] == Value(g, rs[i], index, depth);
      if alpha < beta {
        MinStep(alpha, beta, vs[i], child.value, MinFrom(vs, i + 1));
      }
      var b := Min(beta, child.value);
      if b <= alpha {
        r := Search(b, child.game, child.rng);
      } else {
        r := MinLoop(child.game, rs, index, depth, i + 1, alpha, b, child.rng);
      }
    }
  }

  /** Over the whole window of Java ints, the search is exact. */
  lemma WholeWindowExact(r: int, v: int)
    requires IsJavaInt(r) && IsJavaInt(v) && Bracketed(r, v, IntMin, IntMax)
    ensures r == v
  {
  }

  /** The scoring loop of suggestMove from root move i on: every root move
      searched with the window (MIN_VALUE, MAX_VALUE), so each score is the
      move's exact minimax value. */
  method RootScores(sim: Game, possible: seq<PlayerMove>, i: int, rng: Rng) returns (scores: seq<int>, rest: Rng)
    requires Sound(sim) && AllValid(sim, possible) && 0 <= i <= |possible|
    decreases |possible| - i
    ensures |scores| == |possible| - i
    ensures scores == ValuesOf(sim, possible, 0, 0)[i..]
  {
    if i == |possible| {
      return [], rng;
    }
    var result := AlphaBetaSearch(sim, possible[i], 0, 0, IntMin, IntMax, rng);
    ghost var values := ValuesOf(sim, possible, 0, 0);
    assert values[i] == Value(sim, possible[i], 0, 0);
    WholeWindowExact(result.value, values[i]);
    var later;
    later, rest := RootScores(sim, possible, i + 1, result.rng);
    scores := [result.value] + later;
    ConsTail(values, i, result.value, later);
  }

  /** Our proxy's choice on the simulated game: a move of greatest minimax
      value, and none exactly when the board is full. */
  method BestOf(sim: Game, me: Player, rng: Rng) returns (pick: Pick)
    requires Sound(sim)
    ensures pick.move.None? <==> IsFull(sim)
    ensures pick.move.Some? ==> pick.move.value.player == me
    ensures var possible := PossibleMoves(sim, OurProxy);
            var values := ValuesOf(sim, possible, 0, 0);
            pick.move.Some? ==>
              exists k :: 0 <= k < |possible| && possible[k].column == pick.move.value.column && IsBest(values, k)
  {
    var possible := PossibleMoves(sim, OurProxy);
    NoMovesIffFull(sim, OurProxy);
    var scores, rest := RootScores(sim, possible, 0, rng);
    pick := Choose(possible, scores, me, rest);
  }

  /** suggestMove: re-tag the history, replay it, and pick on the
      simulated game. */
  method SuggestMove(g: Game, me: Player, rng: Rng) returns (pick: Pick)
    requires ColumnsInRange(g.moves)
    ensures var sim := SimulatedGame(g.moves, me);
            pick.move.None? <==> IsFull(sim)
    ensures pick.move.Some? ==> pick.move.value.player == me
    ensures var sim := SimulatedGame(g.moves, me);
            var possible := PossibleMoves(sim, OurProxy);
            var values := ValuesOf(sim, possible, 0, 0);
            pick.move.Some? ==>
              exists k :: 0 <= k < |possible| && possible[k].column == pick.move.value.column && IsBest(values, k)
  {
    var sim := SimulatedGame(g.moves, me);
    pick := BestOf(sim, me, rng);
  }
}
