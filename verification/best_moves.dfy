/** The root selection shared by the two minimax strategies: scan the root
    moves with their scores, keep the best score seen so far (starting from
    Integer.MIN_VALUE) and the moves that reach it, shuffle the candidates
    when there is more than one, and play the column of the first. */
module BestMoves {
  import opened Common
  import opened ConnectFourGame
  import opened RandomSource

  /** The largest of vs[i..]; MIN_VALUE when there are none. */
  function MaxFrom(vs: seq<int>, i: int): int
    requires 0 <= i <= |vs|
    decreases |vs| - i
  {
    if i == |vs| then IntMin else Max(vs[i], MaxFrom(vs, i + 1))
  }

  /** The smallest of vs[i..]; MAX_VALUE when there are none. */
  function MinFrom(vs: seq<int>, i: int): int
    requires 0 <= i <= |vs|
    decreases |vs| - i
  {
    if i == |vs| then IntMax else Min(vs[i], MinFrom(vs, i + 1))
  }

  /** MaxFrom bounds every value from above and is one of them, unless it
      is MIN_VALUE. */
  lemma {:induction false} MaxFromIsMax(vs: seq<int>, i: int)
    requires 0 <= i <= |vs|
    decreases |vs| - i
    ensures forall j :: i <= j < |vs| ==> vs[j] <= MaxFrom(vs, i)
    ensures MaxFrom(vs, i) >= IntMin
    ensures MaxFrom(vs, i) == IntMin || exists j :: i <= j < |vs| && vs[j] == MaxFrom(vs, i)
  {
    if i < |vs| {
      MaxFromIsMax(vs, i + 1);
    }
  }

  lemma {:induction false} MinFromIsMin(vs: seq<int>, i: int)
    requires 0 <= i <= |vs|
    decreases |vs| - i
    ensures forall j :: i <= j < |vs| ==> MinFrom(vs, i) <= vs[j]
    ensures MinFrom(vs, i) <= IntMax
    ensures MinFrom(vs, i) == IntMax || exists j :: i <= j < |vs| && vs[j] == MinFrom(vs, i)
  {
    if i < |vs| {
      MinFromIsMin(vs, i + 1);
    }
  }

  /** Two lists holding the same values have the same maximum and minimum. */
  lemma SameValues(a: seq<int>, b: seq<int>)
    requires forall x :: x in a <==> x in b
    ensures MaxFrom(a, 0) == MaxFrom(b, 0)
    ensures MinFrom(a, 0) == MinFrom(b, 0)
  {
    MaxFromIsMax(a, 0);
    MaxFromIsMax(b, 0);
    MinFromIsMin(a, 0);
    MinFromIsMin(b, 0);
    var ha, hb := MaxFrom(a, 0), MaxFrom(b, 0);
    if hb != IntMin {
      var j :| 0 <= j < |b| && b[j] == hb;
      assert b[j] in a;
    }
    if ha != IntMin {
      var j :| 0 <= j < |a| && a[j] == ha;
      assert a[j] in b;
    }
    var la, lb := MinFrom(a, 0), MinFrom(b, 0);
    if lb != IntMax {
      var j :| 0 <= j < |b| && b[j] == lb;
      assert b[j] in a;
    }
    if la != IntMax {
      var j :| 0 <= j < |a| && a[j] == la;
      assert a[j] in b;
    }
  }

  /** Appending a value raises the maximum to it or leaves it. */
  lemma {:induction false} MaxFromSnoc(vs: seq<int>, x: int, i: int)
    requires 0 <= i <= |vs| && IntMin <= x
    decreases |vs| - i
    ensures MaxFrom(vs + [x], i) == Max(MaxFrom(vs, i), x)
  {
    if i < |vs| {
      assert (vs + [x])[i] == vs[i];
      MaxFromSnoc(vs, x, i + 1);
    } else {
      assert (vs + [x])[i] == x;
    }
  }

  /** The moves whose score is v, in their original order. */
  function WithScore(ms: seq<PlayerMove>, scores: seq<int>, v: int): (r: seq<PlayerMove>)
    requires |ms| == |scores|
    ensures |r| <= |ms|
  {
    var n := |ms|;
    if n == 0 then []
    else WithScore(ms[..n - 1], scores[..n - 1], v) + (if scores[n - 1] == v then [ms[n - 1]] else [])
  }

  /** A move is kept exactly when it sits at a position with score v. */
  lemma {:induction false} WithScoreMembers(ms: seq<PlayerMove>, scores: seq<int>, v: int, m: PlayerMove)
    requires |ms| == |scores|
    ensures m in WithScore(ms, scores, v) <==> exists i :: 0 <= i < |ms| && ms[i] == m && scores[i] == v
  {
    var n := |ms|;
    if n > 0 {
      var ms', scores' := ms[..n - 1], scores[..n - 1];
      WithScoreMembers(ms', scores', v, m);
      if exists i :: 0 <= i < n - 1 && ms'[i] == m && scores'[i] == v {
        var i :| 0 <= i < n - 1 && ms'[i] == m && scores'[i] == v;
        assert ms[i] == m && scores[i] == v;
      }
      if exists i :: 0 <= i < n && ms[i] == m && scores[i] == v {
        var i :| 0 <= i < n && ms[i] == m && scores[i] == v;
        if i < n - 1 {
          assert ms'[i] == m && scores'[i] == v;
        }
      }
    }
  }

  /** No move has a score above the maximum. */
  lemma {:induction false} NoneAbove(ms: seq<PlayerMove>, scores: seq<int>, v: int)
    requires |ms| == |scores| && forall i :: 0 <= i < |scores| ==> IntMin <= scores[i]
    requires MaxFrom(scores, 0) < v
    ensures WithScore(ms, scores, v) == []
  {
    var n := |ms|;
    if n > 0 {
      var scores' := scores[..n - 1];
      assert scores' + [scores[n - 1]] == scores;
      MaxFromSnoc(scores', scores[n - 1], 0);
      NoneAbove(ms[..n - 1], scores', v);
    }
  }

  /** The selection loop of suggestMove: a move that beats the best score
      so far replaces the candidates, one that ties joins them. The best
      score is the maximum (MIN_VALUE when there are no moves) and the
      candidates are the moves that reach it. */
  method Candidates(ms: seq<PlayerMove>, scores: seq<int>) returns (best: int, cands: seq<PlayerMove>)
    requires |ms| == |scores|
    requires forall i :: 0 <= i < |scores| ==> IntMin <= scores[i]
    ensures best == MaxFrom(scores, 0)
    ensures cands == WithScore(ms, scores, best)
    ensures ms != [] ==> cands != []
  {
    best := IntMin;
    cands := [];
    var i := 0;
    while i < |ms|
      invariant 0 <= i <= |ms|
      invariant best == MaxFrom(scores[..i], 0)
      invariant cands == WithScore(ms[..i], scores[..i], best)
    {
      assert ms[..i + 1][..i] == ms[..i] && scores[..i + 1][..i] == scores[..i];
      assert scores[..i] + [scores[i]] == scores[..i + 1];
      MaxFromSnoc(scores[..i], scores[i], 0);
      if scores[i] > best {
        NoneAbove(ms[..i], scores[..i], scores[i]);
        cands := [ms[i]];
        best := scores[i];
      } else if scores[i] == best {
        cands := cands + [ms[i]];
      }
      i := i + 1;
    }
    assert ms[..i] == ms && scores[..i] == scores;
    if ms != [] {
      MaxFromIsMax(scores, 0);
      var k :| 0 <= k < |scores| && scores[k] == best;
      WithScoreMembers(ms, scores, best, ms[k]);
    }
  }

  /** Position k holds a greatest score. */
  predicate IsBest(scores: seq<int>, k: int)
    requires 0 <= k < |scores|
  {
    forall j :: 0 <= j < |scores| ==> scores[j] <= scores[k]
  }

  /** What suggestMove hands back: the move (None where Java's get(0) on
      the empty candidate list throws) and the remaining random stream. */
  datatype Pick = Pick(move: Option<PlayerMove>, rng: Rng)

  /** The end of suggestMove: the candidates are shuffled only when there
      are several, and the strategy plays the column of the first. */
  method Choose(ms: seq<PlayerMove>, scores: seq<int>, me: Player, rng: Rng) returns (pick: Pick)
    requires |ms| == |scores|
    requires forall i :: 0 <= i < |scores| ==> IntMin <= scores[i]
    ensures pick.move.None? <==> ms == []
    ensures pick.move.Some? ==> pick.move.value.player == me
    ensures pick.move.Some? ==>
              exists k :: 0 <= k < |ms| && ms[k].column == pick.move.value.column && IsBest(scores, k)
    ensures var cands := WithScore(ms, scores, MaxFrom(scores, 0));
            |cands| == 1 ==> pick == Pick(Some(PlayerMove(me, cands[0].column)), rng)
    ensures var cands := WithScore(ms, scores, MaxFrom(scores, 0));
            |cands| > 1 ==> pick == Pick(Some(PlayerMove(me, Shuffle(cands, rng).list[0].column)), Shuffle(cands, rng).rng)
  {
    var best, cands := Candidates(ms, scores);
    if cands == [] {
      return Pick(None, rng);
    }
    var order := if |cands| > 1 then Shuffle(cands, rng) else Shuffled(cands, rng);
    assert order.list[0] in cands;
    WithScoreMembers(ms, scores, best, order.list[0]);
    MaxFromIsMax(scores, 0);
    pick := Pick(Some(PlayerMove(me, order.list[0].column)), order.rng);
  }
}
