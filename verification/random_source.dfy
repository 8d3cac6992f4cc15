/** A random source as an explicit, arbitrary stream of draws. The model
    promises nothing about the distribution: every property of a strategy
    that uses it holds whatever the draws are. */
module RandomSource {

  /** `draw` is an arbitrary stream and `next` the position of the next draw. */
  datatype Rng = Rng(draw: nat -> nat, next: nat)

  datatype Draw = Draw(value: nat, rng: Rng)

  datatype Shuffled<T> = Shuffled(list: seq<T>, rng: Rng)

  /** Random.nextInt(bound): some value in [0, bound); consumes one draw. */
  function NextInt(rng: Rng, bound: nat): (d: Draw)
    requires bound > 0
    ensures d.value < bound
    ensures d.rng.draw == rng.draw && d.rng.next == rng.next + 1
  {
    Draw(rng.draw(rng.next) % bound, Rng(rng.draw, rng.next + 1))
  }

  function Swap<T>(s: seq<T>, i: nat, j: nat): (t: seq<T>)
    requires i < |s| && j < |s|
    ensures |t| == |s|
    ensures multiset(t) == multiset(s)
  {
    s[i := s[j]][j := s[i]]
  }

  /** The loop of Collections.shuffle: for i from `i` down to 2, swap
      position i - 1 with a drawn position below i. */
  function ShuffleDown<T>(s: seq<T>, i: nat, rng: Rng): (r: Shuffled<T>)
    requires i <= |s|
    decreases i
    ensures |r.list| == |s|
    ensures multiset(r.list) == multiset(s)
  {
    if i <= 1 then Shuffled(s, rng)
    else
      var d := NextInt(rng, i);
      ShuffleDown(Swap(s, i - 1, d.value), i - 1, d.rng)
  }

  /** Collections.shuffle: a permutation of the list chosen by the draws. */
  function Shuffle<T(!new)>(s: seq<T>, rng: Rng): (r: Shuffled<T>)
    ensures |r.list| == |s|
    ensures multiset(r.list) == multiset(s)
    ensures forall x :: x in r.list <==> x in s
  {
    var r := ShuffleDown(s, |s|, rng);
    assert forall x :: x in r.list <==> x in multiset(r.list);
    r
  }
}
