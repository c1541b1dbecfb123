/**
 deterministicShuffle: a Fisher-Yates shuffle driven by mulberry32, in place on a copy.
 Math.floor(random() * (index + 1)) is exact on the numerators of the draws.
 */
module Shuffle {
  import opened Prng

  /** Where step index swaps to, on the draw made from a state. */
  function Target(state: int, index: nat): (target: nat)
    requires 0 <= state < MODULUS
    ensures target <= index
  {
    var n := Output(state);
    ProductBelow(n, index + 1);
    n * (index + 1) / MODULUS
  }

  lemma ProductBelow(n: int, size: int)
    requires 0 <= n < MODULUS && 0 < size
    ensures 0 <= n * size / MODULUS < size
  {
    assert 0 <= n * size < MODULUS * size;
  }

  function Swap<T>(v: seq<T>, i: nat, j: nat): seq<T>
    requires i < |v| && j < |v|
  {
    v[i := v[j]][j := v[i]]
  }

  /** The list after the steps top, top - 1, ..., down + 1, the first of them on draw 1. */
  function Steps<T>(v: seq<T>, seed: int, down: nat): (r: seq<T>)
    requires down < |v|
    ensures |r| == |v|
    decreases |v| - down
  {
    if down == |v| - 1 then v
    else Swap(Steps(v, seed, down + 1), down + 1, Target(State(seed, |v| - 1 - down), down + 1))
  }

  function Shuffled<T>(v: seq<T>, seed: int): seq<T> {
    if v == [] then v else Steps(v, seed, 0)
  }

  lemma StepsNone<T>(v: seq<T>, seed: int)
    ensures v != [] ==> Steps(v, seed, |v| - 1) == v
  {
  }

  lemma StepsOnce<T>(v: seq<T>, seed: int, index: nat)
    requires 0 < index < |v|
    ensures Steps(v, seed, index - 1) == Swap(Steps(v, seed, index), index, Target(State(seed, |v| - index), index))
  {
    hide Target, State;
  }

  lemma NextDraw(seed: int, k: nat, index: nat)
    ensures NextState(State(seed, k) % MODULUS) == State(seed, k + 1)
    ensures Output(State(seed, k)) * (index + 1) / MODULUS == Target(State(seed, k), index)
  {
    hide Output;
  }

  /** The method allocates its result, so the list it was given is untouched. */
  method DeterministicShuffle<T>(values: array<T>, seed: int) returns (result: array<T>)
    ensures fresh(result)
    ensures result[..] == Shuffled(values[..], seed)
  {
    hide Output, Steps, State, NextState, Target;
    ghost var v := values[..];
    StepsNone(v, seed);
    if values.Length == 0 {
      result := new T[0];
      assert result[..] == v;
      return;
    }
    result := new T[values.Length](i requires 0 <= i < values.Length reads values => values[i]);
    assert result[..] == v;
    var random := new Mulberry32(seed);
    var index := result.Length - 1;
    Seeded(seed);
    while index > 0
      invariant fresh(result) && fresh(random)
      invariant 0 <= index < result.Length == |v|
      invariant random.seed % MODULUS == State(seed, result.Length - 1 - index) % MODULUS
      invariant result[..] == Steps(v, seed, index)
      invariant values[..] == v
    {
      ghost var was := result[..];
      NextDraw(seed, result.Length - 1 - index, index);
      NextDraw(seed, result.Length - index, index);
      var draw := random.Next();
      var target := draw * (index + 1) / MODULUS;
      result[index], result[target] := result[target], result[index];
      assert result[..] == Swap(was, index, target);
      StepsOnce(v, seed, index);
      index := index - 1;
    }
  }

  lemma Seeded(seed: int)
    ensures State(seed, 0) % MODULUS == seed % MODULUS
  {
  }

  // ------------------------------------------------------------- permutation

  lemma SwapPermutes<T>(v: seq<T>, i: nat, j: nat)
    requires i < |v| && j < |v|
    ensures multiset(Swap(v, i, j)) == multiset(v)
  {
  }

  lemma {:induction false} StepsPermute<T>(v: seq<T>, seed: int, down: nat)
    requires down < |v|
    ensures multiset(Steps(v, seed, down)) == multiset(v)
    decreases |v| - down
  {
    hide Target, State;
    if down < |v| - 1 {
      StepsPermute(v, seed, down + 1);
      SwapPermutes(Steps(v, seed, down + 1), down + 1, Target(State(seed, |v| - 1 - down), down + 1));
    }
  }

  /** Every list and seed: the shuffle is a permutation. */
  lemma ShuffledPermutes<T>(v: seq<T>, seed: int)
    ensures multiset(Shuffled(v, seed)) == multiset(v)
  {
    if v != [] {
      StepsPermute(v, seed, 0);
    }
  }

  // ------------------------------------------------------------------- trace

  /** Where the element at position q just after the steps down to index came from. */
  function Origin(size: nat, seed: int, q: nat, index: nat): (origin: nat)
    requires q <= index < size
    ensures origin < size
    decreases size - index
  {
    if index == size - 1 then q
    else
      var target := Target(State(seed, size - 1 - index), index + 1);
      Origin(size, seed, if q == target then index + 1 else q, index + 1)
  }

  lemma {:induction false} StepsFromOrigin<T>(v: seq<T>, seed: int, q: nat, index: nat)
    requires q <= index < |v|
    ensures Steps(v, seed, index)[q] == v[Origin(|v|, seed, q, index)]
    decreases |v| - index
  {
    hide Target, State;
    if index < |v| - 1 {
      var target := Target(State(seed, |v| - 1 - index), index + 1);
      StepsFromOrigin(v, seed, if q == target then index + 1 else q, index + 1);
    }
  }

  lemma {:induction false} StepsSettle<T>(v: seq<T>, seed: int, down: nat, p: nat)
    requires down < p < |v|
    ensures Steps(v, seed, down)[p] == Steps(v, seed, p - 1)[p]
    decreases p - down
  {
    hide Target, State;
    if down < p - 1 {
      StepsSettle(v, seed, down + 1, p);
    }
  }

  /** The final element at a position is decided by the draws down to that position's own step; position 0 has none. */
  lemma ShuffledAt<T>(v: seq<T>, seed: int, p: nat)
    requires p < |v|
    ensures Shuffled(v, seed)[p]
         == v[Origin(|v|, seed, if p == 0 then 0 else Target(State(seed, |v| - p), p), p)]
  {
    hide Target, State;
    if p == 0 {
      StepsFromOrigin(v, seed, 0, 0);
    } else {
      StepsSettle(v, seed, 0, p);
      StepsFromOrigin(v, seed, Target(State(seed, |v| - p), p), p);
    }
  }
}
