/**
 mulberry32, the fixture's 32-bit generator. JavaScript's signed 32-bit integers are
 modelled by their residues modulo 2^32.
 */
module Prng {
  const MODULUS: int := 0x1_0000_0000
  const INCREMENT: int := 0x6d2b_79f5

  /** The multiplicative inverse of INCREMENT modulo 2^32. */
  const INVERSE: int := 3696798301
  const QUOTIENT: int := 1576479847

  /** INCREMENT * INVERSE is one more than a multiple of 2^32. */
  lemma InverseProduct(x: int)
    ensures x * INVERSE * INCREMENT == x + x * QUOTIENT * MODULUS
  {
  }

  function NextState(state: int): (next: int)
    ensures 0 <= next < MODULUS
  {
    (state + INCREMENT) % MODULUS
  }

  /** The state after k draws from a seed. */
  function State(seed: int, k: nat): (state: int)
    ensures 0 <= state < MODULUS
  {
    if k == 0 then seed % MODULUS else NextState(State(seed, k - 1))
  }

  /** The output mixing: Math.imul is multiplication modulo 2^32, and >>> is an unsigned shift. */
  function Mix(state: bv32): bv32 {
    var v := (state ^ (state >> 15)) * (1 | state);
    var w := (v + (v ^ (v >> 7)) * (61 | v)) ^ v;
    w ^ (w >> 14)
  }

  /** The numerator over 2^32 of the draw made from a state. */
  function Output(state: int): (n: int)
    requires 0 <= state < MODULUS
    ensures 0 <= n < MODULUS
  {
    Mix(state as bv32) as int
  }

  class Mulberry32 {
    var seed: int

    constructor (seed: int)
      ensures this.seed == seed
    {
      this.seed := seed;
    }

    /** A draw in [0, 1), as its numerator over 2^32. */
    method Next() returns (draw: int)
      modifies this
      ensures 0 <= seed < MODULUS && seed == NextState(old(seed) % MODULUS)
      ensures draw == Output(seed)
    {
      hide Output;
      seed := seed % MODULUS;
      seed := (seed + INCREMENT) % MODULUS;
      draw := Output(seed);
    }
  }

  // ------------------------------------------------------------------ period

  lemma AddingMultiples(a: int, q: int)
    ensures (a + q * MODULUS) % MODULUS == a % MODULUS
  {
  }

  lemma {:induction false} StateClosedForm(seed: int, k: nat)
    ensures State(seed, k) == (seed + k * INCREMENT) % MODULUS
  {
    if k > 0 {
      StateClosedForm(seed, k - 1);
      var sum := seed + (k - 1) * INCREMENT;
      AddingMultiples(sum % MODULUS + INCREMENT, sum / MODULUS);
    }
  }

  /** Two draws share a state exactly when they are a multiple of 2^32 draws apart. */
  lemma FullPeriod(seed: int, i: nat, j: nat)
    ensures State(seed, i) == State(seed, j) <==> (i - j) % MODULUS == 0
  {
    hide State;
    StateClosedForm(seed, i);
    StateClosedForm(seed, j);
    if State(seed, i) == State(seed, j) {
      var q := (seed + i * INCREMENT) / MODULUS - (seed + j * INCREMENT) / MODULUS;
      assert (i - j) * INCREMENT == q * MODULUS;
      InverseProduct(i - j);
      AddingMultiples(0, q * INVERSE - (i - j) * QUOTIENT);
    }
    if (i - j) % MODULUS == 0 {
      AddingMultiples(seed + j * INCREMENT, (i - j) / MODULUS * INCREMENT);
    }
  }

  /** Every 32-bit state occurs among the first 2^32, from every seed. */
  lemma EveryStateIsReached(seed: int, target: int) returns (k: nat)
    requires 0 <= target < MODULUS
    ensures k < MODULUS && State(seed, k) == target
  {
    hide State;
    var distance := target - seed;
    var q := distance * INVERSE / MODULUS;
    k := distance * INVERSE - q * MODULUS;
    StateClosedForm(seed, k);
    InverseProduct(distance);
    AddingMultiples(target, distance * QUOTIENT - q * INCREMENT);
  }
}
