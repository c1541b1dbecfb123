/**
 The fixture's R tables. Four of the values the comments in the fixture rely on are
 decided by the shuffle of seed 12, so its first 26 draws are computed here.
 */
module FixtureTables {
  import opened Permutations
  import opened Prng
  import opened Shuffle

  function Repeat(value: real, count: nat): seq<real> {
    seq(count, i => value)
  }

  function ActualShuffleInput(): seq<real> {
    Repeat(2.2, 16) + (Repeat(2.4, 7) + (Repeat(-1.1, 18) + (Repeat(-1.15, 13) + Repeat(0.0, 4))))
  }

  function SystemShuffleInput(): seq<real> {
    Repeat(2.3, 17) + (Repeat(2.5, 8) + (Repeat(-0.9, 18) + (Repeat(-0.95, 13) + Repeat(0.0, 2))))
  }

  const ACTUAL_SUFFIX: seq<real> := [2.4, -1.1, 0.0, 2.2, -1.15, 2.4]
  const SYSTEM_SUFFIX: seq<real> := [2.5, -0.9, 0.0, -0.95, 2.3, 2.3]

  function ActualComparable(): (r: seq<real>)
    ensures |r| == 64
  {
    ShuffledPermutes(ActualShuffleInput(), 12);
    SameLength(Shuffled(ActualShuffleInput(), 12), ActualShuffleInput());
    Shuffled(ActualShuffleInput(), 12) + ACTUAL_SUFFIX
  }

  function SystemComparable(): (r: seq<real>)
    ensures |r| == 64
  {
    ShuffledPermutes(SystemShuffleInput(), 2);
    SameLength(Shuffled(SystemShuffleInput(), 2), SystemShuffleInput());
    Shuffled(SystemShuffleInput(), 2) + SYSTEM_SUFFIX
  }

  const ACTUAL_ONLY: seq<real> := [2.2, -1.1]
  const SYSTEM_ONLY: seq<real> := [2.3, -0.9, -0.95, 0.0]

  /** The actual R of the 66 closed trades, with the two non-zero break-even overrides in place. */
  function ActualTargets(): (r: seq<real>)
    ensures |r| == 66
  {
    ActualComparable()[32 := 0.03][48 := -0.03] + ACTUAL_ONLY
  }

  /** The system R of the 68 resolved trades. */
  function SystemTargets(): (r: seq<real>)
    ensures |r| == 68
  {
    SystemComparable() + SYSTEM_ONLY
  }

  // ------------------------------------------------------------------- draws

  /** The swap targets of seed 12 on 58 entries, for indices 32 to 57. */
  function TargetTable(index: nat): nat
    requires 32 <= index <= 57
  {
    match index
    case 32 => 4
    case 33 => 8
    case 34 => 15
    case 35 => 13
    case 36 => 32
    case 37 => 11
    case 38 => 9
    case 39 => 39
    case 40 => 32
    case 41 => 22
    case 42 => 28
    case 43 => 32
    case 44 => 23
    case 45 => 15
    case 46 => 43
    case 47 => 1
    case 48 => 36
    case 49 => 27
    case 50 => 32
    case 51 => 36
    case 52 => 0
    case 53 => 8
    case 54 => 51
    case 55 => 32
    case 56 => 4
    case 57 => 16
  }

  lemma TargetOf(state: int, index: nat, output: int, target: nat)
    requires 0 <= state < MODULUS && Output(state) == output
    requires target * MODULUS <= output * (index + 1) < (target + 1) * MODULUS
    ensures Target(state, index) == target
  {
  }

  lemma LateOutputs()
    ensures Output(376070894) == 566640244
    ensures Output(2839472377) == 1010643335
    ensures Output(1007906564) == 1841763089
    ensures Output(3471308047) == 1665322211
    ensures Output(1639742234) == 3829985131
    ensures Output(4103143717) == 1309474708
    ensures Output(2271577904) == 1034947212
    ensures Output(440012091) == 4284135926
    ensures Output(2903413574) == 3427607765
    ensures Output(1071847761) == 2282207432
    ensures Output(3535249244) == 2802306033
    ensures Output(1703683431) == 3220026250
    ensures Output(4167084914) == 2213122789
  {
  }

  lemma EarlyOutputs()
    ensures Output(2335519101) == 1402053058
    ensures Output(503953288) == 3986036824
    ensures Output(2967354771) == 130738197
    ensures Output(1135788958) == 3163110595
    ensures Output(3599190441) == 2382887498
    ensures Output(1767624628) == 2749338763
    ensures Output(4231026111) == 2989313529
    ensures Output(2399460298) == 58788688
    ensures Output(567894485) == 656148980
    ensures Output(3031295968) == 4043112305
    ensures Output(1199730155) == 2491772807
    ensures Output(3663131638) == 324989476
    ensures Output(1831565825) == 1237598750
  {
  }

  lemma LateTargets(index: nat)
    requires 32 <= index <= 44
    ensures Target(State(12, 58 - index), index) == TargetTable(index)
  {
    hide State, Target, Output;
    StateClosedForm(12, 58 - index);
    LateOutputs();
    match index
    case 32 => TargetOf(376070894, 32, 566640244, 4);
    case 33 => TargetOf(2839472377, 33, 1010643335, 8);
    case 34 => TargetOf(1007906564, 34, 1841763089, 15);
    case 35 => TargetOf(3471308047, 35, 1665322211, 13);
    case 36 => TargetOf(1639742234, 36, 3829985131, 32);
    case 37 => TargetOf(4103143717, 37, 1309474708, 11);
    case 38 => TargetOf(2271577904, 38, 1034947212, 9);
    case 39 => TargetOf(440012091, 39, 4284135926, 39);
    case 40 => TargetOf(2903413574, 40, 3427607765, 32);
    case 41 => TargetOf(1071847761, 41, 2282207432, 22);
    case 42 => TargetOf(3535249244, 42, 2802306033, 28);
    case 43 => TargetOf(1703683431, 43, 3220026250, 32);
    case 44 => TargetOf(4167084914, 44, 2213122789, 23);
  }

  lemma EarlyTargets(index: nat)
    requires 45 <= index <= 57
    ensures Target(State(12, 58 - index), index) == TargetTable(index)
  {
    hide State, Target, Output;
    StateClosedForm(12, 58 - index);
    EarlyOutputs();
    match index
    case 45 => TargetOf(2335519101, 45, 1402053058, 15);
    case 46 => TargetOf(503953288, 46, 3986036824, 43);
    case 47 => TargetOf(2967354771, 47, 130738197, 1);
    case 48 => TargetOf(1135788958, 48, 3163110595, 36);
    case 49 => TargetOf(3599190441, 49, 2382887498, 27);
    case 50 => TargetOf(1767624628, 50, 2749338763, 32);
    case 51 => TargetOf(4231026111, 51, 2989313529, 36);
    case 52 => TargetOf(2399460298, 52, 58788688, 0);
    case 53 => TargetOf(567894485, 53, 656148980, 8);
    case 54 => TargetOf(3031295968, 54, 4043112305, 51);
    case 55 => TargetOf(1199730155, 55, 2491772807, 32);
    case 56 => TargetOf(3663131638, 56, 324989476, 4);
    case 57 => TargetOf(1831565825, 57, 1237598750, 16);
  }

  /** Origin, read off the table of targets. */
  function TableOrigin(q: nat, index: nat): nat
    requires 32 <= index <= 57
    decreases 57 - index
  {
    if index == 57 then q else TableOrigin(if q == TargetTable(index + 1) then index + 1 else q, index + 1)
  }

  lemma {:induction false} OriginIsTableOrigin(q: nat, index: nat)
    requires q <= index && 32 <= index <= 57
    ensures Origin(58, 12, q, index) == TableOrigin(q, index)
    decreases 57 - index
  {
    hide Target, State;
    if index < 57 {
      if index + 1 <= 44 { LateTargets(index + 1); } else { EarlyTargets(index + 1); }
      OriginIsTableOrigin(if q == TargetTable(index + 1) then index + 1 else q, index + 1);
    }
  }

  lemma ActualComparableAt(p: nat)
    requires 32 <= p <= 57
    ensures TargetTable(p) <= p
    ensures TableOrigin(TargetTable(p), p) < 58
    ensures ActualComparable()[p] == ActualShuffleInput()[TableOrigin(TargetTable(p), p)]
  {
    hide Target, State, Origin, TableOrigin, Shuffled;
    if p <= 44 { LateTargets(p); } else { EarlyTargets(p); }
    ShuffledAt(ActualShuffleInput(), 12, p);
    OriginIsTableOrigin(TargetTable(p), p);
  }

  lemma {:induction false} StaysPut(q: nat, index: nat, until: nat)
    requires 32 <= index <= until <= 57
    requires forall j | index < j <= until :: TargetTable(j) != q
    ensures TableOrigin(q, index) == TableOrigin(q, until)
    decreases until - index
  {
    hide TargetTable;
    if index < until {
      assert TargetTable(index + 1) != q;
      StaysPut(q, index + 1, until);
    }
  }

  /** The entry moves at the first later step whose target is its position. */
  lemma Moves(q: nat, index: nat, step: nat)
    requires 32 <= index < step <= 57
    requires forall j | index < j < step :: TargetTable(j) != q
    requires TargetTable(step) == q
    ensures TableOrigin(q, index) == TableOrigin(step, step)
  {
    hide TargetTable;
    StaysPut(q, index, step - 1);
    assert TableOrigin(q, step - 1) == TableOrigin(step, step);
  }

  lemma TracedOrigins()
    ensures TableOrigin(TargetTable(32), 32) == 56
    ensures TableOrigin(TargetTable(38), 38) == 9
    ensures TableOrigin(TargetTable(39), 39) == 39
    ensures TableOrigin(TargetTable(40), 40) == 46
    ensures TableOrigin(TargetTable(48), 48) == 54
  {
    hide TableOrigin;
    Moves(4, 32, 56);
    StaysPut(56, 56, 57);
    StaysPut(9, 38, 57);
    StaysPut(39, 39, 57);
    Moves(32, 40, 43);
    Moves(43, 43, 46);
    StaysPut(46, 46, 57);
    Moves(36, 48, 51);
    Moves(51, 51, 54);
    StaysPut(54, 54, 57);
    TableOriginEnds();
  }

  lemma TableOriginEnds()
    ensures forall q :: TableOrigin(q, 57) == q
  {
  }

  lemma ActualInputAt()
    ensures ActualShuffleInput()[9] == 2.2 && ActualShuffleInput()[39] == -1.1
    ensures ActualShuffleInput()[46] == -1.15
    ensures ActualShuffleInput()[54] == 0.0 && ActualShuffleInput()[56] == 0.0
  {
  }

  /** Both overridden entries are zero before the override, and the shared day's entries are as documented. */
  lemma OverriddenEntries()
    ensures ActualComparable()[32] == 0.0 && ActualComparable()[48] == 0.0
    ensures ActualComparable()[38..41] == [2.2, -1.1, -1.15]
  {
    hide TableOrigin, TargetTable, ActualComparable, ActualShuffleInput;
    TracedOrigins();
    ActualInputAt();
    ActualComparableAt(32);
    ActualComparableAt(38);
    ActualComparableAt(39);
    ActualComparableAt(40);
    ActualComparableAt(48);
  }

  // ------------------------------------------------------------------ totals

  function Sum(s: seq<real>): real {
    if s == [] then 0.0 else s[0] + Sum(s[1..])
  }

  lemma {:induction false} SumSplit(a: seq<real>, b: seq<real>)
    ensures Sum(a + b) == Sum(a) + Sum(b)
  {
    if a == [] {
      assert a + b == b;
    } else {
      SumSplit(a[1..], b);
      assert (a + b)[1..] == a[1..] + b;
    }
  }

  lemma {:induction false} SumRepeat(value: real, count: nat)
    ensures Sum(Repeat(value, count)) == count as real * value
  {
    if count > 0 {
      SumRepeat(value, count - 1);
      assert Repeat(value, count)[1..] == Repeat(value, count - 1);
    }
  }

  lemma SumRemove(s: seq<real>, i: nat)
    requires i < |s|
    ensures Sum(s) == s[i] + Sum(s[..i] + s[i + 1..])
  {
    SumSplit(s[..i], s[i..]);
    SumSplit(s[..i], s[i + 1..]);
    assert s == s[..i] + s[i..];
    assert s[i..][1..] == s[i + 1..];
  }

  lemma SumUpdate(s: seq<real>, i: nat, value: real)
    requires i < |s|
    ensures Sum(s[i := value]) == Sum(s) - s[i] + value
  {
    SumRemove(s, i);
    SumRemove(s[i := value], i);
    assert s[i := value][..i] == s[..i] && s[i := value][i + 1..] == s[i + 1..];
  }

  /** A total depends only on which values occur, not on their order. */
  lemma {:induction false} SumPermutation(a: seq<real>, b: seq<real>)
    requires multiset(a) == multiset(b)
    ensures Sum(a) == Sum(b)
    decreases |a|
  {
    SameLength(a, b);
    if a != [] {
      var i := OccurrenceOf(a, b);
      SumPermutation(a[1..], b[..i] + b[i + 1..]);
      SumRemove(b, i);
    }
  }

  /** The total of a shuffled list is the same for every seed. */
  lemma ShuffleKeepsTotal(v: seq<real>, seed: int)
    ensures Sum(Shuffled(v, seed)) == Sum(v)
  {
    ShuffledPermutes(v, seed);
    SumPermutation(Shuffled(v, seed), v);
  }

  lemma SumFive(a: seq<real>, b: seq<real>, c: seq<real>, d: seq<real>, e: seq<real>)
    ensures Sum(a + (b + (c + (d + e)))) == Sum(a) + Sum(b) + Sum(c) + Sum(d) + Sum(e)
  {
    SumSplit(a, b + (c + (d + e)));
    SumSplit(b, c + (d + e));
    SumSplit(c, d + e);
    SumSplit(d, e);
  }

  lemma ActualInputTotal()
    ensures Sum(ActualShuffleInput()) == 17.25
  {
    hide Sum, Repeat;
    SumFive(Repeat(2.2, 16), Repeat(2.4, 7), Repeat(-1.1, 18), Repeat(-1.15, 13), Repeat(0.0, 4));
    SumRepeat(2.2, 16);
    SumRepeat(2.4, 7);
    SumRepeat(-1.1, 18);
    SumRepeat(-1.15, 13);
    SumRepeat(0.0, 4);
  }

  lemma SystemInputTotal()
    ensures Sum(SystemShuffleInput()) == 30.55
  {
    hide Sum, Repeat;
    SumFive(Repeat(2.3, 17), Repeat(2.5, 8), Repeat(-0.9, 18), Repeat(-0.95, 13), Repeat(0.0, 2));
    SumRepeat(2.3, 17);
    SumRepeat(2.5, 8);
    SumRepeat(-0.9, 18);
    SumRepeat(-0.95, 13);
    SumRepeat(0.0, 2);
  }

  lemma SumHead(x: real, rest: seq<real>)
    ensures Sum([x] + rest) == x + Sum(rest)
  {
    assert ([x] + rest)[1..] == rest;
  }

  lemma SumSix(a: real, b: real, c: real, d: real, e: real, f: real)
    ensures Sum([a, b, c, d, e, f]) == a + b + c + d + e + f
  {
    assert Sum([]) == 0.0;
    hide Sum;
    SumHead(f, []);
    SumHead(e, [f]);
    SumHead(d, [e, f]);
    SumHead(c, [d, e, f]);
    SumHead(b, [c, d, e, f]);
    SumHead(a, [b, c, d, e, f]);
    assert [f] + [] == [f] && [e] + [f] == [e, f] && [d] + [e, f] == [d, e, f];
    assert [c] + [d, e, f] == [c, d, e, f] && [b] + [c, d, e, f] == [b, c, d, e, f];
    assert [a] + [b, c, d, e, f] == [a, b, c, d, e, f];
  }

  lemma ComparableTotal()
    ensures Sum(ActualComparable()) == 22.0
  {
    hide Shuffled, ActualShuffleInput, Sum;
    ShuffleKeepsTotal(ActualShuffleInput(), 12);
    ActualInputTotal();
    SumSplit(Shuffled(ActualShuffleInput(), 12), ACTUAL_SUFFIX);
    SumSix(2.4, -1.1, 0.0, 2.2, -1.15, 2.4);
  }

  lemma OnlyTotals()
    ensures Sum(ACTUAL_ONLY) == 1.1 && Sum(SYSTEM_ONLY) == 0.45
  {
    assert ACTUAL_ONLY[1..] == [-1.1];
    assert SYSTEM_ONLY[1..] == [-0.9, -0.95, 0.0] && SYSTEM_ONLY[1..][1..] == [-0.95, 0.0];
    assert SYSTEM_ONLY[1..][1..][1..] == [0.0];
  }

  /** The 64 paired trades total 22R: the two overrides replace entries that are exactly zero. */
  lemma PairedActualTotal()
    ensures Sum(ActualTargets()[..64]) == 22.0
  {
    hide Sum, ActualComparable, ACTUAL_ONLY;
    var table := ActualComparable();
    OverriddenEntries();
    ComparableTotal();
    SumUpdate(table, 32, 0.03);
    SumUpdate(table[32 := 0.03], 48, -0.03);
    assert ActualTargets()[..64] == table[32 := 0.03][48 := -0.03];
  }

  /** The 66 closed trades total 23.1R. */
  lemma ActualTotal()
    ensures Sum(ActualTargets()) == 23.1
  {
    hide Sum, ActualComparable, ACTUAL_ONLY;
    PairedActualTotal();
    OnlyTotals();
    var targets := ActualTargets();
    SumSplit(targets[..64], ACTUAL_ONLY);
    assert targets == targets[..64] + ACTUAL_ONLY;
  }

  /** The same 64 total 35.8R under the system, and all 68 resolved trades total 36.25R. */
  lemma SystemTotal()
    ensures Sum(SystemComparable()) == 35.8 && Sum(SystemTargets()) == 36.25
  {
    hide Shuffled, SystemShuffleInput, Sum;
    ShuffleKeepsTotal(SystemShuffleInput(), 2);
    SystemInputTotal();
    SumSplit(Shuffled(SystemShuffleInput(), 2), SYSTEM_SUFFIX);
    SumSix(2.5, -0.9, 0.0, -0.95, 2.3, 2.3);
    OnlyTotals();
    SumSplit(SystemComparable(), SYSTEM_ONLY);
  }

  /** The three trades that share a day are a win and two losses, and net to exactly -0.05R. */
  lemma SharedDayTotal()
    ensures ActualTargets()[38..41] == [2.2, -1.1, -1.15]
    ensures Sum(ActualTargets()[38..41]) == -0.05
  {
    OverriddenEntries();
    hide TableOrigin, ActualComparable;
    var table := ActualComparable();
    assert ActualTargets()[38..41] == table[38..41];
    assert [2.2, -1.1, -1.15][1..] == [-1.1, -1.15] && [-1.1, -1.15][1..] == [-1.15];
  }

  lemma ShuffledMembers(v: seq<real>, seed: int)
    ensures forall x | x in Shuffled(v, seed) :: x in v
  {
    ShuffledPermutes(v, seed);
    hide Shuffled;
    forall x | x in Shuffled(v, seed)
      ensures x in v
    {
      assert x in multiset(Shuffled(v, seed));
    }
  }

  lemma TableValues()
    ensures forall x | x in ActualTargets() :: x in {2.2, 2.4, -1.1, -1.15, 0.0, 0.03, -0.03}
    ensures forall x | x in SystemComparable() :: x in {2.3, 2.5, -0.9, -0.95, 0.0}
  {
    hide Shuffled;
    ShuffledMembers(ActualShuffleInput(), 12);
    ShuffledMembers(SystemShuffleInput(), 2);
    forall x | x in ActualTargets()
      ensures x in {2.2, 2.4, -1.1, -1.15, 0.0, 0.03, -0.03}
    {
      var i :| 0 <= i < 66 && ActualTargets()[i] == x;
      if i < 64 && i != 32 && i != 48 {
        assert x == ActualComparable()[i];
        assert x in ActualComparable();
      }
    }
  }
}
