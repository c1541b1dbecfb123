/**
 The partial-close splitter and the arithmetic that turns its legs back into an R value.
 R values are the decimals their strings denote; minor units are integers.
 */
module ExitLegs {
  import opened Wrappers
  import opened Identity
  import opened Permutations
  import opened Calendar

  const RISK_MINOR: int := 10_000
  const BREAK_EVEN_TOLERANCE_R: real := 0.05

  const PARTIAL_TRADE_INDICES: set<nat> := {5, 11, 18, 24, 31, 39, 46, 52, 58, 63}

  // -------------------------------------------------------------- arithmetic

  /** BigInt division truncates toward zero. */
  function TruncatingDiv(a: int, b: int): int
    requires 0 < b
  {
    if 0 <= a then a / b else -(-a / b)
  }

  /** ROUND_HALF_UP on the magnitude. */
  function RoundHalfUp(x: real): int {
    if 0.0 <= x then (x + 0.5).Floor else -(0.5 - x).Floor
  }

  function MinorForR(r: real): int {
    RoundHalfUp(r * 10_000.0)
  }

  predicate AtMostFourDecimals(r: real) {
    r * 10_000.0 == (r * 10_000.0).Floor as real
  }

  /** toCanonicalR, and toFixed(4). */
  function CanonicalR(x: real): real {
    RoundHalfUp(x * 10_000.0) as real / 10_000.0
  }

  // -------------------------------------------------------------------- legs

  datatype Part = Part(bps: int, pnl: int, reason: string)

  datatype ExitBlueprint = ExitBlueprint(
    id: Uuid,
    mutationKey: Uuid,
    sequence: nat,
    closedBps: int,
    realizedPnlMinor: int,
    exitReason: string,
    exitedAt: int)

  function Parts(index: nat, totalMinor: int): seq<Part> {
    if index !in PARTIAL_TRADE_INDICES then
      [Part(10_000, totalMinor, "Final close")]
    else if index % 4 == 0 then
      var first := TruncatingDiv(totalMinor * 45, 100);
      [Part(4_000, first, "Scaled profit"), Part(6_000, totalMinor - first, "Final close")]
    else if index % 4 == 1 then
      [Part(3_500, 3_000, "Partial profit"), Part(6_500, totalMinor - 3_000, "Final stop")]
    else if index % 4 == 2 then
      [Part(3_000, -2_500, "Risk reduction"), Part(7_000, totalMinor + 2_500, "Final winner")]
    else
      var quarter := TruncatingDiv(totalMinor, 4);
      [Part(2_500, quarter, "Scale out 1"), Part(2_500, quarter, "Scale out 2"),
       Part(5_000, totalMinor - quarter - quarter, "Final close")]
  }

  function Leg(digest: Digest, tradeId: Uuid, parts: seq<Part>, finalAt: int, partIndex: nat): ExitBlueprint
    requires partIndex < |parts|
  {
    ExitBlueprint(
      ExitId(digest, tradeId, partIndex + 1),
      ExitMutationKey(digest, tradeId, partIndex + 1),
      partIndex + 1,
      parts[partIndex].bps,
      parts[partIndex].pnl,
      parts[partIndex].reason,
      finalAt - (|parts| - 1 - partIndex) * 45 * MINUTE)
  }

  function ExitBlueprints(digest: Digest, tradeId: Uuid, index: nat, actualR: real, finalAt: int)
    : (legs: seq<ExitBlueprint>)
    ensures 1 <= |legs| <= 3
  {
    var parts := Parts(index, MinorForR(actualR));
    seq(|parts|, i requires 0 <= i < |parts| => Leg(digest, tradeId, parts, finalAt, i))
  }

  /** buildExitBlueprints as it runs: parts pushed by branch, then numbered and dated one by one. */
  method BuildExitBlueprints(digest: Digest, tradeId: Uuid, index: nat, actualR: real, finalAt: int)
    returns (legs: seq<ExitBlueprint>)
    ensures legs == ExitBlueprints(digest, tradeId, index, actualR, finalAt)
  {
    hide ExitId, ExitMutationKey, RoundHalfUp;
    var totalMinor := MinorForR(actualR);
    var parts: seq<Part> := [];
    if index !in PARTIAL_TRADE_INDICES {
      parts := parts + [Part(10_000, totalMinor, "Final close")];
    } else if index % 4 == 0 {
      var first := TruncatingDiv(totalMinor * 45, 100);
      parts := parts + [Part(4_000, first, "Scaled profit"), Part(6_000, totalMinor - first, "Final close")];
    } else if index % 4 == 1 {
      parts := parts + [Part(3_500, 3_000, "Partial profit"), Part(6_500, totalMinor - 3_000, "Final stop")];
    } else if index % 4 == 2 {
      parts := parts + [Part(3_000, -2_500, "Risk reduction"), Part(7_000, totalMinor + 2_500, "Final winner")];
    } else {
      var first, second := TruncatingDiv(totalMinor, 4), TruncatingDiv(totalMinor, 4);
      parts := parts + [Part(2_500, first, "Scale out 1"), Part(2_500, second, "Scale out 2"),
                        Part(5_000, totalMinor - first - second, "Final close")];
    }
    assert parts == Parts(index, totalMinor);
    hide Parts;
    legs := [];
    for partIndex := 0 to |parts|
      invariant |legs| == partIndex
      invariant forall i | 0 <= i < partIndex :: legs[i] == Leg(digest, tradeId, parts, finalAt, i)
    {
      legs := legs + [Leg(digest, tradeId, parts, finalAt, partIndex)];
    }
  }

  function SumBps(legs: seq<ExitBlueprint>): int {
    if legs == [] then 0 else SumBps(legs[..|legs| - 1]) + legs[|legs| - 1].closedBps
  }

  function SumPnl(legs: seq<ExitBlueprint>): int {
    if legs == [] then 0 else SumPnl(legs[..|legs| - 1]) + legs[|legs| - 1].realizedPnlMinor
  }

  // ------------------------------------------------------------------- close

  datatype Outcome = Win | Loss | BreakEven

  datatype CalcError = InvalidClosedBps | InvalidInitialRisk | InvalidDecimal

  datatype TraderClose = TraderClose(actualR: real, traderOutcome: Outcome)

  function ClassifyOutcome(r: real): Outcome {
    if -BREAK_EVEN_TOLERANCE_R <= r <= BREAK_EVEN_TOLERANCE_R then BreakEven
    else if 0.0 <= r then Win
    else Loss
  }

  /** Whether composeRealizedActual's loop over the legs accepts every leg. */
  predicate LegsAccepted(legs: seq<ExitBlueprint>) {
    forall i: nat | i < |legs| :: LegAccepted(legs, i)
  }

  predicate LegAccepted(legs: seq<ExitBlueprint>, i: nat)
    requires i < |legs|
  {
    0 < legs[i].closedBps <= 10_000 && SumBps(legs[..i + 1]) <= 10_000
  }

  /** What composeTraderCloseV2 answers in money mode. */
  function TraderCloseOf(initialRiskMinor: int, legs: seq<ExitBlueprint>): Result<TraderClose, CalcError> {
    if !LegsAccepted(legs) then Err(InvalidClosedBps)
    else if initialRiskMinor <= 0 then Err(InvalidInitialRisk)
    else if SumBps(legs) != 10_000 then Err(InvalidClosedBps)
    else
      var actualR := CanonicalR(SumPnl(legs) as real / initialRiskMinor as real);
      Ok(TraderClose(actualR, ClassifyOutcome(actualR)))
  }

  /** composeRealizedActual's two loops, then the completeness test of composeTraderCloseV2. */
  method ComposeTraderClose(initialRiskMinor: int, legs: seq<ExitBlueprint>)
    returns (r: Result<TraderClose, CalcError>)
    ensures r == TraderCloseOf(initialRiskMinor, legs)
  {
    var closedBps := 0;
    for i := 0 to |legs|
      invariant closedBps == SumBps(legs[..i])
      invariant forall j: nat | j < i :: LegAccepted(legs, j)
    {
      SumPrefix(legs, i);
      if legs[i].closedBps <= 0 || legs[i].closedBps > 10_000 {
        assert !LegAccepted(legs, i);
        return Err(InvalidClosedBps);
      }
      closedBps := closedBps + legs[i].closedBps;
      if closedBps > 10_000 {
        assert !LegAccepted(legs, i);
        return Err(InvalidClosedBps);
      }
    }
    if initialRiskMinor <= 0 {
      return Err(InvalidInitialRisk);
    }
    var realizedPnlMinor := 0;
    for i := 0 to |legs|
      invariant realizedPnlMinor == SumPnl(legs[..i])
    {
      SumPrefix(legs, i);
      realizedPnlMinor := realizedPnlMinor + legs[i].realizedPnlMinor;
    }
    assert legs[..|legs|] == legs;
    if closedBps != 10_000 {
      return Err(InvalidClosedBps);
    }
    var actualR := CanonicalR(realizedPnlMinor as real / initialRiskMinor as real);
    return Ok(TraderClose(actualR, ClassifyOutcome(actualR)));
  }

  // ------------------------------------------------------------ conservation

  lemma RoundingWholeNumbers(n: int)
    ensures RoundHalfUp(n as real) == n
  {
  }

  /** Whole numbers of ten-thousandths are canonical. */
  lemma TenThousandthsAreCanonical(n: int)
    ensures CanonicalR(n as real / 10_000.0) == n as real / 10_000.0
    ensures AtMostFourDecimals(n as real / 10_000.0)
    ensures MinorForR(n as real / 10_000.0) == n
  {
    RoundingWholeNumbers(n);
    assert n as real / 10_000.0 * 10_000.0 == n as real;
    hide RoundHalfUp;
  }

  /** Rounding leaves exactly the values of at most four decimals alone, yields one, and moves by half a unit at most. */
  lemma CanonicalExactly(x: real)
    ensures CanonicalR(x) == x <==> AtMostFourDecimals(x)
    ensures AtMostFourDecimals(CanonicalR(x))
    ensures -0.00005 <= CanonicalR(x) - x <= 0.00005
  {
    TenThousandthsAreCanonical(RoundHalfUp(x * 10_000.0));
    if AtMostFourDecimals(x) {
      var n := FourDecimalsAreTenThousandths(x);
      TenThousandthsAreCanonical(n);
    }
  }

  lemma MinorOfFourDecimals(r: real)
    requires AtMostFourDecimals(r)
    ensures MinorForR(r) as real == r * RISK_MINOR as real
  {
    RoundingWholeNumbers((r * 10_000.0).Floor);
    hide RoundHalfUp;
  }

  lemma FourDecimalsAreTenThousandths(r: real) returns (n: int)
    requires AtMostFourDecimals(r)
    ensures r == n as real / 10_000.0
  {
    n := (r * 10_000.0).Floor;
  }

  /**
   For every R and every index the legs conserve the position: they are accepted by the calculator,
   close exactly 10000 basis points, and add up to the minor total in spite of truncation.
   */
  lemma LegsConserve(digest: Digest, tradeId: Uuid, index: nat, actualR: real, finalAt: int)
    ensures var legs := ExitBlueprints(digest, tradeId, index, actualR, finalAt);
            LegsAccepted(legs) && SumBps(legs) == 10_000 && SumPnl(legs) == MinorForR(actualR)
  {
    hide RoundHalfUp;
    var total := MinorForR(actualR);
    var legs := ExitBlueprints(digest, tradeId, index, actualR, finalAt);
    LegAmounts(digest, tradeId, index, actualR, finalAt);
    hide ExitBlueprints;
    var parts := Parts(index, total);
    assert legs[..0] == [] && legs[..|legs|] == legs;
    SumPrefix(legs, 0);
    if |legs| >= 2 { SumPrefix(legs, 1); }
    if |legs| >= 3 { SumPrefix(legs, 2); }
  }

  lemma LegAmounts(digest: Digest, tradeId: Uuid, index: nat, actualR: real, finalAt: int)
    ensures var legs := ExitBlueprints(digest, tradeId, index, actualR, finalAt);
            var parts := Parts(index, MinorForR(actualR));
            && |legs| == |parts|
            && forall i | 0 <= i < |legs| ::
                 && legs[i].closedBps == parts[i].bps && legs[i].realizedPnlMinor == parts[i].pnl
                 && legs[i].exitReason == parts[i].reason
  {
    hide Parts, ExitId, ExitMutationKey;
  }

  lemma SumPrefix(legs: seq<ExitBlueprint>, i: nat)
    requires i < |legs|
    ensures SumBps(legs[..i + 1]) == SumBps(legs[..i]) + legs[i].closedBps
    ensures SumPnl(legs[..i + 1]) == SumPnl(legs[..i]) + legs[i].realizedPnlMinor
  {
    assert legs[..i + 1][..i] == legs[..i];
  }

  /** Closing the legs gives back the R they were built from exactly when it has at most four decimals. */
  lemma CloseGivesBackR(digest: Digest, tradeId: Uuid, index: nat, actualR: real, finalAt: int)
    ensures var close := TraderCloseOf(RISK_MINOR, ExitBlueprints(digest, tradeId, index, actualR, finalAt));
            && close == Ok(TraderClose(CanonicalR(actualR), ClassifyOutcome(CanonicalR(actualR))))
            && (close.value.actualR == actualR <==> AtMostFourDecimals(actualR))
  {
    LegsConserve(digest, tradeId, index, actualR, finalAt);
    hide ExitBlueprints, RoundHalfUp, LegsAccepted, SumBps, SumPnl;
    TenThousandthsAreCanonical(MinorForR(actualR));
    if AtMostFourDecimals(actualR) {
      var n := FourDecimalsAreTenThousandths(actualR);
      TenThousandthsAreCanonical(n);
    }
  }

  /** Legs are numbered from 1, 45 minutes apart, and the last one closes at the exit. */
  lemma LegTimeline(digest: Digest, tradeId: Uuid, index: nat, actualR: real, finalAt: int)
    ensures var legs := ExitBlueprints(digest, tradeId, index, actualR, finalAt);
            && (forall i | 0 <= i < |legs| :: legs[i].sequence == i + 1)
            && (forall i | 0 <= i < |legs| - 1 :: legs[i + 1].exitedAt == legs[i].exitedAt + 45 * MINUTE)
            && legs[|legs| - 1].exitedAt == finalAt
            && finalAt - 90 * MINUTE <= legs[0].exitedAt
  {
    hide ExitId, ExitMutationKey, Parts;
  }

  // --------------------------------------------------------- order of the legs

  lemma {:induction false} PrefixGrows(legs: seq<ExitBlueprint>, i: nat)
    requires i <= |legs| && forall k | 0 <= k < |legs| :: 0 < legs[k].closedBps
    ensures 0 <= SumBps(legs[..i]) <= SumBps(legs)
    decreases |legs| - i
  {
    if i == |legs| {
      assert legs[..i] == legs;
      SumIsPositive(legs);
    } else {
      SumPrefix(legs, i);
      PrefixGrows(legs, i + 1);
      SumIsPositive(legs[..i]);
    }
  }

  lemma {:induction false} SumIsPositive(legs: seq<ExitBlueprint>)
    requires forall k | 0 <= k < |legs| :: 0 < legs[k].closedBps
    ensures 0 <= SumBps(legs)
    decreases |legs|
  {
    if legs != [] {
      SumIsPositive(legs[..|legs| - 1]);
    }
  }

  /** The running checks of the loop come to this: every leg closes something and all of them at most everything. */
  lemma AcceptedIff(legs: seq<ExitBlueprint>)
    ensures LegsAccepted(legs) <==> (forall k | 0 <= k < |legs| :: 0 < legs[k].closedBps) && SumBps(legs) <= 10_000
  {
    assert legs[..|legs|] == legs;
    if LegsAccepted(legs) {
      forall k | 0 <= k < |legs|
        ensures 0 < legs[k].closedBps
      {
        assert LegAccepted(legs, k);
      }
      if legs != [] {
        assert LegAccepted(legs, |legs| - 1);
      }
    }
    if (forall k | 0 <= k < |legs| :: 0 < legs[k].closedBps) && SumBps(legs) <= 10_000 {
      forall k: nat | k < |legs|
        ensures LegAccepted(legs, k)
      {
        PrefixGrows(legs, k);
        PrefixGrows(legs, k + 1);
        SumPrefix(legs, k);
      }
    }
  }

  lemma {:induction false} SumsSplit(a: seq<ExitBlueprint>, b: seq<ExitBlueprint>)
    ensures SumBps(a + b) == SumBps(a) + SumBps(b) && SumPnl(a + b) == SumPnl(a) + SumPnl(b)
    decreases |b|
  {
    if b == [] {
      assert a + b == a;
    } else {
      SumsSplit(a, b[..|b| - 1]);
      assert (a + b)[..|a + b| - 1] == a + b[..|b| - 1];
    }
  }

  lemma SumsOfOne(leg: ExitBlueprint)
    ensures SumBps([leg]) == leg.closedBps && SumPnl([leg]) == leg.realizedPnlMinor
  {
    assert [leg][..0] == [];
  }

  lemma SumsRemove(legs: seq<ExitBlueprint>, i: nat)
    requires i < |legs|
    ensures SumBps(legs) == legs[i].closedBps + SumBps(legs[..i] + legs[i + 1..])
    ensures SumPnl(legs) == legs[i].realizedPnlMinor + SumPnl(legs[..i] + legs[i + 1..])
  {
    SumsOfOne(legs[i]);
    hide SumBps, SumPnl;
    SumsSplit(legs[..i], legs[i..]);
    SumsSplit([legs[i]], legs[i + 1..]);
    SumsSplit(legs[..i], legs[i + 1..]);
    assert legs == legs[..i] + legs[i..] && legs[i..] == [legs[i]] + legs[i + 1..];
  }

  lemma {:induction false} SumsPermute(a: seq<ExitBlueprint>, b: seq<ExitBlueprint>)
    requires multiset(a) == multiset(b)
    ensures SumBps(a) == SumBps(b) && SumPnl(a) == SumPnl(b)
    decreases |a|
  {
    hide SumBps, SumPnl;
    SameLength(a, b);
    if a != [] {
      var i := OccurrenceOf(a, b);
      assert a[..0] + a[0 + 1..] == a[1..];
      SumsPermute(a[1..], b[..i] + b[i + 1..]);
      SumsRemove(a, 0);
      SumsRemove(b, i);
    } else {
      assert b == [];
    }
  }

  /** The order in which the legs arrive plays no part in the close, in its result or in its error. */
  lemma CloseIgnoresOrder(initialRiskMinor: int, a: seq<ExitBlueprint>, b: seq<ExitBlueprint>)
    requires multiset(a) == multiset(b)
    ensures TraderCloseOf(initialRiskMinor, a) == TraderCloseOf(initialRiskMinor, b)
  {
    hide CanonicalR, ClassifyOutcome, LegsAccepted;
    SumsPermute(a, b);
    AcceptedIff(a);
    AcceptedIff(b);
    SameMembers(a, b);
    AllByMember(a);
    AllByMember(b);
  }

  lemma AllByMember(legs: seq<ExitBlueprint>)
    ensures (forall k | 0 <= k < |legs| :: 0 < legs[k].closedBps) <==> forall leg | leg in legs :: 0 < leg.closedBps
  {
    forall k | 0 <= k < |legs|
      ensures legs[k] in legs
    {
    }
  }

  /**
   A close succeeds exactly for a positive risk and legs that each close something and together everything;
   it then returns the realised amount over the risk, rounded to four decimals, with the side of the
   break-even band that number is on.
   */
  lemma CloseSucceedsIff(initialRiskMinor: int, legs: seq<ExitBlueprint>)
    ensures TraderCloseOf(initialRiskMinor, legs).Ok? <==>
              0 < initialRiskMinor && (forall k | 0 <= k < |legs| :: 0 < legs[k].closedBps) && SumBps(legs) == 10_000
    ensures TraderCloseOf(initialRiskMinor, legs).Ok? ==>
              var close := TraderCloseOf(initialRiskMinor, legs).value;
              && AtMostFourDecimals(close.actualR)
              && -0.00005 <= close.actualR - SumPnl(legs) as real / initialRiskMinor as real <= 0.00005
              && (close.traderOutcome == Win <==> 0.05 < close.actualR)
              && (close.traderOutcome == Loss <==> close.actualR < -0.05)
              && (close.traderOutcome == BreakEven <==> -0.05 <= close.actualR <= 0.05)
  {
    AcceptedIff(legs);
    hide LegsAccepted, SumBps, SumPnl;
    if 0 < initialRiskMinor {
      CanonicalExactly(SumPnl(legs) as real / initialRiskMinor as real);
    }
    hide CanonicalR, AtMostFourDecimals;
  }

  /**
   What each leg of a partial close takes: two of the shapes book a fixed amount first, one 45 hundredths
   and one two quarters, both cut toward zero; the last leg takes the rest, and is called a stop where a
   profit came first and a winner where a loss did.
   */
  lemma LegShares(digest: Digest, tradeId: Uuid, index: nat, actualR: real, finalAt: int)
    ensures var total, legs := MinorForR(actualR), ExitBlueprints(digest, tradeId, index, actualR, finalAt);
            && (index !in PARTIAL_TRADE_INDICES ==>
                  |legs| == 1 && legs[0].closedBps == 10_000 && legs[0].realizedPnlMinor == total
                  && legs[0].exitReason == "Final close")
            && (index in PARTIAL_TRADE_INDICES && index % 4 == 0 ==>
                  && |legs| == 2 && legs[0].closedBps == 4_000 && legs[1].closedBps == 6_000
                  && CutTowardZero(legs[0].realizedPnlMinor, 45 * total, 100)
                  && legs[1].realizedPnlMinor == total - legs[0].realizedPnlMinor
                  && legs[0].exitReason == "Scaled profit" && legs[1].exitReason == "Final close")
            && (index in PARTIAL_TRADE_INDICES && index % 4 == 1 ==>
                  && |legs| == 2 && legs[0].closedBps == 3_500 && legs[1].closedBps == 6_500
                  && legs[0].realizedPnlMinor == 3_000 && legs[1].realizedPnlMinor == total - 3_000
                  && legs[0].exitReason == "Partial profit" && legs[1].exitReason == "Final stop")
            && (index in PARTIAL_TRADE_INDICES && index % 4 == 2 ==>
                  && |legs| == 2 && legs[0].closedBps == 3_000 && legs[1].closedBps == 7_000
                  && legs[0].realizedPnlMinor == -2_500 && legs[1].realizedPnlMinor == total + 2_500
                  && legs[0].exitReason == "Risk reduction" && legs[1].exitReason == "Final winner")
            && (index in PARTIAL_TRADE_INDICES && index % 4 == 3 ==>
                  && |legs| == 3 && legs[0].closedBps == legs[1].closedBps == 2_500 && legs[2].closedBps == 5_000
                  && CutTowardZero(legs[0].realizedPnlMinor, total, 4)
                  && legs[1].realizedPnlMinor == legs[0].realizedPnlMinor
                  && legs[2].realizedPnlMinor == total - 2 * legs[0].realizedPnlMinor
                  && legs[0].exitReason == "Scale out 1" && legs[1].exitReason == "Scale out 2"
                  && legs[2].exitReason == "Final close")
  {
    LegAmounts(digest, tradeId, index, actualR, finalAt);
    hide ExitBlueprints, RoundHalfUp;
    var total := MinorForR(actualR);
    TruncationCuts(total * 45, 100);
    TruncationCuts(total, 4);
    hide TruncatingDiv, CutTowardZero;
  }

  /** q is the quotient of a and b without its fraction, on either side of zero. */
  predicate CutTowardZero(q: int, a: int, b: int)
    requires 0 < b
  {
    if 0 <= a then 0 <= a - q * b < b && 0 <= q else 0 <= q * b - a < b && q <= 0
  }

  lemma TruncationCuts(a: int, b: int)
    requires 0 < b
    ensures CutTowardZero(TruncatingDiv(a, b), a, b)
  {
    if 0 <= a {
      QuotientCuts(a, b);
    } else {
      QuotientCuts(-a, b);
    }
  }

  lemma QuotientCuts(a: int, b: int)
    requires 0 <= a && 0 < b
    ensures 0 <= a - a / b * b < b && 0 <= a / b
  {
    QuotientAtLeast(a, b, 0);
  }
}
