/**
 Wins, losses and break-evens in the committed tables, trade by trade and day by day. The shuffles
 decide where each result stands, and the calendar puts three of them on one day.
 */
module Outcomes {
  import opened Wrappers
  import opened Identity
  import opened Permutations
  import opened ExitLegs
  import opened Calendar
  import opened Shuffle
  import opened FixtureTables
  import opened Blueprint
  import opened Tables
  import opened SeedDatabase
  import opened SeedRows
  import opened SeedTheorems
  import opened SeedFrame
  import opened Populations
  import opened CommittedTotals

  function Is(o: Outcome): real -> bool {
    (r: real) => ClassifyOutcome(r) == o
  }

  // ------------------------------------------------------------------ tables

  /** How often a predicate holds depends only on which values occur, not on their order. */
  lemma {:induction false} CountPermutation(a: seq<real>, b: seq<real>, p: real -> bool)
    requires multiset(a) == multiset(b)
    ensures Count(a, p) == Count(b, p)
    decreases |a|
  {
    SameLength(a, b);
    if a != [] {
      var i := OccurrenceOf(a, b);
      CountPermutation(a[1..], b[..i] + b[i + 1..], p);
      CountRemove(b, i, p);
    }
  }

  lemma CountRemove(s: seq<real>, i: nat, p: real -> bool)
    requires i < |s|
    ensures Count(s, p) == (if p(s[i]) then 1 else 0) + Count(s[..i] + s[i + 1..], p)
  {
    CountSplit(s[..i], s[i..], p);
    CountSplit(s[..i], s[i + 1..], p);
    assert s == s[..i] + s[i..];
    assert s[i..][1..] == s[i + 1..];
  }

  lemma CountUpdate(s: seq<real>, i: nat, value: real, p: real -> bool)
    requires i < |s| && p(s[i]) == p(value)
    ensures Count(s[i := value], p) == Count(s, p)
  {
    CountRemove(s, i, p);
    CountRemove(s[i := value], i, p);
    assert s[i := value][..i] == s[..i] && s[i := value][i + 1..] == s[i + 1..];
  }

  lemma {:induction false} CountRepeat(value: real, count: nat, p: real -> bool)
    ensures Count(Repeat(value, count), p) == if p(value) then count else 0
  {
    if count > 0 {
      CountRepeat(value, count - 1, p);
      assert Repeat(value, count)[1..] == Repeat(value, count - 1);
    }
  }

  function Counted(n: nat, value: real, p: real -> bool): nat {
    if p(value) then n else 0
  }

  lemma CountFive(a: seq<real>, b: seq<real>, c: seq<real>, d: seq<real>, e: seq<real>, p: real -> bool)
    ensures Count(a + (b + (c + (d + e))), p) == Count(a, p) + Count(b, p) + Count(c, p) + Count(d, p) + Count(e, p)
  {
    CountSplit(a, b + (c + (d + e)), p);
    CountSplit(b, c + (d + e), p);
    CountSplit(c, d + e, p);
    CountSplit(d, e, p);
  }

  lemma CountSix(a: real, b: real, c: real, d: real, e: real, f: real, p: real -> bool)
    ensures Count([a, b, c, d, e, f], p)
         == Counted(1, a, p) + Counted(1, b, p) + Counted(1, c, p) + Counted(1, d, p) + Counted(1, e, p) + Counted(1, f, p)
  {
    assert [a, b, c, d, e, f][1..] == [b, c, d, e, f] && [b, c, d, e, f][1..] == [c, d, e, f];
    CountThree(a, b, c, p);
    CountThree(d, e, f, p);
    CountSplit([a, b, c], [d, e, f], p);
    assert [a, b, c] + [d, e, f] == [a, b, c, d, e, f];
  }

  lemma CountThree(a: real, b: real, c: real, p: real -> bool)
    ensures Count([a, b, c], p) == Counted(1, a, p) + Counted(1, b, p) + Counted(1, c, p)
    ensures Count([a, b], p) == Counted(1, a, p) + Counted(1, b, p)
  {
    CountOne(a, p);
    CountOne(b, p);
    CountOne(c, p);
    CountSplit([a], [b], p);
    CountSplit([a, b], [c], p);
    assert [a] + [b] == [a, b] && [a, b] + [c] == [a, b, c];
  }

  lemma ActualInputCount(p: real -> bool)
    ensures Count(ActualShuffleInput(), p)
         == Counted(16, 2.2, p) + Counted(7, 2.4, p) + Counted(18, -1.1, p) + Counted(13, -1.15, p) + Counted(4, 0.0, p)
  {
    hide Count, Repeat;
    CountFive(Repeat(2.2, 16), Repeat(2.4, 7), Repeat(-1.1, 18), Repeat(-1.15, 13), Repeat(0.0, 4), p);
    CountRepeat(2.2, 16, p);
    CountRepeat(2.4, 7, p);
    CountRepeat(-1.1, 18, p);
    CountRepeat(-1.15, 13, p);
    CountRepeat(0.0, 4, p);
  }

  lemma SystemInputCount(p: real -> bool)
    ensures Count(SystemShuffleInput(), p)
         == Counted(17, 2.3, p) + Counted(8, 2.5, p) + Counted(18, -0.9, p) + Counted(13, -0.95, p) + Counted(2, 0.0, p)
  {
    hide Count, Repeat;
    CountFive(Repeat(2.3, 17), Repeat(2.5, 8), Repeat(-0.9, 18), Repeat(-0.95, 13), Repeat(0.0, 2), p);
    CountRepeat(2.3, 17, p);
    CountRepeat(2.5, 8, p);
    CountRepeat(-0.9, 18, p);
    CountRepeat(-0.95, 13, p);
    CountRepeat(0.0, 2, p);
  }

  /** The two overrides are counted like the zeros they replace by any predicate that does not tell them apart. */
  lemma ActualCount(p: real -> bool)
    requires p(0.03) == p(0.0) == p(-0.03)
    ensures Count(ActualTargets(), p)
         == Counted(18, 2.2, p) + Counted(9, 2.4, p) + Counted(20, -1.1, p) + Counted(14, -1.15, p) + Counted(5, 0.0, p)
  {
    hide Count, Shuffled, ActualShuffleInput;
    var table, shuffled := ActualComparable(), Shuffled(ActualShuffleInput(), 12);
    OverriddenEntries();
    ShuffledPermutes(ActualShuffleInput(), 12);
    CountPermutation(shuffled, ActualShuffleInput(), p);
    ActualInputCount(p);
    CountSplit(shuffled, ACTUAL_SUFFIX, p);
    CountSix(2.4, -1.1, 0.0, 2.2, -1.15, 2.4, p);
    CountUpdate(table, 32, 0.03, p);
    CountUpdate(table[32 := 0.03], 48, -0.03, p);
    CountSplit(table[32 := 0.03][48 := -0.03], ACTUAL_ONLY, p);
    CountThree(2.2, -1.1, 0.0, p);
  }

  lemma SystemCount(p: real -> bool)
    ensures Count(SystemComparable(), p)
         == Counted(19, 2.3, p) + Counted(9, 2.5, p) + Counted(19, -0.9, p) + Counted(14, -0.95, p) + Counted(3, 0.0, p)
    ensures Count(SYSTEM_ONLY, p) == Counted(1, 2.3, p) + Counted(1, -0.9, p) + Counted(1, -0.95, p) + Counted(1, 0.0, p)
  {
    hide Count, Shuffled, SystemShuffleInput;
    var shuffled := Shuffled(SystemShuffleInput(), 2);
    ShuffledPermutes(SystemShuffleInput(), 2);
    CountPermutation(shuffled, SystemShuffleInput(), p);
    SystemInputCount(p);
    CountSplit(shuffled, SYSTEM_SUFFIX, p);
    CountSix(2.5, -0.9, 0.0, -0.95, 2.3, 2.3, p);
    CountThree(2.3, -0.9, 0.0, p);
    CountThree(-0.95, 0.0, 0.0, p);
    CountSplit([2.3, -0.9], [-0.95, 0.0], p);
    assert [2.3, -0.9] + [-0.95, 0.0] == SYSTEM_ONLY;
  }

  // ----------------------------------------------------------- trade outcomes

  lemma OutcomesAt(input: SeedInput, r: Resolution, i: nat)
    requires |input.framework.setups| == 3 && i < TRADE_COUNT
    ensures |FixtureBlueprints(input, r)| == TRADE_COUNT
    ensures var c := FixtureBlueprints(input, r)[i].content;
            && (TraderComplete(c) <==> i < 66) && (SystemComplete(c) <==> i < 64 || 66 <= i)
            && (i < 66 ==> c.traderOutcome == Some(ClassifyOutcome(ActualTargets()[i])))
            && (i < 64 ==> c.systemOutcome == Some(ClassifyOutcome(SystemComparable()[i])))
            && (66 <= i ==> c.systemOutcome == Some(ClassifyOutcome(SYSTEM_ONLY[i - 66])))
  {
    hide BlueprintAt, TraderComplete, SystemComplete, ActualTargets, SystemComparable, ClassifyOutcome;
    BlueprintCount(input, r);
    LabelsAreEligibility(input.digest, r.populatedId, input.framework, i);
    PopulationIs(input.digest, r.populatedId, input.framework, i);
    StoredOutcomes(input.digest, r.populatedId, input.framework, i);
  }

  lemma StoredOutcomes(digest: Digest, accountId: Uuid, framework: Framework, i: nat)
    requires i < TRADE_COUNT && 3 <= |framework.setups|
    ensures var c := BlueprintAt(digest, accountId, framework, i).content;
            && c.traderOutcome == (match ActualTargetR(i) { case None => None case Some(r) => Some(ClassifyOutcome(r)) })
            && c.systemOutcome == (match SystemTargetR(i) { case None => None case Some(r) => Some(ClassifyOutcome(r)) })
  {
    hide BlueprintAt, TradeId, TradeMutationKey, EmotionKeys, MistakeKeys, ConfirmationNotes, ReviewNotes, Symbol;
    hide Timeframe, Session, UpdatedAt, CreatedAt, EnteredAt, ExitedAt, SystemExitedAt, Exits, SumPnl, CanonicalR;
    hide ActualTargetR, SystemTargetR, PopulationOf, ClassifyOutcome;
    BlueprintFields(digest, accountId, framework, i);
  }

  function TraderHas(o: Outcome): TradeRow -> bool {
    (row: TradeRow) => TraderComplete(row.content) && row.content.traderOutcome == Some(o)
  }

  function SystemHas(o: Outcome): TradeRow -> bool {
    (row: TradeRow) => SystemComplete(row.content) && row.content.systemOutcome == Some(o)
  }

  lemma TraderOutcomeAt(input: SeedInput, r: Resolution, i: nat, o: Outcome)
    requires |input.framework.setups| == 3 && i < TRADE_COUNT
    ensures |FixtureBlueprints(input, r)| == TRADE_COUNT
    ensures TraderHas(o)(TradeRowFor(input.workspaceId, FixtureBlueprints(input, r)[i]))
       <==> i < 66 && Is(o)(ActualTargets()[i])
    ensures SystemHas(o)(TradeRowFor(input.workspaceId, FixtureBlueprints(input, r)[i]))
       <==> (i < 64 && Is(o)(SystemComparable()[i])) || (66 <= i && Is(o)(SYSTEM_ONLY[i - 66]))
  {
    hide FixtureBlueprints, TraderComplete, SystemComplete, ActualTargets, SystemComparable, ClassifyOutcome;
    OutcomesAt(input, r, i);
  }

  /** Counting trader outcomes over the 70 rows is counting the classified targets. */
  lemma TraderRowsCount(vs: seq<TradeRow>, o: Outcome)
    requires |vs| == TRADE_COUNT
    requires forall i | 0 <= i < TRADE_COUNT :: TraderHas(o)(vs[i]) <==> i < 66 && Is(o)(ActualTargets()[i])
    ensures Count(vs, TraderHas(o)) == Count(ActualTargets(), Is(o))
  {
    hide Count, TraderHas, Is, ActualTargets;
    CountSplit(vs[..66], vs[66..], TraderHas(o));
    assert vs == vs[..66] + vs[66..];
    CountThrough(vs[..66], ActualTargets(), TraderHas(o), Is(o));
    CountAll(vs, TraderHas(o), 66, 70);
    assert vs[66..70] == vs[66..];
  }

  lemma SystemRowsCount(vs: seq<TradeRow>, o: Outcome)
    requires |vs| == TRADE_COUNT
    requires forall i | 0 <= i < TRADE_COUNT ::
               SystemHas(o)(vs[i]) <==> (i < 64 && Is(o)(SystemComparable()[i])) || (66 <= i && Is(o)(SYSTEM_ONLY[i - 66]))
    ensures Count(vs, SystemHas(o)) == Count(SystemComparable(), Is(o)) + Count(SYSTEM_ONLY, Is(o))
  {
    hide Count, SystemHas, Is, SystemComparable;
    CountSplit(vs[..64], vs[64..], SystemHas(o));
    assert vs == vs[..64] + vs[64..];
    CountSplit(vs[64..66], vs[66..], SystemHas(o));
    assert vs[64..] == vs[64..66] + vs[66..];
    CountThrough(vs[..64], SystemComparable(), SystemHas(o), Is(o));
    CountAll(vs, SystemHas(o), 64, 66);
    CountThrough(vs[66..], SYSTEM_ONLY, SystemHas(o), Is(o));
  }

  lemma CommittedCount(s: State, input: SeedInput, now: int, o: Outcome)
    requires Prepared(input) && Sound(s) && Transaction(s, input, now).Ok?
    ensures Resolve(s, input).Ok?
    ensures var after, p := Transaction(s, input, now).value, Resolve(s, input).value.populatedId;
            var trades := Belonging(after, TradesUnder(after, p)).trades;
            && CountRows(trades, TraderHas(o)) == Count(ActualTargets(), Is(o))
            && CountRows(trades, SystemHas(o)) == Count(SystemComparable(), Is(o)) + Count(SYSTEM_ONLY, Is(o))
  {
    hide Prepared, Sound, Resolve, Transaction, Belonging, TradesUnder, HoldsExactly, FixtureRowsOf, FixtureBlueprints;
    hide TradeRowFor, Count, CountRows, TraderHas, SystemHas, Is, ActualTargets, SystemComparable;
    CommittedTrades(s, input, now);
    var r := Resolve(s, input).value;
    var after, rows := Transaction(s, input, now).value, FixtureRowsOf(input, r).trades;
    forall i | 0 <= i < TRADE_COUNT
      ensures TraderHas(o)(ValuesOf(rows)[i]) <==> i < 66 && Is(o)(ActualTargets()[i])
      ensures SystemHas(o)(ValuesOf(rows)[i])
         <==> (i < 64 && Is(o)(SystemComparable()[i])) || (66 <= i && Is(o)(SYSTEM_ONLY[i - 66]))
    {
      TraderOutcomeAt(input, r, i, o);
    }
    CountHeldRows(Belonging(after, TradesUnder(after, r.populatedId)).trades, rows, TraderHas(o));
    CountHeldRows(Belonging(after, TradesUnder(after, r.populatedId)).trades, rows, SystemHas(o));
    TraderRowsCount(ValuesOf(rows), o);
    SystemRowsCount(ValuesOf(rows), o);
  }

  lemma TargetOutcomes()
    ensures Count(ActualTargets(), Is(Win)) == 27 && Count(ActualTargets(), Is(BreakEven)) == 5
    ensures Count(ActualTargets(), Is(Loss)) == 34
    ensures Count(SystemComparable(), Is(Win)) + Count(SYSTEM_ONLY, Is(Win)) == 29
    ensures Count(SystemComparable(), Is(BreakEven)) + Count(SYSTEM_ONLY, Is(BreakEven)) == 4
    ensures Count(SystemComparable(), Is(Loss)) + Count(SYSTEM_ONLY, Is(Loss)) == 35
  {
    hide Count, ActualTargets, SystemComparable;
    ActualCount(Is(Win));
    ActualCount(Is(BreakEven));
    ActualCount(Is(Loss));
    SystemCount(Is(Win));
    SystemCount(Is(BreakEven));
    SystemCount(Is(Loss));
  }

  /**
   Whatever the database held before: 27 wins, 5 break-evens and 34 losses among the trader's results,
   29, 4 and 35 among the system's. The two overrides are break-evens, like the zeros they replace.
   */
  lemma CommittedOutcomes(s: State, input: SeedInput, now: int)
    requires Prepared(input) && Sound(s) && Transaction(s, input, now).Ok?
    ensures Resolve(s, input).Ok?
    ensures var after, p := Transaction(s, input, now).value, Resolve(s, input).value.populatedId;
            var trades := Belonging(after, TradesUnder(after, p)).trades;
            && CountRows(trades, TraderHas(Win)) == 27
            && CountRows(trades, TraderHas(BreakEven)) == 5
            && CountRows(trades, TraderHas(Loss)) == 34
            && CountRows(trades, SystemHas(Win)) == 29
            && CountRows(trades, SystemHas(BreakEven)) == 4
            && CountRows(trades, SystemHas(Loss)) == 35
            && CanonicalR(CountRows(trades, TraderHas(Win)) as real / 66.0) == 0.4091
            && CanonicalR(CountRows(trades, SystemHas(Win)) as real / 68.0) == 0.4265
  {
    hide *;
    CommittedCount(s, input, now, Win);
    CommittedCount(s, input, now, BreakEven);
    CommittedCount(s, input, now, Loss);
    TargetOutcomes();
    WinRates();
  }

  lemma WinRates()
    ensures CanonicalR(27.0 / 66.0) == 0.4091 && CanonicalR(29.0 / 68.0) == 0.4265
    ensures CanonicalR(26.0 / 64.0) == 0.4063
  {
  }

  /** A stored outcome says which side of the band of five hundredths the stored R is on. */
  predicate Banded(result: Option<real>, outcome: Option<Outcome>) {
    && (result.Some? <==> outcome.Some?)
    && (result.Some? ==>
          && (outcome == Some(Win) <==> 0.05 < result.value)
          && (outcome == Some(Loss) <==> result.value < -0.05)
          && (outcome == Some(BreakEven) <==> -0.05 <= result.value <= 0.05))
  }

  /** Every committed trade carries outcomes that agree with its two results, and neither without the other. */
  lemma OutcomesAgree(s: State, input: SeedInput, now: int, t: Uuid)
    requires Prepared(input) && Sound(s) && Transaction(s, input, now).Ok?
    requires Resolve(s, input).Ok? && t in Under(Transaction(s, input, now).value, Resolve(s, input).value)
    ensures var c := Transaction(s, input, now).value.trades[t].content;
            Banded(c.actualR, c.traderOutcome) && Banded(c.systemR, c.systemOutcome)
  {
    hide Prepared, Sound, Resolve, Transaction, Belonging, TradesUnder, FixtureBlueprints, FixtureRowsOf, Banded, Under;
    ExactlyTheBlueprint(s, input, now);
    CommittedTrades(s, input, now);
    var r := Resolve(s, input).value;
    var after, bs := Transaction(s, input, now).value, FixtureBlueprints(input, r);
    OnlyThePopulated(after, r);
    var i := IndexOfTrade(after, input.workspaceId, r.populatedId, bs, FixtureRowsOf(input, r).trades, t);
    OutcomesBanded(input, r, i);
  }

  /** A committed system result is what its recorded gross R leaves after its recorded cost. */
  lemma SystemNets(s: State, input: SeedInput, now: int, t: Uuid)
    requires Prepared(input) && Sound(s) && Transaction(s, input, now).Ok?
    requires Resolve(s, input).Ok? && t in Under(Transaction(s, input, now).value, Resolve(s, input).value)
    ensures var c := Transaction(s, input, now).value.trades[t].content;
            && (c.systemR.Some? <==> c.systemGrossRInput.Some?)
            && (c.systemR.Some? ==> c.systemCostR == 0.05 && c.systemR.value == c.systemGrossRInput.value - c.systemCostR)
            && (c.systemR.None? ==> c.systemCostR == 0.0)
  {
    hide Prepared, Sound, Resolve, Transaction, Belonging, TradesUnder, FixtureBlueprints, FixtureRowsOf, Under;
    ExactlyTheBlueprint(s, input, now);
    CommittedTrades(s, input, now);
    var r := Resolve(s, input).value;
    var after, bs := Transaction(s, input, now).value, FixtureBlueprints(input, r);
    OnlyThePopulated(after, r);
    var i := IndexOfTrade(after, input.workspaceId, r.populatedId, bs, FixtureRowsOf(input, r).trades, t);
    SystemColumns(input, r, i);
  }

  lemma SystemColumns(input: SeedInput, r: Resolution, i: nat)
    requires |input.framework.setups| == 3 && i < TRADE_COUNT
    ensures |FixtureBlueprints(input, r)| == TRADE_COUNT
    ensures var c := FixtureBlueprints(input, r)[i].content;
            && (c.systemR.Some? <==> c.systemGrossRInput.Some?)
            && (c.systemR.Some? ==> c.systemCostR == 0.05 && c.systemR.value == c.systemGrossRInput.value - c.systemCostR)
            && (c.systemR.None? ==> c.systemCostR == 0.0)
  {
    hide BlueprintAt, TradeId, TradeMutationKey, EmotionKeys, MistakeKeys, ConfirmationNotes, ReviewNotes, Symbol;
    hide Timeframe, Session, UpdatedAt, CreatedAt, EnteredAt, ExitedAt, SystemExitedAt, Exits, SumPnl, CanonicalR;
    hide ActualTargetR, SystemTargetR, PopulationOf, ClassifyOutcome;
    BlueprintCount(input, r);
    BlueprintFields(input.digest, r.populatedId, input.framework, i);
    if SystemTargetR(i).Some? {
      GrossIsExact(i);
    }
  }

  lemma GrossIsExact(i: nat)
    requires i < TRADE_COUNT && SystemTargetR(i).Some?
    ensures CanonicalR(SystemTargetR(i).value + 0.05) == SystemTargetR(i).value + 0.05
  {
    FixtureTargets(i);
    hide SystemTargetR, RoundHalfUp;
    var n := FourDecimalsAreTenThousandths(SystemTargetR(i).value);
    TenThousandthsAreCanonical(n + 500);
    assert SystemTargetR(i).value + 0.05 == (n + 500) as real / 10_000.0;
  }

  lemma IndexOfTrade(after: State, w: Uuid, p: Uuid, bs: seq<TradeBlueprint>, rows: seq<Row<Uuid, TradeRow>>, t: Uuid)
    returns (i: nat)
    requires TradesAre(after, w, p, bs, rows) && t in TradesUnder(after, p)
    ensures i < TRADE_COUNT && |bs| == TRADE_COUNT && bs[i].id == t
    ensures t in after.trades && after.trades[t].content == bs[i].content
  {
    i :| 0 <= i < |bs| && bs[i].id == t;
    assert rows[i].0 in Belonging(after, TradesUnder(after, p)).trades;
  }

  lemma OutcomesBanded(input: SeedInput, r: Resolution, i: nat)
    requires |input.framework.setups| == 3 && i < TRADE_COUNT
    ensures |FixtureBlueprints(input, r)| == TRADE_COUNT
    ensures var c := FixtureBlueprints(input, r)[i].content;
            Banded(c.actualR, c.traderOutcome) && Banded(c.systemR, c.systemOutcome)
  {
    hide BlueprintAt, ActualTargetR, SystemTargetR, Banded, ClassifyOutcome;
    BlueprintCount(input, r);
    StoredTargets(input.digest, r.populatedId, input.framework, i);
    StoredOutcomes(input.digest, r.populatedId, input.framework, i);
    ClassifiedIsBanded(ActualTargetR(i));
    ClassifiedIsBanded(SystemTargetR(i));
  }

  lemma ClassifiedIsBanded(result: Option<real>)
    ensures Banded(result, match result { case None => None case Some(r) => Some(ClassifyOutcome(r)) })
  {
  }

  // ------------------------------------------------------------ day outcomes

  /** A trade's R on a day, as the day's sum sees it: its exit falls on that day in UTC. */
  function OnDay(day: int): TradeRow -> real {
    (row: TradeRow) =>
      if TraderComplete(row.content) && row.content.exitedAt.value / DAY == day then row.content.actualR.value else 0.0
  }

  function DaysOf(trades: map<Uuid, TradeRow>): set<int> {
    set t | t in trades && TraderComplete(trades[t].content) :: trades[t].content.exitedAt.value / DAY
  }

  /** Every local day with a closed trade, and its total R. */
  ghost function DayTotals(trades: map<Uuid, TradeRow>): map<int, real> {
    map day | day in DaysOf(trades) :: SumOver(trades, OnDay(day))
  }

  /** The trade that stands for the j-th of the 64 days. */
  function Rep(j: nat): nat {
    if j <= 38 then j else j + 2
  }

  function DayList(): (days: seq<real>)
    ensures |days| == 64
  {
    ActualTargets()[..38] + [-0.05] + ActualTargets()[41..]
  }

  function DayRow(j: nat): Row<int, real>
    requires j < 64
  {
    (Day(Rep(j)), DayList()[j])
  }

  function DayRows(): (rows: seq<Row<int, real>>)
    ensures |rows| == 64
  {
    seq(64, j requires 0 <= j < 64 => DayRow(j))
  }

  lemma DayRowsAt()
    ensures forall j | 0 <= j < 64 :: DayRows()[j] == (Day(Rep(j)), DayList()[j])
  {
    hide Day, DayList;
  }

  /** What one day adds up over the 70 trades. */
  function OnDayList(day: int): (list: seq<real>)
    ensures |list| == TRADE_COUNT
    ensures forall i | 0 <= i < TRADE_COUNT :: list[i] == if i < 66 && Day(i) == day then ActualTargets()[i] else 0.0
  {
    seq(TRADE_COUNT, i requires 0 <= i < TRADE_COUNT => if i < 66 && Day(i) == day then ActualTargets()[i] else 0.0)
  }

  lemma {:induction false} SumOfZeros(s: seq<real>)
    requires forall i | 0 <= i < |s| :: s[i] == 0.0
    ensures Sum(s) == 0.0
  {
    if s != [] {
      SumOfZeros(s[1..]);
    }
  }

  /** Outside a window that holds everything else, a list adds nothing. */
  lemma SumWindow(s: seq<real>, lo: nat, hi: nat)
    requires lo <= hi <= |s| && forall i | 0 <= i < |s| :: i < lo || hi <= i ==> s[i] == 0.0
    ensures Sum(s) == Sum(s[lo..hi])
  {
    SumOfZeros(s[..lo]);
    SumOfZeros(s[hi..]);
    SumSplit(s[..lo], s[lo..]);
    SumSplit(s[lo..hi], s[hi..]);
    assert s == s[..lo] + s[lo..] && s[lo..] == s[lo..hi] + s[hi..];
  }

  lemma DayTotalIs(j: nat)
    requires j < 64
    ensures Sum(OnDayList(Day(Rep(j)))) == DayList()[j]
  {
    hide Sum, ActualTargets, Day, OnDayList;
    var list := OnDayList(Day(Rep(j)));
    DaysApart();
    if j == 38 {
      SharedDayTotal();
      SumWindow(list, 38, 41);
      assert list[38..41] == ActualTargets()[38..41];
    } else {
      SumWindow(list, Rep(j), Rep(j) + 1);
      assert list[Rep(j)..Rep(j) + 1] == [ActualTargets()[Rep(j)]];
      SumOne(ActualTargets()[Rep(j)]);
    }
  }

  lemma DaysApart()
    ensures forall i: nat, j: nat | i < TRADE_COUNT && j < TRADE_COUNT ::
              Day(i) == Day(j) <==> i == j || (38 <= i <= 40 && 38 <= j <= 40)
  {
    hide Day;
    forall i: nat, j: nat | i < TRADE_COUNT && j < TRADE_COUNT
      ensures Day(i) == Day(j) <==> i == j || (38 <= i <= 40 && 38 <= j <= 40)
    {
      if i < j { OneSharedDay(i, j); }
      if j < i { OneSharedDay(j, i); }
    }
  }

  lemma ExitDayAt(input: SeedInput, r: Resolution, i: nat)
    requires |input.framework.setups| == 3 && i < TRADE_COUNT
    ensures |FixtureBlueprints(input, r)| == TRADE_COUNT
    ensures var c := FixtureBlueprints(input, r)[i].content;
            && (TraderComplete(c) <==> i < 66)
            && (i < 66 ==> c.exitedAt.value / DAY == Day(i) && c.actualR == Some(ActualTargets()[i]))
  {
    hide FixtureBlueprints, TraderComplete, SystemComplete, ActualTargets, SystemComparable, Day;
    BlueprintCount(input, r);
    ResultsAt(input, r, i);
    ExitOf(input, r, i);
    MiddayIsThatDay(i);
    if i < 66 {
      TraderCompleteHasExit(FixtureBlueprints(input, r)[i].content);
    }
  }

  lemma TraderCompleteHasExit(c: TradeContent)
    requires TraderComplete(c)
    ensures c.exitedAt.Some? && c.actualR.Some?
  {
  }

  lemma ExitOf(input: SeedInput, r: Resolution, i: nat)
    requires |input.framework.setups| == 3 && i < TRADE_COUNT
    ensures |FixtureBlueprints(input, r)| == TRADE_COUNT
    ensures i < 66 ==> FixtureBlueprints(input, r)[i].content.exitedAt == Some(DateForIndex(i, 12, i % 4 * 10))
  {
    hide BlueprintAt, DateForIndex, ActualTargets;
    BlueprintCount(input, r);
    ExitColumn(input.digest, r.populatedId, input.framework, i);
  }

  lemma ExitColumn(digest: Digest, accountId: Uuid, framework: Framework, i: nat)
    requires i < TRADE_COUNT && 3 <= |framework.setups|
    ensures BlueprintAt(digest, accountId, framework, i).content.exitedAt == ExitedAt(i)
  {
    hide BlueprintAt, TradeId, TradeMutationKey, EmotionKeys, MistakeKeys, ConfirmationNotes, ReviewNotes, Symbol;
    hide Timeframe, Session, UpdatedAt, CreatedAt, EnteredAt, ExitedAt, SystemExitedAt, Exits, SumPnl, CanonicalR;
    hide ActualTargetR, SystemTargetR, PopulationOf;
    BlueprintFields(digest, accountId, framework, i);
  }

  lemma MiddayIsThatDay(i: nat)
    ensures DateForIndex(i, 12, i % 4 * 10) / DAY == Day(i)
  {
    hide Day;
    var rest := (12 * 60 + i % 4 * 10) * MINUTE;
    assert 0 <= rest < DAY;
    WholeDays(Day(i), rest);
  }

  lemma WholeDays(day: int, rest: int)
    requires 0 <= rest < DAY
    ensures (day * DAY + rest) / DAY == day
  {
  }

  lemma OnDayAt(input: SeedInput, r: Resolution, day: int, i: nat)
    requires |input.framework.setups| == 3 && i < TRADE_COUNT
    ensures |FixtureBlueprints(input, r)| == TRADE_COUNT
    ensures OnDay(day)(TradeRowFor(input.workspaceId, FixtureBlueprints(input, r)[i])) == OnDayList(day)[i]
  {
    hide FixtureBlueprints, TraderComplete, ActualTargets, Day, OnDayList;
    ExitDayAt(input, r, i);
    var c := FixtureBlueprints(input, r)[i].content;
    assert TraderComplete(c) ==> c.exitedAt.Some? && c.actualR.Some? by {
      if TraderComplete(c) { TraderCompleteHasExit(c); }
    }
  }

  /** The days of the committed trades, and what each adds up to. */
  lemma CommittedDays(s: State, input: SeedInput, now: int)
    requires Prepared(input) && Sound(s) && Transaction(s, input, now).Ok?
    ensures Resolve(s, input).Ok? && |input.framework.setups| == 3
    ensures var after, p := Transaction(s, input, now).value, Resolve(s, input).value.populatedId;
            HoldsExactly(DayTotals(Belonging(after, TradesUnder(after, p)).trades), DayRows())
  {
    hide Prepared, Sound, Resolve, Transaction, Belonging, TradesUnder, FixtureRowsOf, FixtureBlueprints, TradeRowFor;
    hide SumOver, Sum, OnDay, OnDayList, Day, DayList, DaysOf, HoldsExactly;
    CommittedTrades(s, input, now);
    var r := Resolve(s, input).value;
    var after := Transaction(s, input, now).value;
    var trades := Belonging(after, TradesUnder(after, r.populatedId)).trades;
    forall day
      ensures SumOver(trades, OnDay(day)) == Sum(OnDayList(day))
    {
      forall i | 0 <= i < TRADE_COUNT
        ensures OnDay(day)(TradeRowFor(input.workspaceId, FixtureBlueprints(input, r)[i])) == OnDayList(day)[i]
      {
        OnDayAt(input, r, day, i);
      }
      BlueprintCount(input, r);
      CommittedSum(s, input, now, OnDay(day), OnDayList(day));
    }
    forall j | 0 <= j < 64
      ensures SumOver(trades, OnDay(Day(Rep(j)))) == DayList()[j]
    {
      DayTotalIs(j);
    }
    forall i | 0 <= i < TRADE_COUNT
      ensures FixtureRowsOf(input, r).trades[i].1.content == FixtureBlueprints(input, r)[i].content
    {
      RowContent(input.workspaceId, FixtureBlueprints(input, r)[i]);
    }
    RowsExitByIndex(input, r, FixtureRowsOf(input, r).trades);
    DaysAre(trades, FixtureRowsOf(input, r).trades);
    DaysHeld(trades);
  }

  lemma RowContent(w: Uuid, b: TradeBlueprint)
    ensures TradeRowFor(w, b).content == b.content
  {
  }

  /** Which days the rows exit on, index by index. */
  ghost predicate ExitsByIndex(rows: seq<Row<Uuid, TradeRow>>) {
    && |rows| == TRADE_COUNT
    && forall i | 0 <= i < TRADE_COUNT ::
         var c := rows[i].1.content;
         && (TraderComplete(c) <==> i < 66)
         && (i < 66 ==> c.exitedAt.Some? && c.exitedAt.value / DAY == Day(i))
  }

  lemma RowsExitByIndex(input: SeedInput, r: Resolution, rows: seq<Row<Uuid, TradeRow>>)
    requires |input.framework.setups| == 3 && |rows| == TRADE_COUNT
    requires |FixtureBlueprints(input, r)| == TRADE_COUNT
    requires forall i | 0 <= i < TRADE_COUNT :: rows[i].1.content == FixtureBlueprints(input, r)[i].content
    ensures ExitsByIndex(rows)
  {
    hide FixtureBlueprints, TraderComplete, Day, ActualTargets;
    forall i | 0 <= i < TRADE_COUNT
      ensures TraderComplete(rows[i].1.content) <==> i < 66
      ensures i < 66 ==> rows[i].1.content.exitedAt.Some? && rows[i].1.content.exitedAt.value / DAY == Day(i)
    {
      ExitDayAt(input, r, i);
      if i < 66 { TraderCompleteHasExit(rows[i].1.content); }
    }
  }

  lemma DayHasRep(trades: map<Uuid, TradeRow>, rows: seq<Row<Uuid, TradeRow>>, t: Uuid) returns (j: nat)
    requires HoldsExactly(trades, rows) && ExitsByIndex(rows)
    requires t in trades && TraderComplete(trades[t].content)
    ensures j < 64 && trades[t].content.exitedAt.value / DAY == Day(Rep(j))
  {
    hide TraderComplete, Day;
    DaysApart();
    var i :| 0 <= i < |rows| && rows[i].0 == t;
    j := if i <= 38 then i else if i <= 40 then 38 else i - 2;
  }

  lemma RepHasDay(trades: map<Uuid, TradeRow>, rows: seq<Row<Uuid, TradeRow>>, j: nat)
    requires HoldsExactly(trades, rows) && ExitsByIndex(rows) && j < 64
    ensures Day(Rep(j)) in DaysOf(trades)
  {
    hide TraderComplete, Day;
    var i := Rep(j);
    assert rows[i].0 in trades && trades[rows[i].0] == rows[i].1;
  }

  /** The days on which a closed trade exits are the 64 days of the calendar. */
  lemma DaysAre(trades: map<Uuid, TradeRow>, rows: seq<Row<Uuid, TradeRow>>)
    requires HoldsExactly(trades, rows) && ExitsByIndex(rows)
    ensures DaysOf(trades) == set j | 0 <= j < 64 :: Day(Rep(j))
  {
    hide HoldsExactly, ExitsByIndex, Day, Rep;
    forall j | 0 <= j < 64
      ensures Day(Rep(j)) in DaysOf(trades)
    {
      RepHasDay(trades, rows, j);
    }
    forall day | day in DaysOf(trades)
      ensures exists j :: 0 <= j < 64 && day == Day(Rep(j))
    {
      var t :| t in trades && TraderComplete(trades[t].content) && day == trades[t].content.exitedAt.value / DAY;
      var j := DayHasRep(trades, rows, t);
    }
  }

  lemma DaysHeld(trades: map<Uuid, TradeRow>)
    requires DaysOf(trades) == set j | 0 <= j < 64 :: Day(Rep(j))
    requires forall j | 0 <= j < 64 :: SumOver(trades, OnDay(Day(Rep(j)))) == DayList()[j]
    ensures HoldsExactly(DayTotals(trades), DayRows())
  {
    hide Day, DayList, SumOver, OnDay, DayRows, DaysOf;
    DaysApart();
    DayRowsAt();
    var rows := DayRows();
    forall day | day in DayTotals(trades)
      ensures exists j :: 0 <= j < |rows| && rows[j].0 == day
    {
      var j :| 0 <= j < 64 && day == Day(Rep(j));
      assert rows[j].0 == day;
    }
  }

  lemma DayListCount(p: real -> bool)
    requires p(0.03) == p(0.0) == p(-0.03)
    ensures Count(DayList(), p) + Counted(1, 2.2, p) + Counted(1, -1.1, p) + Counted(1, -1.15, p)
         == Count(ActualTargets(), p) + Counted(1, -0.05, p)
  {
    hide Count, ActualTargets;
    var targets := ActualTargets();
    SharedDayTotal();
    CountThree(2.2, -1.1, -1.15, p);
    CountOne(-0.05, p);
    CountSplit(targets[..38], targets[38..], p);
    CountSplit(targets[38..41], targets[41..], p);
    assert targets == targets[..38] + targets[38..] && targets[38..] == targets[38..41] + targets[41..];
    CountSplit(targets[..38] + [-0.05], targets[41..], p);
    CountSplit(targets[..38], [-0.05], p);
  }

  lemma DayOutcomes()
    ensures Count(DayList(), Is(Win)) == 26 && Count(DayList(), Is(BreakEven)) == 6 && Count(DayList(), Is(Loss)) == 32
  {
    hide Count, DayList, ActualTargets, SystemComparable;
    TargetOutcomes();
    DayListCount(Is(Win));
    DayListCount(Is(BreakEven));
    DayListCount(Is(Loss));
  }

  /**
   The 66 closed trades fall on 64 days, of which 26 win, 6 break even and 32 lose: a win and two losses
   that each classify on their own share a day whose total is exactly the edge of the break-even band.
   */
  lemma CommittedDayOutcomes(s: State, input: SeedInput, now: int)
    requires Prepared(input) && Sound(s) && Transaction(s, input, now).Ok?
    ensures Resolve(s, input).Ok?
    ensures var after, p := Transaction(s, input, now).value, Resolve(s, input).value.populatedId;
            var days := DayTotals(Belonging(after, TradesUnder(after, p)).trades);
            && |days| == 64
            && CountRows(days, Is(Win)) == 26 && CountRows(days, Is(BreakEven)) == 6 && CountRows(days, Is(Loss)) == 32
            && CanonicalR(CountRows(days, Is(Win)) as real / |days| as real) == 0.4063
  {
    hide *;
    CommittedDays(s, input, now);
    var after, p := Transaction(s, input, now).value, Resolve(s, input).value.populatedId;
    var days := DayTotals(Belonging(after, TradesUnder(after, p)).trades);
    HeldSize(days, DayRows());
    CountHeldRows(days, DayRows(), Is(Win));
    CountHeldRows(days, DayRows(), Is(BreakEven));
    CountHeldRows(days, DayRows(), Is(Loss));
    DayValues();
    DayOutcomes();
    WinRates();
  }

  lemma DayValues()
    ensures ValuesOf(DayRows()) == DayList()
  {
    DayRowsAt();
    hide Day, DayList, DayRows;
  }
}
