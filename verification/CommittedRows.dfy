/**
 The smaller tables after a commit: how many rows each holds, and what the rule checks and the mistakes
 of each trade say.
 */
module CommittedRows {
  import opened Wrappers
  import opened Identity
  import opened ExitLegs
  import opened Calendar
  import opened FixtureTables
  import opened Blueprint
  import opened Tables
  import opened SeedDatabase
  import opened SeedRows
  import opened SeedTheorems
  import opened SeedFrame
  import opened Populations
  import opened CommittedTotals

  // -------------------------------------------------------------------- sizes

  lemma {:induction false} FlatMapAppend<A, B>(a: seq<A>, b: seq<A>, f: A -> seq<B>)
    ensures FlatMap(a + b, f) == FlatMap(a, f) + FlatMap(b, f)
  {
    if a == [] {
      assert a + b == b;
    } else {
      assert (a + b)[0] == a[0] && (a + b)[1..] == a[1..] + b;
      FlatMapAppend(a[1..], b, f);
    }
  }

  lemma FlatMapOne<A, B>(x: A, f: A -> seq<B>)
    ensures FlatMap([x], f) == f(x)
  {
    assert [x][1..] == [];
  }

  lemma FlatMapStep<A, B>(s: seq<A>, f: A -> seq<B>, n: nat)
    requires 0 < n <= |s|
    ensures |FlatMap(s[..n], f)| == |FlatMap(s[..n - 1], f)| + |f(s[n - 1])|
  {
    hide FlatMap;
    assert s[..n] == s[..n - 1] + [s[n - 1]];
    FlatMapAppend(s[..n - 1], [s[n - 1]], f);
    FlatMapOne(s[n - 1], f);
  }

  /** The length of a flat map, from how many rows there are below each index. */
  lemma {:induction false} FlatMapLength<A, B>(s: seq<A>, f: A -> seq<B>, below: nat -> int, n: nat)
    requires n <= |s| && below(0) == 0
    requires forall i: nat | i < |s| :: |f(s[i])| == below(i + 1) - below(i)
    ensures |FlatMap(s[..n], f)| == below(n)
  {
    if n > 0 {
      FlatMapStep(s, f, n);
      hide FlatMap;
      FlatMapLength(s, f, below, n - 1);
    }
  }

  lemma WholeLength<A, B>(s: seq<A>, f: A -> seq<B>, below: nat -> int)
    requires below(0) == 0 && forall i: nat | i < |s| :: |f(s[i])| == below(i + 1) - below(i)
    ensures |FlatMap(s, f)| == below(|s|)
  {
    FlatMapLength(s, f, below, |s|);
    assert s[..|s|] == s;
  }

  function ExitsBelow(n: nat): int {
    var (trades, legs) := PartialsBelow(n);
    (if n <= 66 then n else 66) - trades + legs
  }

  function MistakesBelow(n: nat): int {
    if n <= 7 then 0 else if n <= 14 then 1 else if n <= 23 then 2 else if n <= 36 then 3 else if n <= 40 then 4
    else if n <= 51 then 5 else if n <= 58 then 6 else 7
  }

  function ClassifiedBelow(n: nat): int {
    if n <= 66 then n else if n <= 68 then 66 else n - 2
  }

  lemma LegsByIndex(index: nat)
    requires index < TRADE_COUNT
    ensures Legs(index) == ExitsBelow(index + 1) - ExitsBelow(index)
  {
  }

  lemma MistakesByIndex(index: nat)
    ensures |MistakeKeys(index)| == MistakesBelow(index + 1) - MistakesBelow(index)
  {
  }

  lemma StrategyOf(framework: Framework, i: nat, exits: seq<ExitBlueprint>,
                   close: Option<TraderClose>, system: Option<SystemSnapshot>)
    requires |framework.setups| == 3 && i < TRADE_COUNT
    ensures ContentOf(framework, i, exits, close, system).strategyVersionId.None? <==> 66 <= i < 68
  {
    hide ConfirmationNotes, ReviewNotes, Symbol, Timeframe, Session, UpdatedAt, CreatedAt, EnteredAt, ExitedAt;
    hide SystemExitedAt, SumPnl, CanonicalR;
  }

  /** What decides the number of rows of the trade at an index. */
  lemma PerTrade(input: SeedInput, r: Resolution, i: nat)
    requires |input.framework.setups| == 3 && i < TRADE_COUNT
    ensures |FixtureBlueprints(input, r)| == TRADE_COUNT
    ensures var b := FixtureBlueprints(input, r)[i];
            && b.fixtureIndex == i && |b.exits| == Legs(i) && b.mistakeKeys == MistakeKeys(i)
            && (b.content.strategyVersionId.None? <==> 66 <= i < 68)
  {
    hide BlueprintAt, Legs, MistakeKeys, ContentOf, Exits, CloseAt, SystemAt, TradeId, TradeMutationKey, EmotionKeys;
    BlueprintCount(input, r);
    BlueprintFields(input.digest, r.populatedId, input.framework, i);
    LegCount(input.digest, r.populatedId, input.framework, i);
    StrategyOf(input.framework, i, Exits(input.digest, r.populatedId, i), CloseAt(i), SystemAt(i));
  }

  lemma RowCounts(input: SeedInput, r: Resolution)
    requires |input.framework.setups| == 3
    ensures var rows := FixtureRowsOf(input, r);
            |rows.trades| == 70 && |rows.exits| == 80 && |rows.checks| == 68 * |input.rules| && |rows.mistakes| == 7
  {
    hide FixtureBlueprints, Legs, MistakeKeys, FlatMap, CheckRowOf, MistakeRowOf, ExitRowOf, PartialsBelow, MistakesBelow;
    var bs, w := FixtureBlueprints(input, r), input.workspaceId;
    var rules := |input.rules|;
    var checks := (n: nat) => ClassifiedBelow(n) * rules;
    var mistakes := (n: nat) => MistakesBelow(n);
    var exits := (n: nat) => ExitsBelow(n);
    PerTrade(input, r, 0);
    Ends();
    forall i: nat | i < |bs|
      ensures |ExitRowsOf(w)(bs[i])| == exits(i + 1) - exits(i)
      ensures |MistakeRowsOf(input)(bs[i])| == mistakes(i + 1) - mistakes(i)
      ensures |CheckRowsOf(input)(bs[i])| == checks(i + 1) - checks(i)
    {
      PerTrade(input, r, i);
      LegsByIndex(i);
      MistakesByIndex(i);
      ChecksByIndex(i, rules);
    }
    SingletonRows(w, bs);
    WholeLength(bs, ExitRowsOf(w), exits);
    WholeLength(bs, MistakeRowsOf(input), mistakes);
    WholeLength(bs, CheckRowsOf(input), checks);
  }

  lemma ChecksByIndex(i: nat, rules: nat)
    requires i < TRADE_COUNT
    ensures ClassifiedBelow(i + 1) * rules - ClassifiedBelow(i) * rules == if 66 <= i < 68 then 0 else rules
  {
    if !(66 <= i < 68) {
      assert (ClassifiedBelow(i) + 1) * rules == ClassifiedBelow(i) * rules + rules;
    }
  }

  lemma Ends()
    ensures ExitsBelow(0) == 0 && MistakesBelow(0) == 0 && ClassifiedBelow(0) == 0
    ensures ExitsBelow(70) == 80 && MistakesBelow(70) == 7 && ClassifiedBelow(70) == 68
  {
  }

  /** Whatever the database held before: 70 trades, 80 exits, 7 mistakes, and every rule checked on 68 trades. */
  lemma CommittedSizes(s: State, input: SeedInput, now: int)
    requires Prepared(input) && Sound(s) && Transaction(s, input, now).Ok?
    ensures Resolve(s, input).Ok?
    ensures var after, p := Transaction(s, input, now).value, Resolve(s, input).value.populatedId;
            var own := Belonging(after, TradesUnder(after, p));
            |own.trades| == 70 && |own.exits| == 80 && |own.checks| == 68 * |input.rules| && |own.mistakes| == 7
  {
    hide Prepared, Sound, Resolve, Transaction, Belonging, TradesUnder, HoldsExactly, FixtureRowsOf;
    PreparedIsIdeal(input);
    ExactlyTheBlueprint(s, input, now);
    var after, r := Transaction(s, input, now).value, Resolve(s, input).value;
    var own, rows := Belonging(after, TradesUnder(after, r.populatedId)), FixtureRowsOf(input, r);
    HeldSize(own.trades, rows.trades);
    HeldSize(own.exits, rows.exits);
    HeldSize(own.checks, rows.checks);
    HeldSize(own.mistakes, rows.mistakes);
    RowCounts(input, r);
  }

  // ------------------------------------------------------------------- checks

  /** What the status of a check says, by the index of its trade and the position of its rule. */
  ghost predicate StatusFits(status: string, index: nat, rule: nat) {
    var v := index + 3 * rule;
    && (status == "not_checked" <==> v % 17 == 0)
    && (status == "not_applicable" <==> v % 13 == 0 && v % 17 != 0)
    && (status == "violated" <==> v % 9 == 0 && v % 13 != 0 && v % 17 != 0)
    && (status == "followed" <==> v % 9 != 0 && v % 13 != 0 && v % 17 != 0)
  }

  lemma StatusNames()
    ensures "not_checked" != "not_applicable" && "not_checked" != "violated" && "not_checked" != "followed"
    ensures "not_applicable" != "violated" && "not_applicable" != "followed" && "violated" != "followed"
  {
    assert |"not_checked"| == 11 && |"not_applicable"| == 14 && |"violated"| == 8 && |"followed"| == 8;
    assert "violated"[0] == 'v' && "followed"[0] == 'f';
  }

  lemma StatusIsFitting(index: nat, rule: nat)
    ensures StatusFits(RuleStatus(index, rule), index, rule)
  {
    StatusNames();
  }

  /**
   Every rule is checked once on every classified trade and on no other, and the committed status is the
   one its trade and its rule call for.
   */
  lemma CommittedCheck(s: State, input: SeedInput, now: int, i: nat, k: nat)
    requires Prepared(input) && Sound(s) && Transaction(s, input, now).Ok? && i < TRADE_COUNT && k < |input.rules|
    ensures Resolve(s, input).Ok? && |input.framework.setups| == 3
    ensures |FixtureBlueprints(input, Resolve(s, input).value)| == TRADE_COUNT
    ensures var after, r := Transaction(s, input, now).value, Resolve(s, input).value;
            var trade := FixtureBlueprints(input, r)[i].id;
            var id := RuleCheckId(input.digest, trade, input.rules[k].ruleKey);
            var checks := Belonging(after, TradesUnder(after, r.populatedId)).checks;
            && (id in checks <==> !(66 <= i < 68))
            && (id in checks ==>
                  && checks[id].tradeId == trade && checks[id].rule == input.rules[k]
                  && StatusFits(checks[id].checkStatus, i, k)
                  && checks[id].createdAt == FixtureBlueprints(input, r)[i].content.createdAt
                  && checks[id].updatedAt == FixtureBlueprints(input, r)[i].content.updatedAt)
  {
    hide Prepared, Sound, Resolve, Transaction, Belonging, TradesUnder, HoldsExactly, FixtureRowsOf, FixtureBlueprints;
    hide RuleCheckId, StatusFits, RuleStatus, Legs, MistakeKeys;
    PreparedIsIdeal(input);
    ExactlyTheBlueprint(s, input, now);
    var after, r := Transaction(s, input, now).value, Resolve(s, input).value;
    var checks, rows := Belonging(after, TradesUnder(after, r.populatedId)).checks, FixtureRowsOf(input, r).checks;
    PerTrade(input, r, i);
    var trade := FixtureBlueprints(input, r)[i].id;
    var id := RuleCheckId(input.digest, trade, input.rules[k].ruleKey);
    if !(66 <= i < 68) {
      CheckIsThere(input, r, i, k, checks);
    } else {
      CheckIsNot(input, r, i, k, checks);
    }
  }

  lemma CheckIsThere(input: SeedInput, r: Resolution, i: nat, k: nat, checks: map<Uuid, CheckRow>)
    requires |input.framework.setups| == 3 && i < TRADE_COUNT && k < |input.rules| && !(66 <= i < 68)
    requires |FixtureBlueprints(input, r)| == TRADE_COUNT
    requires HoldsExactly(checks, FixtureRowsOf(input, r).checks)
    ensures var trade := FixtureBlueprints(input, r)[i].id;
            var id := RuleCheckId(input.digest, trade, input.rules[k].ruleKey);
            && id in checks && checks[id].tradeId == trade && checks[id].rule == input.rules[k]
            && StatusFits(checks[id].checkStatus, i, k)
            && checks[id].createdAt == FixtureBlueprints(input, r)[i].content.createdAt
            && checks[id].updatedAt == FixtureBlueprints(input, r)[i].content.updatedAt
  {
    hide FixtureBlueprints, RuleCheckId, StatusFits, RuleStatus, FlatMap, Legs, MistakeKeys;
    var bs := FixtureBlueprints(input, r);
    PerTrade(input, r, i);
    StatusIsFitting(i, k);
    assert CheckRowsOf(input)(bs[i])[k] == CheckRowOf(input, bs[i], k);
    var j := FlatMapTarget(bs, CheckRowsOf(input), i, k);
    assert FixtureRowsOf(input, r).checks[j] == CheckRowOf(input, bs[i], k);
  }

  lemma CheckIsNot(input: SeedInput, r: Resolution, i: nat, k: nat, checks: map<Uuid, CheckRow>)
    requires Prepared(input) && |input.framework.setups| == 3 && 66 <= i < 68 && k < |input.rules|
    requires |FixtureBlueprints(input, r)| == TRADE_COUNT
    requires HoldsExactly(checks, FixtureRowsOf(input, r).checks)
    ensures RuleCheckId(input.digest, FixtureBlueprints(input, r)[i].id, input.rules[k].ruleKey) !in checks
  {
    hide FixtureBlueprints, RuleCheckId, RuleStatus, FlatMap, Legs, MistakeKeys, Prepared, AllBuilt;
    PreparedIsIdeal(input);
    var bs := FixtureBlueprints(input, r);
    var rows := FixtureRowsOf(input, r).checks;
    var id := RuleCheckId(input.digest, bs[i].id, input.rules[k].ruleKey);
    BuiltFrom(input, r);
    if id in checks {
      var j :| 0 <= j < |rows| && rows[j].0 == id;
      var i', k' := CheckRowAt(input, bs, j);
      RuleCheckIdsDistinct(input.digest, bs[i].id, input.rules[k].ruleKey, bs[i'].id, input.rules[k'].ruleKey);
      PerTrade(input, r, i');
      DistinctTrades(input, r.populatedId, bs, i, i');
    }
  }

  lemma BuiltFrom(input: SeedInput, r: Resolution)
    requires |input.framework.setups| == 3
    ensures AllBuilt(input, r.populatedId, FixtureBlueprints(input, r))
  {
    BlueprintsAreBuilt(input, r.populatedId);
    hide AllBuilt;
  }

  // ----------------------------------------------------------------- mistakes

  /** A committed mistake has the severity and the weight of its own type, and the note for it. */
  lemma CommittedMistake(s: State, input: SeedInput, now: int, x: (Uuid, Uuid))
    requires Prepared(input) && Sound(s) && Transaction(s, input, now).Ok? && Resolve(s, input).Ok?
    requires var after := Transaction(s, input, now).value;
             x in Belonging(after, TradesUnder(after, Resolve(s, input).value.populatedId)).mistakes
    ensures var after := Transaction(s, input, now).value;
            exists key :: key in {"early_exit", "chased_entry", "revenge_trade"} && key in input.mistakeTypes
              && x.1 == input.mistakeTypes[key].id && x in after.mistakes
              && after.mistakes[x].severityAtTime == input.mistakeTypes[key].severity
              && after.mistakes[x].weightAtTime == input.mistakeTypes[key].defaultWeight
              && NoteFits(after.mistakes[x].note, key)
  {
    hide Prepared, Sound, Resolve, Transaction, TradesUnder, HoldsExactly, FixtureRowsOf, FixtureBlueprints;
    PreparedIsIdeal(input);
    ExactlyTheBlueprint(s, input, now);
    var after, r := Transaction(s, input, now).value, Resolve(s, input).value;
    MistakeAt(input, r, Belonging(after, TradesUnder(after, r.populatedId)).mistakes, x);
  }

  lemma MistakeAt(input: SeedInput, r: Resolution, mistakes: map<(Uuid, Uuid), MistakeRow>, x: (Uuid, Uuid))
    requires Prepared(input) && |input.framework.setups| == 3
    requires HoldsExactly(mistakes, FixtureRowsOf(input, r).mistakes) && x in mistakes
    ensures exists key :: key in {"early_exit", "chased_entry", "revenge_trade"} && key in input.mistakeTypes
              && x.1 == input.mistakeTypes[key].id
              && mistakes[x].severityAtTime == input.mistakeTypes[key].severity
              && mistakes[x].weightAtTime == input.mistakeTypes[key].defaultWeight
              && NoteFits(mistakes[x].note, key)
  {
    hide FixtureBlueprints, FlatMap, MistakeNote, Legs, NoteFits;
    var bs, rows := FixtureBlueprints(input, r), FixtureRowsOf(input, r).mistakes;
    PerTrade(input, r, 0);
    var j :| 0 <= j < |rows| && rows[j].0 == x;
    var i, k := MistakeRowAt(input, bs, j);
    PerTrade(input, r, i);
    KeysAreKnown(i);
    MistakeNames(bs[i].mistakeKeys[k]);
    NotesFit(bs[i].mistakeKeys[k]);
    assert bs[i].mistakeKeys[k] in input.mistakeTypes;
  }

  /** A chased entry has a note of its own; any other names its type. */
  predicate NoteFits(note: string, key: string) {
    && (key == "chased_entry" ==> note == "FOMO/chased entry context for visual review.")
    && (key != "chased_entry" ==> note == "Deterministic " + key + " review context.")
  }

  lemma NotesFit(key: string)
    ensures NoteFits(MistakeNote(key), key)
  {
  }

  lemma MistakeNames(key: string)
    requires key in MISTAKES
    ensures key in {"early_exit", "chased_entry", "revenge_trade"} && key in ["early_exit", "chased_entry", "revenge_trade"]
  {
  }

  /** A committed emotion is one its trade was given, recorded when the trade was last updated; so are the mistakes. */
  lemma CommittedFeelings(s: State, input: SeedInput, now: int, x: (Uuid, Uuid))
    requires Prepared(input) && Sound(s) && Transaction(s, input, now).Ok?
    ensures Resolve(s, input).Ok? && |input.framework.setups| == 3
    ensures |FixtureBlueprints(input, Resolve(s, input).value)| == TRADE_COUNT
    ensures var after, bs := Transaction(s, input, now).value, FixtureBlueprints(input, Resolve(s, input).value);
            var own := Belonging(after, TradesUnder(after, Resolve(s, input).value.populatedId));
            && (x in own.emotions ==>
                  exists i, key :: 0 <= i < TRADE_COUNT && x.0 == bs[i].id && key in EmotionKeys(i)
                    && key in input.emotionTypes && x.1 == input.emotionTypes[key]
                    && own.emotions[x].createdAt == bs[i].content.updatedAt)
            && (x in own.mistakes ==>
                  exists i :: 0 <= i < TRADE_COUNT && x.0 == bs[i].id && MistakeKeys(i) != []
                    && own.mistakes[x].createdAt == own.mistakes[x].updatedAt == bs[i].content.updatedAt)
  {
    hide Prepared, Sound, Resolve, Transaction, Belonging, TradesUnder, HoldsExactly, FixtureRowsOf, FixtureBlueprints;
    hide EmotionKeys, MistakeKeys;
    PreparedIsIdeal(input);
    ExactlyTheBlueprint(s, input, now);
    var after, r := Transaction(s, input, now).value, Resolve(s, input).value;
    var own := Belonging(after, TradesUnder(after, r.populatedId));
    PerTrade(input, r, 0);
    if x in own.emotions {
      var i, key := EmotionAt(input, r, own.emotions, x);
    }
    if x in own.mistakes {
      var i := MistakeTimes(input, r, own.mistakes, x);
    }
  }

  lemma EmotionAt(input: SeedInput, r: Resolution, emotions: map<(Uuid, Uuid), EmotionRow>, x: (Uuid, Uuid))
    returns (i: nat, key: string)
    requires Prepared(input) && |input.framework.setups| == 3 && |FixtureBlueprints(input, r)| == TRADE_COUNT
    requires HoldsExactly(emotions, FixtureRowsOf(input, r).emotions) && x in emotions
    ensures i < TRADE_COUNT && x.0 == FixtureBlueprints(input, r)[i].id && key in EmotionKeys(i)
    ensures key in input.emotionTypes && x.1 == input.emotionTypes[key]
    ensures emotions[x].createdAt == FixtureBlueprints(input, r)[i].content.updatedAt
  {
    hide FixtureBlueprints, FlatMap, EmotionKeys, MistakeKeys, Legs;
    var bs, rows := FixtureBlueprints(input, r), FixtureRowsOf(input, r).emotions;
    var j :| 0 <= j < |rows| && rows[j].0 == x;
    var k;
    i, k := EmotionRowAt(input, bs, j);
    EmotionsOfTrade(input, r, i);
    key := bs[i].emotionKeys[k];
    KeysAreKnown(i);
    EmotionNames(key);
    assert key in input.emotionTypes;
  }

  lemma EmotionsOfTrade(input: SeedInput, r: Resolution, i: nat)
    requires |input.framework.setups| == 3 && i < TRADE_COUNT
    ensures |FixtureBlueprints(input, r)| == TRADE_COUNT && FixtureBlueprints(input, r)[i].emotionKeys == EmotionKeys(i)
  {
    hide BlueprintAt, ContentOf, Exits, CloseAt, SystemAt, TradeId, TradeMutationKey, EmotionKeys, MistakeKeys;
    BlueprintCount(input, r);
    BlueprintFields(input.digest, r.populatedId, input.framework, i);
  }

  lemma EmotionNames(key: string)
    requires key in EMOTIONS
    ensures key in ["calm", "focused", "fearful", "fomo", "revenge"]
  {
  }

  lemma MistakeTimes(input: SeedInput, r: Resolution, mistakes: map<(Uuid, Uuid), MistakeRow>, x: (Uuid, Uuid))
    returns (i: nat)
    requires |input.framework.setups| == 3 && |FixtureBlueprints(input, r)| == TRADE_COUNT
    requires HoldsExactly(mistakes, FixtureRowsOf(input, r).mistakes) && x in mistakes
    ensures i < TRADE_COUNT && x.0 == FixtureBlueprints(input, r)[i].id && MistakeKeys(i) != []
    ensures mistakes[x].createdAt == mistakes[x].updatedAt == FixtureBlueprints(input, r)[i].content.updatedAt
  {
    hide FixtureBlueprints, FlatMap, MistakeNote, MistakeKeys, Legs;
    var bs, rows := FixtureBlueprints(input, r), FixtureRowsOf(input, r).mistakes;
    var j :| 0 <= j < |rows| && rows[j].0 == x;
    var k;
    i, k := MistakeRowAt(input, bs, j);
    PerTrade(input, r, i);
  }

  // -------------------------------------------------------------------- exits

  /** The committed legs of a closed trade are 45 minutes apart and the last one is at the trade's own exit. */
  lemma CommittedExit(s: State, input: SeedInput, now: int, i: nat, k: nat)
    requires Prepared(input) && Sound(s) && Transaction(s, input, now).Ok? && i < 66
    ensures Resolve(s, input).Ok? && |input.framework.setups| == 3
    ensures |FixtureBlueprints(input, Resolve(s, input).value)| == TRADE_COUNT
    ensures var after, b := Transaction(s, input, now).value, FixtureBlueprints(input, Resolve(s, input).value)[i];
            var exits, id := ExitsUnder(after, b.id), ExitId(input.digest, b.id, k + 1);
            && |exits| == Legs(i)
            && (k < |exits| ==>
                  && id in exits && exits[id].sequence == k + 1 && b.content.exitedAt.Some?
                  && exits[id].exitedAt == b.content.exitedAt.value - (|exits| - 1 - k) * 45 * MINUTE)
  {
    hide Prepared, Sound, Resolve, Transaction, TradesUnder, HoldsExactly, FixtureBlueprints, ExitsUnder, ExitId, Legs;
    CommittedExits(s, input, now, i);
    PerTrade(input, Resolve(s, input).value, i);
    var after, r := Transaction(s, input, now).value, Resolve(s, input).value;
    var b := FixtureBlueprints(input, r)[i];
    HeldSize(ExitsUnder(after, b.id), ExitRowsOf(input.workspaceId)(b));
    if k < |b.exits| {
      LegTimes(input, r, i, k);
      RowHeld(ExitsUnder(after, b.id), ExitRowsOf(input.workspaceId)(b), k);
    }
  }

  lemma RowHeld<K, V>(table: map<K, V>, rows: seq<Row<K, V>>, k: nat)
    requires HoldsExactly(table, rows) && k < |rows|
    ensures rows[k].0 in table && table[rows[k].0] == rows[k].1
  {
  }

  lemma LegTimes(input: SeedInput, r: Resolution, i: nat, k: nat)
    requires |input.framework.setups| == 3 && i < 66
    requires |FixtureBlueprints(input, r)| == TRADE_COUNT && k < |FixtureBlueprints(input, r)[i].exits|
    ensures var b := FixtureBlueprints(input, r)[i];
            && b.exits[k].id == ExitId(input.digest, b.id, k + 1) && b.exits[k].sequence == k + 1
            && b.content.exitedAt.Some?
            && b.exits[k].exitedAt == b.content.exitedAt.value - (|b.exits| - 1 - k) * 45 * MINUTE
  {
    hide BlueprintAt, Exits, ExitedAt, ContentOf, TradeId, ExitId;
    BlueprintFields(input.digest, r.populatedId, input.framework, i);
    ExitIdentities(input.digest, r.populatedId, i);
    ExitTimes(input.digest, r.populatedId, i, k);
    ExitColumnOf(input.framework, i, Exits(input.digest, r.populatedId, i), CloseAt(i), SystemAt(i));
  }

  lemma ExitColumnOf(framework: Framework, i: nat, exits: seq<ExitBlueprint>,
                     close: Option<TraderClose>, system: Option<SystemSnapshot>)
    requires |framework.setups| == 3 && i < TRADE_COUNT
    ensures ContentOf(framework, i, exits, close, system).exitedAt == ExitedAt(i)
  {
    hide ConfirmationNotes, ReviewNotes, Symbol, Timeframe, Session, UpdatedAt, CreatedAt, EnteredAt, ExitedAt;
    hide SystemExitedAt, SumPnl, CanonicalR;
  }

  lemma ExitTimes(digest: Digest, accountId: Uuid, i: nat, k: nat)
    requires i < 66 && k < |Exits(digest, accountId, i)|
    ensures ExitedAt(i).Some?
    ensures Exits(digest, accountId, i)[k].exitedAt
         == ExitedAt(i).value - (|Exits(digest, accountId, i)| - 1 - k) * 45 * MINUTE
  {
    hide ActualTargetR, ExitedAt, TradeId, Parts, MinorForR, ExitId, ExitMutationKey, Exits;
    ClosedIndices(i);
    ExitsAre(digest, accountId, i);
  }

  // -------------------------------------------------------------------- costs

  function Commission(): TradeRow -> real {
    (row: TradeRow) => row.content.commissionMinor as real
  }

  function Fees(): TradeRow -> real {
    (row: TradeRow) => row.content.feesMinor as real
  }

  function SwapCost(): TradeRow -> real {
    (row: TradeRow) => row.content.swapMinor as real
  }

  function SwapList(): (list: seq<real>)
    ensures |list| == TRADE_COUNT
    ensures forall i | 0 <= i < TRADE_COUNT :: list[i] == if i < 66 && i % 3 == 0 then 25.0 else 0.0
  {
    seq(TRADE_COUNT, i requires 0 <= i < TRADE_COUNT => if i < 66 && i % 3 == 0 then 25.0 else 0.0)
  }

  /** 75 and 25 on every closed trade. */
  function FlatList(cost: real): (list: seq<real>)
    ensures |list| == TRADE_COUNT
    ensures forall i | 0 <= i < TRADE_COUNT :: list[i] == if i < 66 then cost else 0.0
  {
    Repeat(cost, 66) + Repeat(0.0, 4)
  }

  lemma {:induction false} SwapBelow(n: nat)
    requires n <= 66
    ensures Sum(SwapList()[..n]) == 25.0 * ((n + 2) / 3) as real
  {
    if n > 0 {
      hide Sum;
      SwapBelow(n - 1);
      SumStep(SwapList(), n);
    }
  }

  lemma CostTotals()
    ensures Sum(FlatList(75.0)) == 4_950.0 && Sum(FlatList(25.0)) == 1_650.0 && Sum(SwapList()) == 550.0
  {
    hide Sum, Repeat, SwapList;
    SumSplit(Repeat(75.0, 66), Repeat(0.0, 4));
    SumSplit(Repeat(25.0, 66), Repeat(0.0, 4));
    SumRepeat(75.0, 66);
    SumRepeat(25.0, 66);
    SumRepeat(0.0, 4);
    SwapBelow(66);
    var swaps := SwapList();
    assert swaps == swaps[..66] + swaps[66..] && swaps[66..] == [0.0, 0.0, 0.0, 0.0];
    SumSplit(swaps[..66], swaps[66..]);
    SumFourZeros();
  }

  lemma SumFourZeros()
    ensures Sum([0.0, 0.0, 0.0, 0.0]) == 0.0
  {
    SumSix(0.0, 0.0, 0.0, 0.0, 0.0, 0.0);
    SumSplit([0.0, 0.0, 0.0, 0.0], [0.0, 0.0]);
    SumSplit([0.0], [0.0]);
    assert [0.0] + [0.0] == [0.0, 0.0];
    SumOne(0.0);
    assert [0.0, 0.0, 0.0, 0.0] + [0.0, 0.0] == [0.0, 0.0, 0.0, 0.0, 0.0, 0.0];
  }

  lemma CostsAt(input: SeedInput, r: Resolution, i: nat)
    requires |input.framework.setups| == 3 && i < TRADE_COUNT
    ensures |FixtureBlueprints(input, r)| == TRADE_COUNT
    ensures var row := TradeRowFor(input.workspaceId, FixtureBlueprints(input, r)[i]);
            && Commission()(row) == FlatList(75.0)[i] && Fees()(row) == FlatList(25.0)[i]
            && SwapCost()(row) == SwapList()[i]
  {
    hide BlueprintAt, FlatList, SwapList;
    BlueprintCount(input, r);
    CostColumns(input.digest, r.populatedId, input.framework, i);
    ClosedIndices(i);
  }

  lemma CostColumns(digest: Digest, accountId: Uuid, framework: Framework, i: nat)
    requires i < TRADE_COUNT && 3 <= |framework.setups|
    ensures var c := BlueprintAt(digest, accountId, framework, i).content;
            && c.commissionMinor == (if i < 66 then 75 else 0) && c.feesMinor == (if i < 66 then 25 else 0)
            && c.swapMinor == if i < 66 && i % 3 == 0 then 25 else 0
  {
    hide BlueprintAt, TradeId, TradeMutationKey, EmotionKeys, MistakeKeys, ConfirmationNotes, ReviewNotes, Symbol;
    hide Timeframe, Session, UpdatedAt, CreatedAt, EnteredAt, ExitedAt, SystemExitedAt, Exits, SumPnl, CanonicalR;
    hide ActualTargetR, SystemTargetR, PopulationOf, ClassifyOutcome;
    BlueprintFields(digest, accountId, framework, i);
    ClosedIndices(i);
  }

  /** The costs of the committed trades: 4950 minor units of commission, 1650 of fees and 550 of swap. */
  lemma CommittedCosts(s: State, input: SeedInput, now: int)
    requires Prepared(input) && Sound(s) && Transaction(s, input, now).Ok?
    ensures Resolve(s, input).Ok?
    ensures var after, p := Transaction(s, input, now).value, Resolve(s, input).value.populatedId;
            var trades := Belonging(after, TradesUnder(after, p)).trades;
            && SumOver(trades, Commission()) == 4_950.0
            && SumOver(trades, Fees()) == 1_650.0
            && SumOver(trades, SwapCost()) == 550.0
  {
    hide Prepared, Sound, Resolve, Transaction, Belonging, TradesUnder, FixtureBlueprints, TradeRowFor;
    hide SumOver, Sum, FlatList, SwapList, Commission, Fees, SwapCost;
    CommittedTrades(s, input, now);
    var r := Resolve(s, input).value;
    BlueprintCount(input, r);
    forall i | 0 <= i < TRADE_COUNT
      ensures var row := TradeRowFor(input.workspaceId, FixtureBlueprints(input, r)[i]);
              && Commission()(row) == FlatList(75.0)[i] && Fees()(row) == FlatList(25.0)[i]
              && SwapCost()(row) == SwapList()[i]
    {
      CostsAt(input, r, i);
    }
    CommittedSum(s, input, now, Commission(), FlatList(75.0));
    CommittedSum(s, input, now, Fees(), FlatList(25.0));
    CommittedSum(s, input, now, SwapCost(), SwapList());
    CostTotals();
  }
}
