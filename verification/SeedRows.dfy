/**
 The rows the seed inserts: unique among themselves, valid where they land, and clear of
 whatever the collision guards and the delete leave behind.
 */
module SeedRows {
  import opened Wrappers
  import opened Identity
  import opened Calendar
  import opened ExitLegs
  import opened Blueprint
  import opened Tables
  import opened SeedDatabase

  const MISTAKES: seq<string> := ["early_exit", "chased_entry", "revenge_trade"]
  const EMOTIONS: seq<string> := ["calm", "focused", "fearful", "fomo", "revenge"]

  /** What the transaction relies on about one generated trade. */
  ghost predicate WellBuilt(input: SeedInput, p: Uuid, b: TradeBlueprint) {
    && b.id == TradeId(input.digest, p, b.fixtureIndex)
    && b.mutationKey == TradeMutationKey(input.digest, p, b.fixtureIndex)
    && b.tradingAccountId == p
    && SatisfiesTradeChecks(b.content)
    && SatisfiesExitTriggers(b.content, b.exits)
    && (forall k | 0 <= k < |b.exits| ::
          && b.exits[k].id == ExitId(input.digest, b.id, k + 1)
          && b.exits[k].mutationKey == ExitMutationKey(input.digest, b.id, k + 1)
          && b.exits[k].sequence == k + 1)
    && (b.content.strategyVersionId.Some? ==>
          b.content.strategyVersionId == Some(input.framework.strategyVersionId))
    && |b.mistakeKeys| <= 1 && (forall key | key in b.mistakeKeys :: key in MISTAKES)
    && (forall k, l | 0 <= k < l < |b.emotionKeys| :: b.emotionKeys[k] != b.emotionKeys[l])
    && (forall key | key in b.emotionKeys :: key in EMOTIONS)
  }

  ghost predicate AllBuilt(input: SeedInput, p: Uuid, bs: seq<TradeBlueprint>) {
    forall i | 0 <= i < |bs| :: bs[i].fixtureIndex == i && WellBuilt(input, p, bs[i])
  }

  lemma BlueprintsAreBuilt(input: SeedInput, p: Uuid)
    requires |input.framework.setups| == 3
    ensures AllBuilt(input, p, Blueprints(input.digest, p, input.framework))
  {
    hide WellBuilt, BlueprintAt;
    forall i | 0 <= i < TRADE_COUNT
      ensures BlueprintAt(input.digest, p, input.framework, i).fixtureIndex == i
      ensures WellBuilt(input, p, BlueprintAt(input.digest, p, input.framework, i))
    {
      BlueprintIsBuilt(input, p, i);
    }
  }

  lemma BlueprintIsBuilt(input: SeedInput, p: Uuid, i: nat)
    requires |input.framework.setups| == 3 && i < TRADE_COUNT
    ensures var b := BlueprintAt(input.digest, p, input.framework, i);
            b.fixtureIndex == i && WellBuilt(input, p, b)
  {
    hide *;
    BlueprintFields(input.digest, p, input.framework, i);
    BlueprintSatisfiesSchema(input.digest, p, input.framework, i);
    ExitIdentities(input.digest, p, i);
    KeysAreKnown(i);
    VersionOf(input.framework, i, Exits(input.digest, p, i), CloseAt(i), SystemAt(i));
    Assembled(input, p, BlueprintAt(input.digest, p, input.framework, i));
  }

  lemma Assembled(input: SeedInput, p: Uuid, b: TradeBlueprint)
    requires b.id == TradeId(input.digest, p, b.fixtureIndex)
    requires b.mutationKey == TradeMutationKey(input.digest, p, b.fixtureIndex)
    requires b.tradingAccountId == p && SatisfiesTradeChecks(b.content) && SatisfiesExitTriggers(b.content, b.exits)
    requires forall k | 0 <= k < |b.exits| ::
               && b.exits[k].id == ExitId(input.digest, b.id, k + 1)
               && b.exits[k].mutationKey == ExitMutationKey(input.digest, b.id, k + 1)
               && b.exits[k].sequence == k + 1
    requires b.content.strategyVersionId in {None, Some(input.framework.strategyVersionId)}
    requires |b.mistakeKeys| <= 1 && forall key | key in b.mistakeKeys :: key in MISTAKES
    requires forall k, l | 0 <= k < l < |b.emotionKeys| :: b.emotionKeys[k] != b.emotionKeys[l]
    requires forall key | key in b.emotionKeys :: key in EMOTIONS
    ensures WellBuilt(input, p, b)
  {
    hide TradeId, TradeMutationKey, ExitId, ExitMutationKey, SatisfiesTradeChecks, SatisfiesExitTriggers;
    hide MISTAKES, EMOTIONS;
  }

  lemma BlueprintFields(digest: Digest, p: Uuid, framework: Framework, i: nat)
    requires 3 <= |framework.setups| && i < TRADE_COUNT
    ensures var b := BlueprintAt(digest, p, framework, i);
            && b.fixtureIndex == i && b.id == TradeId(digest, p, i) && b.mutationKey == TradeMutationKey(digest, p, i)
            && b.tradingAccountId == p && b.exits == Exits(digest, p, i)
            && b.content == ContentOf(framework, i, Exits(digest, p, i), CloseAt(i), SystemAt(i))
            && b.emotionKeys == EmotionKeys(i) && b.mistakeKeys == MistakeKeys(i)
  {
    hide TradeId, TradeMutationKey, EmotionKeys, MistakeKeys, ContentOf, Exits, CloseAt, SystemAt, PopulationOf;
  }

  lemma VersionOf(framework: Framework, i: nat, exits: seq<ExitBlueprint>,
                  close: Option<TraderClose>, system: Option<SystemSnapshot>)
    requires |framework.setups| == 3 && i < TRADE_COUNT
    ensures ContentOf(framework, i, exits, close, system).strategyVersionId
            in {None, Some(framework.strategyVersionId)}
  {
    hide ConfirmationNotes, ReviewNotes, Symbol, Timeframe, Session, UpdatedAt, CreatedAt, EnteredAt, ExitedAt;
    hide SystemExitedAt, SumPnl, CanonicalR;
  }

  lemma ExitIdentities(digest: Digest, p: Uuid, i: nat)
    requires i < TRADE_COUNT
    ensures var exits := Exits(digest, p, i);
            forall k | 0 <= k < |exits| ::
              && exits[k].id == ExitId(digest, TradeId(digest, p, i), k + 1)
              && exits[k].mutationKey == ExitMutationKey(digest, TradeId(digest, p, i), k + 1)
              && exits[k].sequence == k + 1
  {
    hide TradeId, TradeMutationKey, ExitId, ExitMutationKey, RuleCheckId, SatisfiesTradeChecks, SatisfiesExitTriggers;
    hide ActualTargetR, ExitedAt, Exits, Parts, MinorForR;
    ExitsAre(digest, p, i);
  }

  lemma KeysAreKnown(i: nat)
    ensures |MistakeKeys(i)| <= 1 && (forall key | key in MistakeKeys(i) :: key in MISTAKES)
    ensures forall k, l | 0 <= k < l < |EmotionKeys(i)| :: EmotionKeys(i)[k] != EmotionKeys(i)[l]
    ensures forall key | key in EmotionKeys(i) :: key in EMOTIONS
  {
    assert "calm" != "focused";
    assert MISTAKES[0] == "early_exit" && MISTAKES[1] == "chased_entry" && MISTAKES[2] == "revenge_trade";
    assert EMOTIONS[0] == "calm" && EMOTIONS[1] == "focused" && EMOTIONS[2] == "fearful";
    assert EMOTIONS[3] == "fomo" && EMOTIONS[4] == "revenge";
  }

  // -------------------------------------------------------------- uniqueness

  lemma DistinctTrades(input: SeedInput, p: Uuid, bs: seq<TradeBlueprint>, i: nat, j: nat)
    requires Ideal(input.digest) && AllBuilt(input, p, bs) && i < |bs| && j < |bs| && i != j
    ensures bs[i].id != bs[j].id && bs[i].mutationKey != bs[j].mutationKey
  {
    hide TradeId, TradeMutationKey, ExitId, ExitMutationKey, RuleCheckId, SatisfiesTradeChecks, SatisfiesExitTriggers;
    assert WellBuilt(input, p, bs[i]) && WellBuilt(input, p, bs[j]);
    TradeIdsDistinct(input.digest, p, i, p, j);
  }

  lemma TradeRowsUnique(input: SeedInput, p: Uuid, bs: seq<TradeBlueprint>)
    requires Ideal(input.digest) && AllBuilt(input, p, bs)
    ensures PairwiseUnique(FlatMap(bs, TradeRowsOf(input.workspaceId)), TradeUnique)
  {
    hide WellBuilt, FlatMap;
    var f := TradeRowsOf(input.workspaceId);
    forall i, j | 0 <= i < j < |bs|
      ensures Apart(f(bs[i]), f(bs[j]), TradeUnique)
    {
      DistinctTrades(input, p, bs, i, j);
    }
    hide AllBuilt;
    FlatMapUnique(bs, f, TradeUnique);
  }

  lemma ExitsApart(input: SeedInput, p: Uuid, a: TradeBlueprint, b: TradeBlueprint)
    requires Ideal(input.digest) && WellBuilt(input, p, a) && WellBuilt(input, p, b) && a.id != b.id
    ensures Apart(ExitRowsOf(input.workspaceId)(a), ExitRowsOf(input.workspaceId)(b), ExitUnique)
  {
    hide TradeId, TradeMutationKey, ExitId, ExitMutationKey, RuleCheckId, SatisfiesTradeChecks, SatisfiesExitTriggers;
    var f := ExitRowsOf(input.workspaceId);
    forall x, y | x in f(a) && y in f(b)
      ensures x.0 != y.0 && ExitUnique(x, y)
    {
      var k :| 0 <= k < |a.exits| && f(a)[k] == x;
      var l :| 0 <= l < |b.exits| && f(b)[l] == y;
      ExitIdsDistinct(input.digest, a.id, k + 1, b.id, l + 1);
    }
  }

  lemma ExitsOfOneTrade(input: SeedInput, p: Uuid, b: TradeBlueprint)
    requires Ideal(input.digest) && WellBuilt(input, p, b)
    ensures PairwiseUnique(ExitRowsOf(input.workspaceId)(b), ExitUnique)
  {
    hide TradeId, TradeMutationKey, ExitId, ExitMutationKey, RuleCheckId, SatisfiesTradeChecks, SatisfiesExitTriggers;
    var f := ExitRowsOf(input.workspaceId);
    forall k, l | 0 <= k < l < |f(b)|
      ensures f(b)[k].0 != f(b)[l].0 && ExitUnique(f(b)[k], f(b)[l])
    {
      ExitIdsDistinct(input.digest, b.id, k + 1, b.id, l + 1);
    }
  }

  lemma ExitRowsUnique(input: SeedInput, p: Uuid, bs: seq<TradeBlueprint>)
    requires Ideal(input.digest) && AllBuilt(input, p, bs)
    ensures PairwiseUnique(FlatMap(bs, ExitRowsOf(input.workspaceId)), ExitUnique)
  {
    hide WellBuilt, ExitRowsOf, PairwiseUnique, Apart, ExitUnique, FlatMap;
    var f := ExitRowsOf(input.workspaceId);
    forall i | 0 <= i < |bs|
      ensures PairwiseUnique(f(bs[i]), ExitUnique)
    {
      ExitsOfOneTrade(input, p, bs[i]);
    }
    forall i, j | 0 <= i < j < |bs|
      ensures Apart(f(bs[i]), f(bs[j]), ExitUnique)
    {
      DistinctTrades(input, p, bs, i, j);
      ExitsApart(input, p, bs[i], bs[j]);
    }
    FlatMapUnique(bs, f, ExitUnique);
  }

  lemma ChecksOfOneTrade(input: SeedInput, b: TradeBlueprint)
    requires Prepared(input)
    ensures PairwiseUnique(CheckRowsOf(input)(b), CheckUnique)
  {
    hide RuleCheckId, RuleStatus;
    var f := CheckRowsOf(input);
    forall k, l | 0 <= k < l < |f(b)|
      ensures f(b)[k].0 != f(b)[l].0 && CheckUnique(f(b)[k], f(b)[l])
    {
      RuleCheckIdsDistinct(input.digest, b.id, input.rules[k].ruleKey, b.id, input.rules[l].ruleKey);
    }
  }

  lemma ChecksApart(input: SeedInput, a: TradeBlueprint, b: TradeBlueprint)
    requires Prepared(input) && a.id != b.id
    ensures Apart(CheckRowsOf(input)(a), CheckRowsOf(input)(b), CheckUnique)
  {
    hide RuleCheckId, RuleStatus;
    var f := CheckRowsOf(input);
    forall x, y | x in f(a) && y in f(b)
      ensures x.0 != y.0 && CheckUnique(x, y)
    {
      var k :| 0 <= k < |f(a)| && f(a)[k] == x;
      var l :| 0 <= l < |f(b)| && f(b)[l] == y;
      RuleCheckIdsDistinct(input.digest, a.id, input.rules[k].ruleKey, b.id, input.rules[l].ruleKey);
    }
  }

  lemma CheckRowsUnique(input: SeedInput, p: Uuid, bs: seq<TradeBlueprint>)
    requires Prepared(input) && AllBuilt(input, p, bs)
    ensures PairwiseUnique(FlatMap(bs, CheckRowsOf(input)), CheckUnique)
  {
    hide WellBuilt, CheckRowsOf, PairwiseUnique, Apart, CheckUnique, FlatMap;
    var f := CheckRowsOf(input);
    forall i | 0 <= i < |bs|
      ensures PairwiseUnique(f(bs[i]), CheckUnique)
    {
      ChecksOfOneTrade(input, bs[i]);
    }
    forall i, j | 0 <= i < j < |bs|
      ensures Apart(f(bs[i]), f(bs[j]), CheckUnique)
    {
      DistinctTrades(input, p, bs, i, j);
      ChecksApart(input, bs[i], bs[j]);
    }
    FlatMapUnique(bs, f, CheckUnique);
  }

  lemma MistakeRowsUnique(input: SeedInput, p: Uuid, bs: seq<TradeBlueprint>)
    requires Prepared(input) && AllBuilt(input, p, bs)
    ensures PairwiseUnique(FlatMap(bs, MistakeRowsOf(input)), MistakeUnique)
  {
    hide TradeId, TradeMutationKey, ExitId, ExitMutationKey, RuleCheckId, SatisfiesTradeChecks, SatisfiesExitTriggers;
    hide FlatMap, MistakeNote;
    var f := MistakeRowsOf(input);
    forall i | 0 <= i < |bs|
      ensures PairwiseUnique(f(bs[i]), MistakeUnique)
    {
      assert WellBuilt(input, p, bs[i]);
    }
    forall i, j | 0 <= i < j < |bs|
      ensures Apart(f(bs[i]), f(bs[j]), MistakeUnique)
    {
      DistinctTrades(input, p, bs, i, j);
    }
    hide MistakeRowsOf, PairwiseUnique, Apart, MistakeUnique;
    FlatMapUnique(bs, f, MistakeUnique);
  }

  lemma EmotionRowsUnique(input: SeedInput, p: Uuid, bs: seq<TradeBlueprint>)
    requires Prepared(input) && AllBuilt(input, p, bs)
    ensures PairwiseUnique(FlatMap(bs, EmotionRowsOf(input)), EmotionUnique)
  {
    hide TradeId, TradeMutationKey, ExitId, ExitMutationKey, RuleCheckId, SatisfiesTradeChecks, SatisfiesExitTriggers;
    hide FlatMap;
    var f := EmotionRowsOf(input);
    forall i | 0 <= i < |bs|
      ensures PairwiseUnique(f(bs[i]), EmotionUnique)
    {
      assert WellBuilt(input, p, bs[i]);
      forall k, l | 0 <= k < l < |f(bs[i])|
        ensures f(bs[i])[k].0 != f(bs[i])[l].0
      {
        var a, b := bs[i].emotionKeys[k], bs[i].emotionKeys[l];
        assert a in bs[i].emotionKeys && b in bs[i].emotionKeys;
        assert a in input.emotionTypes && b in input.emotionTypes && a != b;
      }
    }
    forall i, j | 0 <= i < j < |bs|
      ensures Apart(f(bs[i]), f(bs[j]), EmotionUnique)
    {
      DistinctTrades(input, p, bs, i, j);
    }
    hide EmotionRowsOf, PairwiseUnique, Apart, EmotionUnique;
    FlatMapUnique(bs, f, EmotionUnique);
  }

  // ----------------------------------------------------------------- landing

  /** What the guards and the delete leave: nothing that any row to be inserted could collide with. */
  ghost predicate Ready(c: State, w: Uuid, p: Uuid, bs: seq<TradeBlueprint>, rows: FixtureRows) {
    && p in c.accounts && c.accounts[p].workspaceId == w
    && (forall t | t in c.trades ::
          t !in TradeIds(bs) && (c.trades[t].workspaceId == w ==> c.trades[t].mutationKey !in TradeKeys(bs)))
    && (forall x | x in c.exits :: c.exits[x].tradeId in c.trades)
    && (forall x, i | x in c.exits && 0 <= i < |rows.exits| ::
          && rows.exits[i].0 != x
          && (c.exits[x].workspaceId == w ==> c.exits[x].mutationKey != rows.exits[i].1.mutationKey))
    && (forall x | x in c.checks :: c.checks[x].tradeId in c.trades)
    && (forall x, i | x in c.checks && 0 <= i < |rows.checks| :: rows.checks[i].0 != x)
    && (forall x | x in c.mistakes :: x.0 in c.trades)
    && (forall x | x in c.emotions :: x.0 in c.trades)
  }

  function TradeRowFor(w: Uuid, b: TradeBlueprint): TradeRow {
    TradeRow(w, b.mutationKey, b.tradingAccountId, b.content)
  }

  /** Every fixture trade is among the trades, as the row that was inserted for it. */
  ghost predicate Landed(trades: map<Uuid, TradeRow>, w: Uuid, bs: seq<TradeBlueprint>) {
    forall i | 0 <= i < |bs| :: bs[i].id in trades && trades[bs[i].id] == TradeRowFor(w, bs[i])
  }

  lemma TradeRowAt(w: Uuid, bs: seq<TradeBlueprint>, j: nat) returns (i: nat)
    requires j < |FlatMap(bs, TradeRowsOf(w))|
    ensures i < |bs| && FlatMap(bs, TradeRowsOf(w))[j] == (bs[i].id, TradeRowFor(w, bs[i]))
  {
    var k;
    i, k := FlatMapSource(bs, TradeRowsOf(w), j);
  }

  lemma TradesGoIn(c: State, input: SeedInput, p: Uuid, bs: seq<TradeBlueprint>, rows: FixtureRows)
    requires Ideal(input.digest) && AllBuilt(input, p, bs) && rows == RowsFor(input, bs)
    requires Ready(c, input.workspaceId, p, bs, rows)
    ensures InsertRows(c.trades, rows.trades, TradeUnique, TradeValidator(c.accounts))
         == Some(c.trades + AsMap(rows.trades))
    ensures Landed(c.trades + AsMap(rows.trades), input.workspaceId, bs)
  {
    hide TradeId, TradeMutationKey, SatisfiesTradeChecks, SatisfiesExitTriggers, FlatMap, AsMap, InsertRows;
    var w := input.workspaceId;
    TradeRowsUnique(input, p, bs);
    forall j | 0 <= j < |rows.trades|
      ensures TradeValidator(c.accounts)(rows.trades[j])
      ensures rows.trades[j].0 !in c.trades
      ensures forall k | k in c.trades :: TradeUnique((k, c.trades[k]), rows.trades[j])
    {
      var i := TradeRowAt(w, bs, j);
      assert WellBuilt(input, p, bs[i]);
      assert bs[i].id in TradeIds(bs) && bs[i].mutationKey in TradeKeys(bs);
    }
    InsertSucceedsIff(c.trades, rows.trades, TradeUnique, TradeValidator(c.accounts));
    forall i | 0 <= i < |bs|
      ensures bs[i].id in AsMap(rows.trades) && AsMap(rows.trades)[bs[i].id] == TradeRowFor(w, bs[i])
    {
      var j := FlatMapTarget(bs, TradeRowsOf(w), i, 0);
      AsMapAt(rows.trades, j);
    }
  }

  lemma ExitRowAt(w: Uuid, bs: seq<TradeBlueprint>, j: nat) returns (i: nat, k: nat)
    requires j < |FlatMap(bs, ExitRowsOf(w))|
    ensures i < |bs| && k < |bs[i].exits| && FlatMap(bs, ExitRowsOf(w))[j] == ExitRowOf(w, bs[i], k)
  {
    i, k := FlatMapSource(bs, ExitRowsOf(w), j);
  }

  lemma ExitIsValid(input: SeedInput, p: Uuid, b: TradeBlueprint, k: nat, trades: map<Uuid, TradeRow>)
    requires WellBuilt(input, p, b) && k < |b.exits|
    requires b.id in trades && trades[b.id] == TradeRowFor(input.workspaceId, b)
    ensures ExitValid(trades, ExitRowOf(input.workspaceId, b, k).1)
  {
    hide TradeId, TradeMutationKey, ExitId, ExitMutationKey, SatisfiesTradeChecks, SumBps;
    assert LegAccepted(b.exits, k);
  }

  lemma ExitsGoIn(c: State, trades: map<Uuid, TradeRow>, input: SeedInput, p: Uuid, bs: seq<TradeBlueprint>,
                  rows: FixtureRows)
    requires Ideal(input.digest) && AllBuilt(input, p, bs) && rows == RowsFor(input, bs)
    requires Ready(c, input.workspaceId, p, bs, rows) && Landed(trades, input.workspaceId, bs)
    ensures InsertRows(c.exits, rows.exits, ExitUnique, ExitValidator(trades)) == Some(c.exits + AsMap(rows.exits))
  {
    hide WellBuilt, FlatMap, AsMap, InsertRows, ExitValid;
    var w := input.workspaceId;
    ExitRowsUnique(input, p, bs);
    forall j | 0 <= j < |rows.exits|
      ensures ExitValidator(trades)(rows.exits[j])
      ensures rows.exits[j].0 !in c.exits
      ensures forall x | x in c.exits :: ExitUnique((x, c.exits[x]), rows.exits[j])
    {
      var i, k := ExitRowAt(w, bs, j);
      ExitIsValid(input, p, bs[i], k, trades);
      assert bs[i].id in TradeIds(bs);
    }
    InsertSucceedsIff(c.exits, rows.exits, ExitUnique, ExitValidator(trades));
  }

  lemma CheckRowAt(input: SeedInput, bs: seq<TradeBlueprint>, j: nat) returns (i: nat, k: nat)
    requires j < |FlatMap(bs, CheckRowsOf(input))|
    ensures i < |bs| && k < |input.rules| && bs[i].content.strategyVersionId.Some?
    ensures FlatMap(bs, CheckRowsOf(input))[j] == CheckRowOf(input, bs[i], k)
  {
    hide RuleCheckId, RuleStatus;
    i, k := FlatMapSource(bs, CheckRowsOf(input), j);
  }

  lemma ChecksGoIn(c: State, trades: map<Uuid, TradeRow>, input: SeedInput, p: Uuid, bs: seq<TradeBlueprint>,
                   rows: FixtureRows)
    requires Prepared(input) && AllBuilt(input, p, bs) && rows == RowsFor(input, bs)
    requires Ready(c, input.workspaceId, p, bs, rows) && Landed(trades, input.workspaceId, bs)
    ensures InsertRows(c.checks, rows.checks, CheckUnique, CheckValidator(trades)) == Some(c.checks + AsMap(rows.checks))
  {
    hide TradeId, TradeMutationKey, ExitId, ExitMutationKey, SatisfiesTradeChecks, SatisfiesExitTriggers;
    hide RuleCheckId, RuleStatus, FlatMap, AsMap, InsertRows;
    CheckRowsUnique(input, p, bs);
    forall j | 0 <= j < |rows.checks|
      ensures CheckValidator(trades)(rows.checks[j])
      ensures rows.checks[j].0 !in c.checks
      ensures forall x | x in c.checks :: CheckUnique((x, c.checks[x]), rows.checks[j])
    {
      var i, k := CheckRowAt(input, bs, j);
      assert WellBuilt(input, p, bs[i]);
      assert bs[i].id in TradeIds(bs);
    }
    InsertSucceedsIff(c.checks, rows.checks, CheckUnique, CheckValidator(trades));
  }

  lemma MistakeRowAt(input: SeedInput, bs: seq<TradeBlueprint>, j: nat) returns (i: nat, k: nat)
    requires j < |FlatMap(bs, MistakeRowsOf(input))|
    ensures i < |bs| && k < |bs[i].mistakeKeys|
    ensures FlatMap(bs, MistakeRowsOf(input))[j] == MistakeRowOf(input, bs[i], bs[i].mistakeKeys[k])
  {
    hide MistakeRowOf;
    i, k := FlatMapSource(bs, MistakeRowsOf(input), j);
  }

  lemma MistakesGoIn(c: State, trades: map<Uuid, TradeRow>, input: SeedInput, p: Uuid, bs: seq<TradeBlueprint>,
                     rows: FixtureRows)
    requires Prepared(input) && AllBuilt(input, p, bs) && rows == RowsFor(input, bs)
    requires Ready(c, input.workspaceId, p, bs, rows) && Landed(trades, input.workspaceId, bs)
    ensures InsertRows(c.mistakes, rows.mistakes, MistakeUnique, MistakeValidator(trades))
         == Some(c.mistakes + AsMap(rows.mistakes))
  {
    hide WellBuilt, FlatMap, AsMap, InsertRows, MistakeNote;
    MistakeRowsUnique(input, p, bs);
    forall j | 0 <= j < |rows.mistakes|
      ensures MistakeValidator(trades)(rows.mistakes[j])
      ensures rows.mistakes[j].0 !in c.mistakes
      ensures forall x | x in c.mistakes :: MistakeUnique((x, c.mistakes[x]), rows.mistakes[j])
    {
      var i, k := MistakeRowAt(input, bs, j);
      assert bs[i].id in TradeIds(bs);
    }
    InsertSucceedsIff(c.mistakes, rows.mistakes, MistakeUnique, MistakeValidator(trades));
  }

  lemma EmotionRowAt(input: SeedInput, bs: seq<TradeBlueprint>, j: nat) returns (i: nat, k: nat)
    requires j < |FlatMap(bs, EmotionRowsOf(input))|
    ensures i < |bs| && k < |bs[i].emotionKeys|
    ensures FlatMap(bs, EmotionRowsOf(input))[j] == EmotionRowOf(input, bs[i], bs[i].emotionKeys[k])
  {
    hide EmotionRowOf;
    i, k := FlatMapSource(bs, EmotionRowsOf(input), j);
  }

  lemma EmotionsGoIn(c: State, trades: map<Uuid, TradeRow>, input: SeedInput, p: Uuid, bs: seq<TradeBlueprint>,
                     rows: FixtureRows)
    requires Prepared(input) && AllBuilt(input, p, bs) && rows == RowsFor(input, bs)
    requires Ready(c, input.workspaceId, p, bs, rows) && Landed(trades, input.workspaceId, bs)
    ensures InsertRows(c.emotions, rows.emotions, EmotionUnique, EmotionValidator(trades))
         == Some(c.emotions + AsMap(rows.emotions))
  {
    hide WellBuilt, FlatMap, AsMap, InsertRows;
    EmotionRowsUnique(input, p, bs);
    forall j | 0 <= j < |rows.emotions|
      ensures EmotionValidator(trades)(rows.emotions[j])
      ensures rows.emotions[j].0 !in c.emotions
      ensures forall x | x in c.emotions :: EmotionUnique((x, c.emotions[x]), rows.emotions[j])
    {
      var i, k := EmotionRowAt(input, bs, j);
      assert bs[i].id in TradeIds(bs);
    }
    InsertSucceedsIff(c.emotions, rows.emotions, EmotionUnique, EmotionValidator(trades));
  }

  function Filled(c: State, rows: FixtureRows): State {
    c.(trades := c.trades + AsMap(rows.trades),
       exits := c.exits + AsMap(rows.exits),
       checks := c.checks + AsMap(rows.checks),
       mistakes := c.mistakes + AsMap(rows.mistakes),
       emotions := c.emotions + AsMap(rows.emotions))
  }

  /** Once the guards have passed, none of the five inserts can hit a key, a foreign key or a check. */
  lemma RebuildSucceeds(c: State, input: SeedInput, p: Uuid, bs: seq<TradeBlueprint>)
    requires Prepared(input) && AllBuilt(input, p, bs)
    requires Ready(c, input.workspaceId, p, bs, RowsFor(input, bs))
    ensures Rebuild(c, RowsFor(input, bs)) == Some(Filled(c, RowsFor(input, bs)))
  {
    hide AllBuilt, Ready, RowsFor, InsertRows, AsMap, Landed;
    var rows := RowsFor(input, bs);
    var trades := c.trades + AsMap(rows.trades);
    TradesGoIn(c, input, p, bs, rows);
    ExitsGoIn(c, trades, input, p, bs, rows);
    ChecksGoIn(c, trades, input, p, bs, rows);
    MistakesGoIn(c, trades, input, p, bs, rows);
    EmotionsGoIn(c, trades, input, p, bs, rows);
  }
}
