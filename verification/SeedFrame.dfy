/**
 What a committed run leaves behind: exactly the blueprint under the two accounts, everything
 else as it was, and a database that the same run can be repeated on.
 */
module SeedFrame {
  import opened Identity
  import opened Blueprint
  import opened Tables
  import opened SeedDatabase
  import opened SeedRows
  import opened SeedTheorems

  datatype Contents = Contents(
    trades: map<Uuid, TradeRow>,
    exits: map<Uuid, ExitRow>,
    checks: map<Uuid, CheckRow>,
    mistakes: map<(Uuid, Uuid), MistakeRow>,
    emotions: map<(Uuid, Uuid), EmotionRow>)

  /** The rows that belong to some of the trades. */
  function Belonging(s: State, trades: set<Uuid>): Contents {
    Contents(map t | t in s.trades && t in trades :: s.trades[t],
             map x | x in s.exits && s.exits[x].tradeId in trades :: s.exits[x],
             map x | x in s.checks && s.checks[x].tradeId in trades :: s.checks[x],
             map x | x in s.mistakes && x.0 in trades :: s.mistakes[x],
             map x | x in s.emotions && x.0 in trades :: s.emotions[x])
  }

  function AllOf(rows: FixtureRows): Contents {
    Contents(AsMap(rows.trades), AsMap(rows.exits), AsMap(rows.checks), AsMap(rows.mistakes), AsMap(rows.emotions))
  }

  /** The database without the two accounts and everything under them. */
  function Outside(s: State, r: Resolution): State {
    var under := set t | t in s.trades && s.trades[t].tradingAccountId in {r.emptyId, r.populatedId};
    State(map a | a in s.accounts && a !in {r.emptyId, r.populatedId} :: s.accounts[a],
          map t | t in s.trades && t !in under :: s.trades[t],
          map x | x in s.exits && s.exits[x].tradeId !in under :: s.exits[x],
          map x | x in s.checks && s.checks[x].tradeId !in under :: s.checks[x],
          map x | x in s.mistakes && x.0 !in under :: s.mistakes[x],
          map x | x in s.emotions && x.0 !in under :: s.emotions[x],
          s.snapshots,
          s.journal)
  }

  /** Cutting the two accounts out is what the delete does to everything under them. */
  lemma OutsideIsCascade(s: State, r: Resolution)
    ensures Outside(s, r) == Cascade(s.(accounts := s.accounts - {r.emptyId, r.populatedId}), Under(s, r))
  {
    assert Outside(s, r).accounts == s.accounts - {r.emptyId, r.populatedId};
  }

  // --------------------------------------------------------- where rows belong

  /** The fixture rows all belong to fixture trades, and none of those is among the kept ones. */
  ghost predicate Placed(c: State, added: Contents, ids: set<Uuid>, w: Uuid, p: Uuid) {
    && added.trades.Keys == ids && c.trades.Keys !! ids
    && (forall t | t in added.trades :: added.trades[t].tradingAccountId == p && added.trades[t].workspaceId == w)
    && (forall x | x in c.exits :: c.exits[x].tradeId in c.trades && x !in added.exits)
    && (forall x | x in added.exits :: added.exits[x].tradeId in ids)
    && (forall x | x in c.checks :: c.checks[x].tradeId in c.trades && x !in added.checks)
    && (forall x | x in added.checks :: added.checks[x].tradeId in ids)
    && (forall x | x in c.mistakes :: x.0 in c.trades)
    && (forall x | x in added.mistakes :: x.0 in ids)
    && (forall x | x in c.emotions :: x.0 in c.trades)
    && (forall x | x in added.emotions :: x.0 in ids)
  }

  lemma TradesBelong(input: SeedInput, p: Uuid, bs: seq<TradeBlueprint>)
    requires Ideal(input.digest) && AllBuilt(input, p, bs)
    ensures AsMap(RowsFor(input, bs).trades).Keys == TradeIds(bs)
    ensures forall t | t in AsMap(RowsFor(input, bs).trades) ::
              var row := AsMap(RowsFor(input, bs).trades)[t];
              row.tradingAccountId == p && row.workspaceId == input.workspaceId
  {
    hide AllBuilt, WellBuilt, FlatMap, AsMap;
    forall t | t in AsMap(RowsFor(input, bs).trades)
      ensures var row := AsMap(RowsFor(input, bs).trades)[t];
              row.tradingAccountId == p && row.workspaceId == input.workspaceId && t in TradeIds(bs)
    {
      FixtureTradesArePopulated(input, p, bs, t);
    }
    forall i | 0 <= i < |bs|
      ensures bs[i].id in AsMap(RowsFor(input, bs).trades)
    {
      var j := FlatMapTarget(bs, TradeRowsOf(input.workspaceId), i, 0);
      AsMapContents(RowsFor(input, bs).trades);
    }
  }

  lemma ExitsBelong(input: SeedInput, p: Uuid, bs: seq<TradeBlueprint>, x: Uuid)
    requires Ideal(input.digest) && AllBuilt(input, p, bs) && x in AsMap(RowsFor(input, bs).exits)
    ensures AsMap(RowsFor(input, bs).exits)[x].tradeId in TradeIds(bs)
  {
    hide AllBuilt, WellBuilt, FlatMap, AsMap, ExitUnique;
    ExitRowsUnique(input, p, bs);
    var j := AsMapSource(RowsFor(input, bs).exits, x);
    var i, k := ExitRowAt(input.workspaceId, bs, j);
  }

  lemma ChecksBelong(input: SeedInput, p: Uuid, bs: seq<TradeBlueprint>, x: Uuid)
    requires Prepared(input) && AllBuilt(input, p, bs) && x in AsMap(RowsFor(input, bs).checks)
    ensures AsMap(RowsFor(input, bs).checks)[x].tradeId in TradeIds(bs)
  {
    hide AllBuilt, WellBuilt, FlatMap, AsMap, CheckUnique, Prepared, RuleStatus, RuleCheckId;
    CheckRowsUnique(input, p, bs);
    var j := AsMapSource(RowsFor(input, bs).checks, x);
    var i, k := CheckRowAt(input, bs, j);
  }

  lemma LinksBelong(input: SeedInput, bs: seq<TradeBlueprint>)
    ensures forall x | x in AsMap(RowsFor(input, bs).mistakes) :: x.0 in TradeIds(bs)
    ensures forall x | x in AsMap(RowsFor(input, bs).emotions) :: x.0 in TradeIds(bs)
  {
    hide FlatMap, AsMap, MistakeNote;
    var rows := RowsFor(input, bs);
    forall x | x in AsMap(rows.mistakes)
      ensures x.0 in TradeIds(bs)
    {
      var j := AsMapKey(rows.mistakes, x);
      var i, k := MistakeRowAt(input, bs, j);
    }
    forall x | x in AsMap(rows.emotions)
      ensures x.0 in TradeIds(bs)
    {
      var j := AsMapKey(rows.emotions, x);
      var i, k := EmotionRowAt(input, bs, j);
    }
  }

  lemma KeptKeysAreOthers(c: State, w: Uuid, p: Uuid, bs: seq<TradeBlueprint>, rows: FixtureRows)
    requires Ready(c, w, p, bs, rows)
    ensures forall x | x in c.exits :: x !in AsMap(rows.exits)
    ensures forall x | x in c.checks :: x !in AsMap(rows.checks)
  {
    hide AsMap, TradeIds, TradeKeys;
    AsMapContents(rows.exits);
    AsMapContents(rows.checks);
  }

  lemma RowsArePlaced(c: State, input: SeedInput, p: Uuid, bs: seq<TradeBlueprint>)
    requires Prepared(input) && AllBuilt(input, p, bs) && Ready(c, input.workspaceId, p, bs, RowsFor(input, bs))
    ensures Placed(c, AllOf(RowsFor(input, bs)), TradeIds(bs), input.workspaceId, p)
  {
    hide AllBuilt, RowsFor, AsMap, TradeIds, TradeKeys, Prepared;
    var rows := RowsFor(input, bs);
    PreparedIsIdeal(input);
    TradesBelong(input, p, bs);
    forall x | x in AsMap(rows.exits)
      ensures AsMap(rows.exits)[x].tradeId in TradeIds(bs)
    {
      ExitsBelong(input, p, bs, x);
    }
    forall x | x in AsMap(rows.checks)
      ensures AsMap(rows.checks)[x].tradeId in TradeIds(bs)
    {
      ChecksBelong(input, p, bs, x);
    }
    LinksBelong(input, bs);
    KeptKeysAreOthers(c, input.workspaceId, p, bs, rows);
  }

  // ---------------------------------------------------------- taking it apart

  function Combined(c: State, added: Contents): State {
    c.(trades := c.trades + added.trades, exits := c.exits + added.exits, checks := c.checks + added.checks,
       mistakes := c.mistakes + added.mistakes, emotions := c.emotions + added.emotions)
  }

  lemma CombinedUnder(c: State, added: Contents, ids: set<Uuid>, w: Uuid, r: Resolution)
    requires Placed(c, added, ids, w, r.populatedId) && Under(c, r) == {}
    ensures Under(Combined(c, added), r) == ids
    ensures r.emptyId != r.populatedId ==> TradesUnder(Combined(c, added), r.emptyId) == {}
  {
    forall t | t in c.trades
      ensures c.trades[t].tradingAccountId !in {r.emptyId, r.populatedId}
    {
      assert t !in Under(c, r);
    }
  }

  lemma TradesComeApart(c: State, added: Contents, ids: set<Uuid>)
    requires (forall t :: t in added.trades <==> t in ids) && (forall t | t in c.trades :: t !in ids)
    ensures Cascade(Combined(c, added), ids).trades == c.trades
    ensures Belonging(Combined(c, added), ids).trades == added.trades
  {
  }

  lemma ExitsComeApart(c: State, added: Contents, ids: set<Uuid>)
    requires forall x | x in c.exits :: c.exits[x].tradeId !in ids && x !in added.exits
    requires forall x | x in added.exits :: added.exits[x].tradeId in ids
    ensures Cascade(Combined(c, added), ids).exits == c.exits
    ensures Belonging(Combined(c, added), ids).exits == added.exits
  {
  }

  lemma ChecksComeApart(c: State, added: Contents, ids: set<Uuid>)
    requires forall x | x in c.checks :: c.checks[x].tradeId !in ids && x !in added.checks
    requires forall x | x in added.checks :: added.checks[x].tradeId in ids
    ensures Cascade(Combined(c, added), ids).checks == c.checks
    ensures Belonging(Combined(c, added), ids).checks == added.checks
  {
  }

  lemma MistakesComeApart(c: State, added: Contents, ids: set<Uuid>)
    requires (forall x | x in c.mistakes :: x.0 !in ids) && (forall x | x in added.mistakes :: x.0 in ids)
    ensures Cascade(Combined(c, added), ids).mistakes == c.mistakes
    ensures Belonging(Combined(c, added), ids).mistakes == added.mistakes
  {
  }

  lemma EmotionsComeApart(c: State, added: Contents, ids: set<Uuid>)
    requires (forall x | x in c.emotions :: x.0 !in ids) && (forall x | x in added.emotions :: x.0 in ids)
    ensures Cascade(Combined(c, added), ids).emotions == c.emotions
    ensures Belonging(Combined(c, added), ids).emotions == added.emotions
  {
  }

  lemma OtherTables(c: State, added: Contents, ids: set<Uuid>)
    ensures var s := Cascade(Combined(c, added), ids);
            s.accounts == c.accounts && s.snapshots == c.snapshots && s.journal == c.journal
  {
  }

  /** Removing the fixture trades gives back the kept rows; what belongs to them is what was inserted. */
  lemma CombinedComesApart(c: State, added: Contents, ids: set<Uuid>, w: Uuid, p: Uuid)
    requires Placed(c, added, ids, w, p)
    ensures Cascade(Combined(c, added), ids) == c
    ensures Belonging(Combined(c, added), ids) == added
  {
    hide Cascade, Belonging, Combined;
    TradesComeApart(c, added, ids);
    ExitsComeApart(c, added, ids);
    ChecksComeApart(c, added, ids);
    MistakesComeApart(c, added, ids);
    EmotionsComeApart(c, added, ids);
    OtherTables(c, added, ids);
  }

  // ---------------------------------------------------------- what a run does

  lemma CommittedParts(s: State, input: SeedInput, r: Resolution, now: int)
    requires Prepared(input) && Sound(s) && CanCommit(s, input) && r == Resolve(s, input).value
    ensures Settled(s.accounts, input.workspaceId, r)
    ensures AllBuilt(input, r.populatedId, FixtureBlueprints(input, r))
    ensures var c := Cascade(s.(accounts := Claimed(s.accounts, input, r, now)), Under(s, r));
            && Ready(c, input.workspaceId, r.populatedId, FixtureBlueprints(input, r), FixtureRowsOf(input, r))
            && Sound(s.(accounts := Claimed(s.accounts, input, r, now)))
  {
    hide Prepared, Sound, Settled, KeysFree, Foreign, Protected, Under, RowsFor, Claimed, Blueprints, Cascade, Ready;
    hide ResolveWith, LegacyVisualAccountIdentity, NormalisedAccountIdentity, AllBuilt, VisualAccountIdentity;
    var claimed := s.(accounts := Claimed(s.accounts, input, r, now));
    PreparedIsIdeal(input);
    ResolutionIsSound(s, input);
    BlueprintsAreBuilt(input, r.populatedId);
    ClaimedIsSound(s, input, r, now);
    ClaimedPopulated(s.accounts, input, r, now);
    AccountsPlayNoPart(s, claimed.accounts, input.workspaceId, r, FixtureBlueprints(input, r), FixtureRowsOf(input, r));
    GuardsClearTheWay(claimed, input.workspaceId, r, FixtureBlueprints(input, r), FixtureRowsOf(input, r));
  }

  lemma NoneLeftUnder(s: State, r: Resolution)
    ensures Under(Cascade(s, Under(s, r)), r) == {}
  {
  }

  /** The fixture trades are the only trades under the two accounts; taking them away leaves the kept rows. */
  lemma OutcomeComesApart(s: State, input: SeedInput, r: Resolution, now: int)
    requires Prepared(input) && Sound(s) && CanCommit(s, input) && r == Resolve(s, input).value
    ensures var after := Committed(s, input, r, now);
            && Under(after, r) == TradeIds(FixtureBlueprints(input, r))
            && TradesUnder(after, r.emptyId) == {}
            && Cascade(after, Under(after, r))
            == Cascade(s.(accounts := Claimed(s.accounts, input, r, now)), Under(s, r))
            && Belonging(after, Under(after, r)) == AllOf(FixtureRowsOf(input, r))
  {
    hide Prepared, Sound, KeysFree, Foreign, Protected, Under, RowsFor, Claimed, Blueprints, Cascade, Ready, TradesUnder;
    hide Resolve, AllBuilt, AsMap, Belonging, TradeIds, Named, OwnedOrFree, CanCommit;
    var claimed := s.(accounts := Claimed(s.accounts, input, r, now));
    PreparedIsIdeal(input);
    var bs, rows := FixtureBlueprints(input, r), FixtureRowsOf(input, r);
    CommittedParts(s, input, r, now);
    var c := Cascade(claimed, Under(s, r));
    AccountsPlayNoPart(s, claimed.accounts, input.workspaceId, r, bs, rows);
    NoneLeftUnder(claimed, r);
    RowsArePlaced(c, input, r.populatedId, bs);
    hide Placed;
    CombinedUnder(c, AllOf(rows), TradeIds(bs), input.workspaceId, r);
    CombinedComesApart(c, AllOf(rows), TradeIds(bs), input.workspaceId, r.populatedId);
  }

  lemma WhatCommits(s: State, input: SeedInput, now: int)
    requires Prepared(input) && Sound(s) && Transaction(s, input, now).Ok?
    ensures CanCommit(s, input) && Resolve(s, input).Ok?
    ensures Transaction(s, input, now).value == Committed(s, input, Resolve(s, input).value, now)
  {
    hide Prepared, Sound, Resolve, Transaction, Committed, KeysFree, Foreign, Protected, FixtureRowsOf, FixtureBlueprints;
    CommitsExactlyWhen(s, input, now);
  }

  lemma CascadeLeavesAccounts(s: State, accounts: map<Uuid, Account>, doomed: set<Uuid>)
    ensures Cascade(s.(accounts := accounts), doomed) == Cascade(s, doomed).(accounts := accounts)
  {
  }

  lemma OutsideIsKept(s: State, after: State, claimed: map<Uuid, Account>, r: Resolution)
    requires Cascade(after, Under(after, r)) == Cascade(s.(accounts := claimed), Under(s, r))
    requires after.accounts == claimed
    requires claimed - {r.emptyId, r.populatedId} == s.accounts - {r.emptyId, r.populatedId}
    ensures Outside(after, r) == Outside(s, r)
  {
    OutsideIsCascade(s, r);
    OutsideIsCascade(after, r);
    hide Cascade, Under, Outside;
    CascadeLeavesAccounts(after, after.accounts - {r.emptyId, r.populatedId}, Under(after, r));
    CascadeLeavesAccounts(s, s.accounts - {r.emptyId, r.populatedId}, Under(s, r));
    CascadeLeavesAccounts(s, claimed, Under(s, r));
  }

  lemma OthersNotClaimed(accounts: map<Uuid, Account>, input: SeedInput, r: Resolution, now: int)
    ensures Claimed(accounts, input, r, now) - {r.emptyId, r.populatedId} == accounts - {r.emptyId, r.populatedId}
  {
    hide EmptyRow, PopulatedRow;
  }

  /** Frame: every other account, and every row that is not under the two accounts, is as it was. */
  lemma NothingElseChanges(s: State, input: SeedInput, now: int)
    requires Prepared(input) && Sound(s) && Transaction(s, input, now).Ok?
    ensures Resolve(s, input).Ok?
    ensures Outside(Transaction(s, input, now).value, Resolve(s, input).value)
         == Outside(s, Resolve(s, input).value)
  {
    hide Prepared, Sound, CanCommit, Resolve, Transaction, FixtureRowsOf, Under, Cascade, Claimed, Outside, Belonging, AllOf;
    hide TradesUnder, TradeIds, FixtureBlueprints;
    PreparedIsIdeal(input);
    WhatCommits(s, input, now);
    var r := Resolve(s, input).value;
    OutcomeComesApart(s, input, r, now);
    OthersNotClaimed(s.accounts, input, r, now);
    CommittedAccounts(s, input, r, now);
    hide Committed;
    OutsideIsKept(s, Committed(s, input, r, now), Claimed(s.accounts, input, r, now), r);
  }

  lemma CommittedAccounts(s: State, input: SeedInput, r: Resolution, now: int)
    requires |input.framework.setups| == 3
    ensures Committed(s, input, r, now).accounts == Claimed(s.accounts, input, r, now)
    ensures Committed(s, input, r, now).snapshots == s.snapshots
    ensures Committed(s, input, r, now).journal == s.journal
  {
    hide Claimed, FixtureRowsOf, Under, AsMap;
  }

  /**
   Exactness: the empty account has no trades, and what lies under the populated account is exactly
   the blueprint's trades, exits, rule checks, mistakes and emotions, each once.
   */
  lemma ExactlyTheBlueprint(s: State, input: SeedInput, now: int)
    requires Prepared(input) && Sound(s) && Transaction(s, input, now).Ok?
    ensures Resolve(s, input).Ok?
    ensures var r := Resolve(s, input).value;
            var after, rows := Transaction(s, input, now).value, FixtureRowsOf(input, r);
            && TradesUnder(after, r.emptyId) == {}
            && HoldsExactly(Belonging(after, TradesUnder(after, r.populatedId)).trades, rows.trades)
            && HoldsExactly(Belonging(after, TradesUnder(after, r.populatedId)).exits, rows.exits)
            && HoldsExactly(Belonging(after, TradesUnder(after, r.populatedId)).checks, rows.checks)
            && HoldsExactly(Belonging(after, TradesUnder(after, r.populatedId)).mistakes, rows.mistakes)
            && HoldsExactly(Belonging(after, TradesUnder(after, r.populatedId)).emotions, rows.emotions)
  {
    hide Prepared, Sound, CanCommit, Resolve, Transaction, RowsFor, Under, TradesUnder, Cascade, Committed, Claimed;
    hide Belonging, HoldsExactly, AsMap, Blueprints, AllBuilt, PairwiseUnique;
    PreparedIsIdeal(input);
    WhatCommits(s, input, now);
    var r := Resolve(s, input).value;
    var after, rows := Committed(s, input, r, now), FixtureRowsOf(input, r);
    OutcomeComesApart(s, input, r, now);
    OnlyThePopulated(after, r);
    BlueprintsAreBuilt(input, r.populatedId);
    RowsHeld(input, r.populatedId, FixtureBlueprints(input, r));
  }

  lemma OnlyThePopulated(s: State, r: Resolution)
    requires TradesUnder(s, r.emptyId) == {}
    ensures Under(s, r) == TradesUnder(s, r.populatedId)
  {
    forall t | t in s.trades
      ensures s.trades[t].tradingAccountId != r.emptyId
    {
      assert t !in TradesUnder(s, r.emptyId);
    }
  }

  lemma RowsHeld(input: SeedInput, p: Uuid, bs: seq<TradeBlueprint>)
    requires Prepared(input) && AllBuilt(input, p, bs)
    ensures var rows := RowsFor(input, bs);
            && HoldsExactly(AsMap(rows.trades), rows.trades)
            && HoldsExactly(AsMap(rows.exits), rows.exits)
            && HoldsExactly(AsMap(rows.checks), rows.checks)
            && HoldsExactly(AsMap(rows.mistakes), rows.mistakes)
            && HoldsExactly(AsMap(rows.emotions), rows.emotions)
  {
    hide AllBuilt, Prepared, FlatMap, AsMap, HoldsExactly, PairwiseUnique;
    hide TradeUnique, ExitUnique, CheckUnique, MistakeUnique, EmotionUnique;
    hide TradeRowsOf, ExitRowsOf, CheckRowsOf, MistakeRowsOf, EmotionRowsOf;
    var rows := RowsFor(input, bs);
    PreparedIsIdeal(input);
    TradeRowsUnique(input, p, bs);
    ExitRowsUnique(input, p, bs);
    CheckRowsUnique(input, p, bs);
    MistakeRowsUnique(input, p, bs);
    EmotionRowsUnique(input, p, bs);
    AsMapHoldsExactly(rows.trades, TradeUnique);
    AsMapHoldsExactly(rows.exits, ExitUnique);
    AsMapHoldsExactly(rows.checks, CheckUnique);
    AsMapHoldsExactly(rows.mistakes, MistakeUnique);
    AsMapHoldsExactly(rows.emotions, EmotionUnique);
  }

  /** The two accounts themselves: every written column as the seed sets it, the rest kept or defaulted. */
  lemma AccountsAreClaimed(s: State, input: SeedInput, now: int)
    requires Prepared(input) && Sound(s) && Transaction(s, input, now).Ok?
    ensures Resolve(s, input).Ok?
    ensures var r := Resolve(s, input).value;
            var after := Transaction(s, input, now).value.accounts;
            && r.emptyId in after && r.populatedId in after && r.emptyId != r.populatedId
            && after[r.emptyId] == Account(input.workspaceId, EMPTY_NAME, "live", "USD", "10000.0000000000",
                 input.timezone, false, r.identities.emptyMutationKey,
                 if r.emptyId in s.accounts then s.accounts[r.emptyId].untouched else "", now)
            && after[r.populatedId] == Account(input.workspaceId, POPULATED_NAME, "live", "USD", "10000.0000000000",
                 input.timezone, false, r.identities.populatedMutationKey,
                 if r.populatedId in s.accounts then s.accounts[r.populatedId].untouched else "", now)
  {
    hide *;
    PreparedIsIdeal(input);
    WhatCommits(s, input, now);
    var r := Resolve(s, input).value;
    CommittedAccounts(s, input, r, now);
    CommittedParts(s, input, r, now);
    ClaimedExactly(s.accounts, input, r, now);
  }

  lemma ClaimedExactly(accounts: map<Uuid, Account>, input: SeedInput, r: Resolution, now: int)
    requires Settled(accounts, input.workspaceId, r)
    ensures r.emptyId != r.populatedId
    ensures var after := Claimed(accounts, input, r, now);
            && r.emptyId in after && r.populatedId in after
            && after[r.emptyId] == Account(input.workspaceId, EMPTY_NAME, "live", "USD", "10000.0000000000",
                 input.timezone, false, r.identities.emptyMutationKey,
                 if r.emptyId in accounts then accounts[r.emptyId].untouched else "", now)
            && after[r.populatedId] == Account(input.workspaceId, POPULATED_NAME, "live", "USD", "10000.0000000000",
                 input.timezone, false, r.identities.populatedMutationKey,
                 if r.populatedId in accounts then accounts[r.populatedId].untouched else "", now)
  {
    hide Named, OwnedOrFree, EMPTY_NAME, POPULATED_NAME;
  }
}
