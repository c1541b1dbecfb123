/**
 Running the seed again: a committed database is sound, resolves to the same two accounts and
 is left as it is, whichever legacy identity the first run had to migrate.
 */
module SeedRerun {
  import opened Wrappers
  import opened Identity
  import opened Blueprint
  import opened Tables
  import opened SeedDatabase
  import opened SeedRows
  import opened SeedTheorems
  import opened SeedFrame

  // --------------------------------------------------------------- soundness

  lemma TradesStaySound(c: State, input: SeedInput, p: Uuid, bs: seq<TradeBlueprint>)
    requires Ideal(input.digest) && AllBuilt(input, p, bs) && TradesSound(c)
    requires Ready(c, input.workspaceId, p, bs, RowsFor(input, bs))
    ensures TradesSound(Filled(c, RowsFor(input, bs)))
  {
    hide AllBuilt, Ready, RowsFor, AsMap, InsertRows, Landed, TradeUnique, TradeValidator;
    var rows := RowsFor(input, bs);
    TradesGoIn(c, input, p, bs, rows);
    TradeUniqueIsSymmetric();
    InsertKeepsUnique(c.trades, rows.trades, TradeUnique, TradeValidator(c.accounts));
    forall t | t in AsMap(rows.trades)
      ensures var row := AsMap(rows.trades)[t];
              row.tradingAccountId in c.accounts && c.accounts[row.tradingAccountId].workspaceId == row.workspaceId
    {
      InsertedIsValid(c.trades, rows.trades, TradeUnique, TradeValidator(c.accounts), t);
      ValidTrade(c.accounts, (t, AsMap(rows.trades)[t]));
    }
  }

  lemma TradeUniqueIsSymmetric()
    ensures forall x, y :: TradeUnique(x, y) ==> TradeUnique(y, x)
    ensures forall x, y :: ExitUnique(x, y) ==> ExitUnique(y, x)
    ensures forall x, y :: CheckUnique(x, y) ==> CheckUnique(y, x)
  {
  }

  lemma ValidTrade(accounts: map<Uuid, Account>, row: Row<Uuid, TradeRow>)
    requires TradeValidator(accounts)(row)
    ensures row.1.tradingAccountId in accounts
         && accounts[row.1.tradingAccountId].workspaceId == row.1.workspaceId
  {
    hide SatisfiesTradeChecks;
  }

  lemma ExitsStaySound(c: State, input: SeedInput, p: Uuid, bs: seq<TradeBlueprint>)
    requires Ideal(input.digest) && AllBuilt(input, p, bs) && ExitsSound(c)
    requires Ready(c, input.workspaceId, p, bs, RowsFor(input, bs))
    ensures ExitsSound(Filled(c, RowsFor(input, bs)))
  {
    hide AllBuilt, Ready, RowsFor, AsMap, InsertRows, Landed, ExitUnique, ExitValidator, TradeUnique, TradeValidator;
    hide ChildValid;
    var rows := RowsFor(input, bs);
    var trades := c.trades + AsMap(rows.trades);
    TradesGoIn(c, input, p, bs, rows);
    ExitsGoIn(c, trades, input, p, bs, rows);
    TradeUniqueIsSymmetric();
    InsertKeepsUnique(c.exits, rows.exits, ExitUnique, ExitValidator(trades));
    forall x | x in c.exits + AsMap(rows.exits)
      ensures var row := (c.exits + AsMap(rows.exits))[x]; ChildValid(trades, row.tradeId, row.workspaceId)
    {
      if x in AsMap(rows.exits) {
        InsertedIsValid(c.exits, rows.exits, ExitUnique, ExitValidator(trades), x);
        ValidExit(trades, (x, AsMap(rows.exits)[x]));
      } else {
        KeptChildIsValid(c, input, p, bs, c.exits[x].tradeId, c.exits[x].workspaceId);
      }
    }
  }

  lemma ValidExit(trades: map<Uuid, TradeRow>, row: Row<Uuid, ExitRow>)
    requires ExitValidator(trades)(row)
    ensures ChildValid(trades, row.1.tradeId, row.1.workspaceId)
  {
  }

  lemma ValidCheck(trades: map<Uuid, TradeRow>, row: Row<Uuid, CheckRow>)
    requires CheckValidator(trades)(row)
    ensures ChildValid(trades, row.1.tradeId, row.1.workspaceId)
  {
  }

  lemma KeptChildIsValid(c: State, input: SeedInput, p: Uuid, bs: seq<TradeBlueprint>, trade: Uuid, w: Uuid)
    requires Ideal(input.digest) && AllBuilt(input, p, bs) && ChildValid(c.trades, trade, w)
    requires Ready(c, input.workspaceId, p, bs, RowsFor(input, bs))
    ensures ChildValid(c.trades + AsMap(RowsFor(input, bs).trades), trade, w)
  {
    hide AllBuilt, RowsFor, AsMap, TradeIds, TradeKeys;
    TradesBelong(input, p, bs);
  }

  lemma ChecksStaySound(c: State, input: SeedInput, p: Uuid, bs: seq<TradeBlueprint>)
    requires Prepared(input) && AllBuilt(input, p, bs) && ChecksSound(c)
    requires Ready(c, input.workspaceId, p, bs, RowsFor(input, bs))
    ensures ChecksSound(Filled(c, RowsFor(input, bs)))
  {
    hide AllBuilt, Ready, RowsFor, AsMap, InsertRows, Landed, CheckUnique, CheckValidator, TradeUnique, TradeValidator;
    hide ChildValid, Prepared;
    var rows := RowsFor(input, bs);
    var trades := c.trades + AsMap(rows.trades);
    PreparedIsIdeal(input);
    TradesGoIn(c, input, p, bs, rows);
    ChecksGoIn(c, trades, input, p, bs, rows);
    TradeUniqueIsSymmetric();
    InsertKeepsUnique(c.checks, rows.checks, CheckUnique, CheckValidator(trades));
    forall x | x in c.checks + AsMap(rows.checks)
      ensures var row := (c.checks + AsMap(rows.checks))[x]; ChildValid(trades, row.tradeId, row.workspaceId)
    {
      if x in AsMap(rows.checks) {
        InsertedIsValid(c.checks, rows.checks, CheckUnique, CheckValidator(trades), x);
        ValidCheck(trades, (x, AsMap(rows.checks)[x]));
      } else {
        KeptChildIsValid(c, input, p, bs, c.checks[x].tradeId, c.checks[x].workspaceId);
      }
    }
  }

  lemma LinksStaySound(c: State, input: SeedInput, p: Uuid, bs: seq<TradeBlueprint>)
    requires Prepared(input) && AllBuilt(input, p, bs) && LinksSound(c)
    requires Ready(c, input.workspaceId, p, bs, RowsFor(input, bs))
    ensures LinksSound(Filled(c, RowsFor(input, bs)))
  {
    hide AllBuilt, Ready, RowsFor, AsMap, InsertRows, Landed, TradeUnique, TradeValidator;
    hide MistakeUnique, EmotionUnique, MistakeValidator, EmotionValidator, ChildValid, Prepared;
    var rows := RowsFor(input, bs);
    var trades := c.trades + AsMap(rows.trades);
    PreparedIsIdeal(input);
    TradesGoIn(c, input, p, bs, rows);
    MistakesGoIn(c, trades, input, p, bs, rows);
    EmotionsGoIn(c, trades, input, p, bs, rows);
    forall x | x in c.mistakes + AsMap(rows.mistakes)
      ensures ChildValid(trades, x.0, (c.mistakes + AsMap(rows.mistakes))[x].workspaceId)
    {
      if x in AsMap(rows.mistakes) {
        InsertedIsValid(c.mistakes, rows.mistakes, MistakeUnique, MistakeValidator(trades), x);
        ValidMistake(trades, (x, AsMap(rows.mistakes)[x]));
      } else {
        KeptChildIsValid(c, input, p, bs, x.0, c.mistakes[x].workspaceId);
      }
    }
    forall x | x in c.emotions + AsMap(rows.emotions)
      ensures ChildValid(trades, x.0, (c.emotions + AsMap(rows.emotions))[x].workspaceId)
    {
      if x in AsMap(rows.emotions) {
        InsertedIsValid(c.emotions, rows.emotions, EmotionUnique, EmotionValidator(trades), x);
        ValidEmotion(trades, (x, AsMap(rows.emotions)[x]));
      } else {
        KeptChildIsValid(c, input, p, bs, x.0, c.emotions[x].workspaceId);
      }
    }
  }

  lemma ValidMistake(trades: map<Uuid, TradeRow>, row: Row<(Uuid, Uuid), MistakeRow>)
    requires MistakeValidator(trades)(row)
    ensures ChildValid(trades, row.0.0, row.1.workspaceId)
  {
  }

  lemma ValidEmotion(trades: map<Uuid, TradeRow>, row: Row<(Uuid, Uuid), EmotionRow>)
    requires EmotionValidator(trades)(row)
    ensures ChildValid(trades, row.0.0, row.1.workspaceId)
  {
  }

  lemma CascadeKeepsTradesSound(s: State, doomed: set<Uuid>)
    requires TradesSound(s)
    ensures TradesSound(Cascade(s, doomed))
  {
    hide TradeUnique;
  }

  lemma CascadeKeepsExitsSound(s: State, doomed: set<Uuid>)
    requires ExitsSound(s)
    ensures ExitsSound(Cascade(s, doomed))
  {
    hide ExitUnique;
  }

  lemma CascadeKeepsChecksSound(s: State, doomed: set<Uuid>)
    requires ChecksSound(s)
    ensures ChecksSound(Cascade(s, doomed))
  {
    hide CheckUnique;
  }

  lemma CascadeKeepsLinksSound(s: State, doomed: set<Uuid>)
    requires LinksSound(s) && !Protected(s, doomed)
    ensures LinksSound(Cascade(s, doomed))
  {
  }

  /** The delete breaks no key and no foreign key, a trade with a snapshot being kept. */
  lemma CascadeIsSound(s: State, doomed: set<Uuid>)
    requires Sound(s) && !Protected(s, doomed)
    ensures Sound(Cascade(s, doomed))
  {
    hide AccountsUnique, TradesSound, ExitsSound, ChecksSound, LinksSound, Protected;
    CascadeKeepsTradesSound(s, doomed);
    CascadeKeepsExitsSound(s, doomed);
    CascadeKeepsChecksSound(s, doomed);
    CascadeKeepsLinksSound(s, doomed);
  }

  /** Every key and foreign key of the database still holds after a commit. */
  lemma CommitKeepsSound(s: State, input: SeedInput, now: int)
    requires Prepared(input) && Sound(s) && Transaction(s, input, now).Ok?
    ensures Sound(Transaction(s, input, now).value)
  {
    hide Prepared, Resolve, Transaction, KeysFree, Foreign, Under, Cascade, RowsFor, Claimed, Protected, Filled;
    hide AllBuilt, Ready, Settled, Blueprints, AccountsUnique, TradesSound, ExitsSound, ChecksSound, LinksSound, Sound;
    PreparedIsIdeal(input);
    WhatCommits(s, input, now);
    var r := Resolve(s, input).value;
    var claimed := s.(accounts := Claimed(s.accounts, input, r, now));
    CommittedParts(s, input, r, now);
    SnapshotsPlayOn(s, claimed, Under(s, r));
    CascadeIsSound(claimed, Under(s, r));
    FilledIsSound(Cascade(claimed, Under(s, r)), input, r.populatedId, FixtureBlueprints(input, r));
  }

  lemma SnapshotsPlayOn(s: State, t: State, doomed: set<Uuid>)
    requires s.snapshots == t.snapshots
    ensures Protected(s, doomed) == Protected(t, doomed)
  {
  }

  lemma FilledIsSound(c: State, input: SeedInput, p: Uuid, bs: seq<TradeBlueprint>)
    requires Prepared(input) && AllBuilt(input, p, bs) && Sound(c)
    requires Ready(c, input.workspaceId, p, bs, RowsFor(input, bs))
    ensures Sound(Filled(c, RowsFor(input, bs)))
  {
    hide Prepared, AllBuilt, Ready, RowsFor, AsMap, AccountsUnique, TradesSound, ExitsSound, ChecksSound, LinksSound;
    PreparedIsIdeal(input);
    TradesStaySound(c, input, p, bs);
    ExitsStaySound(c, input, p, bs);
    ChecksStaySound(c, input, p, bs);
    LinksStaySound(c, input, p, bs);
  }

  // ------------------------------------------------------------- idempotence

  /** The second lookup finds the two accounts by name, whatever the first one went by. */
  lemma ResolvesAgain(accounts: map<Uuid, Account>, input: SeedInput, r: Resolution, now: int,
                      i: AccountIdentity, legacy: AccountIdentity)
    requires Settled(accounts, input.workspaceId, r) && r.identities == i
    ensures ResolveWith(Claimed(accounts, input, r, now), input.workspaceId, i, legacy) == Ok(r)
  {
    hide Named, EmptyRow, PopulatedRow, EMPTY_NAME, POPULATED_NAME, ResolveId, NameStop;
    var after, w := Claimed(accounts, input, r, now), input.workspaceId;
    ClaimedRows(accounts, input, r, now);
    NamedAfter(accounts, input, r, now);
    FoundByName(after, w, EMPTY_NAME, r.emptyId, i.emptyId, i.emptyMutationKey, legacy.emptyMutationKey);
    FoundByName(after, w, POPULATED_NAME, r.populatedId, i.populatedId, i.populatedMutationKey, legacy.populatedMutationKey);
    StillOwned(accounts, input, r, now);
  }

  lemma StillOwned(accounts: map<Uuid, Account>, input: SeedInput, r: Resolution, now: int)
    requires Settled(accounts, input.workspaceId, r)
    ensures OwnedOrFree(Claimed(accounts, input, r, now), input.workspaceId,
                        r.identities.emptyId, r.identities.emptyMutationKey)
    ensures OwnedOrFree(Claimed(accounts, input, r, now), input.workspaceId,
                        r.identities.populatedId, r.identities.populatedMutationKey)
  {
    hide EmptyRow, PopulatedRow, EMPTY_NAME, POPULATED_NAME;
    ClaimedRows(accounts, input, r, now);
    UnnamedIfAbsent(accounts, input.workspaceId, EMPTY_NAME, r.emptyId);
    UnnamedIfAbsent(accounts, input.workspaceId, POPULATED_NAME, r.populatedId);
  }

  lemma UnnamedIfAbsent(accounts: map<Uuid, Account>, w: Uuid, name: string, id: Uuid)
    requires Named(accounts, w, name) <= {id}
    ensures id !in accounts ==> Named(accounts, w, name) == {}
  {
  }

  lemma NamedAfter(accounts: map<Uuid, Account>, input: SeedInput, r: Resolution, now: int)
    requires Settled(accounts, input.workspaceId, r)
    ensures Named(Claimed(accounts, input, r, now), input.workspaceId, EMPTY_NAME) == {r.emptyId}
    ensures Named(Claimed(accounts, input, r, now), input.workspaceId, POPULATED_NAME) == {r.populatedId}
  {
    hide OwnedOrFree, EmptyRow, PopulatedRow, EMPTY_NAME, POPULATED_NAME;
    NamesDiffer();
    ClaimedRows(accounts, input, r, now);
    OthersNamed(accounts, input.workspaceId, EMPTY_NAME, r.emptyId);
    OthersNamed(accounts, input.workspaceId, POPULATED_NAME, r.populatedId);
    var after, w := Claimed(accounts, input, r, now), input.workspaceId;
    forall a
      ensures a in Named(after, w, EMPTY_NAME) <==> a == r.emptyId
      ensures a in Named(after, w, POPULATED_NAME) <==> a == r.populatedId
    {
    }
  }

  lemma OthersNamed(accounts: map<Uuid, Account>, w: Uuid, name: string, id: Uuid)
    requires Named(accounts, w, name) <= {id}
    ensures forall a | a in accounts && a != id && accounts[a].workspaceId == w :: accounts[a].name != name
  {
    forall a | a in accounts && a != id && accounts[a].workspaceId == w
      ensures accounts[a].name != name
    {
      assert a !in Named(accounts, w, name);
    }
  }

  lemma FoundByName(accounts: map<Uuid, Account>, w: Uuid, name: string, id: Uuid, derivedId: Uuid,
                    key: Uuid, legacyKey: Uuid)
    requires Named(accounts, w, name) == {id} && accounts[id].mutationKey == key
    ensures NameStop(accounts, w, name, key, legacyKey).None?
    ensures ResolveId(accounts, w, name, derivedId) == id
  {
    assert id in Named(accounts, w, name);
    OnlyPick(Named(accounts, w, name), id);
  }

  /** The same accounts with a later updated_at on the two fixture accounts. */
  function Touched(accounts: map<Uuid, Account>, r: Resolution, later: int): map<Uuid, Account>
    requires r.emptyId in accounts && r.populatedId in accounts
  {
    accounts[r.emptyId := accounts[r.emptyId].(updatedAt := later)]
            [r.populatedId := accounts[r.populatedId].(updatedAt := later)]
  }

  /** Claiming twice is claiming once, but for updated_at. */
  lemma ClaimsAgain(accounts: map<Uuid, Account>, input: SeedInput, r: Resolution, now: int, later: int)
    requires Settled(accounts, input.workspaceId, r) && KeysFree(accounts, input.workspaceId, r)
    ensures KeysFree(Claimed(accounts, input, r, now), input.workspaceId, r)
    ensures Claimed(Claimed(accounts, input, r, now), input, r, later) == Claimed(accounts, input, r, later)
    ensures Claimed(accounts, input, r, later) == Touched(Claimed(accounts, input, r, now), r, later)
  {
    hide Named, OwnedOrFree, EMPTY_NAME, POPULATED_NAME;
    ClaimedRows(accounts, input, r, now);
  }

  lemma NoTradeForeign(c: State, added: Contents, w: Uuid, r: Resolution, bs: seq<TradeBlueprint>, rows: FixtureRows)
    requires Ready(c, w, r.populatedId, bs, rows) && Placed(c, added, TradeIds(bs), w, r.populatedId)
    ensures !ForeignTrade(Combined(c, added), w, r, bs)
    ensures forall t | t in added.trades ::
              t in Combined(c, added).trades && OwnTrade(Combined(c, added).trades[t], w, r)
  {
    hide TradeIds, TradeKeys;
  }

  lemma NoExitForeign(c: State, added: Contents, w: Uuid, r: Resolution, bs: seq<TradeBlueprint>, rows: FixtureRows)
    requires Ready(c, w, r.populatedId, bs, rows) && Placed(c, added, TradeIds(bs), w, r.populatedId)
    ensures !ForeignExit(Combined(c, added), w, r, rows.exits)
  {
    hide TradeIds, TradeKeys, ForeignTrade, OwnTrade;
    NoTradeForeign(c, added, w, r, bs, rows);
    var s := Combined(c, added);
    forall x | x in s.exits && s.exits[x].tradeId in s.trades && !OwnTrade(s.trades[s.exits[x].tradeId], w, r)
      ensures forall i | 0 <= i < |rows.exits| ::
                rows.exits[i].0 != x && !(s.exits[x].workspaceId == w && s.exits[x].mutationKey == rows.exits[i].1.mutationKey)
    {
    }
  }

  lemma NoCheckForeign(c: State, added: Contents, w: Uuid, r: Resolution, bs: seq<TradeBlueprint>, rows: FixtureRows)
    requires Ready(c, w, r.populatedId, bs, rows) && Placed(c, added, TradeIds(bs), w, r.populatedId)
    ensures !ForeignCheck(Combined(c, added), w, r, rows.checks)
  {
    hide TradeIds, TradeKeys, ForeignTrade, OwnTrade;
    NoTradeForeign(c, added, w, r, bs, rows);
    var s := Combined(c, added);
    forall x | x in s.checks && s.checks[x].tradeId in s.trades && !OwnTrade(s.trades[s.checks[x].tradeId], w, r)
      ensures forall i | 0 <= i < |rows.checks| :: rows.checks[i].0 != x
    {
    }
  }

  /** No row the first run inserted, and no row it kept, is foreign to the second run. */
  lemma NothingForeign(c: State, added: Contents, r: Resolution, input: SeedInput, bs: seq<TradeBlueprint>)
    requires Ready(c, input.workspaceId, r.populatedId, bs, RowsFor(input, bs))
    requires Placed(c, added, TradeIds(bs), input.workspaceId, r.populatedId)
    ensures !Foreign(Combined(c, added), input.workspaceId, r, bs, RowsFor(input, bs))
  {
    hide Ready, Placed, RowsFor, TradeIds, Combined, ForeignTrade, ForeignExit, ForeignCheck;
    NoTradeForeign(c, added, input.workspaceId, r, bs, RowsFor(input, bs));
    NoExitForeign(c, added, input.workspaceId, r, bs, RowsFor(input, bs));
    NoCheckForeign(c, added, input.workspaceId, r, bs, RowsFor(input, bs));
  }

  /** A snapshot hangs on a kept trade, so the second delete is allowed as well. */
  lemma NothingProtected(s: State, c: State, added: Contents, ids: set<Uuid>, w: Uuid, r: Resolution)
    requires LinksSound(s) && !Protected(s, Under(s, r)) && Placed(c, added, ids, w, r.populatedId)
    requires c.trades == Cascade(s, Under(s, r)).trades && c.snapshots == s.snapshots
    ensures !Protected(Combined(c, added), ids)
  {
    forall x | x in s.snapshots
      ensures s.snapshots[x] !in ids
    {
      assert s.snapshots[x] in c.trades;
    }
  }

  /**
   Idempotence: a second run with the same input resolves the same two accounts, commits, and
   changes nothing but their updated_at.
   */
  lemma SecondRunChangesNothing(s: State, input: SeedInput, now: int, later: int)
    requires Prepared(input) && Sound(s) && Transaction(s, input, now).Ok?
    ensures Resolve(s, input).Ok?
    ensures Resolve(Transaction(s, input, now).value, input) == Resolve(s, input)
    ensures var first, r := Transaction(s, input, now).value, Resolve(s, input).value;
            && r.emptyId in first.accounts && r.populatedId in first.accounts
            && Transaction(first, input, later) == Ok(first.(accounts := Touched(first.accounts, r, later)))
  {
    hide Prepared, Sound, CanCommit, Resolve, Transaction, FixtureRowsOf, FixtureBlueprints, Claimed, Touched, Committed;
    PreparedIsIdeal(input);
    WhatCommits(s, input, now);
    var r := Resolve(s, input).value;
    var first := Committed(s, input, r, now);
    RerunResolves(s, input, r, now);
    RerunCommits(s, input, r, now);
    CommitKeepsSound(s, input, now);
    CommitsExactlyWhen(first, input, later);
    RerunOutcome(s, input, r, now, later);
  }

  lemma RerunResolves(s: State, input: SeedInput, r: Resolution, now: int)
    requires Prepared(input) && Sound(s) && CanCommit(s, input) && r == Resolve(s, input).value
    ensures Resolve(Committed(s, input, r, now), input) == Ok(r)
  {
    hide Prepared, Sound, KeysFree, Foreign, Protected, RowsFor, Claimed, Blueprints, Committed, FixtureRowsOf, Settled;
    hide ResolveWith, LegacyVisualAccountIdentity, NormalisedAccountIdentity, AllBuilt;
    PreparedIsIdeal(input);
    ResolutionIsSound(s, input);
    CommittedAccounts(s, input, r, now);
    ResolvesAgain(s.accounts, input, r, now, r.identities,
                  LegacyVisualAccountIdentity(input.digest, input.normalise, input.targetEmail));
  }

  lemma RerunCommits(s: State, input: SeedInput, r: Resolution, now: int)
    requires Prepared(input) && Sound(s) && CanCommit(s, input) && r == Resolve(s, input).value
    ensures CanCommit(Committed(s, input, r, now), input)
  {
    hide Prepared, Resolve, KeysFree, Foreign, RowsFor, Claimed, Blueprints, Settled, Under, Cascade, AsMap, Protected;
    hide AllBuilt, Ready, Placed, TradeIds, AccountsUnique, TradesSound, ExitsSound, ChecksSound, LinksSound;
    PreparedIsIdeal(input);
    var bs, rows := FixtureBlueprints(input, r), FixtureRowsOf(input, r);
    var claimed := s.(accounts := Claimed(s.accounts, input, r, now));
    var c := Cascade(claimed, Under(s, r));
    CommittedParts(s, input, r, now);
    RowsArePlaced(c, input, r.populatedId, bs);
    RerunResolves(s, input, r, now);
    ClaimsAgain(s.accounts, input, r, now, now);
    NothingForeign(c, AllOf(rows), r, input, bs);
    OutcomeComesApart(s, input, r, now);
    CascadeLeavesAccounts(s, claimed.accounts, Under(s, r));
    CommittedAccounts(s, input, r, now);
    SnapshotsAreKept(claimed, Under(s, r));
    NothingProtected(s, c, AllOf(rows), TradeIds(bs), input.workspaceId, r);
  }

  lemma SnapshotsAreKept(s: State, doomed: set<Uuid>)
    ensures Cascade(s, doomed).snapshots == s.snapshots && Cascade(s, doomed).accounts == s.accounts
  {
  }

  lemma RerunOutcome(s: State, input: SeedInput, r: Resolution, now: int, later: int)
    requires Prepared(input) && Sound(s) && CanCommit(s, input) && r == Resolve(s, input).value
    ensures var first := Committed(s, input, r, now);
            && r.emptyId in first.accounts && r.populatedId in first.accounts
            && Committed(first, input, r, later) == first.(accounts := Touched(first.accounts, r, later))
  {
    hide Prepared, Sound, CanCommit, Resolve, KeysFree, RowsFor, Under, Cascade, AsMap, Settled, AllBuilt, Ready;
    hide Belonging, TradesUnder, TradeIds, EmptyRow, PopulatedRow, Touched, Blueprints;
    PreparedIsIdeal(input);
    var first := Committed(s, input, r, now);
    CommittedParts(s, input, r, now);
    OutcomeComesApart(s, input, r, now);
    CommittedAccounts(s, input, r, now);
    CommitMeansKeysFree(s, input, r);
    ClaimsAgain(s.accounts, input, r, now, later);
    CascadeLeavesAccounts(first, Claimed(first.accounts, input, r, later), Under(first, r));
    hide Claimed;
  }

  lemma CommitMeansKeysFree(s: State, input: SeedInput, r: Resolution)
    requires Prepared(input) && CanCommit(s, input) && r == Resolve(s, input).value
    ensures KeysFree(s.accounts, input.workspaceId, r)
  {
    hide Prepared, KeysFree, Foreign, Protected, Resolve;
  }

  // -------------------------------------------------------------- snapshots

  lemma SnapshotChangesNothingElse(s: State, snapshots: map<Uuid, Uuid>, input: SeedInput, r: Resolution)
    requires |input.framework.setups| == 3
    ensures var marked := s.(snapshots := snapshots);
            && Resolve(marked, input) == Resolve(s, input)
            && Under(marked, r) == Under(s, r)
            && Foreign(marked, input.workspaceId, r, FixtureBlueprints(input, r), FixtureRowsOf(input, r))
            == Foreign(s, input.workspaceId, r, FixtureBlueprints(input, r), FixtureRowsOf(input, r))
  {
    hide FixtureRowsOf, FixtureBlueprints, TradeIds, TradeKeys, ResolveWith, LegacyVisualAccountIdentity;
    hide VisualAccountIdentity;
  }

  lemma MarkedIsSound(s: State, x: Uuid, t: Uuid)
    requires Sound(s) && t in s.trades
    ensures Sound(s.(snapshots := s.snapshots[x := t]))
  {
    hide TradeUnique, ExitUnique, CheckUnique, AccountsUnique, ChildValid;
  }

  /** Once any fixture trade has a condition snapshot, the next run rolls back because of it. */
  lemma SnapshotStopsTheNextRun(s: State, input: SeedInput, now: int, later: int, x: Uuid, t: Uuid)
    requires Prepared(input) && Sound(s) && Transaction(s, input, now).Ok? && Resolve(s, input).Ok?
    requires t in Under(Transaction(s, input, now).value, Resolve(s, input).value)
    ensures var after := Transaction(s, input, now).value;
            var marked := after.(snapshots := after.snapshots[x := t]);
            Sound(marked) && Transaction(marked, input, later) == Err(ProtectedSnapshot)
  {
    hide Prepared, Sound, Resolve, Transaction, FixtureRowsOf, FixtureBlueprints, KeysFree, Foreign, Committed, Touched;
    PreparedIsIdeal(input);
    var after, r := Transaction(s, input, now).value, Resolve(s, input).value;
    var marked := after.(snapshots := after.snapshots[x := t]);
    CommitKeepsSound(s, input, now);
    SecondRunChangesNothing(s, input, now, later);
    CommitsExactlyWhen(after, input, later);
    MarkedIsSound(after, x, t);
    SnapshotChangesNothingElse(after, marked.snapshots, input, r);
    assert marked.snapshots[x] == t && t in Under(marked, r);
    OutcomeOf(marked, input, later);
  }

  /** A sound database, reached from an empty one, on which the run ends in that STOP. */
  lemma ProtectedRunExists(input: SeedInput, journal: string, now: int) returns (s: State)
    requires Prepared(input) && input.normalise(input.targetEmail) != "" && input.normalise(input.workspaceId) != ""
    ensures Sound(s) && Transaction(s, input, now) == Err(ProtectedSnapshot)
  {
    hide Prepared, Sound, Resolve, Transaction, CanCommit, Committed, TradeIds, Under, Cascade, Claimed, Belonging, AllOf;
    hide FixtureRowsOf, FixtureBlueprints, TradesUnder;
    var empty := EmptyDatabase(journal);
    PreparedIsIdeal(input);
    EmptyDatabaseCommits(input, journal, now);
    WhatCommits(empty, input, now);
    var r := Resolve(empty, input).value;
    OutcomeComesApart(empty, input, r, now);
    var t := SomeTrade(input, r);
    SnapshotStopsTheNextRun(empty, input, now, now, "snapshot", t);
    var after := Transaction(empty, input, now).value;
    s := after.(snapshots := after.snapshots["snapshot" := t]);
  }

  lemma SomeTrade(input: SeedInput, r: Resolution) returns (t: Uuid)
    requires |input.framework.setups| == 3
    ensures t in TradeIds(FixtureBlueprints(input, r))
  {
    hide BlueprintAt;
    t := FixtureBlueprints(input, r)[0].id;
  }
}
