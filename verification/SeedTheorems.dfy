/**
 What the seed transaction guarantees: when it commits, what it leaves behind, what it
 never touches, and that running it again changes nothing.
 */
module SeedTheorems {
  import opened Wrappers
  import opened Identity
  import opened Blueprint
  import opened Tables
  import opened SeedDatabase
  import opened SeedRows

  // -------------------------------------------------------------- resolution

  /** What resolution establishes about the two account ids, whichever way each was found. */
  ghost predicate Settled(accounts: map<Uuid, Account>, w: Uuid, r: Resolution) {
    var i := r.identities;
    && i.emptyId != i.populatedId && i.emptyMutationKey != i.populatedMutationKey
    && r.emptyId != r.populatedId
    && (r.emptyId in accounts ==>
          accounts[r.emptyId].workspaceId == w && accounts[r.emptyId].mutationKey != i.populatedMutationKey)
    && (r.populatedId in accounts ==>
          accounts[r.populatedId].workspaceId == w && accounts[r.populatedId].mutationKey != i.emptyMutationKey)
    && Named(accounts, w, EMPTY_NAME) <= {r.emptyId}
    && Named(accounts, w, POPULATED_NAME) <= {r.populatedId}
    && OwnedOrFree(accounts, w, i.emptyId, i.emptyMutationKey)
    && OwnedOrFree(accounts, w, i.populatedId, i.populatedMutationKey)
    && (Named(accounts, w, EMPTY_NAME) == {} ==> r.emptyId == i.emptyId)
    && (Named(accounts, w, POPULATED_NAME) == {} ==> r.populatedId == i.populatedId)
  }

  lemma NamesDiffer()
    ensures EMPTY_NAME != POPULATED_NAME
  {
    assert |EMPTY_NAME| == 14 && |POPULATED_NAME| == 18;
  }

  /** One account id: named rows carry an expected or a legacy key, unnamed ones are derived and owned or free. */
  lemma ResolvedOne(accounts: map<Uuid, Account>, w: Uuid, name: string, derivedId: Uuid, key: Uuid, legacyKey: Uuid)
    requires OwnedOrFree(accounts, w, derivedId, key)
    requires NameStop(accounts, w, name, key, legacyKey).None?
    ensures var id := ResolveId(accounts, w, name, derivedId);
            && Named(accounts, w, name) <= {id}
            && (Named(accounts, w, name) == {} ==> id == derivedId)
            && (id in accounts ==> accounts[id].workspaceId == w && accounts[id].mutationKey in {key, legacyKey})
            && (Named(accounts, w, name) != {} ==> id in accounts && accounts[id].name == name)
  {
    var ids := Named(accounts, w, name);
    if ids != {} {
      OnlyPick(ids, Pick(ids));
    }
  }

  lemma ResolvedWith(accounts: map<Uuid, Account>, w: Uuid, i: AccountIdentity, legacy: AccountIdentity)
    requires MarkersApart(i, legacy) && ResolveWith(accounts, w, i, legacy).Ok?
    ensures ResolveWith(accounts, w, i, legacy).value.identities == i
    ensures Settled(accounts, w, ResolveWith(accounts, w, i, legacy).value)
  {
    hide NameStop, ResolveId, Named;
    ResolvedOne(accounts, w, EMPTY_NAME, i.emptyId, i.emptyMutationKey, legacy.emptyMutationKey);
    ResolvedOne(accounts, w, POPULATED_NAME, i.populatedId, i.populatedMutationKey, legacy.populatedMutationKey);
    NamesDiffer();
  }

  /**
   Whichever mix of name lookup, derived id and legacy key was used, the two accounts are distinct
   and any row they already have is in the target workspace.
   */
  lemma ResolutionIsSound(s: State, input: SeedInput)
    requires Ideal(input.digest) && Resolve(s, input).Ok?
    ensures Settled(s.accounts, input.workspaceId, Resolve(s, input).value)
    ensures Resolve(s, input).value.identities
         == NormalisedAccountIdentity(input.digest, input.normalise(input.targetEmail), input.normalise(input.workspaceId))
  {
    hide NormalisedAccountIdentity, LegacyVisualAccountIdentity, MarkersApart, ResolveWith, Settled;
    MarkersAreApart(input.digest, input.normalise, input.targetEmail, input.workspaceId);
    ResolvedWith(s.accounts, input.workspaceId,
                 NormalisedAccountIdentity(input.digest, input.normalise(input.targetEmail), input.normalise(input.workspaceId)),
                 LegacyVisualAccountIdentity(input.digest, input.normalise, input.targetEmail));
  }

  // ---------------------------------------------------------------- claiming

  /** No other account of the workspace carries either marker the two accounts are about to receive. */
  predicate KeysFree(accounts: map<Uuid, Account>, w: Uuid, r: Resolution) {
    forall a | a in accounts && accounts[a].workspaceId == w ::
      && (a != r.emptyId ==> accounts[a].mutationKey != r.identities.emptyMutationKey)
      && (a != r.populatedId ==> accounts[a].mutationKey != r.identities.populatedMutationKey)
  }

  function Claimed(accounts: map<Uuid, Account>, input: SeedInput, r: Resolution, now: int): map<Uuid, Account> {
    accounts[r.emptyId := EmptyRow(accounts, input, r, now)]
            [r.populatedId := PopulatedRow(accounts, input, r, now)]
  }

  lemma ClaimSucceedsIff(accounts: map<Uuid, Account>, input: SeedInput, r: Resolution, now: int)
    requires Settled(accounts, input.workspaceId, r)
    ensures Claim(accounts, input, r, now)
         == if KeysFree(accounts, input.workspaceId, r) then Ok(Claimed(accounts, input, r, now))
            else Err(MutationKeyTaken)
  {
    hide Named, OwnedOrFree;
    var w := input.workspaceId;
    var empty := EmptyRow(accounts, input, r, now);
    var first := accounts[r.emptyId := empty];
    assert PopulatedRow(first, input, r, now) == PopulatedRow(accounts, input, r, now);
    if !KeysFree(accounts, w, r) {
      var a :| a in accounts && accounts[a].workspaceId == w
               && ((a != r.emptyId && accounts[a].mutationKey == r.identities.emptyMutationKey)
                   || (a != r.populatedId && accounts[a].mutationKey == r.identities.populatedMutationKey));
      if a != r.emptyId {
        assert first[a] == accounts[a];
      }
    }
  }

  lemma ClaimedRows(accounts: map<Uuid, Account>, input: SeedInput, r: Resolution, now: int)
    requires Settled(accounts, input.workspaceId, r)
    ensures EmptyRow(accounts, input, r, now).workspaceId == input.workspaceId
    ensures EmptyRow(accounts, input, r, now).mutationKey == r.identities.emptyMutationKey
    ensures EmptyRow(accounts, input, r, now).name == EMPTY_NAME
    ensures PopulatedRow(accounts, input, r, now).workspaceId == input.workspaceId
    ensures PopulatedRow(accounts, input, r, now).mutationKey == r.identities.populatedMutationKey
    ensures PopulatedRow(accounts, input, r, now).name == POPULATED_NAME
    ensures r.emptyId != r.populatedId && r.identities.emptyMutationKey != r.identities.populatedMutationKey
    ensures r.emptyId in accounts ==> accounts[r.emptyId].workspaceId == input.workspaceId
    ensures r.populatedId in accounts ==> accounts[r.populatedId].workspaceId == input.workspaceId
  {
    hide Named, OwnedOrFree, EMPTY_NAME, POPULATED_NAME;
  }

  lemma ClaimedAccountsUnique(accounts: map<Uuid, Account>, input: SeedInput, r: Resolution, now: int)
    requires AccountsUnique(accounts) && Settled(accounts, input.workspaceId, r)
    requires KeysFree(accounts, input.workspaceId, r)
    ensures AccountsUnique(Claimed(accounts, input, r, now))
  {
    hide Settled, EmptyRow, PopulatedRow, EMPTY_NAME, POPULATED_NAME;
    ClaimedRows(accounts, input, r, now);
  }

  lemma ClaimedIsSound(s: State, input: SeedInput, r: Resolution, now: int)
    requires Sound(s) && Settled(s.accounts, input.workspaceId, r) && KeysFree(s.accounts, input.workspaceId, r)
    ensures Sound(s.(accounts := Claimed(s.accounts, input, r, now)))
  {
    hide Settled, KeysFree, AccountsUnique, EmptyRow, PopulatedRow, EMPTY_NAME, POPULATED_NAME;
    hide TradeUnique, ExitUnique, CheckUnique, ChildValid;
    ClaimedRows(s.accounts, input, r, now);
    ClaimedAccountsUnique(s.accounts, input, r, now);
  }

  // ------------------------------------------------------------- the delete

  /** Every trade under the two accounts, whatever marker the account carries. */
  function Under(s: State, r: Resolution): set<Uuid> {
    set t | t in s.trades && s.trades[t].tradingAccountId in {r.emptyId, r.populatedId}
  }

  /**
   Before the upserts the delete's marker predicate misses exactly the trades under an account that
   still has its legacy marker ...
   */
  lemma BeforeRekeying(s: State, w: Uuid, i: AccountIdentity, legacy: AccountIdentity, r: Resolution)
    requires Sound(s) && MarkersApart(i, legacy) && ResolveWith(s.accounts, w, i, legacy) == Ok(r)
    ensures Doomed(s, w, r) <= Under(s, r)
    ensures forall t | t in Under(s, r) ::
              t !in Doomed(s, w, r) <==> s.accounts[s.trades[t].tradingAccountId].mutationKey
                                         in {legacy.emptyMutationKey, legacy.populatedMutationKey}
  {
    hide Named, NameStop, ResolveId, TradeUnique, EMPTY_NAME, POPULATED_NAME;
    ResolvedOne(s.accounts, w, EMPTY_NAME, i.emptyId, i.emptyMutationKey, legacy.emptyMutationKey);
    ResolvedOne(s.accounts, w, POPULATED_NAME, i.populatedId, i.populatedMutationKey, legacy.populatedMutationKey);
  }

  /** ... and because the upserts come first, it covers every trade under the two accounts. */
  lemma DeleteCoversEveryOldTrade(s: State, input: SeedInput, r: Resolution, now: int)
    requires Sound(s) && Settled(s.accounts, input.workspaceId, r)
    ensures Doomed(s.(accounts := Claimed(s.accounts, input, r, now)), input.workspaceId, r) == Under(s, r)
  {
    hide Named, OwnedOrFree, TradeUnique;
  }

  /** Foreign rows are excluded by the guards and own rows by the cascade. */
  lemma GuardsClearTheWay(s: State, w: Uuid, r: Resolution, bs: seq<TradeBlueprint>, rows: FixtureRows)
    requires Sound(s) && !Foreign(s, w, r, bs, rows)
    requires r.populatedId in s.accounts && s.accounts[r.populatedId].workspaceId == w
    ensures Ready(Cascade(s, Under(s, r)), w, r.populatedId, bs, rows)
  {
    hide TradeIds, TradeKeys, TradesSound, ExitsSound, ChecksSound, LinksSound, AccountsUnique;
    hide ForeignTrade, ForeignExit, ForeignCheck, Under;
    KeptChildren(s, Under(s, r));
    var c := Cascade(s, Under(s, r));
    forall t | t in c.trades
      ensures t !in TradeIds(bs) && (c.trades[t].workspaceId == w ==> c.trades[t].mutationKey !in TradeKeys(bs))
    {
      TradeKeptIsNotForeign(s, w, r, bs, t);
    }
    forall x, i | x in c.exits && 0 <= i < |rows.exits|
      ensures rows.exits[i].0 != x
      ensures c.exits[x].workspaceId == w ==> c.exits[x].mutationKey != rows.exits[i].1.mutationKey
    {
      ExitKeptIsNotForeign(s, w, r, rows.exits, x, i);
    }
    forall x, i | x in c.checks && 0 <= i < |rows.checks|
      ensures rows.checks[i].0 != x
    {
      CheckKeptIsNotForeign(s, w, r, rows.checks, x, i);
    }
  }

  lemma KeptChildren(s: State, doomed: set<Uuid>)
    requires Sound(s)
    ensures var c := Cascade(s, doomed);
            && (forall x | x in c.exits :: c.exits[x].tradeId in c.trades)
            && (forall x | x in c.checks :: c.checks[x].tradeId in c.trades)
            && (forall x | x in c.mistakes :: x.0 in c.trades)
            && (forall x | x in c.emotions :: x.0 in c.trades)
  {
    hide TradesSound, TradeUnique, ExitUnique, CheckUnique, AccountsUnique;
  }

  lemma TradeKeptIsNotForeign(s: State, w: Uuid, r: Resolution, bs: seq<TradeBlueprint>, t: Uuid)
    requires !ForeignTrade(s, w, r, bs) && t in s.trades && t !in Under(s, r)
    ensures t !in TradeIds(bs) && (s.trades[t].workspaceId == w ==> s.trades[t].mutationKey !in TradeKeys(bs))
  {
    hide TradeIds, TradeKeys;
    assert !OwnTrade(s.trades[t], w, r);
  }

  lemma ExitKeptIsNotForeign(s: State, w: Uuid, r: Resolution, rows: seq<Row<Uuid, ExitRow>>, x: Uuid, i: nat)
    requires ExitsSound(s) && !ForeignExit(s, w, r, rows)
    requires x in s.exits && s.exits[x].tradeId !in Under(s, r) && i < |rows|
    ensures rows[i].0 != x && (s.exits[x].workspaceId == w ==> s.exits[x].mutationKey != rows[i].1.mutationKey)
  {
    hide ExitUnique;
    assert !OwnTrade(s.trades[s.exits[x].tradeId], w, r);
  }

  lemma CheckKeptIsNotForeign(s: State, w: Uuid, r: Resolution, rows: seq<Row<Uuid, CheckRow>>, x: Uuid, i: nat)
    requires ChecksSound(s) && !ForeignCheck(s, w, r, rows)
    requires x in s.checks && s.checks[x].tradeId !in Under(s, r) && i < |rows|
    ensures rows[i].0 != x
  {
    hide CheckUnique;
    assert !OwnTrade(s.trades[s.checks[x].tradeId], w, r);
  }

  // ------------------------------------------------------------- the commit

  function FixtureRowsOf(input: SeedInput, r: Resolution): FixtureRows
    requires |input.framework.setups| == 3
  {
    RowsFor(input, FixtureBlueprints(input, r))
  }

  /** When the run commits, in terms of the database it starts from. */
  ghost predicate CanCommit(s: State, input: SeedInput)
    requires |input.framework.setups| == 3
  {
    && Resolve(s, input).Ok?
    && var r := Resolve(s, input).value;
       && KeysFree(s.accounts, input.workspaceId, r)
       && !Foreign(s, input.workspaceId, r, FixtureBlueprints(input, r), FixtureRowsOf(input, r))
       && !Protected(s, Under(s, r))
  }

  /** The two accounts claimed, everything under them gone, and the fixture rows in its place. */
  function Committed(s: State, input: SeedInput, r: Resolution, now: int): State
    requires |input.framework.setups| == 3
  {
    Filled(Cascade(s.(accounts := Claimed(s.accounts, input, r, now)), Under(s, r)), FixtureRowsOf(input, r))
  }

  lemma FixtureTradesArePopulated(input: SeedInput, p: Uuid, bs: seq<TradeBlueprint>, t: Uuid)
    requires Ideal(input.digest) && AllBuilt(input, p, bs) && t in AsMap(RowsFor(input, bs).trades)
    ensures var row := AsMap(RowsFor(input, bs).trades)[t];
            row.tradingAccountId == p && row.workspaceId == input.workspaceId && t in TradeIds(bs)
  {
    hide TradeId, TradeMutationKey, ExitId, ExitMutationKey, SatisfiesTradeChecks, SatisfiesExitTriggers, FlatMap, AsMap;
    hide TradeUnique;
    TradeRowsUnique(input, p, bs);
    var j := AsMapSource(RowsFor(input, bs).trades, t);
    var i := TradeRowAt(input.workspaceId, bs, j);
    assert WellBuilt(input, p, bs[i]);
  }

  lemma TradesElsewhereAreKept(s: State, accounts: map<Uuid, Account>, input: SeedInput, r: Resolution,
                               bs: seq<TradeBlueprint>, a: Uuid)
    requires Ideal(input.digest) && AllBuilt(input, r.populatedId, bs)
    requires !ForeignTrade(s, input.workspaceId, r, bs) && a !in {r.emptyId, r.populatedId}
    ensures TradesUnder(Filled(Cascade(s.(accounts := accounts), Under(s, r)), RowsFor(input, bs)), a)
         == TradesUnder(s, a)
  {
    hide AllBuilt, RowsFor, AsMap, TradeKeys, TradeIds;
    var rows := RowsFor(input, bs);
    forall t | t in AsMap(rows.trades)
      ensures t !in TradesUnder(s, a) && AsMap(rows.trades)[t].tradingAccountId == r.populatedId
    {
      FixtureTradesArePopulated(input, r.populatedId, bs, t);
    }
  }

  /** The fingerprint of the other accounts survives the delete and the rebuild. */
  lemma FingerprintIsKept(s: State, input: SeedInput, r: Resolution, now: int, bs: seq<TradeBlueprint>)
    requires Ideal(input.digest) && AllBuilt(input, r.populatedId, bs)
    requires !ForeignTrade(s, input.workspaceId, r, bs)
    ensures Unrelated(Filled(Cascade(s.(accounts := Claimed(s.accounts, input, r, now)), Under(s, r)),
                             RowsFor(input, bs)), input.workspaceId, r)
         == Unrelated(s, input.workspaceId, r)
  {
    hide AllBuilt, RowsFor, AsMap, EmptyRow, PopulatedRow, ForeignTrade, TradesUnder, Under;
    forall a | a in s.accounts && a !in {r.emptyId, r.populatedId}
      ensures TradesUnder(Filled(Cascade(s.(accounts := Claimed(s.accounts, input, r, now)), Under(s, r)),
                                 RowsFor(input, bs)), a) == TradesUnder(s, a)
    {
      TradesElsewhereAreKept(s, Claimed(s.accounts, input, r, now), input, r, bs, a);
    }
  }

  lemma FinishFromClaimed(s: State, input: SeedInput, r: Resolution, now: int, bs: seq<TradeBlueprint>)
    requires Prepared(input) && Sound(s) && Settled(s.accounts, input.workspaceId, r)
    requires KeysFree(s.accounts, input.workspaceId, r) && AllBuilt(input, r.populatedId, bs)
    ensures Finish(s, Claimed(s.accounts, input, r, now), input.workspaceId, r, bs, RowsFor(input, bs))
         == if Foreign(s, input.workspaceId, r, bs, RowsFor(input, bs)) then Err(ForeignCollision)
            else if Protected(s, Under(s, r)) then Err(ProtectedSnapshot)
            else Ok(Filled(Cascade(s.(accounts := Claimed(s.accounts, input, r, now)), Under(s, r)),
                           RowsFor(input, bs)))
  {
    hide Settled, KeysFree, AllBuilt, RowsFor, Prepared, Sound, Ready, Doomed, Under, Unrelated, Rebuild;
    hide ForeignTrade, ForeignExit, ForeignCheck, EmptyRow, PopulatedRow;
    var w, rows, claimed := input.workspaceId, RowsFor(input, bs), s.(accounts := Claimed(s.accounts, input, r, now));
    DeleteCoversEveryOldTrade(s, input, r, now);
    AccountsPlayNoPart(s, claimed.accounts, w, r, bs, rows);
    if !Foreign(s, w, r, bs, rows) && !Protected(s, Under(s, r)) {
      ClaimedIsSound(s, input, r, now);
      ClaimedPopulated(s.accounts, input, r, now);
      GuardsClearTheWay(claimed, w, r, bs, rows);
      RebuildSucceeds(Cascade(claimed, Under(s, r)), input, r.populatedId, bs);
      PreparedIsIdeal(input);
      FingerprintIsKept(s, input, r, now, bs);
    }
  }

  lemma PreparedIsIdeal(input: SeedInput)
    requires Prepared(input)
    ensures Ideal(input.digest) && |input.framework.setups| == 3
  {
  }

  lemma ClaimedPopulated(accounts: map<Uuid, Account>, input: SeedInput, r: Resolution, now: int)
    requires Settled(accounts, input.workspaceId, r)
    ensures r.populatedId in Claimed(accounts, input, r, now)
    ensures Claimed(accounts, input, r, now)[r.populatedId].workspaceId == input.workspaceId
  {
  }

  lemma AccountsPlayNoPart(s: State, accounts: map<Uuid, Account>, w: Uuid, r: Resolution,
                           bs: seq<TradeBlueprint>, rows: FixtureRows)
    ensures Foreign(s.(accounts := accounts), w, r, bs, rows) == Foreign(s, w, r, bs, rows)
    ensures Under(s.(accounts := accounts), r) == Under(s, r)
  {
    hide TradeIds, TradeKeys;
  }

  /** Every outcome of a run, in the order the guards decide it. */
  lemma OutcomeOf(s: State, input: SeedInput, now: int)
    requires Prepared(input) && Sound(s)
    ensures Transaction(s, input, now)
         == match Resolve(s, input)
            case Err(stop) => Err(stop)
            case Ok(r) =>
              if !KeysFree(s.accounts, input.workspaceId, r) then Err(MutationKeyTaken)
              else if Foreign(s, input.workspaceId, r, FixtureBlueprints(input, r), FixtureRowsOf(input, r))
              then Err(ForeignCollision)
              else if Protected(s, Under(s, r)) then Err(ProtectedSnapshot)
              else Ok(Committed(s, input, r, now))
  {
    hide Prepared, Sound, Settled, KeysFree, Foreign, Protected, Under, Claim, Finish, RowsFor, Claimed, Blueprints;
    hide ResolveWith, LegacyVisualAccountIdentity, NormalisedAccountIdentity, AllBuilt;
    PreparedIsIdeal(input);
    if Resolve(s, input).Ok? {
      var r := Resolve(s, input).value;
      ResolutionIsSound(s, input);
      ClaimSucceedsIff(s.accounts, input, r, now);
      if KeysFree(s.accounts, input.workspaceId, r) {
        BlueprintsAreBuilt(input, r.populatedId);
        FinishFromClaimed(s, input, r, now, FixtureBlueprints(input, r));
      }
    }
  }

  /**
   The transaction commits exactly when resolution succeeds, the two markers are free, no foreign
   row holds a generated identity and no trade about to be deleted has a condition snapshot. What
   it then commits is the outcome; the constraint errors and both fingerprint STOPs are dead.
   */
  lemma CommitsExactlyWhen(s: State, input: SeedInput, now: int)
    requires Prepared(input) && Sound(s)
    ensures Transaction(s, input, now).Ok? <==> CanCommit(s, input)
    ensures CanCommit(s, input) ==>
              Transaction(s, input, now) == Ok(Committed(s, input, Resolve(s, input).value, now))
    ensures Transaction(s, input, now).Err? ==>
              Transaction(s, input, now).error !in {ConstraintViolated, UnrelatedChanged, JournalChanged}
  {
    hide Prepared, Sound, KeysFree, Foreign, Protected, Under, Transaction, Resolve, FixtureRowsOf, FixtureBlueprints;
    hide Committed;
    PreparedIsIdeal(input);
    OutcomeOf(s, input, now);
    ResolutionStops(s, input);
  }

  lemma ResolutionStops(s: State, input: SeedInput)
    ensures Resolve(s, input).Err? ==>
              Resolve(s, input).error !in {ConstraintViolated, UnrelatedChanged, JournalChanged}
  {
    hide LegacyVisualAccountIdentity, NormalisedAccountIdentity, Named;
  }

  function EmptyDatabase(journal: string): State {
    State(map[], map[], map[], map[], map[], map[], map[], journal)
  }

  /** The conditions can be met: on an empty database every prepared run with an owner and a workspace commits. */
  lemma EmptyDatabaseCommits(input: SeedInput, journal: string, now: int)
    requires Prepared(input) && input.normalise(input.targetEmail) != "" && input.normalise(input.workspaceId) != ""
    ensures Sound(EmptyDatabase(journal)) && CanCommit(EmptyDatabase(journal), input)
    ensures Transaction(EmptyDatabase(journal), input, now).Ok?
  {
    hide Prepared, NormalisedAccountIdentity, LegacyVisualAccountIdentity, FixtureRowsOf, FixtureBlueprints, Transaction;
    hide Committed;
    var s := EmptyDatabase(journal);
    PreparedIsIdeal(input);
    NobodyNamed(input.workspaceId, EMPTY_NAME);
    NobodyNamed(input.workspaceId, POPULATED_NAME);
    hide EMPTY_NAME, POPULATED_NAME, Named, ResolveId;
    assert Resolve(s, input).Ok?;
    CommitsExactlyWhen(s, input, now);
  }

  lemma NobodyNamed(w: Uuid, name: string)
    ensures Named(map[], w, name) == {}
    ensures forall key, legacyKey :: NameStop(map[], w, name, key, legacyKey) == None
  {
  }
}
