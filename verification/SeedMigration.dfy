/**
 Which databases the seed adopts: the accounts it may claim, by name and ownership marker, and what
 happens to accounts that still carry the markers of the older, unscoped identity scheme.
 */
module SeedMigration {
  import opened Wrappers
  import opened Identity
  import opened Blueprint
  import opened SeedDatabase
  import opened SeedTheorems
  import opened SeedFrame
  import opened SeedRerun
  import opened SeedGuards

  // ------------------------------------------------------------ who is adopted

  /** At most one account of the workspace bears the name, and it carries the current or the legacy marker. */
  ghost predicate Adoptable(accounts: map<Uuid, Account>, w: Uuid, name: string, key: Uuid, legacyKey: Uuid) {
    && (forall a, b | a in accounts && b in accounts && accounts[a].workspaceId == w && accounts[b].workspaceId == w
                      && accounts[a].name == name && accounts[b].name == name :: a == b)
    && (forall a | a in accounts && accounts[a].workspaceId == w && accounts[a].name == name ::
          accounts[a].mutationKey == key || accounts[a].mutationKey == legacyKey)
  }

  /** The account that will be claimed under a name: the one that bears it, or the derived id. */
  ghost predicate Claims(accounts: map<Uuid, Account>, w: Uuid, name: string, derivedId: Uuid, id: Uuid) {
    if exists a :: a in accounts && accounts[a].workspaceId == w && accounts[a].name == name
    then id in accounts && accounts[id].workspaceId == w && accounts[id].name == name
    else id == derivedId
  }

  lemma OneBearer(accounts: map<Uuid, Account>, w: Uuid, name: string)
    ensures |Named(accounts, w, name)| <= 1 <==>
              forall a, b | a in accounts && b in accounts && accounts[a].workspaceId == w && accounts[b].workspaceId == w
                            && accounts[a].name == name && accounts[b].name == name :: a == b
  {
    var ids := Named(accounts, w, name);
    if |ids| <= 1 {
      forall a, b | a in ids && b in ids
        ensures a == b
      {
        OnlyPick(ids, a);
      }
      assert forall a | a in accounts && accounts[a].workspaceId == w && accounts[a].name == name :: a in ids;
    } else {
      var a := Pick(ids);
      assert ids == {a} + (ids - {a});
      var b := Pick(ids - {a});
      assert a in ids && b in ids && a != b;
    }
  }

  lemma NameStopIff(accounts: map<Uuid, Account>, w: Uuid, name: string, key: Uuid, legacyKey: Uuid)
    ensures NameStop(accounts, w, name, key, legacyKey).None? <==> Adoptable(accounts, w, name, key, legacyKey)
  {
    OneBearer(accounts, w, name);
    var ids := Named(accounts, w, name);
    assert forall a :: a in ids <==> a in accounts && accounts[a].workspaceId == w && accounts[a].name == name;
  }

  lemma ResolvedIdClaims(accounts: map<Uuid, Account>, w: Uuid, name: string, derivedId: Uuid)
    ensures Claims(accounts, w, name, derivedId, ResolveId(accounts, w, name, derivedId))
  {
    var ids := Named(accounts, w, name);
    assert forall a :: a in ids <==> a in accounts && accounts[a].workspaceId == w && accounts[a].name == name;
    if ids != {} {
      assert Pick(ids) in ids;
    }
  }

  /**
   Resolution, decided by the rows of the accounts table alone: it succeeds exactly for an owner and a
   workspace that are not blank, when any row with a derived id is the fixture's own and each of the two
   names is borne at most once in the workspace, by a row with the current or the legacy marker. The
   accounts found are the ones that bear the names, or have the derived ids where nobody does.
   */
  lemma ResolvesIff(s: State, input: SeedInput)
    ensures var owner, w := input.normalise(input.targetEmail), input.workspaceId;
            var i := NormalisedAccountIdentity(input.digest, owner, input.normalise(w));
            var legacy := LegacyVisualAccountIdentity(input.digest, input.normalise, input.targetEmail);
            && (Resolve(s, input).Ok? <==>
                  && owner != "" && input.normalise(w) != ""
                  && (i.emptyId in s.accounts ==>
                        s.accounts[i.emptyId].workspaceId == w && s.accounts[i.emptyId].mutationKey == i.emptyMutationKey)
                  && (i.populatedId in s.accounts ==>
                        s.accounts[i.populatedId].workspaceId == w
                        && s.accounts[i.populatedId].mutationKey == i.populatedMutationKey)
                  && Adoptable(s.accounts, w, EMPTY_NAME, i.emptyMutationKey, legacy.emptyMutationKey)
                  && Adoptable(s.accounts, w, POPULATED_NAME, i.populatedMutationKey, legacy.populatedMutationKey))
            && (Resolve(s, input).Ok? ==>
                  && Resolve(s, input).value.identities == i
                  && Claims(s.accounts, w, EMPTY_NAME, i.emptyId, Resolve(s, input).value.emptyId)
                  && Claims(s.accounts, w, POPULATED_NAME, i.populatedId, Resolve(s, input).value.populatedId))
  {
    hide NormalisedAccountIdentity, LegacyVisualAccountIdentity, NameStop, ResolveId, Adoptable, Claims, EMPTY_NAME, POPULATED_NAME;
    var w := input.workspaceId;
    var i := NormalisedAccountIdentity(input.digest, input.normalise(input.targetEmail), input.normalise(w));
    var legacy := LegacyVisualAccountIdentity(input.digest, input.normalise, input.targetEmail);
    NameStopIff(s.accounts, w, EMPTY_NAME, i.emptyMutationKey, legacy.emptyMutationKey);
    NameStopIff(s.accounts, w, POPULATED_NAME, i.populatedMutationKey, legacy.populatedMutationKey);
    ResolvedIdClaims(s.accounts, w, EMPTY_NAME, i.emptyId);
    ResolvedIdClaims(s.accounts, w, POPULATED_NAME, i.populatedId);
  }

  /** Two different accounts of the workspace bear the name. */
  ghost predicate Shared(accounts: map<Uuid, Account>, w: Uuid, name: string) {
    exists a, b | a in accounts && b in accounts && a != b ::
      accounts[a].workspaceId == w && accounts[b].workspaceId == w && accounts[a].name == name && accounts[b].name == name
  }

  lemma StopForName(accounts: map<Uuid, Account>, w: Uuid, name: string, key: Uuid, legacyKey: Uuid)
    requires !Adoptable(accounts, w, name, key, legacyKey)
    ensures NameStop(accounts, w, name, key, legacyKey)
         == Some(if Shared(accounts, w, name) then AmbiguousName(name) else MissingMarker(name))
  {
    OneBearer(accounts, w, name);
    NameStopIff(accounts, w, name, key, legacyKey);
  }

  /** The STOP says what is wrong, the empty account's trouble first. */
  lemma StopsSayWhy(s: State, input: SeedInput)
    requires Resolve(s, input).Err?
    ensures var w, stop := input.workspaceId, Resolve(s, input).error;
            var i := NormalisedAccountIdentity(input.digest, input.normalise(input.targetEmail), input.normalise(w));
            var legacy := LegacyVisualAccountIdentity(input.digest, input.normalise, input.targetEmail);
            && (stop == EmptyIdentity <==> input.normalise(input.targetEmail) == "" || input.normalise(w) == "")
            && (stop.AmbiguousName? || stop.MissingMarker? ==>
                  && (stop.name == EMPTY_NAME <==>
                        !Adoptable(s.accounts, w, EMPTY_NAME, i.emptyMutationKey, legacy.emptyMutationKey))
                  && stop.name in {EMPTY_NAME, POPULATED_NAME}
                  && (stop.AmbiguousName? <==> Shared(s.accounts, w, stop.name)))
            && stop in {EmptyIdentity, IdentityOwned, AmbiguousName(EMPTY_NAME), AmbiguousName(POPULATED_NAME),
                        MissingMarker(EMPTY_NAME), MissingMarker(POPULATED_NAME)}
  {
    hide NormalisedAccountIdentity, LegacyVisualAccountIdentity, NameStop, ResolveId, Adoptable, Shared, OwnedOrFree;
    hide EMPTY_NAME, POPULATED_NAME;
    var w := input.workspaceId;
    var i := NormalisedAccountIdentity(input.digest, input.normalise(input.targetEmail), input.normalise(w));
    var legacy := LegacyVisualAccountIdentity(input.digest, input.normalise, input.targetEmail);
    NamesDiffer();
    NameStopIff(s.accounts, w, EMPTY_NAME, i.emptyMutationKey, legacy.emptyMutationKey);
    NameStopIff(s.accounts, w, POPULATED_NAME, i.populatedMutationKey, legacy.populatedMutationKey);
    if !Adoptable(s.accounts, w, EMPTY_NAME, i.emptyMutationKey, legacy.emptyMutationKey) {
      StopForName(s.accounts, w, EMPTY_NAME, i.emptyMutationKey, legacy.emptyMutationKey);
    }
    if !Adoptable(s.accounts, w, POPULATED_NAME, i.populatedMutationKey, legacy.populatedMutationKey) {
      StopForName(s.accounts, w, POPULATED_NAME, i.populatedMutationKey, legacy.populatedMutationKey);
    }
  }

  // --------------------------------------------------------------- migration

  /** The two accounts with other markers. */
  function Remarked(accounts: map<Uuid, Account>, r: Resolution, emptyKey: Uuid, populatedKey: Uuid): map<Uuid, Account>
    requires r.emptyId in accounts && r.populatedId in accounts
  {
    accounts[r.emptyId := accounts[r.emptyId].(mutationKey := emptyKey)]
            [r.populatedId := accounts[r.populatedId].(mutationKey := populatedKey)]
  }

  /** Each account carries its current marker or its legacy one; the latter only under an id of another scheme. */
  ghost predicate Migratable(accounts: map<Uuid, Account>, w: Uuid, r: Resolution, legacy: AccountIdentity,
                             emptyKey: Uuid, populatedKey: Uuid)
  {
    && emptyKey in {r.identities.emptyMutationKey, legacy.emptyMutationKey}
    && populatedKey in {r.identities.populatedMutationKey, legacy.populatedMutationKey}
    && (emptyKey == legacy.emptyMutationKey ==> r.emptyId != r.identities.emptyId)
    && (populatedKey == legacy.populatedMutationKey ==> r.populatedId != r.identities.populatedId)
    && (forall a | a in accounts && accounts[a].workspaceId == w && a !in {r.emptyId, r.populatedId} ::
          accounts[a].mutationKey !in {emptyKey, populatedKey})
  }

  /** What a commit establishes about the two accounts. */
  ghost predicate Committable(accounts: map<Uuid, Account>, w: Uuid, r: Resolution) {
    var i := r.identities;
    && r.emptyId in accounts && r.populatedId in accounts && r.emptyId != r.populatedId
    && accounts[r.emptyId].workspaceId == w && accounts[r.emptyId].mutationKey == i.emptyMutationKey
    && accounts[r.populatedId].workspaceId == w && accounts[r.populatedId].mutationKey == i.populatedMutationKey
    && Named(accounts, w, EMPTY_NAME) == {r.emptyId} && Named(accounts, w, POPULATED_NAME) == {r.populatedId}
    && OwnedOrFree(accounts, w, i.emptyId, i.emptyMutationKey)
    && OwnedOrFree(accounts, w, i.populatedId, i.populatedMutationKey)
    && KeysFree(accounts, w, r)
  }

  lemma LegacyMarkersDiffer(digest: Digest, normalise: string -> string, owner: string)
    requires Ideal(digest)
    ensures var legacy := LegacyVisualAccountIdentity(digest, normalise, owner);
            legacy.emptyMutationKey != legacy.populatedMutationKey
  {
    var n := normalise(owner);
    LabelLengths();
    LengthsDiffer("tradechemist-visual-v1:", n + ":account:empty:mutation", n + ":account:populated:mutation");
  }

  lemma LabelLengths()
    ensures |":account:empty:mutation"| != |":account:populated:mutation"|
  {
  }

  lemma LengthsDiffer(prefix: string, a: string, b: string)
    requires |a| != |b|
    ensures prefix + a != prefix + b
  {
    assert |prefix + a| != |prefix + b|;
  }

  lemma RemarkedKeepsUnique(accounts: map<Uuid, Account>, w: Uuid, r: Resolution, legacy: AccountIdentity,
                            emptyKey: Uuid, populatedKey: Uuid)
    requires AccountsUnique(accounts) && Committable(accounts, w, r)
    requires Migratable(accounts, w, r, legacy, emptyKey, populatedKey) && emptyKey != populatedKey
    ensures AccountsUnique(Remarked(accounts, r, emptyKey, populatedKey))
  {
    hide Named, OwnedOrFree, KeysFree;
  }

  lemma RemarkedIsSound(s: State, w: Uuid, r: Resolution, legacy: AccountIdentity, emptyKey: Uuid, populatedKey: Uuid)
    requires Sound(s) && Committable(s.accounts, w, r)
    requires Migratable(s.accounts, w, r, legacy, emptyKey, populatedKey) && emptyKey != populatedKey
    ensures Sound(s.(accounts := Remarked(s.accounts, r, emptyKey, populatedKey)))
  {
    hide *;
    CommittableAccounts(s.accounts, w, r);
    SoundSplits(s);
    var older := s.(accounts := Remarked(s.accounts, r, emptyKey, populatedKey));
    RemarkedKeepsUnique(s.accounts, w, r, legacy, emptyKey, populatedKey);
    WorkspacesUnchanged(s.accounts, r, emptyKey, populatedKey);
    TradesStayWithAccounts(s, older.accounts);
    OnlyTradesNeedAccounts(s, older.accounts);
    SoundSplits(older);
  }

  lemma CommittableAccounts(accounts: map<Uuid, Account>, w: Uuid, r: Resolution)
    requires Committable(accounts, w, r)
    ensures r.emptyId in accounts && r.populatedId in accounts && r.emptyId != r.populatedId
  {
    hide Named, OwnedOrFree, KeysFree;
  }

  lemma TradesStayWithAccounts(s: State, accounts: map<Uuid, Account>)
    requires TradesSound(s) && accounts.Keys == s.accounts.Keys
    requires forall a | a in accounts :: accounts[a].workspaceId == s.accounts[a].workspaceId
    ensures TradesSound(s.(accounts := accounts))
  {
    hide TradeUnique;
  }

  lemma OnlyTradesNeedAccounts(s: State, accounts: map<Uuid, Account>)
    ensures ExitsSound(s.(accounts := accounts)) == ExitsSound(s)
    ensures ChecksSound(s.(accounts := accounts)) == ChecksSound(s)
    ensures LinksSound(s.(accounts := accounts)) == LinksSound(s)
  {
    hide ExitUnique, CheckUnique, ChildValid;
  }

  lemma WorkspacesUnchanged(accounts: map<Uuid, Account>, r: Resolution, emptyKey: Uuid, populatedKey: Uuid)
    requires r.emptyId in accounts && r.populatedId in accounts
    ensures Remarked(accounts, r, emptyKey, populatedKey).Keys == accounts.Keys
    ensures forall a | a in accounts ::
              Remarked(accounts, r, emptyKey, populatedKey)[a].workspaceId == accounts[a].workspaceId
  {
  }

  lemma NamesUnchanged(accounts: map<Uuid, Account>, r: Resolution, emptyKey: Uuid, populatedKey: Uuid, w: Uuid, name: string)
    requires r.emptyId in accounts && r.populatedId in accounts
    ensures Named(Remarked(accounts, r, emptyKey, populatedKey), w, name) == Named(accounts, w, name)
  {
  }

  lemma FoundUnder(accounts: map<Uuid, Account>, w: Uuid, name: string, id: Uuid, derivedId: Uuid, key: Uuid, legacyKey: Uuid)
    requires Named(accounts, w, name) == {id} && accounts[id].mutationKey in {key, legacyKey}
    ensures NameStop(accounts, w, name, key, legacyKey).None?
    ensures ResolveId(accounts, w, name, derivedId) == id
  {
    assert id in Named(accounts, w, name);
    OnlyPick(Named(accounts, w, name), id);
  }

  lemma RemarkedOwned(accounts: map<Uuid, Account>, w: Uuid, r: Resolution, legacy: AccountIdentity,
                      emptyKey: Uuid, populatedKey: Uuid)
    requires Committable(accounts, w, r) && Migratable(accounts, w, r, legacy, emptyKey, populatedKey)
    requires MarkersApart(r.identities, legacy)
    ensures OwnedOrFree(Remarked(accounts, r, emptyKey, populatedKey), w, r.identities.emptyId, r.identities.emptyMutationKey)
    ensures OwnedOrFree(Remarked(accounts, r, emptyKey, populatedKey), w,
                        r.identities.populatedId, r.identities.populatedMutationKey)
  {
    hide Named, KeysFree;
  }

  lemma RemarkedResolves(accounts: map<Uuid, Account>, w: Uuid, r: Resolution, legacy: AccountIdentity,
                         emptyKey: Uuid, populatedKey: Uuid)
    requires Committable(accounts, w, r) && Migratable(accounts, w, r, legacy, emptyKey, populatedKey)
    requires MarkersApart(r.identities, legacy)
    ensures ResolveWith(Remarked(accounts, r, emptyKey, populatedKey), w, r.identities, legacy) == Ok(r)
  {
    var i, older := r.identities, Remarked(accounts, r, emptyKey, populatedKey);
    RemarkedOwned(accounts, w, r, legacy, emptyKey, populatedKey);
    NamesUnchanged(accounts, r, emptyKey, populatedKey, w, EMPTY_NAME);
    NamesUnchanged(accounts, r, emptyKey, populatedKey, w, POPULATED_NAME);
    hide Named, OwnedOrFree, KeysFree, NameStop, ResolveId, EMPTY_NAME, POPULATED_NAME;
    FoundUnder(older, w, EMPTY_NAME, r.emptyId, i.emptyId, i.emptyMutationKey, legacy.emptyMutationKey);
    FoundUnder(older, w, POPULATED_NAME, r.populatedId, i.populatedId, i.populatedMutationKey, legacy.populatedMutationKey);
  }

  lemma RemarkedFree(accounts: map<Uuid, Account>, w: Uuid, r: Resolution, legacy: AccountIdentity,
                     emptyKey: Uuid, populatedKey: Uuid)
    requires Committable(accounts, w, r) && Migratable(accounts, w, r, legacy, emptyKey, populatedKey)
    requires MarkersApart(r.identities, legacy)
    ensures KeysFree(Remarked(accounts, r, emptyKey, populatedKey), w, r)
  {
    hide Named, OwnedOrFree;
  }

  /** The upserts write both markers, so it does not matter which ones were there. */
  lemma ClaimForgetsMarkers(accounts: map<Uuid, Account>, input: SeedInput, r: Resolution, emptyKey: Uuid, populatedKey: Uuid,
                            now: int)
    requires r.emptyId in accounts && r.populatedId in accounts && r.emptyId != r.populatedId
    ensures Claimed(Remarked(accounts, r, emptyKey, populatedKey), input, r, now) == Claimed(accounts, input, r, now)
  {
  }

  lemma CommitIsCommittable(s: State, input: SeedInput, now: int)
    requires Prepared(input) && Sound(s) && Transaction(s, input, now).Ok?
    ensures Resolve(s, input).Ok?
    ensures Committable(Transaction(s, input, now).value.accounts, input.workspaceId, Resolve(s, input).value)
  {
    hide Prepared, Sound, Resolve, Transaction, CanCommit, Committed, Claimed, Named, OwnedOrFree, KeysFree, Settled;
    hide EMPTY_NAME, POPULATED_NAME, EmptyRow, PopulatedRow, FixtureRowsOf, FixtureBlueprints, Under;
    PreparedIsIdeal(input);
    WhatCommits(s, input, now);
    var r := Resolve(s, input).value;
    CommittedAccounts(s, input, r, now);
    CommittedParts(s, input, r, now);
    CommitMeansKeysFree(s, input, r);
    ClaimsAgain(s.accounts, input, r, now, now);
    NamedAfter(s.accounts, input, r, now);
    StillOwned(s.accounts, input, r, now);
    AccountsAreClaimed(s, input, now);
  }

  /** The rows of a run do not depend on the markers either. */
  lemma RemarkedOutcome(s: State, input: SeedInput, r: Resolution, emptyKey: Uuid, populatedKey: Uuid, later: int)
    requires |input.framework.setups| == 3
    requires r.emptyId in s.accounts && r.populatedId in s.accounts && r.emptyId != r.populatedId
    ensures var older := s.(accounts := Remarked(s.accounts, r, emptyKey, populatedKey));
            && Committed(older, input, r, later) == Committed(s, input, r, later)
            && Under(older, r) == Under(s, r)
            && Foreign(older, input.workspaceId, r, FixtureBlueprints(input, r), FixtureRowsOf(input, r))
            == Foreign(s, input.workspaceId, r, FixtureBlueprints(input, r), FixtureRowsOf(input, r))
  {
    var older := s.(accounts := Remarked(s.accounts, r, emptyKey, populatedKey));
    ClaimForgetsMarkers(s.accounts, input, r, emptyKey, populatedKey, later);
    hide Remarked, Claimed, FixtureRowsOf, FixtureBlueprints, Foreign, Under;
    AccountsPlayNoPart(s, older.accounts, input.workspaceId, r, FixtureBlueprints(input, r), FixtureRowsOf(input, r));
    assert older.(accounts := Claimed(s.accounts, input, r, later)) == s.(accounts := Claimed(s.accounts, input, r, later));
  }

  /**
   Migration: take any committed database and put the legacy marker back on either account or both, under
   ids the current scheme would not derive. The result is a database the seed still accepts: it finds the
   same two accounts, commits, and leaves the committed database with nothing but two timestamps changed.
   */
  lemma MigrationRestores(s: State, input: SeedInput, now: int, later: int, emptyKey: Uuid, populatedKey: Uuid)
    requires Prepared(input) && Sound(s) && Transaction(s, input, now).Ok? && Resolve(s, input).Ok?
    requires var legacy := LegacyVisualAccountIdentity(input.digest, input.normalise, input.targetEmail);
             Migratable(Transaction(s, input, now).value.accounts, input.workspaceId, Resolve(s, input).value,
                        legacy, emptyKey, populatedKey)
    ensures var after, r := Transaction(s, input, now).value, Resolve(s, input).value;
            && r.emptyId in after.accounts && r.populatedId in after.accounts
            && var older := after.(accounts := Remarked(after.accounts, r, emptyKey, populatedKey));
               && Sound(older) && Resolve(older, input) == Ok(r)
               && Transaction(older, input, later) == Ok(after.(accounts := Touched(after.accounts, r, later)))
  {
    hide Prepared, Sound, Resolve, Transaction, Committed, Committable, Migratable, Remarked, Touched, KeysFree, Foreign;
    hide FixtureRowsOf, FixtureBlueprints, LegacyVisualAccountIdentity, NormalisedAccountIdentity, Under, Protected;
    PreparedIsIdeal(input);
    CommitKeepsSound(s, input, now);
    CommitIsCommittable(s, input, now);
    SecondRunChangesNothing(s, input, now, later);
    var after, r := Transaction(s, input, now).value, Resolve(s, input).value;
    AccountsAreClaimed(s, input, now);
    var older := after.(accounts := Remarked(after.accounts, r, emptyKey, populatedKey));
    RemarkedRun(after, input, r, emptyKey, populatedKey, later);
  }

  /** The same, from what a commit leaves. */
  lemma RemarkedRun(after: State, input: SeedInput, r: Resolution, emptyKey: Uuid, populatedKey: Uuid, later: int)
    requires Prepared(input) && Sound(after) && Resolve(after, input) == Ok(r) && Transaction(after, input, later).Ok?
    requires Committable(after.accounts, input.workspaceId, r)
    requires Migratable(after.accounts, input.workspaceId, r,
                        LegacyVisualAccountIdentity(input.digest, input.normalise, input.targetEmail),
                        emptyKey, populatedKey)
    ensures r.emptyId in after.accounts && r.populatedId in after.accounts
    ensures var older := after.(accounts := Remarked(after.accounts, r, emptyKey, populatedKey));
            && Sound(older) && Resolve(older, input) == Ok(r)
            && Transaction(older, input, later) == Transaction(after, input, later)
  {
    hide Prepared, Sound, Transaction, Committed, Migratable, Remarked, KeysFree, Foreign, ResolveWith, Named, OwnedOrFree;
    hide FixtureRowsOf, FixtureBlueprints, LegacyVisualAccountIdentity, NormalisedAccountIdentity, Under, Protected;
    hide MarkersApart;
    var w := input.workspaceId;
    var legacy := LegacyVisualAccountIdentity(input.digest, input.normalise, input.targetEmail);
    var older := after.(accounts := Remarked(after.accounts, r, emptyKey, populatedKey));
    PreparedIsIdeal(input);
    ResolutionIsSound(after, input);
    MarkersAreApart(input.digest, input.normalise, input.targetEmail, w);
    LegacyMarkersDiffer(input.digest, input.normalise, input.targetEmail);
    MarkersDistinct(after.accounts, w, r, legacy, emptyKey, populatedKey);
    RemarkedIsSound(after, w, r, legacy, emptyKey, populatedKey);
    RemarkedResolves(after.accounts, w, r, legacy, emptyKey, populatedKey);
    RemarkedFree(after.accounts, w, r, legacy, emptyKey, populatedKey);
    RemarkedOutcome(after, input, r, emptyKey, populatedKey, later);
    SnapshotsPlayOn(after, older, Under(after, r));
    OutcomeOf(after, input, later);
    OutcomeOf(older, input, later);
  }

  lemma MarkersDistinct(accounts: map<Uuid, Account>, w: Uuid, r: Resolution, legacy: AccountIdentity,
                        emptyKey: Uuid, populatedKey: Uuid)
    requires MarkersApart(r.identities, legacy) && legacy.emptyMutationKey != legacy.populatedMutationKey
    requires Migratable(accounts, w, r, legacy, emptyKey, populatedKey)
    ensures emptyKey != populatedKey
  {
  }

  /** The two accounts of the older scheme, and nothing else. */
  function LegacyDatabase(journal: string, e: Uuid, p: Uuid, empty: Account, populated: Account): State {
    EmptyDatabase(journal).(accounts := map[e := empty, p := populated])
  }

  /** Such a database is adopted: the run commits with the same two ids, which now carry the current markers. */
  lemma LegacyDatabaseCommits(input: SeedInput, journal: string, e: Uuid, p: Uuid, empty: Account, populated: Account, now: int)
    requires Prepared(input) && input.normalise(input.targetEmail) != "" && input.normalise(input.workspaceId) != ""
    requires var i := NormalisedAccountIdentity(input.digest, input.normalise(input.targetEmail),
                                                input.normalise(input.workspaceId));
             var legacy := LegacyVisualAccountIdentity(input.digest, input.normalise, input.targetEmail);
             && e != p && {e, p} !! {i.emptyId, i.populatedId}
             && empty.mutationKey == legacy.emptyMutationKey && populated.mutationKey == legacy.populatedMutationKey
    requires empty.workspaceId == populated.workspaceId == input.workspaceId
    requires empty.name == EMPTY_NAME && populated.name == POPULATED_NAME
    ensures var s := LegacyDatabase(journal, e, p, empty, populated);
            && Sound(s) && Resolve(s, input).Ok? && Transaction(s, input, now).Ok?
            && Resolve(s, input).value.emptyId == e && Resolve(s, input).value.populatedId == p
            && var i, after := Resolve(s, input).value.identities, Transaction(s, input, now).value.accounts;
               && e in after && after[e].mutationKey == i.emptyMutationKey
               && p in after && after[p].mutationKey == i.populatedMutationKey
  {
    hide Prepared, Resolve, Transaction, NormalisedAccountIdentity, LegacyVisualAccountIdentity, MarkersApart, Sound;
    hide FixtureRowsOf, FixtureBlueprints, Committed, EMPTY_NAME, POPULATED_NAME, Adoptable, Claims, KeysFree;
    var s := LegacyDatabase(journal, e, p, empty, populated);
    PreparedIsIdeal(input);
    NamesDiffer();
    ResolvesIff(s, input);
    MarkersAreApart(input.digest, input.normalise, input.targetEmail, input.workspaceId);
    LegacyMarkersDiffer(input.digest, input.normalise, input.targetEmail);
    var i := NormalisedAccountIdentity(input.digest, input.normalise(input.targetEmail), input.normalise(input.workspaceId));
    var legacy := LegacyVisualAccountIdentity(input.digest, input.normalise, input.targetEmail);
    TwoAdoptable(s.accounts, e, p, input.workspaceId, i, legacy);
    LegacyIsSound(journal, e, p, empty, populated);
    TwoClaimed(s.accounts, e, p, input.workspaceId, i, Resolve(s, input).value);
    TwoFree(s.accounts, e, p, input.workspaceId, legacy, Resolve(s, input).value);
    OutcomeOf(s, input, now);
    NothingToForeign(s, input, Resolve(s, input).value);
    AccountsAreClaimed(s, input, now);
  }

  lemma TwoAdoptable(accounts: map<Uuid, Account>, e: Uuid, p: Uuid, w: Uuid, i: AccountIdentity, legacy: AccountIdentity)
    requires accounts.Keys == {e, p} && e != p && EMPTY_NAME != POPULATED_NAME
    requires accounts[e].name == EMPTY_NAME && accounts[p].name == POPULATED_NAME
    requires accounts[e].mutationKey == legacy.emptyMutationKey && accounts[p].mutationKey == legacy.populatedMutationKey
    ensures Adoptable(accounts, w, EMPTY_NAME, i.emptyMutationKey, legacy.emptyMutationKey)
    ensures Adoptable(accounts, w, POPULATED_NAME, i.populatedMutationKey, legacy.populatedMutationKey)
  {
    hide EMPTY_NAME, POPULATED_NAME;
  }

  lemma TwoClaimed(accounts: map<Uuid, Account>, e: Uuid, p: Uuid, w: Uuid, i: AccountIdentity, r: Resolution)
    requires accounts.Keys == {e, p} && e != p && EMPTY_NAME != POPULATED_NAME
    requires accounts[e].name == EMPTY_NAME && accounts[p].name == POPULATED_NAME
    requires accounts[e].workspaceId == accounts[p].workspaceId == w
    requires Claims(accounts, w, EMPTY_NAME, i.emptyId, r.emptyId)
    requires Claims(accounts, w, POPULATED_NAME, i.populatedId, r.populatedId)
    ensures r.emptyId == e && r.populatedId == p
  {
    hide EMPTY_NAME, POPULATED_NAME;
    assert e in accounts && p in accounts;
  }

  lemma TwoFree(accounts: map<Uuid, Account>, e: Uuid, p: Uuid, w: Uuid, legacy: AccountIdentity, r: Resolution)
    requires accounts.Keys == {e, p} && r.emptyId == e && r.populatedId == p && MarkersApart(r.identities, legacy)
    requires accounts[e].mutationKey == legacy.emptyMutationKey && accounts[p].mutationKey == legacy.populatedMutationKey
    ensures KeysFree(accounts, w, r)
  {
  }

  lemma LegacyIsSound(journal: string, e: Uuid, p: Uuid, empty: Account, populated: Account)
    requires empty.mutationKey != populated.mutationKey
    ensures Sound(LegacyDatabase(journal, e, p, empty, populated))
  {
  }

  lemma NothingToForeign(s: State, input: SeedInput, r: Resolution)
    requires s.trades == map[] && s.exits == map[] && s.checks == map[] && s.snapshots == map[]
    requires |input.framework.setups| == 3
    ensures !Foreign(s, input.workspaceId, r, FixtureBlueprints(input, r), FixtureRowsOf(input, r))
    ensures !Protected(s, Under(s, r))
  {
    hide FixtureRowsOf, FixtureBlueprints, TradeIds, TradeKeys;
  }
}
