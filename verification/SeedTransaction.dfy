/**
 The seed as it runs: one connection whose tables are updated statement by statement inside a
 transaction that either commits or is rolled back.
 */
module SeedTransaction {
  import opened Wrappers
  import opened Identity
  import opened Tables
  import opened SeedDatabase
  import opened SeedTheorems
  import opened SeedRerun

  class FixtureDatabase {
    var accounts: map<Uuid, Account>
    var trades: map<Uuid, TradeRow>
    var exits: map<Uuid, ExitRow>
    var checks: map<Uuid, CheckRow>
    var mistakes: map<(Uuid, Uuid), MistakeRow>
    var emotions: map<(Uuid, Uuid), EmotionRow>
    var snapshots: map<Uuid, Uuid>
    var journal: string

    function Now(): State
      reads this
    {
      State(accounts, trades, exits, checks, mistakes, emotions, snapshots, journal)
    }

    constructor (s: State)
      ensures Now() == s
    {
      accounts, trades, exits, checks := s.accounts, s.trades, s.exits, s.checks;
      mistakes, emotions, snapshots, journal := s.mistakes, s.emotions, s.snapshots, s.journal;
    }

    method Restore(s: State)
      modifies this
      ensures Now() == s
    {
      accounts, trades, exits, checks := s.accounts, s.trades, s.exits, s.checks;
      mistakes, emotions, snapshots, journal := s.mistakes, s.emotions, s.snapshots, s.journal;
    }

    method Lookup(w: Uuid, name: string, derivedId: Uuid, expectedKey: Uuid, legacyKey: Uuid)
      returns (r: Result<Uuid, Stop>)
      ensures r == match NameStop(accounts, w, name, expectedKey, legacyKey)
                   case Some(stop) => Err(stop)
                   case None => Ok(ResolveId(accounts, w, name, derivedId))
    {
      var ids := Named(accounts, w, name);
      if |ids| > 1 {
        return Err(AmbiguousName(name));
      }
      if ids == {} {
        return Ok(derivedId);
      }
      var id :| id in ids;
      OnlyPick(ids, id);
      if accounts[id].mutationKey != expectedKey && accounts[id].mutationKey != legacyKey {
        return Err(MissingMarker(name));
      }
      return Ok(id);
    }

    method ResolveAccounts(input: SeedInput) returns (r: Result<Resolution, Stop>)
      ensures r == Resolve(Now(), input)
    {
      var identities := VisualAccountIdentity(input.digest, input.normalise, input.targetEmail, input.workspaceId);
      if identities.Err? {
        return Err(EmptyIdentity);
      }
      var i := identities.value;
      var legacy := LegacyVisualAccountIdentity(input.digest, input.normalise, input.targetEmail);
      var w := input.workspaceId;
      if !OwnedOrFree(accounts, w, i.emptyId, i.emptyMutationKey)
         || !OwnedOrFree(accounts, w, i.populatedId, i.populatedMutationKey) {
        return Err(IdentityOwned);
      }
      var emptyId :- Lookup(w, EMPTY_NAME, i.emptyId, i.emptyMutationKey, legacy.emptyMutationKey);
      var populatedId :- Lookup(w, POPULATED_NAME, i.populatedId, i.populatedMutationKey, legacy.populatedMutationKey);
      return Ok(Resolution(i, emptyId, populatedId));
    }

    method UpsertAccount(id: Uuid, row: Account) returns (ok: bool)
      modifies this`accounts
      ensures ok == Upsert(old(accounts), id, row).Some?
      ensures accounts == Upsert(old(accounts), id, row).GetOr(old(accounts))
    {
      ok := !exists k | k in accounts ::
        k != id && accounts[k].workspaceId == row.workspaceId && accounts[k].mutationKey == row.mutationKey;
      if ok {
        accounts := accounts[id := row];
      }
    }

    method ClaimAccounts(input: SeedInput, r: Resolution, now: int) returns (ok: bool)
      modifies this`accounts
      ensures ok == Claim(old(accounts), input, r, now).Ok?
      ensures ok ==> accounts == Claim(old(accounts), input, r, now).value
      ensures !ok ==> Claim(old(accounts), input, r, now).error == MutationKeyTaken
    {
      ok := UpsertAccount(r.emptyId, EmptyRow(accounts, input, r, now));
      if ok {
        ok := UpsertAccount(r.populatedId, PopulatedRow(accounts, input, r, now));
      }
    }

    /** DELETE FROM trades with its cascades, or the snapshot trigger's exception. */
    method DeleteTrades(w: Uuid, r: Resolution) returns (ok: bool)
      modifies this`trades, this`exits, this`checks, this`mistakes, this`emotions
      ensures ok == !Protected(old(Now()), Doomed(old(Now()), w, r))
      ensures Now() == if ok then Cascade(old(Now()), Doomed(old(Now()), w, r)) else old(Now())
    {
      var doomed := Doomed(Now(), w, r);
      ok := forall x | x in snapshots :: snapshots[x] !in doomed;
      if ok {
        var kept := Cascade(Now(), doomed);
        trades, exits, checks, mistakes, emotions := kept.trades, kept.exits, kept.checks, kept.mistakes, kept.emotions;
      }
    }

    method InsertAll(rows: FixtureRows) returns (ok: bool)
      modifies this`trades, this`exits, this`checks, this`mistakes, this`emotions
      ensures ok == Rebuild(old(Now()), rows).Some?
      ensures ok ==> Now() == Rebuild(old(Now()), rows).value
    {
      hide InsertRows, TradeValidator, ExitValidator, CheckValidator, MistakeValidator, EmotionValidator;
      ok := false;
      var newTrades := Insert(trades, rows.trades, TradeUnique, TradeValidator(accounts));
      if newTrades.None? { return; }
      trades := newTrades.value;
      var newExits := Insert(exits, rows.exits, ExitUnique, ExitValidator(trades));
      if newExits.None? { return; }
      exits := newExits.value;
      var newChecks := Insert(checks, rows.checks, CheckUnique, CheckValidator(trades));
      if newChecks.None? { return; }
      checks := newChecks.value;
      var newMistakes := Insert(mistakes, rows.mistakes, MistakeUnique, MistakeValidator(trades));
      if newMistakes.None? { return; }
      mistakes := newMistakes.value;
      var newEmotions := Insert(emotions, rows.emotions, EmotionUnique, EmotionValidator(trades));
      if newEmotions.None? { return; }
      emotions := newEmotions.value;
      ok := true;
    }

    /** The callback of sql.begin: a returned error is the exception it throws. */
    method Body(input: SeedInput, now: int) returns (stop: Option<Stop>)
      requires |input.framework.setups| == 3
      modifies this
      ensures match Transaction(old(Now()), input, now)
              case Ok(after) => stop == None && Now() == after
              case Err(e) => stop == Some(e)
    {
      hide Resolve, Claim, Rebuild, Foreign, RowsFor, FixtureBlueprints, Doomed, Cascade, Protected, Unrelated;
      var w, journalBefore := input.workspaceId, journal;
      var resolved := ResolveAccounts(input);
      if resolved.Err? {
        return Some(resolved.error);
      }
      var r := resolved.value;
      var unrelatedBefore := Unrelated(Now(), w, r);
      var ok := ClaimAccounts(input, r, now);
      if !ok {
        return Some(MutationKeyTaken);
      }
      var blueprints := FixtureBlueprints(input, r);
      var rows := RowsFor(input, blueprints);
      if Foreign(Now(), w, r, blueprints, rows) {
        return Some(ForeignCollision);
      }
      ok := DeleteTrades(w, r);
      if !ok {
        return Some(ProtectedSnapshot);
      }
      ok := InsertAll(rows);
      if !ok {
        return Some(ConstraintViolated);
      }
      if Unrelated(Now(), w, r) != unrelatedBefore {
        return Some(UnrelatedChanged);
      }
      if journal != journalBefore {
        return Some(JournalChanged);
      }
      return None;
    }

    /** sql.begin: everything the body did is kept, or none of it is. */
    method Seed(input: SeedInput, now: int) returns (stop: Option<Stop>)
      requires Prepared(input)
      modifies this
      ensures match Transaction(old(Now()), input, now)
              case Ok(after) => stop == None && Now() == after
              case Err(e) => stop == Some(e) && Now() == old(Now())
      ensures old(Sound(Now())) ==>
                && Sound(Now())
                && (stop == None <==> old(CanCommit(Now(), input)))
                && stop !in {Some(ConstraintViolated), Some(UnrelatedChanged), Some(JournalChanged)}
    {
      hide Transaction, Sound, CanCommit, Prepared, Committed;
      PreparedIsIdeal(input);
      var before := Now();
      stop := Body(input, now);
      if stop.Some? {
        Restore(before);
      }
      if Sound(before) {
        CommitsExactlyWhen(before, input, now);
        if stop.None? {
          CommitKeepsSound(before, input, now);
        }
      }
    }
  }
}
