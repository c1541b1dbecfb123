/**
 The guards of the seed transaction are exact: each stops a run exactly when letting it go on would
 break a key or a foreign key.
 */
module SeedGuards {
  import opened Wrappers
  import opened Identity
  import opened Blueprint
  import opened Tables
  import opened SeedDatabase
  import opened SeedRows
  import opened SeedTheorems
  import opened SeedFrame
  import opened SeedRerun

  // ------------------------------------------------------------- the trigger

  /** Refusing to delete a trade with a condition snapshot is refusing exactly the deletes that would orphan one. */
  lemma DeleteRefusedIff(s: State, doomed: set<Uuid>)
    requires Sound(s)
    ensures Protected(s, doomed) <==> !Sound(Cascade(s, doomed))
  {
    hide AccountsUnique, TradesSound, ExitsSound, ChecksSound, Sound;
    SoundSplits(s);
    SoundSplits(Cascade(s, doomed));
    CascadeKeepsTradesSound(s, doomed);
    CascadeKeepsExitsSound(s, doomed);
    CascadeKeepsChecksSound(s, doomed);
    SnapshotsAreKept(s, doomed);
    if Protected(s, doomed) {
      var x :| x in s.snapshots && s.snapshots[x] in doomed;
      assert x in Cascade(s, doomed).snapshots && s.snapshots[x] !in Cascade(s, doomed).trades;
    } else {
      forall x | x in s.snapshots
        ensures s.snapshots[x] in Cascade(s, doomed).trades
      {
        assert s.snapshots[x] !in doomed;
      }
    }
  }

  lemma SoundSplits(s: State)
    ensures Sound(s) <==> AccountsUnique(s.accounts) && TradesSound(s) && ExitsSound(s) && ChecksSound(s) && LinksSound(s)
  {
    hide AccountsUnique, TradesSound, ExitsSound, ChecksSound, LinksSound;
  }

  // --------------------------------------------------------- the collisions

  lemma InsertConflicts<K, V>(table: map<K, V>, rows: seq<Row<K, V>>, unique: (Row<K, V>, Row<K, V>) -> bool,
                              valid: Row<K, V> -> bool, k: K, j: nat)
    requires k in table && j < |rows| && (rows[j].0 == k || !unique((k, table[k]), rows[j]))
    ensures InsertRows(table, rows, unique, valid).None?
  {
    hide InsertRows;
    InsertSucceedsIff(table, rows, unique, valid);
  }

  lemma SkippedByCascade(s: State, w: Uuid, r: Resolution, t: Uuid)
    requires TradesSound(s) && t in s.trades && !OwnTrade(s.trades[t], w, r)
    requires r.emptyId in s.accounts ==> s.accounts[r.emptyId].workspaceId == w
    requires r.populatedId in s.accounts ==> s.accounts[r.populatedId].workspaceId == w
    ensures t !in Under(s, r)
  {
    hide TradeUnique;
  }

  lemma ForeignTradeConflicts(s: State, input: SeedInput, r: Resolution, bs: seq<TradeBlueprint>, c: State)
    requires TradesSound(s) && ForeignTrade(s, input.workspaceId, r, bs)
    requires r.emptyId in s.accounts ==> s.accounts[r.emptyId].workspaceId == input.workspaceId
    requires r.populatedId in s.accounts ==> s.accounts[r.populatedId].workspaceId == input.workspaceId
    requires c.trades == Cascade(s, Under(s, r)).trades
    ensures InsertRows(c.trades, RowsFor(input, bs).trades, TradeUnique, TradeValidator(c.accounts)).None?
  {
    hide TradesSound, InsertRows, FlatMap, Under;
    var w := input.workspaceId;
    var t :| t in s.trades && (t in TradeIds(bs) || (s.trades[t].workspaceId == w && s.trades[t].mutationKey in TradeKeys(bs)))
             && !OwnTrade(s.trades[t], w, r);
    SkippedByCascade(s, w, r, t);
    var i: nat :| i < |bs| && (bs[i].id == t || (s.trades[t].workspaceId == w && bs[i].mutationKey == s.trades[t].mutationKey));
    var j := FlatMapTarget(bs, TradeRowsOf(w), i, 0);
    InsertConflicts(c.trades, RowsFor(input, bs).trades, TradeUnique, TradeValidator(c.accounts), t, j);
  }

  lemma ForeignExitConflicts(s: State, input: SeedInput, r: Resolution, bs: seq<TradeBlueprint>, c: State,
                             trades: map<Uuid, TradeRow>)
    requires TradesSound(s) && ForeignExit(s, input.workspaceId, r, RowsFor(input, bs).exits)
    requires r.emptyId in s.accounts ==> s.accounts[r.emptyId].workspaceId == input.workspaceId
    requires r.populatedId in s.accounts ==> s.accounts[r.populatedId].workspaceId == input.workspaceId
    requires c.exits == Cascade(s, Under(s, r)).exits
    ensures InsertRows(c.exits, RowsFor(input, bs).exits, ExitUnique, ExitValidator(trades)).None?
  {
    hide TradesSound, InsertRows, FlatMap, Under, RowsFor, ExitValidator;
    var w, rows := input.workspaceId, RowsFor(input, bs).exits;
    var x :| x in s.exits && s.exits[x].tradeId in s.trades && !OwnTrade(s.trades[s.exits[x].tradeId], w, r)
             && exists i :: 0 <= i < |rows| &&
                  (rows[i].0 == x || (s.exits[x].workspaceId == w && s.exits[x].mutationKey == rows[i].1.mutationKey));
    SkippedByCascade(s, w, r, s.exits[x].tradeId);
    var j: nat :| j < |rows| && (rows[j].0 == x || (s.exits[x].workspaceId == w && s.exits[x].mutationKey == rows[j].1.mutationKey));
    ExitRowIsHere(input, bs, j);
    InsertConflicts(c.exits, rows, ExitUnique, ExitValidator(trades), x, j);
  }

  lemma ExitRowIsHere(input: SeedInput, bs: seq<TradeBlueprint>, j: nat)
    requires j < |RowsFor(input, bs).exits|
    ensures RowsFor(input, bs).exits[j].1.workspaceId == input.workspaceId
  {
    hide FlatMap;
    var i, k := ExitRowAt(input.workspaceId, bs, j);
  }

  lemma ForeignCheckConflicts(s: State, input: SeedInput, r: Resolution, bs: seq<TradeBlueprint>, c: State,
                              trades: map<Uuid, TradeRow>)
    requires TradesSound(s) && ForeignCheck(s, input.workspaceId, r, RowsFor(input, bs).checks)
    requires r.emptyId in s.accounts ==> s.accounts[r.emptyId].workspaceId == input.workspaceId
    requires r.populatedId in s.accounts ==> s.accounts[r.populatedId].workspaceId == input.workspaceId
    requires c.checks == Cascade(s, Under(s, r)).checks
    ensures InsertRows(c.checks, RowsFor(input, bs).checks, CheckUnique, CheckValidator(trades)).None?
  {
    hide TradesSound, InsertRows, FlatMap, Under, RowsFor, CheckValidator, CheckUnique;
    var w, rows := input.workspaceId, RowsFor(input, bs).checks;
    var x :| x in s.checks && s.checks[x].tradeId in s.trades && !OwnTrade(s.trades[s.checks[x].tradeId], w, r)
             && exists i :: 0 <= i < |rows| && rows[i].0 == x;
    SkippedByCascade(s, w, r, s.checks[x].tradeId);
    var j: nat :| j < |rows| && rows[j].0 == x;
    InsertConflicts(c.checks, rows, CheckUnique, CheckValidator(trades), x, j);
  }

  lemma RebuildFails(c: State, rows: FixtureRows)
    requires || InsertRows(c.trades, rows.trades, TradeUnique, TradeValidator(c.accounts)).None?
             || (forall trades :: InsertRows(c.exits, rows.exits, ExitUnique, ExitValidator(trades)).None?)
             || (forall trades :: InsertRows(c.checks, rows.checks, CheckUnique, CheckValidator(trades)).None?)
    ensures Rebuild(c, rows).None?
  {
    hide InsertRows, TradeUnique, ExitUnique, CheckUnique, TradeValidator, ExitValidator, CheckValidator;
  }

  /**
   The three collision guards stop a run exactly when the five inserts, made on what the delete would
   leave, could not all go in: nothing is refused that would have worked, and nothing gets past them.
   */
  lemma GuardsAreExact(s: State, input: SeedInput, r: Resolution, now: int, bs: seq<TradeBlueprint>)
    requires Prepared(input) && Sound(s) && Settled(s.accounts, input.workspaceId, r)
    requires KeysFree(s.accounts, input.workspaceId, r) && AllBuilt(input, r.populatedId, bs)
    ensures var left := Cascade(s.(accounts := Claimed(s.accounts, input, r, now)), Under(s, r));
            Foreign(s, input.workspaceId, r, bs, RowsFor(input, bs)) <==> Rebuild(left, RowsFor(input, bs)).None?
  {
    hide Settled, KeysFree, AllBuilt, RowsFor, Prepared, Ready, Under, Rebuild, Cascade, InsertRows, TradesSound, ExitsSound;
    hide ForeignTrade, ForeignExit, ForeignCheck, EmptyRow, PopulatedRow, Claimed, ChecksSound, LinksSound, AccountsUnique;
    var w, rows, claimed := input.workspaceId, RowsFor(input, bs), s.(accounts := Claimed(s.accounts, input, r, now));
    var left := Cascade(claimed, Under(s, r));
    SettledHere(s.accounts, w, r);
    CascadeLeavesAccounts(s, claimed.accounts, Under(s, r));
    if Foreign(s, w, r, bs, rows) {
      if ForeignTrade(s, w, r, bs) {
        ForeignTradeConflicts(s, input, r, bs, left);
      } else if ForeignExit(s, w, r, rows.exits) {
        forall trades ensures InsertRows(left.exits, rows.exits, ExitUnique, ExitValidator(trades)).None? {
          ForeignExitConflicts(s, input, r, bs, left, trades);
        }
      } else {
        forall trades ensures InsertRows(left.checks, rows.checks, CheckUnique, CheckValidator(trades)).None? {
          ForeignCheckConflicts(s, input, r, bs, left, trades);
        }
      }
      RebuildFails(left, rows);
    } else {
      AccountsPlayNoPart(s, claimed.accounts, w, r, bs, rows);
      ClaimedIsSound(s, input, r, now);
      ClaimedPopulated(s.accounts, input, r, now);
      GuardsClearTheWay(claimed, w, r, bs, rows);
      RebuildSucceeds(left, input, r.populatedId, bs);
    }
  }

  lemma SettledHere(accounts: map<Uuid, Account>, w: Uuid, r: Resolution)
    requires Settled(accounts, w, r)
    ensures r.emptyId in accounts ==> accounts[r.emptyId].workspaceId == w
    ensures r.populatedId in accounts ==> accounts[r.populatedId].workspaceId == w
  {
    hide Named, OwnedOrFree, EMPTY_NAME, POPULATED_NAME;
  }

  // ---------------------------------------------------------- the fingerprint

  /** The fingerprint of the other accounts would show the loss of any one of their trades. */
  lemma FingerprintShowsALoss(s: State, w: Uuid, r: Resolution, t: Uuid)
    requires TradesSound(s) && t in s.trades && s.trades[t].workspaceId == w
    requires s.trades[t].tradingAccountId !in {r.emptyId, r.populatedId}
    ensures Unrelated(Cascade(s, {t}), w, r) != Unrelated(s, w, r)
  {
    hide TradeUnique;
    var a := s.trades[t].tradingAccountId;
    assert TradesUnder(Cascade(s, {t}), a) == TradesUnder(s, a) - {t};
    assert t in TradesUnder(s, a);
    assert a in Unrelated(s, w, r);
    assert Unrelated(s, w, r)[a].2 == |TradesUnder(s, a)|;
    assert Unrelated(Cascade(s, {t}), w, r)[a].2 == |TradesUnder(s, a)| - 1;
  }

  /** It would also show another account renamed, touched, added or gone. */
  lemma FingerprintShowsAccounts(s: State, t: State, w: Uuid, r: Resolution, a: Uuid)
    requires Unrelated(s, w, r) == Unrelated(t, w, r) && a !in {r.emptyId, r.populatedId}
    requires a in s.accounts && s.accounts[a].workspaceId == w
    ensures a in t.accounts && t.accounts[a].workspaceId == w
    ensures t.accounts[a].name == s.accounts[a].name && t.accounts[a].updatedAt == s.accounts[a].updatedAt
  {
    assert a in Unrelated(s, w, r) && a in Unrelated(t, w, r);
    assert Unrelated(s, w, r)[a].0 == Unrelated(t, w, r)[a].0 && Unrelated(s, w, r)[a].1 == Unrelated(t, w, r)[a].1;
  }
}
