/**
 Which trades the dashboard counts: trader-complete (A), system-complete (B) and both (C); the
 counts and totals the validators pin for the fixture.
 */
module Populations {
  import opened Wrappers
  import opened Identity
  import opened ExitLegs
  import opened Calendar
  import opened FixtureTables
  import opened Blueprint
  import opened Tables
  import opened SeedDatabase
  import opened SeedRows
  import opened SeedTheorems
  import opened SeedFrame

  datatype Recorded = Recorded(content: TradeContent, deleted: bool)

  predicate TraderComplete(c: TradeContent) {
    c.status == Closed && c.actualR.Some? && c.traderOutcome.Some? && c.exitedAt.Some?
  }

  predicate SystemComplete(c: TradeContent) {
    c.systemStatus == Resolved && c.systemR.Some? && c.systemOutcome.Some? && c.systemExitedAt.Some?
  }

  function TraderOk(): Recorded -> bool {
    (r: Recorded) => !r.deleted && TraderComplete(r.content)
  }

  function SystemOk(): Recorded -> bool {
    (r: Recorded) => !r.deleted && SystemComplete(r.content)
  }

  /** trader_ok and not system_ok */
  function TraderOnly(): Recorded -> bool {
    (r: Recorded) => !r.deleted && TraderComplete(r.content) && !SystemComplete(r.content)
  }

  function SystemOnly(): Recorded -> bool {
    (r: Recorded) => !r.deleted && SystemComplete(r.content) && !TraderComplete(r.content)
  }

  /** isComparisonEligible */
  function Eligible(): Recorded -> bool {
    (r: Recorded) => !r.deleted && TraderComplete(r.content) && SystemComplete(r.content)
  }

  /** The candidate query of the comparison: complete on at least one axis. */
  function Candidate(): Recorded -> bool {
    (r: Recorded) => !r.deleted && (TraderComplete(r.content) || SystemComplete(r.content))
  }

  /** The shorter comparison query of the seed report. */
  function ClosedAndResolved(): Recorded -> bool {
    (r: Recorded) => r.content.status == Closed && r.content.systemStatus == Resolved && !r.deleted
  }

  function Filter<A>(s: seq<A>, p: A -> bool): seq<A> {
    if s == [] then [] else (if p(s[0]) then [s[0]] else []) + Filter(s[1..], p)
  }

  function Count<A>(s: seq<A>, p: A -> bool): nat {
    if s == [] then 0 else (if p(s[0]) then 1 else 0) + Count(s[1..], p)
  }

  // -------------------------------------------------------------- any row set

  /** For any rows: exclusive and paired counts add up to the totals, and candidates are all three. */
  lemma {:induction false} CountsReconcile(rows: seq<Recorded>)
    ensures Count(rows, TraderOnly()) + Count(rows, Eligible()) == Count(rows, TraderOk())
    ensures Count(rows, SystemOnly()) + Count(rows, Eligible()) == Count(rows, SystemOk())
    ensures Count(rows, Candidate()) + Count(rows, Eligible()) == Count(rows, TraderOk()) + Count(rows, SystemOk())
  {
    if rows != [] {
      CountsReconcile(rows[1..]);
    }
  }

  lemma {:induction false} FilterTwice<A>(s: seq<A>, p: A -> bool, q: A -> bool)
    requires forall x | q(x) :: p(x)
    ensures Filter(Filter(s, p), q) == Filter(s, q)
  {
    if s != [] {
      FilterTwice(s[1..], p, q);
      var rest := Filter(s[1..], p);
      assert [] + rest == rest && ([s[0]] + rest)[1..] == rest;
      assert q(s[0]) ==> p(s[0]);
    }
  }

  /** Handing the composer candidates loses no pair and adds none. */
  lemma NarrowedCandidatesAreTheIntersection(rows: seq<Recorded>)
    ensures Filter(Filter(rows, Candidate()), Eligible()) == Filter(rows, Eligible())
    ensures forall r | r in Filter(rows, Eligible()) :: TraderOk()(r) && SystemOk()(r)
  {
    FilterTwice(rows, Candidate(), Eligible());
    FilterMembers(rows, Eligible());
  }

  lemma {:induction false} FilterMembers<A>(s: seq<A>, p: A -> bool)
    ensures forall x :: x in Filter(s, p) <==> x in s && p(x)
  {
    if s != [] {
      FilterMembers(s[1..], p);
      assert forall x :: x in s <==> x == s[0] || x in s[1..];
    }
  }

  lemma {:induction false} SameFilter<A>(s: seq<A>, p: A -> bool, q: A -> bool)
    requires forall x | x in s :: p(x) == q(x)
    ensures Filter(s, p) == Filter(s, q)
  {
    if s != [] {
      SameFilter(s[1..], p, q);
    }
  }

  /** The table's checks make status alone decide each axis, so the shorter query selects the same trades. */
  lemma ShorterQueryAgrees(rows: seq<Recorded>)
    requires forall r | r in rows :: StatusConsistent(r.content) && SystemStatusConsistent(r.content)
    ensures Filter(rows, ClosedAndResolved()) == Filter(rows, Eligible())
  {
    SameFilter(rows, ClosedAndResolved(), Eligible());
  }

  // ------------------------------------------------------------- the fixture

  /** A fixture trade's label says exactly which axes it is complete on. */
  lemma LabelsAreEligibility(digest: Digest, accountId: Uuid, framework: Framework, index: nat)
    requires index < TRADE_COUNT && 3 <= |framework.setups|
    ensures var b := BlueprintAt(digest, accountId, framework, index);
            && (TraderComplete(b.content) <==> b.population in {A, C})
            && (SystemComplete(b.content) <==> b.population in {B, C, Operational})
            && (b.population.C? <==> index < 64) && (b.population.A? <==> 64 <= index < 66)
            && (b.content.status == Planned <==> b.population.B?)
            && (b.content.status == Open <==> b.population.Operational?)
  {
    hide TradeId, TradeMutationKey, EmotionKeys, MistakeKeys, Exits, ActualTargets, SystemComparable;
    hide ConfirmationNotes, ReviewNotes, Symbol, Timeframe, Session, UpdatedAt, CreatedAt, SumPnl, CanonicalR, DateForIndex;
  }

  function RecordedTrades(bs: seq<TradeBlueprint>): (rows: seq<Recorded>)
    ensures |rows| == |bs|
    ensures forall i | 0 <= i < |bs| :: rows[i] == Recorded(bs[i].content, false)
  {
    seq(|bs|, i requires 0 <= i < |bs| => Recorded(bs[i].content, false))
  }

  lemma {:induction false} CountAll<A>(s: seq<A>, p: A -> bool, lo: int, hi: int)
    requires 0 <= lo <= hi <= |s|
    ensures (forall i | lo <= i < hi :: p(s[i])) ==> Count(s[lo..hi], p) == hi - lo
    ensures (forall i | lo <= i < hi :: !p(s[i])) ==> Count(s[lo..hi], p) == 0
    decreases hi - lo
  {
    if lo < hi {
      assert s[lo..hi][1..] == s[lo + 1..hi];
      CountAll(s, p, lo + 1, hi);
    }
  }

  lemma {:induction false} CountSplit<A>(a: seq<A>, b: seq<A>, p: A -> bool)
    ensures Count(a + b, p) == Count(a, p) + Count(b, p)
  {
    if a == [] {
      assert a + b == b;
    } else {
      assert (a + b)[1..] == a[1..] + b;
      CountSplit(a[1..], b, p);
    }
  }

  lemma CountJoin<A>(s: seq<A>, p: A -> bool, lo: int, mid: int, hi: int)
    requires 0 <= lo <= mid <= hi <= |s|
    ensures Count(s[lo..hi], p) == Count(s[lo..mid], p) + Count(s[mid..hi], p)
  {
    hide Count;
    CountSplit(s[lo..mid], s[mid..hi], p);
    assert s[lo..hi] == s[lo..mid] + s[mid..hi];
  }

  /** Rows up to one index satisfy p, none up to a second, and all the rest. */
  lemma CountByIndex<A>(s: seq<A>, p: A -> bool, lo: int, hi: int)
    requires 0 <= lo <= hi <= |s|
    requires forall i | 0 <= i < |s| :: p(s[i]) <==> i < lo || hi <= i
    ensures Count(s, p) == |s| - (hi - lo)
  {
    hide Count;
    CountAll(s, p, 0, lo);
    CountAll(s, p, lo, hi);
    CountAll(s, p, hi, |s|);
    CountJoin(s, p, 0, lo, |s|);
    CountJoin(s, p, lo, hi, |s|);
    assert s[0..|s|] == s;
  }

  /** 66 trades in the trader population, 68 in the system population, the same 64 in both. */
  lemma FixtureCounts(digest: Digest, accountId: Uuid, framework: Framework)
    requires 3 <= |framework.setups|
    ensures var rows := RecordedTrades(Blueprints(digest, accountId, framework));
            && |rows| == 70
            && Count(rows, TraderOk()) == 66 && Count(rows, SystemOk()) == 68 && Count(rows, Eligible()) == 64
            && Count(rows, TraderOnly()) == 2 && Count(rows, SystemOnly()) == 4
  {
    hide TraderComplete, SystemComplete, BlueprintAt, Count, Blueprints;
    var bs := Blueprints(digest, accountId, framework);
    var rows := RecordedTrades(bs);
    forall i | 0 <= i < |rows|
      ensures TraderComplete(rows[i].content) <==> i < 66
      ensures SystemComplete(rows[i].content) <==> i < 64 || 66 <= i
    {
      LabelsAreEligibility(digest, accountId, framework, i);
      PopulationIs(digest, accountId, framework, i);
    }
    CountByIndex(rows, TraderOk(), 66, 70);
    CountByIndex(rows, SystemOk(), 64, 66);
    CountByIndex(rows, Eligible(), 64, 70);
    CountsReconcile(rows);
  }

  lemma PopulationIs(digest: Digest, accountId: Uuid, framework: Framework, index: nat)
    requires index < TRADE_COUNT && 3 <= |framework.setups|
    ensures BlueprintAt(digest, accountId, framework, index).population == PopulationOf(index)
  {
    hide TradeId, TradeMutationKey, EmotionKeys, MistakeKeys, Exits, ContentOf, CloseAt, SystemAt, PopulationOf;
  }

  // --------------------------------------------------------------- net result

  /** What the risk report sums: the net result of the closed trades. */
  function NetTotal(bs: seq<TradeBlueprint>): int {
    if bs == [] then 0
    else NetTotal(bs[..|bs| - 1]) + bs[|bs| - 1].content.netPnlMinor.GetOr(0)
  }

  lemma NetStep(bs: seq<TradeBlueprint>, n: nat)
    requires 0 < n <= |bs|
    ensures NetTotal(bs[..n]) == NetTotal(bs[..n - 1]) + bs[n - 1].content.netPnlMinor.GetOr(0)
  {
    assert bs[..n][..n - 1] == bs[..n - 1];
  }

  lemma SumStep(s: seq<real>, n: nat)
    requires 0 < n <= |s|
    ensures Sum(s[..n]) == Sum(s[..n - 1]) + s[n - 1]
  {
    assert s[..n] == s[..n - 1] + [s[n - 1]];
    SumSplit(s[..n - 1], [s[n - 1]]);
    SumOne(s[n - 1]);
  }

  lemma NetAt(digest: Digest, accountId: Uuid, framework: Framework, i: nat)
    requires 3 <= |framework.setups| && i < TRADE_COUNT
    ensures Blueprints(digest, accountId, framework)[i].content.netPnlMinor.GetOr(0) as real
         == if i < 66 then ActualTargets()[i] * 10_000.0 else 0.0
  {
    hide ActualTargets, BlueprintAt, ActualTargetR, SumPnl;
    MoneyConserved(digest, accountId, framework, i);
    if i < 66 {
      TargetAt(i);
    }
  }

  lemma {:induction false} NetOfPrefix(digest: Digest, accountId: Uuid, framework: Framework, n: nat)
    requires 3 <= |framework.setups| && n <= 66
    ensures NetTotal(Blueprints(digest, accountId, framework)[..n]) as real == Sum(ActualTargets()[..n]) * 10_000.0
  {
    hide ActualTargets, BlueprintAt, Blueprints, Sum, NetTotal;
    EmptySums();
    if n > 0 {
      NetOfPrefix(digest, accountId, framework, n - 1);
      NetAt(digest, accountId, framework, n - 1);
      NetStep(Blueprints(digest, accountId, framework), n);
      SumStep(ActualTargets(), n);
    } else {
      assert Blueprints(digest, accountId, framework)[..n] == [] && ActualTargets()[..n] == [];
    }
  }

  lemma EmptySums()
    ensures Sum([]) == 0.0 && NetTotal([]) == 0
  {
  }

  lemma SumOne(x: real)
    ensures Sum([x]) == x
  {
    assert [x][1..] == [];
  }

  lemma TargetAt(i: nat)
    requires i < 66
    ensures ActualTargetR(i) == Some(ActualTargets()[i])
  {
    hide ActualTargets;
  }

  lemma {:induction false} NoNetAfter(digest: Digest, accountId: Uuid, framework: Framework, n: nat)
    requires 3 <= |framework.setups| && 66 <= n <= 70
    ensures NetTotal(Blueprints(digest, accountId, framework)[..n]) == NetTotal(Blueprints(digest, accountId, framework)[..66])
  {
    hide BlueprintAt, Blueprints, NetTotal, ActualTargets;
    if n > 66 {
      NoNetAfter(digest, accountId, framework, n - 1);
      NetAt(digest, accountId, framework, n - 1);
      NetStep(Blueprints(digest, accountId, framework), n);
    }
  }

  /** The total the risk validator pins, for any account and framework. */
  lemma FixtureNetTotal(digest: Digest, accountId: Uuid, framework: Framework)
    requires 3 <= |framework.setups|
    ensures NetTotal(Blueprints(digest, accountId, framework)) == 231_000
  {
    hide ActualTargets, BlueprintAt, Blueprints, NetTotal, Sum;
    var bs := Blueprints(digest, accountId, framework);
    NetOfPrefix(digest, accountId, framework, 66);
    NoNetAfter(digest, accountId, framework, 70);
    ActualTotal();
    assert ActualTargets()[..66] == ActualTargets();
    assert bs[..70] == bs;
  }

  // ----------------------------------------------------------- partial closes

  function Legs(index: nat): nat
    requires index < TRADE_COUNT
  {
    if index >= 66 then 0
    else if index !in PARTIAL_TRADE_INDICES then 1
    else if index % 4 == 3 then 3 else 2
  }

  lemma LegCount(digest: Digest, accountId: Uuid, framework: Framework, index: nat)
    requires index < TRADE_COUNT && 3 <= |framework.setups|
    ensures |BlueprintAt(digest, accountId, framework, index).exits| == Legs(index)
  {
    hide *;
    BlueprintFields(digest, accountId, framework, index);
    ExitsAre(digest, accountId, index);
    ClosedIndices(index);
    if index < 66 {
      var tradeId, r, t := TradeId(digest, accountId, index), ActualTargetR(index).value, ExitedAt(index).value;
      LegAmounts(digest, tradeId, index, r, t);
      PartCount(index, MinorForR(r));
    } else {
      NoParts(index);
    }
  }

  lemma ClosedIndices(index: nat)
    requires index < TRADE_COUNT
    ensures ActualTargetR(index).Some? <==> index < 66
    ensures ExitedAt(index).Some? <==> index < 66
  {
    hide ActualTargets, DateForIndex;
  }

  lemma PartCount(index: nat, totalMinor: int)
    requires index < 66
    ensures |Parts(index, totalMinor)| == Legs(index)
  {
    hide TruncatingDiv;
  }

  lemma NoParts(index: nat)
    requires 66 <= index < TRADE_COUNT
    ensures Legs(index) == 0
  {
  }

  function PartialTrades(bs: seq<TradeBlueprint>): nat {
    if bs == [] then 0 else PartialTrades(bs[..|bs| - 1]) + if |bs[|bs| - 1].exits| > 1 then 1 else 0
  }

  function PartialLegs(bs: seq<TradeBlueprint>): nat {
    if bs == [] then 0
    else PartialLegs(bs[..|bs| - 1]) + if |bs[|bs| - 1].exits| > 1 then |bs[|bs| - 1].exits| else 0
  }

  /** How many partial trades and legs there are below an index, in closed form. */
  function PartialsBelow(n: nat): (nat, nat) {
    if n <= 5 then (0, 0)
    else if n <= 11 then (1, 2)
    else if n <= 18 then (2, 5)
    else if n <= 24 then (3, 7)
    else if n <= 31 then (4, 9)
    else if n <= 39 then (5, 12)
    else if n <= 46 then (6, 15)
    else if n <= 52 then (7, 17)
    else if n <= 58 then (8, 19)
    else if n <= 63 then (9, 21)
    else (10, 24)
  }

  lemma {:induction false} PartialsOfPrefix(digest: Digest, accountId: Uuid, framework: Framework, n: nat)
    requires 3 <= |framework.setups| && n <= 70
    ensures var bs := Blueprints(digest, accountId, framework)[..n];
            (PartialTrades(bs), PartialLegs(bs)) == PartialsBelow(n)
  {
    hide BlueprintAt, Blueprints;
    if n > 0 {
      var bs := Blueprints(digest, accountId, framework);
      PartialsOfPrefix(digest, accountId, framework, n - 1);
      LegCount(digest, accountId, framework, n - 1);
      assert bs[..n][..n - 1] == bs[..n - 1];
    }
  }

  /** Ten partially closed trades with 24 legs between them, as the risk validator expects. */
  lemma FixturePartials(digest: Digest, accountId: Uuid, framework: Framework)
    requires 3 <= |framework.setups|
    ensures PartialTrades(Blueprints(digest, accountId, framework)) == 10
    ensures PartialLegs(Blueprints(digest, accountId, framework)) == 24
  {
    hide BlueprintAt, Blueprints, PartialTrades, PartialLegs;
    PartialsOfPrefix(digest, accountId, framework, 70);
    assert Blueprints(digest, accountId, framework)[..70] == Blueprints(digest, accountId, framework);
  }

  // ------------------------------------------------------- after the commit

  /** How many of a table's rows satisfy p. */
  function CountRows<K, V>(table: map<K, V>, p: V -> bool): nat {
    |set k | k in table && p(table[k])|
  }

  function ValuesOf<K, V>(rows: seq<Row<K, V>>): (vs: seq<V>)
    ensures |vs| == |rows|
    ensures forall i | 0 <= i < |rows| :: vs[i] == rows[i].1
  {
    seq(|rows|, i requires 0 <= i < |rows| => rows[i].1)
  }

  /** Counting in a table that holds exactly these rows is counting the rows. */
  lemma {:induction false} CountHeldRows<K, V>(table: map<K, V>, rows: seq<Row<K, V>>, p: V -> bool)
    requires HoldsExactly(table, rows)
    ensures CountRows(table, p) == Count(ValuesOf(rows), p)
    decreases |rows|
  {
    if rows == [] {
      NothingHeld(table, rows, p);
    } else {
      var table' := map k | k in table && k != rows[0].0 :: table[k];
      RestHeld(table, rows);
      FirstHeld(table, rows);
      CountValues(rows, p);
      hide HoldsExactly, CountRows, Count;
      CountHeldRows(table', rows[1..], p);
      CountOneMore(table, table', rows[0].0, p);
    }
  }

  lemma NothingHeld<K, V>(table: map<K, V>, rows: seq<Row<K, V>>, p: V -> bool)
    requires rows == [] && HoldsExactly(table, rows)
    ensures CountRows(table, p) == 0 && Count(ValuesOf(rows), p) == 0
  {
    assert table == map[];
  }

  lemma FirstHeld<K, V>(table: map<K, V>, rows: seq<Row<K, V>>)
    requires rows != [] && HoldsExactly(table, rows)
    ensures rows[0].0 in table && table[rows[0].0] == rows[0].1
  {
  }

  lemma CountValues<K, V>(rows: seq<Row<K, V>>, p: V -> bool)
    requires rows != []
    ensures Count(ValuesOf(rows), p) == (if p(rows[0].1) then 1 else 0) + Count(ValuesOf(rows[1..]), p)
  {
    assert ValuesOf(rows)[1..] == ValuesOf(rows[1..]);
  }

  lemma CountOneMore<K, V>(table: map<K, V>, table': map<K, V>, k0: K, p: V -> bool)
    requires k0 in table && k0 !in table'
    requires forall k | k != k0 :: k in table <==> k in table'
    requires forall k | k in table' :: table'[k] == table[k]
    ensures CountRows(table, p) == CountRows(table', p) + if p(table[k0]) then 1 else 0
  {
    var ks, ks' := set k | k in table && p(table[k]), set k | k in table' && p(table'[k]);
    if p(table[k0]) {
      assert ks == ks' + {k0};
    } else {
      assert ks == ks';
    }
  }

  lemma RestHeld<K, V>(table: map<K, V>, rows: seq<Row<K, V>>)
    requires rows != [] && HoldsExactly(table, rows)
    ensures HoldsExactly(map k | k in table && k != rows[0].0 :: table[k], rows[1..])
  {
    var rest, table' := rows[1..], map k | k in table && k != rows[0].0 :: table[k];
    assert forall i | 0 <= i < |rest| :: rest[i] == rows[i + 1];
    forall k | k in table'
      ensures exists i :: 0 <= i < |rest| && rest[i].0 == k
    {
      var i :| 0 <= i < |rows| && rows[i].0 == k;
      assert rest[i - 1].0 == k;
    }
  }

  function Lives(p: Recorded -> bool): TradeRow -> bool {
    (row: TradeRow) => p(Recorded(row.content, false))
  }

  lemma {:induction false} CountThrough<A, B>(s: seq<A>, t: seq<B>, p: A -> bool, q: B -> bool)
    requires |s| == |t| && forall i | 0 <= i < |s| :: p(s[i]) == q(t[i])
    ensures Count(s, p) == Count(t, q)
  {
    if s != [] {
      CountThrough(s[1..], t[1..], p, q);
    }
  }

  lemma {:induction false} SingletonRows(w: Uuid, bs: seq<TradeBlueprint>)
    ensures |FlatMap(bs, TradeRowsOf(w))| == |bs|
    ensures forall i | 0 <= i < |bs| :: FlatMap(bs, TradeRowsOf(w))[i] == (bs[i].id, TradeRowFor(w, bs[i]))
  {
    if bs != [] {
      SingletonRows(w, bs[1..]);
    }
  }

  /** The populations of the trades under one account, as the report's queries count them. */
  function Population(s: State, accountId: Uuid, p: Recorded -> bool): nat {
    CountRows(Belonging(s, TradesUnder(s, accountId)).trades, Lives(p))
  }

  lemma PopulationAfter(s: State, input: SeedInput, now: int, p: Recorded -> bool)
    requires Prepared(input) && Sound(s) && Transaction(s, input, now).Ok?
    ensures Resolve(s, input).Ok? && |input.framework.setups| == 3
    ensures Population(Transaction(s, input, now).value, Resolve(s, input).value.populatedId, p)
         == Count(RecordedTrades(FixtureBlueprints(input, Resolve(s, input).value)), p)
  {
    hide Prepared, Sound, Resolve, Transaction, Belonging, TradesUnder, HoldsExactly, FlatMap, Count, CountRows;
    hide Blueprints, Lives;
    PreparedIsIdeal(input);
    WhatCommits(s, input, now);
    ExactlyTheBlueprint(s, input, now);
    var r := Resolve(s, input).value;
    var bs := FixtureBlueprints(input, r);
    var after := Transaction(s, input, now).value;
    var rows := FixtureRowsOf(input, r).trades;
    CountHeldRows(Belonging(after, TradesUnder(after, r.populatedId)).trades, rows, Lives(p));
    SingletonRows(input.workspaceId, bs);
    LivesCount(rows, bs, input.workspaceId, p);
  }

  lemma LivesCount(rows: seq<Row<Uuid, TradeRow>>, bs: seq<TradeBlueprint>, w: Uuid, p: Recorded -> bool)
    requires |rows| == |bs| && forall i | 0 <= i < |bs| :: rows[i] == (bs[i].id, TradeRowFor(w, bs[i]))
    ensures Count(ValuesOf(rows), Lives(p)) == Count(RecordedTrades(bs), p)
  {
    CountThrough(ValuesOf(rows), RecordedTrades(bs), Lives(p), p);
  }

  /** Whatever the database held before, a committed seed leaves 66, 68 and 64 trades in A, B and C. */
  lemma ReportAfterCommit(s: State, input: SeedInput, now: int)
    requires Prepared(input) && Sound(s) && Transaction(s, input, now).Ok?
    ensures Resolve(s, input).Ok?
    ensures var after, p := Transaction(s, input, now).value, Resolve(s, input).value.populatedId;
            && Population(after, p, TraderOk()) == 66
            && Population(after, p, SystemOk()) == 68
            && Population(after, p, Eligible()) == 64
            && Population(after, p, TraderOnly()) == 2
            && Population(after, p, SystemOnly()) == 4
  {
    hide Prepared, Sound, Resolve, Transaction, Population, Count, Blueprints;
    PopulationAfter(s, input, now, TraderOk());
    PopulationAfter(s, input, now, SystemOk());
    PopulationAfter(s, input, now, Eligible());
    PopulationAfter(s, input, now, TraderOnly());
    PopulationAfter(s, input, now, SystemOnly());
    FixtureCounts(input.digest, Resolve(s, input).value.populatedId, input.framework);
  }
}
