/**
 The totals in the committed tables: what the exits of each fixture trade add up to, how many trades
 are closed in parts, and the money and R the account totals, whatever database the seed was run on.
 */
module CommittedTotals {
  import opened Wrappers
  import opened Identity
  import opened ExitLegs
  import opened Calendar
  import opened FixtureTables
  import opened Blueprint
  import opened Tables
  import opened SeedDatabase
  import opened SeedRows
  import opened SeedTheorems
  import opened SeedFrame
  import opened Populations

  // ------------------------------------------------------------------- sums

  /** SUM over the rows of a table. */
  ghost function SumOver<K, V>(table: map<K, V>, f: V -> real): real
    decreases |table|
  {
    if table == map[] then 0.0
    else
      var k :| k in table;
      f(table[k]) + SumOver(table - {k}, f)
  }

  function SumOf<V>(s: seq<V>, f: V -> real): real {
    if s == [] then 0.0 else f(s[0]) + SumOf(s[1..], f)
  }

  lemma {:induction false} SumWithout<K, V>(table: map<K, V>, f: V -> real, k: K)
    requires k in table
    ensures SumOver(table, f) == f(table[k]) + SumOver(table - {k}, f)
    decreases |table|
  {
    var first :| first in table && SumOver(table, f) == f(table[first]) + SumOver(table - {first}, f);
    if first != k {
      SumWithout(table - {first}, f, k);
      SumWithout(table - {k}, f, first);
      assert table - {first} - {k} == table - {k} - {first};
    }
  }

  /** Adding up a table that holds exactly these rows is adding up the rows. */
  lemma {:induction false} SumHeldRows<K, V>(table: map<K, V>, rows: seq<Row<K, V>>, f: V -> real)
    requires HoldsExactly(table, rows)
    ensures SumOver(table, f) == SumOf(ValuesOf(rows), f)
    decreases |rows|
  {
    if rows == [] {
      NothingToSum(table, rows, f);
    } else {
      var k := rows[0].0;
      FirstHeld(table, rows);
      RestHeld(table, rows);
      FirstSummed(rows, f);
      assert (map x | x in table && x != k :: table[x]) == table - {k};
      hide HoldsExactly, SumOver, SumOf;
      SumHeldRows(table - {k}, rows[1..], f);
      SumWithout(table, f, k);
    }
  }

  lemma FirstSummed<K, V>(rows: seq<Row<K, V>>, f: V -> real)
    requires rows != []
    ensures SumOf(ValuesOf(rows), f) == f(rows[0].1) + SumOf(ValuesOf(rows[1..]), f)
  {
    assert ValuesOf(rows)[1..] == ValuesOf(rows[1..]);
  }

  lemma NothingToSum<K, V>(table: map<K, V>, rows: seq<Row<K, V>>, f: V -> real)
    requires rows == [] && HoldsExactly(table, rows)
    ensures SumOver(table, f) == 0.0 && SumOf(ValuesOf(rows), f) == 0.0
  {
    assert table == map[];
  }

  lemma {:induction false} SumOfAppend<V>(s: seq<V>, x: V, f: V -> real)
    ensures SumOf(s + [x], f) == SumOf(s, f) + f(x)
  {
    if s == [] {
      assert [] + [x] == [x];
    } else {
      assert (s + [x])[1..] == s[1..] + [x];
      SumOfAppend(s[1..], x, f);
    }
  }

  lemma {:induction false} SumPointwise<V>(s: seq<V>, f: V -> real, list: seq<real>)
    requires |s| == |list| && forall i | 0 <= i < |s| :: f(s[i]) == list[i]
    ensures SumOf(s, f) == Sum(list)
  {
    if s != [] {
      SumPointwise(s[1..], f, list[1..]);
    }
  }

  /** The total of a difference is the difference of the totals, over any table. */
  lemma {:induction false} SumOfDifference<K, V>(table: map<K, V>, f: V -> real, g: V -> real, gap: V -> real)
    requires forall k | k in table :: gap(table[k]) == f(table[k]) - g(table[k])
    ensures SumOver(table, gap) == SumOver(table, f) - SumOver(table, g)
    decreases |table|
  {
    if table != map[] {
      var k :| k in table;
      SumOfDifference(table - {k}, f, g, gap);
      SumWithout(table, f, k);
      SumWithout(table, g, k);
      SumWithout(table, gap, k);
      hide SumOver;
    }
  }

  /** A table that holds exactly these rows has one entry for each. */
  lemma HeldSize<K, V>(table: map<K, V>, rows: seq<Row<K, V>>)
    requires HoldsExactly(table, rows)
    ensures |table| == |rows|
  {
    hide HoldsExactly, Count;
    var all := (v: V) => true;
    CountHeldRows(table, rows, all);
    CountAll(ValuesOf(rows), all, 0, |rows|);
    assert ValuesOf(rows)[0..|rows|] == ValuesOf(rows);
    assert (set k | k in table && all(table[k])) == table.Keys;
  }

  // ------------------------------------------------------------- one trade

  function ExitsUnder(s: State, trade: Uuid): map<Uuid, ExitRow> {
    map x | x in s.exits && s.exits[x].tradeId == trade :: s.exits[x]
  }

  function Bps(): ExitRow -> real {
    (row: ExitRow) => row.closedBps as real
  }

  function Pnl(): ExitRow -> real {
    (row: ExitRow) => row.realizedPnlMinor as real
  }

  lemma {:induction false} RowsSumLikeLegs(w: Uuid, b: TradeBlueprint, n: nat)
    requires n <= |b.exits|
    ensures SumOf(ValuesOf(ExitRowsOf(w)(b))[..n], Bps()) == SumBps(b.exits[..n]) as real
    ensures SumOf(ValuesOf(ExitRowsOf(w)(b))[..n], Pnl()) == SumPnl(b.exits[..n]) as real
  {
    if n > 0 {
      var vs := ValuesOf(ExitRowsOf(w)(b));
      RowsSumLikeLegs(w, b, n - 1);
      SumPrefix(b.exits, n - 1);
      assert vs[..n] == vs[..n - 1] + [vs[n - 1]];
      SumOfAppend(vs[..n - 1], vs[n - 1], Bps());
      SumOfAppend(vs[..n - 1], vs[n - 1], Pnl());
      hide SumBps, SumPnl, SumOf;
    }
  }

  lemma LegSums(w: Uuid, b: TradeBlueprint)
    ensures SumOf(ValuesOf(ExitRowsOf(w)(b)), Bps()) == SumBps(b.exits) as real
    ensures SumOf(ValuesOf(ExitRowsOf(w)(b)), Pnl()) == SumPnl(b.exits) as real
  {
    hide SumBps, SumPnl, SumOf;
    var vs := ValuesOf(ExitRowsOf(w)(b));
    RowsSumLikeLegs(w, b, |b.exits|);
    assert vs[..|b.exits|] == vs && b.exits[..|b.exits|] == b.exits;
  }

  /** The exits of one fixture trade in a table that holds exactly the fixture's exits. */
  lemma ExitsOfOneHeld(exits: map<Uuid, ExitRow>, input: SeedInput, p: Uuid, bs: seq<TradeBlueprint>, i: nat)
    requires Ideal(input.digest) && AllBuilt(input, p, bs) && i < |bs|
    requires HoldsExactly(exits, FlatMap(bs, ExitRowsOf(input.workspaceId)))
    ensures HoldsExactly(map x | x in exits && exits[x].tradeId == bs[i].id :: exits[x],
                         ExitRowsOf(input.workspaceId)(bs[i]))
  {
    hide AllBuilt, WellBuilt, FlatMap, ExitUnique;
    var w, all := input.workspaceId, FlatMap(bs, ExitRowsOf(input.workspaceId));
    var own := ExitRowsOf(w)(bs[i]);
    var table := map x | x in exits && exits[x].tradeId == bs[i].id :: exits[x];
    OneIsBuilt(input, p, bs, i);
    ExitsOfOneTrade(input, p, bs[i]);
    forall k | 0 <= k < |own|
      ensures own[k].0 in table && table[own[k].0] == own[k].1
    {
      var j := FlatMapTarget(bs, ExitRowsOf(w), i, k);
      assert all[j] == own[k];
    }
    forall x | x in table
      ensures exists k :: 0 <= k < |own| && own[k].0 == x
    {
      var j :| 0 <= j < |all| && all[j].0 == x;
      var i', k := ExitRowAt(w, bs, j);
      if i' != i {
        DistinctTrades(input, p, bs, i', i);
      }
      assert own[k].0 == x;
    }
  }

  lemma OneIsBuilt(input: SeedInput, p: Uuid, bs: seq<TradeBlueprint>, i: nat)
    requires AllBuilt(input, p, bs) && i < |bs|
    ensures WellBuilt(input, p, bs[i])
  {
    hide WellBuilt;
  }

  lemma OnlyItsOwnExits(after: State, trades: set<Uuid>, trade: Uuid)
    requires trade in trades
    ensures ExitsUnder(after, trade)
         == map x | x in Belonging(after, trades).exits && Belonging(after, trades).exits[x].tradeId == trade
              :: Belonging(after, trades).exits[x]
  {
  }

  lemma TradeIsThere(after: State, rows: seq<Row<Uuid, TradeRow>>, trades: set<Uuid>, i: nat)
    requires HoldsExactly(Belonging(after, trades).trades, rows) && i < |rows|
    ensures rows[i].0 in trades && rows[i].0 in after.trades && after.trades[rows[i].0] == rows[i].1
  {
  }

  /** The exits held under one fixture trade after a commit are exactly the ones generated for it. */
  lemma CommittedExits(s: State, input: SeedInput, now: int, i: nat)
    requires Prepared(input) && Sound(s) && Transaction(s, input, now).Ok? && i < TRADE_COUNT
    ensures Resolve(s, input).Ok? && |input.framework.setups| == 3
    ensures var after, r := Transaction(s, input, now).value, Resolve(s, input).value;
            var b := FixtureBlueprints(input, r)[i];
            && b.id in TradesUnder(after, r.populatedId)
            && b.id in after.trades && after.trades[b.id].content == b.content
            && HoldsExactly(ExitsUnder(after, b.id), ExitRowsOf(input.workspaceId)(b))
  {
    hide Prepared, Sound, Resolve, Transaction, Belonging, TradesUnder, HoldsExactly, FlatMap, Blueprints, AllBuilt;
    hide ExitsUnder, ExitRowsOf, WellBuilt;
    PreparedIsIdeal(input);
    WhatCommits(s, input, now);
    ExactlyTheBlueprint(s, input, now);
    var r := Resolve(s, input).value;
    var after, bs, w := Transaction(s, input, now).value, FixtureBlueprints(input, r), input.workspaceId;
    var trades := TradesUnder(after, r.populatedId);
    BlueprintsAreBuilt(input, r.populatedId);
    BlueprintCount(input, r);
    SingletonRows(w, bs);
    TradeIsThere(after, FixtureRowsOf(input, r).trades, trades, i);
    OnlyItsOwnExits(after, trades, bs[i].id);
    ExitsOfOneHeld(Belonging(after, trades).exits, input, r.populatedId, bs, i);
  }

  /**
   In the committed tables every fixture trade is there with its content; a closed one has exits of
   10000 basis points that add up to its net result, an open one fewer, and a planned one none.
   */
  lemma CommittedTradeIsConsistent(s: State, input: SeedInput, now: int, i: nat)
    requires Prepared(input) && Sound(s) && Transaction(s, input, now).Ok? && i < TRADE_COUNT
    ensures Resolve(s, input).Ok? && |input.framework.setups| == 3
    ensures var after := Transaction(s, input, now).value;
            var b := FixtureBlueprints(input, Resolve(s, input).value)[i];
            var bps, pnl := SumOver(ExitsUnder(after, b.id), Bps()), SumOver(ExitsUnder(after, b.id), Pnl());
            && b.id in after.trades && after.trades[b.id].content == b.content
            && (match b.content.status
                case Closed => bps == 10_000.0 && b.content.netPnlMinor.Some? && pnl == b.content.netPnlMinor.value as real
                case Open => bps < 10_000.0
                case _ => bps == 0.0)
  {
    hide *;
    CommittedExits(s, input, now, i);
    var r := Resolve(s, input).value;
    BlueprintCount(input, r);
    var after, b, w := Transaction(s, input, now).value, FixtureBlueprints(input, r)[i], input.workspaceId;
    SumHeldRows(ExitsUnder(after, b.id), ExitRowsOf(w)(b), Bps());
    SumHeldRows(ExitsUnder(after, b.id), ExitRowsOf(w)(b), Pnl());
    LegSums(w, b);
    BlueprintBalances(input, r, i);
  }

  lemma BlueprintCount(input: SeedInput, r: Resolution)
    requires |input.framework.setups| == 3
    ensures |FixtureBlueprints(input, r)| == TRADE_COUNT
  {
    hide BlueprintAt;
  }

  lemma BlueprintBalances(input: SeedInput, r: Resolution, i: nat)
    requires |input.framework.setups| == 3 && i < TRADE_COUNT
    ensures |FixtureBlueprints(input, r)| == TRADE_COUNT
    ensures var b := FixtureBlueprints(input, r)[i];
            match b.content.status
            case Closed => SumBps(b.exits) == 10_000 && b.content.netPnlMinor == Some(SumPnl(b.exits))
            case Open => SumBps(b.exits) < 10_000
            case _ => SumBps(b.exits) == 0
  {
    hide BlueprintAt, SumBps, SumPnl, SatisfiesTradeChecks, LegsAccepted, ActualTargetR, TraderComplete, SystemComplete;
    BlueprintSatisfiesSchema(input.digest, r.populatedId, input.framework, i);
    LabelsAreEligibility(input.digest, r.populatedId, input.framework, i);
    MoneyConserved(input.digest, r.populatedId, input.framework, i);
    BlueprintStatus(input, r, i);
  }

  lemma BlueprintStatus(input: SeedInput, r: Resolution, i: nat)
    requires |input.framework.setups| == 3 && i < TRADE_COUNT
    ensures BlueprintAt(input.digest, r.populatedId, input.framework, i).content.status == Closed <==> i < 66
  {
    hide BlueprintAt, SystemComplete;
    LabelsAreEligibility(input.digest, r.populatedId, input.framework, i);
    PopulationIs(input.digest, r.populatedId, input.framework, i);
  }

  // ---------------------------------------------------------- partial closes

  /** How many exits each closed trade of an account has, as the report's grouped query counts them. */
  function LegCounts(s: State, accountId: Uuid): map<Uuid, int> {
    map t | t in TradesUnder(s, accountId) && s.trades[t].content.status == Closed :: |ExitsUnder(s, t)|
  }

  function InParts(): int -> bool {
    (legs: int) => 1 < legs
  }

  function LegsInParts(): int -> real {
    (legs: int) => if 1 < legs then legs as real else 0.0
  }

  function LegRows(bs: seq<TradeBlueprint>): (rows: seq<Row<Uuid, int>>)
    ensures |rows| == |bs| && forall i | 0 <= i < |bs| :: rows[i] == (bs[i].id, |bs[i].exits|)
  {
    seq(|bs|, i requires 0 <= i < |bs| => (bs[i].id, |bs[i].exits|))
  }

  lemma {:induction false} PartialRows(bs: seq<TradeBlueprint>)
    ensures Count(ValuesOf(LegRows(bs)), InParts()) == PartialTrades(bs)
    ensures SumOf(ValuesOf(LegRows(bs)), LegsInParts()) == PartialLegs(bs) as real
    decreases |bs|
  {
    if bs != [] {
      var before, last := bs[..|bs| - 1], bs[|bs| - 1];
      var vs := ValuesOf(LegRows(before));
      PartialRows(before);
      CountSplit(vs, [|last.exits|], InParts());
      SumOfAppend(vs, |last.exits|, LegsInParts());
      assert ValuesOf(LegRows(bs)) == vs + [|last.exits|];
      CountOne(|last.exits|, InParts());
      hide Count, SumOf;
    }
  }

  lemma CountOne<A>(x: A, p: A -> bool)
    ensures Count([x], p) == if p(x) then 1 else 0
  {
    assert [x][1..] == [];
  }

  /** One closed trade of the fixture in the table of leg counts. */
  lemma LegsCommitted(s: State, input: SeedInput, now: int, i: nat)
    requires Prepared(input) && Sound(s) && Transaction(s, input, now).Ok? && i < TRADE_COUNT
    ensures Resolve(s, input).Ok? && |input.framework.setups| == 3
    ensures var after, r := Transaction(s, input, now).value, Resolve(s, input).value;
            var b, counts := FixtureBlueprints(input, r)[i], LegCounts(after, r.populatedId);
            && (b.id in counts <==> i < 66)
            && (b.id in counts ==> counts[b.id] == |b.exits|)
  {
    hide Prepared, Sound, Resolve, Transaction, TradesUnder, HoldsExactly, Blueprints, ExitsUnder;
    CommittedExits(s, input, now, i);
    var r := Resolve(s, input).value;
    var after, b := Transaction(s, input, now).value, FixtureBlueprints(input, r)[i];
    HeldSize(ExitsUnder(after, b.id), ExitRowsOf(input.workspaceId)(b));
    StatusAt(input, r, i);
  }

  lemma StatusAt(input: SeedInput, r: Resolution, i: nat)
    requires |input.framework.setups| == 3 && i < TRADE_COUNT
    ensures FixtureBlueprints(input, r)[i].content.status == Closed <==> i < 66
  {
    hide BlueprintAt;
    BlueprintStatus(input, r, i);
  }

  lemma TradeRowsAre(input: SeedInput, r: Resolution)
    requires |input.framework.setups| == 3
    ensures var bs, rows := FixtureBlueprints(input, r), FixtureRowsOf(input, r).trades;
            |rows| == |bs| && forall i | 0 <= i < |bs| :: rows[i] == (bs[i].id, TradeRowFor(input.workspaceId, bs[i]))
  {
    hide FlatMap, Blueprints, TradeRowsOf, TradeRowFor;
    SingletonRows(input.workspaceId, FixtureBlueprints(input, r));
  }

  /** The trades under the account are the fixture's, each as its row, and no two are the same. */
  ghost predicate TradesAre(after: State, w: Uuid, p: Uuid, bs: seq<TradeBlueprint>, rows: seq<Row<Uuid, TradeRow>>) {
    && HoldsExactly(Belonging(after, TradesUnder(after, p)).trades, rows)
    && |rows| == |bs| == TRADE_COUNT
    && (forall i | 0 <= i < |bs| :: rows[i] == (bs[i].id, TradeRowFor(w, bs[i])))
    && (forall i, j | 0 <= i < j < |bs| :: bs[i].id != bs[j].id)
    && (forall t | t in TradesUnder(after, p) :: exists i :: 0 <= i < |bs| && bs[i].id == t)
  }

  lemma CommittedTrades(s: State, input: SeedInput, now: int)
    requires Prepared(input) && Sound(s) && Transaction(s, input, now).Ok?
    ensures Resolve(s, input).Ok? && |input.framework.setups| == 3
    ensures var r := Resolve(s, input).value;
            TradesAre(Transaction(s, input, now).value, input.workspaceId, r.populatedId,
                      FixtureBlueprints(input, r), FixtureRowsOf(input, r).trades)
  {
    hide *;
    PreparedIsIdeal(input);
    WhatCommits(s, input, now);
    ExactlyTheBlueprint(s, input, now);
    var r := Resolve(s, input).value;
    BlueprintCount(input, r);
    TradeRowsAre(input, r);
    OnlyTheFixture(Transaction(s, input, now).value, input.workspaceId, r.populatedId,
                   FixtureBlueprints(input, r), FixtureRowsOf(input, r).trades);
  }

  lemma OnlyTheFixture(after: State, w: Uuid, p: Uuid, bs: seq<TradeBlueprint>, rows: seq<Row<Uuid, TradeRow>>)
    requires HoldsExactly(Belonging(after, TradesUnder(after, p)).trades, rows) && |rows| == |bs| == TRADE_COUNT
    requires forall i | 0 <= i < |bs| :: rows[i] == (bs[i].id, TradeRowFor(w, bs[i]))
    ensures TradesAre(after, w, p, bs, rows)
  {
    hide TradeRowFor;
    forall t | t in TradesUnder(after, p)
      ensures exists i :: 0 <= i < |bs| && bs[i].id == t
    {
      assert t in Belonging(after, TradesUnder(after, p)).trades;
      var i :| 0 <= i < |rows| && rows[i].0 == t;
      assert bs[i].id == t;
    }
    forall i, j | 0 <= i < j < |bs|
      ensures bs[i].id != bs[j].id
    {
      assert rows[i].0 != rows[j].0;
    }
  }

  lemma LegCountsHeld(s: State, input: SeedInput, now: int)
    requires Prepared(input) && Sound(s) && Transaction(s, input, now).Ok?
    ensures Resolve(s, input).Ok? && |input.framework.setups| == 3
    ensures var after, r := Transaction(s, input, now).value, Resolve(s, input).value;
            |FixtureBlueprints(input, r)| == TRADE_COUNT
            && HoldsExactly(LegCounts(after, r.populatedId), LegRows(FixtureBlueprints(input, r)[..66]))
  {
    hide *;
    CommittedTrades(s, input, now);
    var r := Resolve(s, input).value;
    BlueprintCount(input, r);
    var after, bs := Transaction(s, input, now).value, FixtureBlueprints(input, r);
    forall i | 0 <= i < TRADE_COUNT
      ensures bs[i].id in LegCounts(after, r.populatedId) <==> i < 66
      ensures bs[i].id in LegCounts(after, r.populatedId) ==> LegCounts(after, r.populatedId)[bs[i].id] == |bs[i].exits|
    {
      LegsCommitted(s, input, now, i);
    }
    OnlyItsTrades(after, r.populatedId);
    TheTradesOf(after, input.workspaceId, r.populatedId, bs, FixtureRowsOf(input, r).trades);
    HeldByLegs(LegCounts(after, r.populatedId), bs);
  }

  lemma TheTradesOf(after: State, w: Uuid, p: Uuid, bs: seq<TradeBlueprint>, rows: seq<Row<Uuid, TradeRow>>)
    requires TradesAre(after, w, p, bs, rows)
    ensures |bs| == TRADE_COUNT && forall i, j | 0 <= i < j < |bs| :: bs[i].id != bs[j].id
    ensures forall t | t in TradesUnder(after, p) :: exists i :: 0 <= i < |bs| && bs[i].id == t
  {
    hide HoldsExactly, Belonging, TradesUnder, TradeRowFor;
  }

  lemma OnlyItsTrades(after: State, p: Uuid)
    ensures forall t | t in LegCounts(after, p) :: t in TradesUnder(after, p)
  {
    hide TradesUnder, ExitsUnder;
  }

  lemma HeldByLegs(counts: map<Uuid, int>, bs: seq<TradeBlueprint>)
    requires |bs| == TRADE_COUNT && forall i, j | 0 <= i < j < |bs| :: bs[i].id != bs[j].id
    requires forall i | 0 <= i < TRADE_COUNT :: bs[i].id in counts <==> i < 66
    requires forall i | 0 <= i < TRADE_COUNT :: bs[i].id in counts ==> counts[bs[i].id] == |bs[i].exits|
    requires forall t | t in counts :: exists i :: 0 <= i < |bs| && bs[i].id == t
    ensures HoldsExactly(counts, LegRows(bs[..66]))
  {
    var rows := LegRows(bs[..66]);
    hide LegRows;
    forall t | t in counts
      ensures exists i :: 0 <= i < |rows| && rows[i].0 == t
    {
      var i :| 0 <= i < |bs| && bs[i].id == t;
      assert rows[i].0 == t;
    }
  }

  /** Whatever the database held before, ten closed trades have several exits, 24 between them. */
  lemma CommittedPartials(s: State, input: SeedInput, now: int)
    requires Prepared(input) && Sound(s) && Transaction(s, input, now).Ok?
    ensures Resolve(s, input).Ok?
    ensures var counts := LegCounts(Transaction(s, input, now).value, Resolve(s, input).value.populatedId);
            CountRows(counts, InParts()) == 10 && SumOver(counts, LegsInParts()) == 24.0
  {
    hide Prepared, Sound, Resolve, Transaction, HoldsExactly, LegCounts, Blueprints, Count, CountRows, SumOver, SumOf;
    hide PartialTrades, PartialLegs;
    LegCountsHeld(s, input, now);
    var r := Resolve(s, input).value;
    var counts := LegCounts(Transaction(s, input, now).value, r.populatedId);
    var bs := FixtureBlueprints(input, r)[..66];
    CountHeldRows(counts, LegRows(bs), InParts());
    SumHeldRows(counts, LegRows(bs), LegsInParts());
    PartialRows(bs);
    PartialsOfPrefix(input.digest, r.populatedId, input.framework, 66);
  }

  // ------------------------------------------------------------ the account

  function Net(): TradeRow -> real {
    (row: TradeRow) => row.content.netPnlMinor.GetOr(0) as real
  }

  lemma {:induction false} NetRows(rows: seq<Row<Uuid, TradeRow>>, bs: seq<TradeBlueprint>, w: Uuid, n: nat)
    requires |rows| == |bs| && forall i | 0 <= i < |bs| :: rows[i] == (bs[i].id, TradeRowFor(w, bs[i]))
    requires n <= |bs|
    ensures SumOf(ValuesOf(rows)[..n], Net()) == NetTotal(bs[..n]) as real
  {
    if n > 0 {
      var vs := ValuesOf(rows);
      NetRows(rows, bs, w, n - 1);
      NetStep(bs, n);
      assert vs[..n] == vs[..n - 1] + [vs[n - 1]];
      SumOfAppend(vs[..n - 1], vs[n - 1], Net());
      hide NetTotal, SumOf;
    }
  }

  lemma FixtureRowsNet(input: SeedInput, r: Resolution)
    requires |input.framework.setups| == 3
    ensures SumOf(ValuesOf(FixtureRowsOf(input, r).trades), Net()) == 231_000.0
  {
    hide FlatMap, Blueprints, BlueprintAt, SumOf, NetTotal, Net;
    var rows, bs := FixtureRowsOf(input, r).trades, FixtureBlueprints(input, r);
    SingletonRows(input.workspaceId, bs);
    NetRows(rows, bs, input.workspaceId, |bs|);
    assert ValuesOf(rows)[..|bs|] == ValuesOf(rows) && bs[..|bs|] == bs;
    FixtureNetTotal(input.digest, r.populatedId, input.framework);
  }

  /** Whatever the database held before, the populated account's trades net 231000 minor units. */
  lemma CommittedNet(s: State, input: SeedInput, now: int)
    requires Prepared(input) && Sound(s) && Transaction(s, input, now).Ok?
    ensures Resolve(s, input).Ok?
    ensures var after, p := Transaction(s, input, now).value, Resolve(s, input).value.populatedId;
            SumOver(Belonging(after, TradesUnder(after, p)).trades, Net()) == 231_000.0
  {
    hide Prepared, Sound, Resolve, Transaction, Belonging, TradesUnder, HoldsExactly, FixtureRowsOf;
    hide SumOver, SumOf, Net, ValuesOf;
    PreparedIsIdeal(input);
    WhatCommits(s, input, now);
    ExactlyTheBlueprint(s, input, now);
    var r := Resolve(s, input).value;
    var after := Transaction(s, input, now).value;
    SumHeldRows(Belonging(after, TradesUnder(after, r.populatedId)).trades, FixtureRowsOf(input, r).trades, Net());
    FixtureRowsNet(input, r);
  }

  // ------------------------------------------------------------ total R

  /** The actual R of a trade the query selects, and nothing for any other. */
  function ActualR(p: Recorded -> bool): TradeRow -> real {
    (row: TradeRow) => if p(Recorded(row.content, false)) then row.content.actualR.GetOr(0.0) else 0.0
  }

  function SystemR(p: Recorded -> bool): TradeRow -> real {
    (row: TradeRow) => if p(Recorded(row.content, false)) then row.content.systemR.GetOr(0.0) else 0.0
  }

  /** The execution gap of a paired trade. */
  function Gap(): TradeRow -> real {
    (row: TradeRow) =>
      if Eligible()(Recorded(row.content, false)) then row.content.actualR.GetOr(0.0) - row.content.systemR.GetOr(0.0)
      else 0.0
  }

  function Zeros(n: nat): seq<real> {
    Repeat(0.0, n)
  }

  lemma ResultsAt(input: SeedInput, r: Resolution, i: nat)
    requires |input.framework.setups| == 3 && i < TRADE_COUNT
    ensures var c := FixtureBlueprints(input, r)[i].content;
            && (TraderComplete(c) <==> i < 66) && (SystemComplete(c) <==> i < 64 || 66 <= i)
            && (i < 66 ==> c.actualR == Some(ActualTargets()[i]))
            && (i < 64 ==> c.systemR == Some(SystemComparable()[i]))
            && (66 <= i ==> c.systemR == Some(SYSTEM_ONLY[i - 66]))
  {
    hide BlueprintAt, TraderComplete, SystemComplete, ActualTargets, SystemComparable;
    LabelsAreEligibility(input.digest, r.populatedId, input.framework, i);
    PopulationIs(input.digest, r.populatedId, input.framework, i);
    StoredTargets(input.digest, r.populatedId, input.framework, i);
  }

  lemma StoredTargets(digest: Digest, accountId: Uuid, framework: Framework, i: nat)
    requires i < TRADE_COUNT && 3 <= |framework.setups|
    ensures var c := BlueprintAt(digest, accountId, framework, i).content;
            c.actualR == ActualTargetR(i) && c.systemR == SystemTargetR(i)
  {
    hide BlueprintAt, TradeId, TradeMutationKey, EmotionKeys, MistakeKeys, ConfirmationNotes, ReviewNotes, Symbol;
    hide Timeframe, Session, UpdatedAt, CreatedAt, EnteredAt, ExitedAt, SystemExitedAt, Exits, SumPnl, CanonicalR;
    hide ActualTargetR, SystemTargetR, PopulationOf;
    BlueprintFields(digest, accountId, framework, i);
  }

  /** Adding up a column of the committed trades is adding up the list the blueprints give it. */
  lemma CommittedSum(s: State, input: SeedInput, now: int, f: TradeRow -> real, list: seq<real>)
    requires Prepared(input) && Sound(s) && Transaction(s, input, now).Ok?
    requires Resolve(s, input).Ok? && |input.framework.setups| == 3 && |list| == TRADE_COUNT
    requires |FixtureBlueprints(input, Resolve(s, input).value)| == TRADE_COUNT
    requires forall i | 0 <= i < TRADE_COUNT ::
               f(TradeRowFor(input.workspaceId, FixtureBlueprints(input, Resolve(s, input).value)[i])) == list[i]
    ensures var after, p := Transaction(s, input, now).value, Resolve(s, input).value.populatedId;
            SumOver(Belonging(after, TradesUnder(after, p)).trades, f) == Sum(list)
  {
    hide Prepared, Sound, Resolve, Transaction, Belonging, TradesUnder, HoldsExactly, FixtureRowsOf, Blueprints;
    hide TradeRowFor, SumOver, SumOf, Sum;
    CommittedTrades(s, input, now);
    var r := Resolve(s, input).value;
    var after, rows := Transaction(s, input, now).value, FixtureRowsOf(input, r).trades;
    SumHeldRows(Belonging(after, TradesUnder(after, r.populatedId)).trades, rows, f);
    SumPointwise(ValuesOf(rows), f, list);
  }

  lemma ZerosAdd(s: seq<real>, n: nat)
    ensures Sum(s + Zeros(n)) == Sum(s)
  {
    SumSplit(s, Zeros(n));
    SumRepeat(0.0, n);
  }

  lemma ListTotals()
    ensures |ActualTargets() + Zeros(4)| == 70 && Sum(ActualTargets() + Zeros(4)) == 23.1
    ensures |ActualTargets()[..64] + Zeros(6)| == 70 && Sum(ActualTargets()[..64] + Zeros(6)) == 22.0
    ensures |SystemComparable() + Zeros(6)| == 70 && Sum(SystemComparable() + Zeros(6)) == 35.8
    ensures |SystemComparable() + Zeros(2) + SYSTEM_ONLY| == 70
    ensures Sum(SystemComparable() + Zeros(2) + SYSTEM_ONLY) == 36.25
  {
    hide Sum, ActualTargets, SystemComparable;
    ActualTotal();
    PairedActualTotal();
    SystemTotal();
    ZerosAdd(ActualTargets(), 4);
    ZerosAdd(ActualTargets()[..64], 6);
    ZerosAdd(SystemComparable(), 6);
    ZerosAdd(SystemComparable(), 2);
    SumSplit(SystemComparable() + Zeros(2), SYSTEM_ONLY);
    SumSplit(SystemComparable(), SYSTEM_ONLY);
  }

  lemma ColumnsAt(input: SeedInput, r: Resolution, i: nat)
    requires |input.framework.setups| == 3 && i < TRADE_COUNT
    ensures |FixtureBlueprints(input, r)| == TRADE_COUNT
    ensures var row := TradeRowFor(input.workspaceId, FixtureBlueprints(input, r)[i]);
            && ActualR(TraderOk())(row) == (ActualTargets() + Zeros(4))[i]
            && SystemR(SystemOk())(row) == (SystemComparable() + Zeros(2) + SYSTEM_ONLY)[i]
            && ActualR(Eligible())(row) == (ActualTargets()[..64] + Zeros(6))[i]
            && SystemR(Eligible())(row) == (SystemComparable() + Zeros(6))[i]
  {
    hide FixtureBlueprints, ActualTargets, SystemComparable, TraderComplete, SystemComplete;
    BlueprintCount(input, r);
    ResultsAt(input, r, i);
    var system := SystemComparable() + Zeros(2) + SYSTEM_ONLY;
    var recorded := Recorded(FixtureBlueprints(input, r)[i].content, false);
    assert TraderOk()(recorded) <==> i < 66;
    assert SystemOk()(recorded) <==> i < 64 || 66 <= i;
    if i < 64 {
      assert system[i] == SystemComparable()[i];
      assert ActualTargets()[..64][i] == ActualTargets()[i];
    } else if i < 66 {
      assert system[i] == Zeros(2)[i - 64];
    } else {
      assert system[i] == SYSTEM_ONLY[i - 66];
      assert (ActualTargets() + Zeros(4))[i] == Zeros(4)[i - 66];
    }
  }

  /**
   The totals the report shows, in the committed tables of any database the seed ran on: 23.1R over the
   trader population, 36.25R over the system population, and 22R against 35.8R over the trades in both,
   so the paired gap of -13.8R is not the difference of the two headline totals.
   */
  lemma CommittedR(s: State, input: SeedInput, now: int)
    requires Prepared(input) && Sound(s) && Transaction(s, input, now).Ok?
    ensures Resolve(s, input).Ok?
    ensures var after, p := Transaction(s, input, now).value, Resolve(s, input).value.populatedId;
            var trades := Belonging(after, TradesUnder(after, p)).trades;
            && SumOver(trades, ActualR(TraderOk())) == 23.1
            && SumOver(trades, SystemR(SystemOk())) == 36.25
            && SumOver(trades, ActualR(Eligible())) == 22.0
            && SumOver(trades, SystemR(Eligible())) == 35.8
            && SumOver(trades, Gap()) == -13.8
  {
    hide Prepared, Sound, Resolve, Transaction, Belonging, TradesUnder, HoldsExactly, Blueprints, TradeRowFor;
    hide FixtureRowsOf, SumOver, Sum, ActualTargets, SystemComparable, ActualR, SystemR, Zeros;
    CommittedTrades(s, input, now);
    var r := Resolve(s, input).value;
    var after := Transaction(s, input, now).value;
    ListTotals();
    forall i | 0 <= i < TRADE_COUNT
      ensures var row := TradeRowFor(input.workspaceId, FixtureBlueprints(input, r)[i]);
              && ActualR(TraderOk())(row) == (ActualTargets() + Zeros(4))[i]
              && SystemR(SystemOk())(row) == (SystemComparable() + Zeros(2) + SYSTEM_ONLY)[i]
              && ActualR(Eligible())(row) == (ActualTargets()[..64] + Zeros(6))[i]
              && SystemR(Eligible())(row) == (SystemComparable() + Zeros(6))[i]
    {
      ColumnsAt(input, r, i);
    }
    CommittedSum(s, input, now, ActualR(TraderOk()), ActualTargets() + Zeros(4));
    CommittedSum(s, input, now, SystemR(SystemOk()), SystemComparable() + Zeros(2) + SYSTEM_ONLY);
    CommittedSum(s, input, now, ActualR(Eligible()), ActualTargets()[..64] + Zeros(6));
    CommittedSum(s, input, now, SystemR(Eligible()), SystemComparable() + Zeros(6));
    GapIsDifference(Belonging(after, TradesUnder(after, r.populatedId)).trades);
  }

  /** For any trades, the gap totalled trade by trade is the difference of the paired totals. */
  lemma GapIsDifference(trades: map<Uuid, TradeRow>)
    ensures SumOver(trades, Gap()) == SumOver(trades, ActualR(Eligible())) - SumOver(trades, SystemR(Eligible()))
  {
    hide SumOver;
    SumOfDifference(trades, ActualR(Eligible()), SystemR(Eligible()), Gap());
  }

  /**
   The averages and the captured edge the report derives from them, each rounded once: a paired figure
   comes from the paired totals and the paired count, never from the two populations' own.
   */
  lemma CommittedAverages(s: State, input: SeedInput, now: int)
    requires Prepared(input) && Sound(s) && Transaction(s, input, now).Ok?
    ensures Resolve(s, input).Ok?
    ensures var after, p := Transaction(s, input, now).value, Resolve(s, input).value.populatedId;
            var trades := Belonging(after, TradesUnder(after, p)).trades;
            var a, b := Populations.Population(after, p, TraderOk()), Populations.Population(after, p, SystemOk());
            var c := Populations.Population(after, p, Eligible());
            && 0 < a && 0 < b && 0 < c && 0.0 < SumOver(trades, SystemR(Eligible()))
            && CanonicalR(SumOver(trades, ActualR(TraderOk())) / a as real) == 0.35
            && CanonicalR(SumOver(trades, SystemR(SystemOk())) / b as real) == 0.5331
            && CanonicalR(SumOver(trades, Gap()) / c as real) == -0.2156
            && CanonicalR(SumOver(trades, ActualR(Eligible())) / SumOver(trades, SystemR(Eligible()))) == 0.6145
  {
    hide *;
    CommittedR(s, input, now);
    ReportAfterCommit(s, input, now);
    RoundedQuotients();
  }

  lemma RoundedQuotients()
    ensures CanonicalR(23.1 / 66.0) == 0.35 && CanonicalR(36.25 / 68.0) == 0.5331
    ensures CanonicalR(-13.8 / 64.0) == -0.2156 && CanonicalR(22.0 / 35.8) == 0.6145
  {
  }
}
