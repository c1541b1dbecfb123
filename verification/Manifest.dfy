/**
 The identity manifest of a fixture, the duplicate check on it, and the nine intersections that
 show two owners' fixtures share no identity. The manifests are sorted for printing only; what is
 checked depends on the values, so the order here is generation order.
 */
module Manifest {
  import opened Identity
  import opened ExitLegs
  import opened Calendar
  import opened Blueprint
  import opened Tables
  import opened SeedRows

  type Lister = TradeBlueprint -> seq<string>

  datatype IdentityManifest = IdentityManifest(
    accountIds: seq<string>,
    accountMutationKeys: seq<string>,
    tradeIds: seq<string>,
    tradeMutationKeys: seq<string>,
    exitIds: seq<string>,
    exitMutationKeys: seq<string>,
    ruleCheckIds: seq<string>,
    mistakeCompositeKeys: seq<string>,
    emotionCompositeKeys: seq<string>)

  function TradeIdOf(): Lister {
    (b: TradeBlueprint) => [b.id]
  }

  function TradeKeyOf(): Lister {
    (b: TradeBlueprint) => [b.mutationKey]
  }

  function ExitIdsOf(): Lister {
    (b: TradeBlueprint) => seq(|b.exits|, i requires 0 <= i < |b.exits| => b.exits[i].id)
  }

  function ExitKeysOf(): Lister {
    (b: TradeBlueprint) => seq(|b.exits|, i requires 0 <= i < |b.exits| => b.exits[i].mutationKey)
  }

  function RuleChecksOf(digest: Digest, ruleKeys: seq<string>): Lister {
    (b: TradeBlueprint) =>
      if b.content.strategyVersionId.None? then []
      else seq(|ruleKeys|, i requires 0 <= i < |ruleKeys| => RuleCheckId(digest, b.id, ruleKeys[i]))
  }

  function MistakesOf(): Lister {
    (b: TradeBlueprint) => seq(|b.mistakeKeys|, i requires 0 <= i < |b.mistakeKeys| => b.id + ":" + b.mistakeKeys[i])
  }

  function EmotionsOf(): Lister {
    (b: TradeBlueprint) => seq(|b.emotionKeys|, i requires 0 <= i < |b.emotionKeys| => b.id + ":" + b.emotionKeys[i])
  }

  function ManifestOf(digest: Digest, account: AccountIdentity, trades: seq<TradeBlueprint>, ruleKeys: seq<string>)
    : IdentityManifest
  {
    IdentityManifest(
      [account.emptyId, account.populatedId],
      [account.emptyMutationKey, account.populatedMutationKey],
      FlatMap(trades, TradeIdOf()),
      FlatMap(trades, TradeKeyOf()),
      FlatMap(trades, ExitIdsOf()),
      FlatMap(trades, ExitKeysOf()),
      FlatMap(trades, RuleChecksOf(digest, ruleKeys)),
      FlatMap(trades, MistakesOf()),
      FlatMap(trades, EmotionsOf()))
  }

  function Intersection(left: seq<string>, right: seq<string>): seq<string> {
    if left == [] then []
    else (if left[0] in right then [left[0]] else []) + Intersection(left[1..], right)
  }

  /** new Set(values).size === values.length */
  predicate AssertUnique(values: seq<string>) {
    |set v | v in values| == |values|
  }

  predicate AssertManifestUnique(m: IdentityManifest) {
    && AssertUnique(m.accountIds) && AssertUnique(m.accountMutationKeys)
    && AssertUnique(m.tradeIds) && AssertUnique(m.tradeMutationKeys)
    && AssertUnique(m.exitIds) && AssertUnique(m.exitMutationKeys)
    && AssertUnique(m.ruleCheckIds) && AssertUnique(m.mistakeCompositeKeys) && AssertUnique(m.emotionCompositeKeys)
  }

  function CrossNamespaceCollisions(a: IdentityManifest, b: IdentityManifest): seq<seq<string>> {
    [Intersection(a.accountIds, b.accountIds),
     Intersection(a.accountMutationKeys, b.accountMutationKeys),
     Intersection(a.tradeIds, b.tradeIds),
     Intersection(a.tradeMutationKeys, b.tradeMutationKeys),
     Intersection(a.exitIds, b.exitIds),
     Intersection(a.exitMutationKeys, b.exitMutationKeys),
     Intersection(a.ruleCheckIds, b.ruleCheckIds),
     Intersection(a.mistakeCompositeKeys, b.mistakeCompositeKeys),
     Intersection(a.emotionCompositeKeys, b.emotionCompositeKeys)]
  }

  predicate CollisionFree(a: IdentityManifest, b: IdentityManifest) {
    forall kind | 0 <= kind < 9 :: CrossNamespaceCollisions(a, b)[kind] == []
  }

  // -------------------------------------------------------- sets and lists

  ghost predicate NoDuplicates<T>(s: seq<T>) {
    forall i, j | 0 <= i < j < |s| :: s[i] != s[j]
  }

  ghost predicate Disjoint<T>(s: seq<T>, t: seq<T>) {
    forall x | x in s :: x !in t
  }

  lemma {:induction false} UniqueIff(values: seq<string>)
    ensures |set v | v in values| <= |values|
    ensures AssertUnique(values) <==> NoDuplicates(values)
  {
    if values != [] {
      UniqueIff(values[1..]);
      HeadCounts(values);
      HeadDuplicates(values);
      hide NoDuplicates;
    }
  }

  lemma HeadCounts(values: seq<string>)
    requires values != []
    ensures |set v | v in values| == |set v | v in values[1..]| + if values[0] in values[1..] then 0 else 1
  {
    var all, others := set v | v in values, set v | v in values[1..];
    assert all == others + {values[0]};
  }

  lemma HeadDuplicates(values: seq<string>)
    requires values != []
    ensures NoDuplicates(values) <==> values[0] !in values[1..] && NoDuplicates(values[1..])
  {
    var rest := values[1..];
    assert forall i | 0 <= i < |rest| :: rest[i] == values[i + 1];
    assert forall j | 0 < j < |values| :: values[j] == rest[j - 1];
  }

  lemma {:induction false} IntersectionEmptyIff(left: seq<string>, right: seq<string>)
    ensures Intersection(left, right) == [] <==> Disjoint(left, right)
  {
    if left != [] {
      IntersectionEmptyIff(left[1..], right);
      assert forall x :: x in left <==> x == left[0] || x in left[1..];
    }
  }

  lemma {:induction false} FlatMapNoDuplicates<A, B>(s: seq<A>, f: A -> seq<B>)
    requires forall i | 0 <= i < |s| :: NoDuplicates(f(s[i]))
    requires forall i, j | 0 <= i < j < |s| :: Disjoint(f(s[i]), f(s[j]))
    ensures NoDuplicates(FlatMap(s, f))
    decreases |s|
  {
    if s != [] {
      var rest := s[1..];
      assert forall i | 0 <= i < |rest| :: rest[i] == s[i + 1];
      FlatMapNoDuplicates(rest, f);
      forall j | 0 <= j < |FlatMap(rest, f)|
        ensures FlatMap(rest, f)[j] !in f(s[0])
      {
        var i, k := FlatMapSource(rest, f, j);
        assert FlatMap(rest, f)[j] in f(s[i + 1]);
      }
      Appended(f(s[0]), FlatMap(rest, f));
    }
  }

  lemma Appended<B>(a: seq<B>, b: seq<B>)
    requires NoDuplicates(a) && NoDuplicates(b) && Disjoint(a, b)
    ensures NoDuplicates(a + b)
  {
    forall i, j | 0 <= i < j < |a + b|
      ensures (a + b)[i] != (a + b)[j]
    {
      if i < |a| <= j {
        assert (a + b)[i] in a && (a + b)[j] in b;
      }
    }
  }

  /** A duplicate inside one parent's list is a duplicate of the whole. */
  lemma {:induction false} FlatMapDuplicates<A, B>(s: seq<A>, f: A -> seq<B>, i: nat)
    requires i < |s| && NoDuplicates(FlatMap(s, f))
    ensures NoDuplicates(f(s[i]))
    decreases |s|
  {
    var head, tail := f(s[0]), FlatMap(s[1..], f);
    assert FlatMap(s, f) == head + tail;
    if i == 0 {
      assert forall k | 0 <= k < |head| :: (head + tail)[k] == head[k];
    } else {
      assert forall k | 0 <= k < |tail| :: (head + tail)[k + |head|] == tail[k];
      FlatMapDuplicates(s[1..], f, i - 1);
    }
  }

  lemma FlatMapsDisjoint<A, B>(s: seq<A>, t: seq<A>, f: A -> seq<B>)
    requires forall a, b | a in s && b in t :: Disjoint(f(a), f(b))
    ensures Disjoint(FlatMap(s, f), FlatMap(t, f))
  {
    forall i, j | 0 <= i < |FlatMap(s, f)| && 0 <= j < |FlatMap(t, f)|
      ensures FlatMap(s, f)[i] != FlatMap(t, f)[j]
    {
      var a, k := FlatMapSource(s, f, i);
      var b, l := FlatMapSource(t, f, j);
      assert s[a] in s && t[b] in t;
      assert FlatMap(s, f)[i] in f(s[a]) && FlatMap(t, f)[j] in f(t[b]);
    }
  }

  // ------------------------------------------------------------ one fixture

  /** How one trade's identities are derived. */
  ghost predicate Identified(digest: Digest, p: Uuid, b: TradeBlueprint) {
    && b.id == TradeId(digest, p, b.fixtureIndex)
    && b.mutationKey == TradeMutationKey(digest, p, b.fixtureIndex)
    && (forall k | 0 <= k < |b.exits| ::
          && b.exits[k].id == ExitId(digest, b.id, k + 1)
          && b.exits[k].mutationKey == ExitMutationKey(digest, b.id, k + 1))
    && NoDuplicates(b.mistakeKeys) && NoDuplicates(b.emotionKeys)
  }

  ghost predicate Generated(digest: Digest, p: Uuid, bs: seq<TradeBlueprint>) {
    forall i | 0 <= i < |bs| :: bs[i].fixtureIndex == i && Identified(digest, p, bs[i])
  }

  lemma BlueprintIsIdentified(digest: Digest, p: Uuid, framework: Framework, i: nat)
    requires 3 <= |framework.setups| && i < TRADE_COUNT
    ensures BlueprintAt(digest, p, framework, i).fixtureIndex == i
    ensures Identified(digest, p, BlueprintAt(digest, p, framework, i))
  {
    hide *;
    BlueprintFields(digest, p, framework, i);
    ExitIdentities(digest, p, i);
    KeysAreKnown(i);
    IdentitiesAssembled(digest, p, BlueprintAt(digest, p, framework, i));
  }

  lemma IdentitiesAssembled(digest: Digest, p: Uuid, b: TradeBlueprint)
    requires b.id == TradeId(digest, p, b.fixtureIndex) && b.mutationKey == TradeMutationKey(digest, p, b.fixtureIndex)
    requires forall k | 0 <= k < |b.exits| ::
               && b.exits[k].id == ExitId(digest, b.id, k + 1)
               && b.exits[k].mutationKey == ExitMutationKey(digest, b.id, k + 1)
    requires |b.mistakeKeys| <= 1 && forall k, l | 0 <= k < l < |b.emotionKeys| :: b.emotionKeys[k] != b.emotionKeys[l]
    ensures Identified(digest, p, b)
  {
    hide TradeId, TradeMutationKey, ExitId, ExitMutationKey;
  }

  lemma BlueprintsAreGenerated(digest: Digest, p: Uuid, framework: Framework)
    requires 3 <= |framework.setups|
    ensures Generated(digest, p, Blueprints(digest, p, framework))
  {
    hide Identified, BlueprintAt;
    forall i | 0 <= i < TRADE_COUNT
      ensures BlueprintAt(digest, p, framework, i).fixtureIndex == i
      ensures Identified(digest, p, BlueprintAt(digest, p, framework, i))
    {
      BlueprintIsIdentified(digest, p, framework, i);
    }
  }

  /** All seven lists of two different trades are disjoint, whichever fixtures the trades are from. */
  ghost predicate Separate(digest: Digest, ruleKeys: seq<string>, a: TradeBlueprint, b: TradeBlueprint) {
    && Disjoint(TradeIdOf()(a), TradeIdOf()(b))
    && Disjoint(TradeKeyOf()(a), TradeKeyOf()(b))
    && Disjoint(ExitIdsOf()(a), ExitIdsOf()(b))
    && Disjoint(ExitKeysOf()(a), ExitKeysOf()(b))
    && Disjoint(RuleChecksOf(digest, ruleKeys)(a), RuleChecksOf(digest, ruleKeys)(b))
    && Disjoint(MistakesOf()(a), MistakesOf()(b))
    && Disjoint(EmotionsOf()(a), EmotionsOf()(b))
  }

  lemma FirstColon(t: string, k: string)
    requires ':' !in t
    ensures (t + ":" + k)[|t|] == ':'
    ensures forall i | 0 <= i < |t| :: (t + ":" + k)[i] != ':'
  {
  }

  /** A composite key can be taken apart again because no identity contains a colon. */
  lemma CompositeKeys(t: string, k: string, u: string, l: string)
    requires ':' !in t && ':' !in u && t + ":" + k == u + ":" + l
    ensures t == u && k == l
  {
    var both := t + ":" + k;
    FirstColon(t, k);
    FirstColon(u, l);
    assert |t| == |u|;
    assert t == both[..|t|] && u == both[..|u|];
    assert k == both[|t| + 1..] && l == both[|u| + 1..];
  }

  lemma DifferentTrades(digest: Digest, p: Uuid, q: Uuid, a: TradeBlueprint, b: TradeBlueprint)
    requires Ideal(digest) && Identified(digest, p, a) && Identified(digest, q, b)
    requires (p, a.fixtureIndex) != (q, b.fixtureIndex)
    ensures a.id != b.id && a.mutationKey != b.mutationKey && ':' !in a.id && ':' !in b.id
  {
    TradeIdsDistinct(digest, p, a.fixtureIndex, q, b.fixtureIndex);
  }

  lemma TradesAreSeparate(digest: Digest, ruleKeys: seq<string>, p: Uuid, q: Uuid,
                          a: TradeBlueprint, b: TradeBlueprint)
    requires Ideal(digest) && Identified(digest, p, a) && Identified(digest, q, b)
    requires (p, a.fixtureIndex) != (q, b.fixtureIndex)
    ensures Separate(digest, ruleKeys, a, b)
  {
    hide Ideal, TradeId, TradeMutationKey, ExitId, ExitMutationKey, RuleCheckId;
    DifferentTrades(digest, p, q, a, b);
    forall k, l
      ensures ExitId(digest, a.id, k) != ExitId(digest, b.id, l)
      ensures ExitMutationKey(digest, a.id, k) != ExitMutationKey(digest, b.id, l)
    {
      ExitIdsDistinct(digest, a.id, k, b.id, l);
    }
    forall k, l
      ensures RuleCheckId(digest, a.id, k) != RuleCheckId(digest, b.id, l)
    {
      RuleCheckIdsDistinct(digest, a.id, k, b.id, l);
    }
    forall k, l
      ensures a.id + ":" + k != b.id + ":" + l
    {
      if a.id + ":" + k == b.id + ":" + l {
        CompositeKeys(a.id, k, b.id, l);
      }
    }
  }

  ghost predicate OwnUnique(digest: Digest, ruleKeys: seq<string>, b: TradeBlueprint) {
    && NoDuplicates(TradeIdOf()(b)) && NoDuplicates(TradeKeyOf()(b))
    && NoDuplicates(ExitIdsOf()(b)) && NoDuplicates(ExitKeysOf()(b))
    && NoDuplicates(MistakesOf()(b)) && NoDuplicates(EmotionsOf()(b))
    && (NoDuplicates(RuleChecksOf(digest, ruleKeys)(b)) <==>
          b.content.strategyVersionId.None? || NoDuplicates(ruleKeys))
  }

  lemma TradeIsUnique(digest: Digest, ruleKeys: seq<string>, p: Uuid, b: TradeBlueprint)
    requires Ideal(digest) && Identified(digest, p, b)
    ensures OwnUnique(digest, ruleKeys, b)
  {
    hide Ideal, TradeId, TradeMutationKey, ExitId, ExitMutationKey, RuleCheckId;
    forall k, l | k != l
      ensures ExitId(digest, b.id, k) != ExitId(digest, b.id, l)
      ensures ExitMutationKey(digest, b.id, k) != ExitMutationKey(digest, b.id, l)
    {
      ExitIdsDistinct(digest, b.id, k, b.id, l);
    }
    forall k, l
      ensures b.id + ":" + k == b.id + ":" + l ==> k == l
    {
      SameSuffix(b.id + ":", k, l);
    }
    RuleChecksUniqueIff(digest, ruleKeys, b);
  }

  lemma SameSuffix(t: string, k: string, l: string)
    ensures t + k == t + l ==> k == l
  {
    assert k == (t + k)[|t|..] && l == (t + l)[|t|..];
  }

  lemma RuleChecksUniqueIff(digest: Digest, ruleKeys: seq<string>, b: TradeBlueprint)
    requires Ideal(digest)
    ensures NoDuplicates(RuleChecksOf(digest, ruleKeys)(b)) <==>
              b.content.strategyVersionId.None? || NoDuplicates(ruleKeys)
  {
    hide Ideal, RuleCheckId;
    forall k, l
      ensures RuleCheckId(digest, b.id, k) == RuleCheckId(digest, b.id, l) <==> k == l
    {
      RuleCheckIdsDistinct(digest, b.id, k, b.id, l);
    }
    var ids := RuleChecksOf(digest, ruleKeys)(b);
    if b.content.strategyVersionId.Some? {
      assert forall i | 0 <= i < |ids| :: ids[i] == RuleCheckId(digest, b.id, ruleKeys[i]);
      if NoDuplicates(ids) {
        forall i, j | 0 <= i < j < |ruleKeys|
          ensures ruleKeys[i] != ruleKeys[j]
        {
          assert ids[i] != ids[j];
        }
      }
    }
  }

  // ------------------------------------------------------------ the manifest

  /**
   assertManifestUnique passes exactly when the two account ids differ and the strategy's rule keys do:
   every other identity is unique by construction.
   */
  lemma ManifestUniqueIff(digest: Digest, owner: string, workspace: string, emptyId: Uuid, populatedId: Uuid,
                          framework: Framework, ruleKeys: seq<string>)
    requires Ideal(digest) && 3 <= |framework.setups|
    ensures var account := NormalisedAccountIdentity(digest, owner, workspace)
                             .(emptyId := emptyId, populatedId := populatedId);
            AssertManifestUnique(ManifestOf(digest, account, Blueprints(digest, populatedId, framework), ruleKeys))
            <==> emptyId != populatedId && NoDuplicates(ruleKeys)
  {
    hide Ideal, NormalisedAccountIdentity, BlueprintAt, Identified, FlatMap, AssertUnique, NoDuplicates;
    var account := NormalisedAccountIdentity(digest, owner, workspace).(emptyId := emptyId, populatedId := populatedId);
    var bs := Blueprints(digest, populatedId, framework);
    var m := ManifestOf(digest, account, bs, ruleKeys);
    ListsUnique(digest, populatedId, framework, ruleKeys);
    AccountIdentitiesDistinct(digest, owner, workspace);
    PairUnique(emptyId, populatedId);
    PairUnique(account.emptyMutationKey, account.populatedMutationKey);
    UniqueIff(m.tradeIds);
    UniqueIff(m.tradeMutationKeys);
    UniqueIff(m.exitIds);
    UniqueIff(m.exitMutationKeys);
    UniqueIff(m.ruleCheckIds);
    UniqueIff(m.mistakeCompositeKeys);
    UniqueIff(m.emotionCompositeKeys);
  }

  lemma PairUnique(a: string, b: string)
    ensures AssertUnique([a, b]) <==> a != b
  {
    UniqueIff([a, b]);
    assert [a, b][0] == a && [a, b][1] == b;
  }

  lemma ListsUnique(digest: Digest, p: Uuid, framework: Framework, ruleKeys: seq<string>)
    requires Ideal(digest) && 3 <= |framework.setups|
    ensures var bs := Blueprints(digest, p, framework);
            && NoDuplicates(FlatMap(bs, TradeIdOf())) && NoDuplicates(FlatMap(bs, TradeKeyOf()))
            && NoDuplicates(FlatMap(bs, ExitIdsOf())) && NoDuplicates(FlatMap(bs, ExitKeysOf()))
            && NoDuplicates(FlatMap(bs, MistakesOf())) && NoDuplicates(FlatMap(bs, EmotionsOf()))
            && (NoDuplicates(FlatMap(bs, RuleChecksOf(digest, ruleKeys))) <==> NoDuplicates(ruleKeys))
  {
    hide Ideal, BlueprintAt, Identified, FlatMap, NoDuplicates, Disjoint, Blueprints;
    hide TradeIdOf, TradeKeyOf, ExitIdsOf, ExitKeysOf, RuleChecksOf, MistakesOf, EmotionsOf;
    var bs := Blueprints(digest, p, framework);
    BlueprintsAreGenerated(digest, p, framework);
    forall i | 0 <= i < |bs|
      ensures OwnUnique(digest, ruleKeys, bs[i])
    {
      TradeIsUnique(digest, ruleKeys, p, bs[i]);
    }
    forall i, j | 0 <= i < j < |bs|
      ensures Separate(digest, ruleKeys, bs[i], bs[j])
    {
      TradesAreSeparate(digest, ruleKeys, p, p, bs[i], bs[j]);
    }
    FlatMapNoDuplicates(bs, TradeIdOf());
    FlatMapNoDuplicates(bs, TradeKeyOf());
    FlatMapNoDuplicates(bs, ExitIdsOf());
    FlatMapNoDuplicates(bs, ExitKeysOf());
    FlatMapNoDuplicates(bs, MistakesOf());
    FlatMapNoDuplicates(bs, EmotionsOf());
    if NoDuplicates(ruleKeys) {
      FlatMapNoDuplicates(bs, RuleChecksOf(digest, ruleKeys));
    }
    if NoDuplicates(FlatMap(bs, RuleChecksOf(digest, ruleKeys))) {
      FlatMapDuplicates(bs, RuleChecksOf(digest, ruleKeys), 0);
      FirstIsClassified(digest, p, framework);
    }
  }

  lemma FirstIsClassified(digest: Digest, p: Uuid, framework: Framework)
    requires 3 <= |framework.setups|
    ensures BlueprintAt(digest, p, framework, 0).content.strategyVersionId.Some?
  {
    hide TradeId, TradeMutationKey, EmotionKeys, MistakeKeys, Exits, CloseAt, SystemAt;
    hide ConfirmationNotes, ReviewNotes, Symbol, Timeframe, Session, UpdatedAt, CreatedAt, EnteredAt, ExitedAt;
    hide SystemExitedAt, SumPnl, CanonicalR;
  }

  /**
   No intersection of two fixtures' manifests has a member exactly when their normalised owners or
   workspaces differ and so do their accounts. Account ids looked up in the database may replace
   the derived ones; everything below the populated account follows its id.
   */
  lemma CollisionFreeIff(digest: Digest, framework: Framework, ruleKeys: seq<string>,
                         o1: string, w1: string, e1: Uuid, p1: Uuid,
                         o2: string, w2: string, e2: Uuid, p2: Uuid)
    requires Ideal(digest) && 3 <= |framework.setups|
    ensures var a := NormalisedAccountIdentity(digest, o1, w1).(emptyId := e1, populatedId := p1);
            var b := NormalisedAccountIdentity(digest, o2, w2).(emptyId := e2, populatedId := p2);
            CollisionFree(ManifestOf(digest, a, Blueprints(digest, p1, framework), ruleKeys),
                          ManifestOf(digest, b, Blueprints(digest, p2, framework), ruleKeys))
            <==> (o1, w1) != (o2, w2) && {e1, p1} !! {e2, p2}
  {
    hide Ideal, NormalisedAccountIdentity, BlueprintAt, FlatMap, Disjoint, Blueprints;
    hide TradeIdOf, TradeKeyOf, ExitIdsOf, ExitKeysOf, RuleChecksOf, MistakesOf, EmotionsOf;
    var a := NormalisedAccountIdentity(digest, o1, w1).(emptyId := e1, populatedId := p1);
    var b := NormalisedAccountIdentity(digest, o2, w2).(emptyId := e2, populatedId := p2);
    var m := ManifestOf(digest, a, Blueprints(digest, p1, framework), ruleKeys);
    var n := ManifestOf(digest, b, Blueprints(digest, p2, framework), ruleKeys);
    CollisionFreeMeans(m, n);
    PairsDisjoint(e1, p1, e2, p2);
    PairsDisjoint(a.emptyMutationKey, a.populatedMutationKey, b.emptyMutationKey, b.populatedMutationKey);
    if (o1, w1) != (o2, w2) {
      AccountIdentitiesDisjoint(digest, o1, w1, o2, w2);
      MutationKeysDisjoint(a, b, NormalisedAccountIdentity(digest, o1, w1), NormalisedAccountIdentity(digest, o2, w2));
    }
    if p1 != p2 {
      ListsDisjoint(digest, framework, ruleKeys, p1, p2);
    }
  }

  lemma MutationKeysDisjoint(a: AccountIdentity, b: AccountIdentity, i: AccountIdentity, j: AccountIdentity)
    requires Members(i) !! Members(j)
    requires a.emptyMutationKey == i.emptyMutationKey && a.populatedMutationKey == i.populatedMutationKey
    requires b.emptyMutationKey == j.emptyMutationKey && b.populatedMutationKey == j.populatedMutationKey
    ensures {a.emptyMutationKey, a.populatedMutationKey} !! {b.emptyMutationKey, b.populatedMutationKey}
  {
    assert {a.emptyMutationKey, a.populatedMutationKey} <= Members(i);
    assert {b.emptyMutationKey, b.populatedMutationKey} <= Members(j);
  }

  lemma PairsDisjoint(a: string, b: string, c: string, d: string)
    ensures Disjoint([a, b], [c, d]) <==> {a, b} !! {c, d}
  {
    assert a in [a, b] && b in [a, b];
    assert a in {a, b} && b in {a, b};
  }

  lemma CollisionFreeMeans(m: IdentityManifest, n: IdentityManifest)
    ensures CollisionFree(m, n) <==>
              && Disjoint(m.accountIds, n.accountIds) && Disjoint(m.accountMutationKeys, n.accountMutationKeys)
              && Disjoint(m.tradeIds, n.tradeIds) && Disjoint(m.tradeMutationKeys, n.tradeMutationKeys)
              && Disjoint(m.exitIds, n.exitIds) && Disjoint(m.exitMutationKeys, n.exitMutationKeys)
              && Disjoint(m.ruleCheckIds, n.ruleCheckIds)
              && Disjoint(m.mistakeCompositeKeys, n.mistakeCompositeKeys)
              && Disjoint(m.emotionCompositeKeys, n.emotionCompositeKeys)
  {
    hide Disjoint, Intersection;
    IntersectionEmptyIff(m.accountIds, n.accountIds);
    IntersectionEmptyIff(m.accountMutationKeys, n.accountMutationKeys);
    IntersectionEmptyIff(m.tradeIds, n.tradeIds);
    IntersectionEmptyIff(m.tradeMutationKeys, n.tradeMutationKeys);
    IntersectionEmptyIff(m.exitIds, n.exitIds);
    IntersectionEmptyIff(m.exitMutationKeys, n.exitMutationKeys);
    IntersectionEmptyIff(m.ruleCheckIds, n.ruleCheckIds);
    IntersectionEmptyIff(m.mistakeCompositeKeys, n.mistakeCompositeKeys);
    IntersectionEmptyIff(m.emotionCompositeKeys, n.emotionCompositeKeys);
    var c := CrossNamespaceCollisions(m, n);
    assert CollisionFree(m, n) <==>
             c[0] == [] && c[1] == [] && c[2] == [] && c[3] == [] && c[4] == [] && c[5] == [] && c[6] == []
             && c[7] == [] && c[8] == [];
  }

  lemma ListsDisjoint(digest: Digest, framework: Framework, ruleKeys: seq<string>, p: Uuid, q: Uuid)
    requires Ideal(digest) && 3 <= |framework.setups| && p != q
    ensures var s, t := Blueprints(digest, p, framework), Blueprints(digest, q, framework);
            && Disjoint(FlatMap(s, TradeIdOf()), FlatMap(t, TradeIdOf()))
            && Disjoint(FlatMap(s, TradeKeyOf()), FlatMap(t, TradeKeyOf()))
            && Disjoint(FlatMap(s, ExitIdsOf()), FlatMap(t, ExitIdsOf()))
            && Disjoint(FlatMap(s, ExitKeysOf()), FlatMap(t, ExitKeysOf()))
            && Disjoint(FlatMap(s, RuleChecksOf(digest, ruleKeys)), FlatMap(t, RuleChecksOf(digest, ruleKeys)))
            && Disjoint(FlatMap(s, MistakesOf()), FlatMap(t, MistakesOf()))
            && Disjoint(FlatMap(s, EmotionsOf()), FlatMap(t, EmotionsOf()))
  {
    hide Ideal, BlueprintAt, Generated, FlatMap, Disjoint, Blueprints;
    hide TradeIdOf, TradeKeyOf, ExitIdsOf, ExitKeysOf, RuleChecksOf, MistakesOf, EmotionsOf;
    var s, t := Blueprints(digest, p, framework), Blueprints(digest, q, framework);
    BlueprintsAreGenerated(digest, p, framework);
    BlueprintsAreGenerated(digest, q, framework);
    KindDisjoint(digest, ruleKeys, p, q, s, t, TradeIdOf());
    KindDisjoint(digest, ruleKeys, p, q, s, t, TradeKeyOf());
    KindDisjoint(digest, ruleKeys, p, q, s, t, ExitIdsOf());
    KindDisjoint(digest, ruleKeys, p, q, s, t, ExitKeysOf());
    KindDisjoint(digest, ruleKeys, p, q, s, t, RuleChecksOf(digest, ruleKeys));
    KindDisjoint(digest, ruleKeys, p, q, s, t, MistakesOf());
    KindDisjoint(digest, ruleKeys, p, q, s, t, EmotionsOf());
  }

  lemma KindDisjoint(digest: Digest, ruleKeys: seq<string>, p: Uuid, q: Uuid,
                     s: seq<TradeBlueprint>, t: seq<TradeBlueprint>, f: Lister)
    requires Ideal(digest) && Generated(digest, p, s) && Generated(digest, q, t) && p != q
    requires forall a, b | Separate(digest, ruleKeys, a, b) :: Disjoint(f(a), f(b))
    ensures Disjoint(FlatMap(s, f), FlatMap(t, f))
  {
    hide Ideal, Identified, FlatMap, Disjoint, Separate;
    forall a, b | a in s && b in t
      ensures Disjoint(f(a), f(b))
    {
      TradesAreSeparate(digest, ruleKeys, p, q, a, b);
    }
    FlatMapsDisjoint(s, t, f);
  }

  /** With the derived ids, distinct normalised owners or workspaces are all it takes. */
  lemma NamespacesAreIsolated(digest: Digest, framework: Framework, ruleKeys: seq<string>,
                              o1: string, w1: string, o2: string, w2: string)
    requires Ideal(digest) && 3 <= |framework.setups| && (o1, w1) != (o2, w2)
    ensures var a, b := NormalisedAccountIdentity(digest, o1, w1), NormalisedAccountIdentity(digest, o2, w2);
            CollisionFree(ManifestOf(digest, a, Blueprints(digest, a.populatedId, framework), ruleKeys),
                          ManifestOf(digest, b, Blueprints(digest, b.populatedId, framework), ruleKeys))
  {
    hide Ideal, NormalisedAccountIdentity, CollisionFree, Blueprints, ManifestOf;
    var a, b := NormalisedAccountIdentity(digest, o1, w1), NormalisedAccountIdentity(digest, o2, w2);
    AccountIdentitiesDisjoint(digest, o1, w1, o2, w2);
    assert {a.emptyId, a.populatedId} <= Members(a) && {b.emptyId, b.populatedId} <= Members(b);
    assert a == a.(emptyId := a.emptyId, populatedId := a.populatedId);
    assert b == b.(emptyId := b.emptyId, populatedId := b.populatedId);
    CollisionFreeIff(digest, framework, ruleKeys, o1, w1, a.emptyId, a.populatedId, o2, w2, b.emptyId, b.populatedId);
  }

  // ------------------------------------------------------------- any manifests

  /** The duplicate check misses none of the nine kinds, whatever the manifest holds. */
  lemma UniqueCheckIsComplete(m: IdentityManifest)
    ensures AssertManifestUnique(m) <==>
              && NoDuplicates(m.accountIds) && NoDuplicates(m.accountMutationKeys)
              && NoDuplicates(m.tradeIds) && NoDuplicates(m.tradeMutationKeys)
              && NoDuplicates(m.exitIds) && NoDuplicates(m.exitMutationKeys)
              && NoDuplicates(m.ruleCheckIds) && NoDuplicates(m.mistakeCompositeKeys)
              && NoDuplicates(m.emotionCompositeKeys)
  {
    hide NoDuplicates, AssertUnique;
    UniqueIff(m.accountIds);
    UniqueIff(m.accountMutationKeys);
    UniqueIff(m.tradeIds);
    UniqueIff(m.tradeMutationKeys);
    UniqueIff(m.exitIds);
    UniqueIff(m.exitMutationKeys);
    UniqueIff(m.ruleCheckIds);
    UniqueIff(m.mistakeCompositeKeys);
    UniqueIff(m.emotionCompositeKeys);
  }

  /** Nor does the comparison of two manifests: one shared identity of any kind is a collision. */
  lemma CollisionCheckIsComplete(a: IdentityManifest, b: IdentityManifest)
    ensures CollisionFree(a, b) <==>
              && Disjoint(a.accountIds, b.accountIds) && Disjoint(a.accountMutationKeys, b.accountMutationKeys)
              && Disjoint(a.tradeIds, b.tradeIds) && Disjoint(a.tradeMutationKeys, b.tradeMutationKeys)
              && Disjoint(a.exitIds, b.exitIds) && Disjoint(a.exitMutationKeys, b.exitMutationKeys)
              && Disjoint(a.ruleCheckIds, b.ruleCheckIds) && Disjoint(a.mistakeCompositeKeys, b.mistakeCompositeKeys)
              && Disjoint(a.emotionCompositeKeys, b.emotionCompositeKeys)
  {
    hide Disjoint, Intersection;
    IntersectionEmptyIff(a.accountIds, b.accountIds);
    IntersectionEmptyIff(a.accountMutationKeys, b.accountMutationKeys);
    IntersectionEmptyIff(a.tradeIds, b.tradeIds);
    IntersectionEmptyIff(a.tradeMutationKeys, b.tradeMutationKeys);
    IntersectionEmptyIff(a.exitIds, b.exitIds);
    IntersectionEmptyIff(a.exitMutationKeys, b.exitMutationKeys);
    IntersectionEmptyIff(a.ruleCheckIds, b.ruleCheckIds);
    IntersectionEmptyIff(a.mistakeCompositeKeys, b.mistakeCompositeKeys);
    IntersectionEmptyIff(a.emotionCompositeKeys, b.emotionCompositeKeys);
    AllNine(a, b);
    hide CollisionFree, CrossNamespaceCollisions;
  }

  lemma AllNine(a: IdentityManifest, b: IdentityManifest)
    ensures CollisionFree(a, b) <==>
              && Intersection(a.accountIds, b.accountIds) == []
              && Intersection(a.accountMutationKeys, b.accountMutationKeys) == []
              && Intersection(a.tradeIds, b.tradeIds) == []
              && Intersection(a.tradeMutationKeys, b.tradeMutationKeys) == []
              && Intersection(a.exitIds, b.exitIds) == []
              && Intersection(a.exitMutationKeys, b.exitMutationKeys) == []
              && Intersection(a.ruleCheckIds, b.ruleCheckIds) == []
              && Intersection(a.mistakeCompositeKeys, b.mistakeCompositeKeys) == []
              && Intersection(a.emotionCompositeKeys, b.emotionCompositeKeys) == []
  {
    hide Intersection;
    var all := CrossNamespaceCollisions(a, b);
    assert all[0] == Intersection(a.accountIds, b.accountIds);
    assert all[1] == Intersection(a.accountMutationKeys, b.accountMutationKeys);
    assert all[2] == Intersection(a.tradeIds, b.tradeIds);
    assert all[3] == Intersection(a.tradeMutationKeys, b.tradeMutationKeys);
    assert all[4] == Intersection(a.exitIds, b.exitIds);
    assert all[5] == Intersection(a.exitMutationKeys, b.exitMutationKeys);
    assert all[6] == Intersection(a.ruleCheckIds, b.ruleCheckIds);
    assert all[7] == Intersection(a.mistakeCompositeKeys, b.mistakeCompositeKeys);
    assert all[8] == Intersection(a.emotionCompositeKeys, b.emotionCompositeKeys);
  }

  lemma FlatMapMembers<A, B>(s: seq<A>, f: A -> seq<B>)
    ensures forall x :: x in FlatMap(s, f) <==> exists i :: 0 <= i < |s| && x in f(s[i])
  {
    hide FlatMap;
    forall x
      ensures x in FlatMap(s, f) <==> exists i :: 0 <= i < |s| && x in f(s[i])
    {
      if x in FlatMap(s, f) {
        var j :| 0 <= j < |FlatMap(s, f)| && FlatMap(s, f)[j] == x;
        var i, k := FlatMapSource(s, f, j);
        assert x in f(s[i]);
      }
      if i :| 0 <= i < |s| && x in f(s[i]) {
        var k :| 0 <= k < |f(s[i])| && f(s[i])[k] == x;
        var j := FlatMapTarget(s, f, i, k);
      }
    }
  }

  /** A manifest lists the ids and the keys of every trade and every leg, each under its own kind, and nothing else. */
  lemma ManifestLists(digest: Digest, account: AccountIdentity, trades: seq<TradeBlueprint>, ruleKeys: seq<string>)
    ensures var m := ManifestOf(digest, account, trades, ruleKeys);
            && (forall x :: x in m.accountIds <==> x == account.emptyId || x == account.populatedId)
            && (forall x :: x in m.accountMutationKeys <==>
                  x == account.emptyMutationKey || x == account.populatedMutationKey)
            && (forall x :: x in m.tradeIds <==> exists i :: 0 <= i < |trades| && x == trades[i].id)
            && (forall x :: x in m.tradeMutationKeys <==> exists i :: 0 <= i < |trades| && x == trades[i].mutationKey)
            && (forall x :: x in m.exitIds <==>
                  exists i, k :: 0 <= i < |trades| && 0 <= k < |trades[i].exits| && x == trades[i].exits[k].id)
            && (forall x :: x in m.exitMutationKeys <==>
                  exists i, k :: 0 <= i < |trades| && 0 <= k < |trades[i].exits| && x == trades[i].exits[k].mutationKey)
            && (forall x :: x in m.ruleCheckIds <==>
                  exists i, k :: 0 <= i < |trades| && 0 <= k < |ruleKeys| && trades[i].content.strategyVersionId.Some?
                    && x == RuleCheckId(digest, trades[i].id, ruleKeys[k]))
  {
    hide FlatMap, RuleCheckId;
    FlatMapMembers(trades, TradeIdOf());
    FlatMapMembers(trades, TradeKeyOf());
    FlatMapMembers(trades, ExitIdsOf());
    FlatMapMembers(trades, ExitKeysOf());
    FlatMapMembers(trades, RuleChecksOf(digest, ruleKeys));
    ExitMembers(trades);
    CheckMembers(digest, trades, ruleKeys);
  }

  lemma ExitMembers(trades: seq<TradeBlueprint>)
    ensures forall i, x | 0 <= i < |trades| ::
              x in ExitIdsOf()(trades[i]) <==> exists k :: 0 <= k < |trades[i].exits| && x == trades[i].exits[k].id
    ensures forall i, x | 0 <= i < |trades| ::
              x in ExitKeysOf()(trades[i]) <==> exists k :: 0 <= k < |trades[i].exits| && x == trades[i].exits[k].mutationKey
  {
    forall i, x | 0 <= i < |trades|
      ensures x in ExitIdsOf()(trades[i]) <==> exists k :: 0 <= k < |trades[i].exits| && x == trades[i].exits[k].id
      ensures x in ExitKeysOf()(trades[i]) <==> exists k :: 0 <= k < |trades[i].exits| && x == trades[i].exits[k].mutationKey
    {
      var ids, keys, exits := ExitIdsOf()(trades[i]), ExitKeysOf()(trades[i]), trades[i].exits;
      assert |ids| == |exits| && forall k | 0 <= k < |exits| :: ids[k] == exits[k].id;
      assert |keys| == |exits| && forall k | 0 <= k < |exits| :: keys[k] == exits[k].mutationKey;
    }
  }

  lemma CheckMembers(digest: Digest, trades: seq<TradeBlueprint>, ruleKeys: seq<string>)
    ensures forall i, x | 0 <= i < |trades| ::
              x in RuleChecksOf(digest, ruleKeys)(trades[i]) <==>
                exists k :: 0 <= k < |ruleKeys| && trades[i].content.strategyVersionId.Some?
                  && x == RuleCheckId(digest, trades[i].id, ruleKeys[k])
  {
    hide RuleCheckId;
  }
}
