/**
 The visual fixture's hierarchical identity scheme. Hashing is the one primitive the
 model does not open: a Digest stands for SHA-256, truncated and laid out as a UUID.
 */
module Identity {
  import opened Wrappers
  import opened JsonNamespace

  type Uuid = string

  type Digest = string -> Uuid

  /** Distinct texts have distinct digests, and no digest contains a colon. */
  ghost predicate Ideal(digest: Digest) {
    && (forall x, y :: digest(x) == digest(y) ==> x == y)
    && (forall x :: ':' !in digest(x))
  }

  /** A digest that meets the assumption: every character doubled, with colons written another way. */
  function Doubled(s: string): string {
    if s == "" then "" else (if s[0] == ':' then "b-" else ['a', s[0]]) + Doubled(s[1..])
  }

  lemma {:induction false} DoubledIsInjective(x: string, y: string)
    requires Doubled(x) == Doubled(y)
    ensures x == y
  {
    if x != "" && y != "" {
      assert Doubled(x)[0] == Doubled(y)[0] && Doubled(x)[1] == Doubled(y)[1];
      assert Doubled(x)[2..] == Doubled(x[1..]) && Doubled(y)[2..] == Doubled(y[1..]);
      DoubledIsInjective(x[1..], y[1..]);
      assert x == [x[0]] + x[1..] && y == [y[0]] + y[1..];
    }
  }

  lemma {:induction false} DoubledHasNoColon(x: string)
    ensures ':' !in Doubled(x)
  {
    if x != "" {
      DoubledHasNoColon(x[1..]);
    }
  }

  /** The assumption on digests can be met. */
  lemma IdealIsPossible()
    ensures Ideal(Doubled)
  {
    forall x, y | Doubled(x) == Doubled(y)
      ensures x == y
    {
      DoubledIsInjective(x, y);
    }
    forall x
      ensures ':' !in Doubled(x)
    {
      DoubledHasNoColon(x);
    }
  }

  function Rooted(namespace: seq<Part>): seq<Part> {
    [Text("tradechemist"), Text("visual-dashboard"), Text("v2")] + namespace
  }

  function DeterministicUuid(digest: Digest, namespace: seq<Part>): Uuid {
    digest(Encode(Rooted(namespace)))
  }

  function LegacyDeterministicUuid(digest: Digest, name: string): Uuid {
    digest("tradechemist-visual-v1:" + name)
  }

  datatype AccountIdentity = AccountIdentity(
    emptyId: Uuid,
    populatedId: Uuid,
    emptyMutationKey: Uuid,
    populatedMutationKey: Uuid)

  /** The namespace of an account, or of its creation mutation. */
  function AccountNamespace(owner: string, workspace: string, account: string, mutation: bool): seq<Part> {
    [Text("owner"), Text(owner), Text("workspace"), Text(workspace), Text("account"), Text(account)]
    + if mutation then [Text("mutation")] else []
  }

  function AccountUuid(digest: Digest, owner: string, workspace: string, account: string, mutation: bool): Uuid {
    DeterministicUuid(digest, AccountNamespace(owner, workspace, account, mutation))
  }

  /** The identities of an owner and workspace that are already trimmed and lower-cased. */
  function NormalisedAccountIdentity(digest: Digest, owner: string, workspace: string): AccountIdentity {
    AccountIdentity(
      AccountUuid(digest, owner, workspace, "empty", false),
      AccountUuid(digest, owner, workspace, "populated", false),
      AccountUuid(digest, owner, workspace, "empty", true),
      AccountUuid(digest, owner, workspace, "populated", true))
  }

  /** normalise is String.prototype.trim followed by toLowerCase. */
  function VisualAccountIdentity(digest: Digest, normalise: string -> string, owner: string, workspace: string)
    : Result<AccountIdentity, string>
  {
    var ownerIdentity := normalise(owner);
    var workspaceId := normalise(workspace);
    if ownerIdentity == "" || workspaceId == "" then
      Err("Visual fixture owner and workspace identities must be non-empty.")
    else
      Ok(NormalisedAccountIdentity(digest, ownerIdentity, workspaceId))
  }

  function LegacyVisualAccountIdentity(digest: Digest, normalise: string -> string, owner: string): AccountIdentity {
    var normalised := normalise(owner);
    AccountIdentity(
      LegacyDeterministicUuid(digest, normalised + ":account:empty"),
      LegacyDeterministicUuid(digest, normalised + ":account:populated"),
      LegacyDeterministicUuid(digest, normalised + ":account:empty:mutation"),
      LegacyDeterministicUuid(digest, normalised + ":account:populated:mutation"))
  }

  function TradeId(digest: Digest, accountId: Uuid, fixtureIndex: nat): Uuid {
    DeterministicUuid(digest, [Text("account"), Text(accountId), Text("trade"), Number(fixtureIndex)])
  }

  function TradeMutationKey(digest: Digest, accountId: Uuid, fixtureIndex: nat): Uuid {
    DeterministicUuid(digest,
                      [Text("account"), Text(accountId), Text("trade"), Number(fixtureIndex), Text("mutation")])
  }

  function ChildNamespace(tradeId: Uuid, childType: string, stableIdentity: Part): seq<Part> {
    [Text("trade"), Text(tradeId), Text("child"), Text(childType), stableIdentity]
  }

  function ExitId(digest: Digest, tradeId: Uuid, sequence: nat): Uuid {
    DeterministicUuid(digest, ChildNamespace(tradeId, "exit", Number(sequence)))
  }

  function ExitMutationKey(digest: Digest, tradeId: Uuid, sequence: nat): Uuid {
    DeterministicUuid(digest, ChildNamespace(tradeId, "exit", Number(sequence)) + [Text("mutation")])
  }

  function RuleCheckId(digest: Digest, tradeId: Uuid, ruleKey: string): Uuid {
    DeterministicUuid(digest, ChildNamespace(tradeId, "rule-check", Text(ruleKey)))
  }

  // ------------------------------------------------------------ distinctness

  lemma UuidInjective(digest: Digest, a: seq<Part>, b: seq<Part>)
    requires Ideal(digest)
    requires DeterministicUuid(digest, a) == DeterministicUuid(digest, b)
    ensures a == b
  {
    EncodeInjective(Rooted(a), Rooted(b));
    assert a == Rooted(a)[3..];
    assert b == Rooted(b)[3..];
  }

  lemma EncodingOpensWithBracket(ps: seq<Part>)
    ensures Encode(ps) != "" && Encode(ps)[0] == '['
  {
  }

  lemma TextsDiffer(digest: Digest, current: string, legacy: string)
    requires Ideal(digest)
    requires current != "" && current[0] == '['
    requires legacy != "" && legacy[0] == 't'
    ensures digest(current) != digest(legacy)
  {
    assert current[0] != legacy[0];
  }

  /** No identity of the current scheme is ever an identity of the legacy scheme. */
  lemma SchemesDisjoint(digest: Digest, namespace: seq<Part>, name: string)
    requires Ideal(digest)
    ensures DeterministicUuid(digest, namespace) != LegacyDeterministicUuid(digest, name)
  {
    EncodingOpensWithBracket(Rooted(namespace));
    TextsDiffer(digest, Encode(Rooted(namespace)), "tradechemist-visual-v1:" + name);
  }

  lemma AccountUuidsDiffer(digest: Digest, o1: string, w1: string, a1: string, m1: bool,
                           o2: string, w2: string, a2: string, m2: bool)
    requires Ideal(digest)
    requires (o1, w1, a1) != (o2, w2, a2)
    ensures AccountUuid(digest, o1, w1, a1, m1) != AccountUuid(digest, o2, w2, a2, m2)
  {
    var m, n := AccountNamespace(o1, w1, a1, m1), AccountNamespace(o2, w2, a2, m2);
    assert m[1] == Text(o1) && m[3] == Text(w1) && m[5] == Text(a1);
    assert n[1] == Text(o2) && n[3] == Text(w2) && n[5] == Text(a2);
    if DeterministicUuid(digest, m) == DeterministicUuid(digest, n) {
      UuidInjective(digest, m, n);
    }
  }

  lemma CurrentIsNotLegacy(digest: Digest, owner: string, workspace: string, account: string, name: string)
    requires Ideal(digest)
    ensures AccountUuid(digest, owner, workspace, account, true) != LegacyDeterministicUuid(digest, name)
  {
    SchemesDisjoint(digest, AccountNamespace(owner, workspace, account, true), name);
  }

  /** Within one owner and workspace the identities differ, and no mutation key is a legacy identity. */
  lemma AccountIdentitiesDistinct(digest: Digest, owner: string, workspace: string)
    requires Ideal(digest)
    ensures var i := NormalisedAccountIdentity(digest, owner, workspace);
            && i.emptyId != i.populatedId
            && i.emptyMutationKey != i.populatedMutationKey
            && (forall name :: LegacyDeterministicUuid(digest, name) !in {i.emptyMutationKey, i.populatedMutationKey})
  {
    hide AccountUuid;
    AccountUuidsDiffer(digest, owner, workspace, "empty", false, owner, workspace, "populated", false);
    AccountUuidsDiffer(digest, owner, workspace, "empty", true, owner, workspace, "populated", true);
    forall name, account
      ensures AccountUuid(digest, owner, workspace, account, true) != LegacyDeterministicUuid(digest, name)
    {
      CurrentIsNotLegacy(digest, owner, workspace, account, name);
    }
  }

  /** What an account's two possible ownership markers rely on. */
  ghost predicate MarkersApart(i: AccountIdentity, legacy: AccountIdentity) {
    && i.emptyId != i.populatedId
    && i.emptyMutationKey != i.populatedMutationKey
    && {legacy.emptyMutationKey, legacy.populatedMutationKey} !! {i.emptyMutationKey, i.populatedMutationKey}
  }

  lemma MarkersAreApart(digest: Digest, normalise: string -> string, owner: string, workspace: string)
    requires Ideal(digest)
    ensures MarkersApart(NormalisedAccountIdentity(digest, normalise(owner), normalise(workspace)),
                         LegacyVisualAccountIdentity(digest, normalise, owner))
  {
    hide NormalisedAccountIdentity, LegacyDeterministicUuid, AccountUuid;
    AccountIdentitiesDistinct(digest, normalise(owner), normalise(workspace));
  }

  function Members(i: AccountIdentity): set<Uuid> {
    {i.emptyId, i.populatedId, i.emptyMutationKey, i.populatedMutationKey}
  }

  /** Account identities drawn from different normalised pairs share nothing, in any position. */
  lemma AccountIdentitiesDisjoint(digest: Digest, o1: string, w1: string, o2: string, w2: string)
    requires Ideal(digest)
    requires (o1, w1) != (o2, w2)
    ensures Members(NormalisedAccountIdentity(digest, o1, w1)) !! Members(NormalisedAccountIdentity(digest, o2, w2))
  {
    hide AccountUuid;
    forall a1, m1, a2, m2
      ensures AccountUuid(digest, o1, w1, a1, m1) != AccountUuid(digest, o2, w2, a2, m2)
    {
      AccountUuidsDiffer(digest, o1, w1, a1, m1, o2, w2, a2, m2);
    }
  }

  lemma TradeNamespacesDistinct(digest: Digest, a: Uuid, i: nat, b: Uuid, j: nat, suffix: seq<Part>)
    requires Ideal(digest)
    requires DeterministicUuid(digest, [Text("account"), Text(a), Text("trade"), Number(i)] + suffix)
          == DeterministicUuid(digest, [Text("account"), Text(b), Text("trade"), Number(j)] + suffix)
    ensures a == b && i == j
  {
    var m := [Text("account"), Text(a), Text("trade"), Number(i)] + suffix;
    var n := [Text("account"), Text(b), Text("trade"), Number(j)] + suffix;
    hide *;
    UuidInjective(digest, m, n);
    assert m[1] == Text(a) && m[3] == Number(i) && n[1] == Text(b) && n[3] == Number(j);
  }

  lemma TradeIdsDistinct(digest: Digest, a: Uuid, i: nat, b: Uuid, j: nat)
    requires Ideal(digest)
    ensures TradeId(digest, a, i) == TradeId(digest, b, j) <==> a == b && i == j
    ensures TradeMutationKey(digest, a, i) == TradeMutationKey(digest, b, j) <==> a == b && i == j
  {
    hide Ideal, DeterministicUuid;
    var m, n := [Text("account"), Text(a), Text("trade"), Number(i)], [Text("account"), Text(b), Text("trade"), Number(j)];
    assert m == m + [] && n == n + [];
    assert m + [Text("mutation")] == [Text("account"), Text(a), Text("trade"), Number(i), Text("mutation")];
    assert n + [Text("mutation")] == [Text("account"), Text(b), Text("trade"), Number(j), Text("mutation")];
    if TradeId(digest, a, i) == TradeId(digest, b, j) {
      TradeNamespacesDistinct(digest, a, i, b, j, []);
    }
    if TradeMutationKey(digest, a, i) == TradeMutationKey(digest, b, j) {
      TradeNamespacesDistinct(digest, a, i, b, j, [Text("mutation")]);
    }
  }

  lemma ExitIdsDistinct(digest: Digest, t: Uuid, i: nat, u: Uuid, j: nat)
    requires Ideal(digest)
    ensures ExitId(digest, t, i) == ExitId(digest, u, j) <==> t == u && i == j
    ensures ExitMutationKey(digest, t, i) == ExitMutationKey(digest, u, j) <==> t == u && i == j
  {
    var m, n := ChildNamespace(t, "exit", Number(i)), ChildNamespace(u, "exit", Number(j));
    var m', n' := m + [Text("mutation")], n + [Text("mutation")];
    assert m[1] == m'[1] == Text(t) && m[4] == m'[4] == Number(i);
    assert n[1] == n'[1] == Text(u) && n[4] == n'[4] == Number(j);
    if ExitId(digest, t, i) == ExitId(digest, u, j) {
      UuidInjective(digest, m, n);
    }
    if ExitMutationKey(digest, t, i) == ExitMutationKey(digest, u, j) {
      UuidInjective(digest, m', n');
    }
  }

  lemma RuleCheckIdsDistinct(digest: Digest, t: Uuid, k: string, u: Uuid, l: string)
    requires Ideal(digest)
    ensures RuleCheckId(digest, t, k) == RuleCheckId(digest, u, l) <==> t == u && k == l
  {
    var m, n := ChildNamespace(t, "rule-check", Text(k)), ChildNamespace(u, "rule-check", Text(l));
    assert m[1] == Text(t) && m[4] == Text(k) && n[1] == Text(u) && n[4] == Text(l);
    if RuleCheckId(digest, t, k) == RuleCheckId(digest, u, l) {
      UuidInjective(digest, m, n);
    }
  }
}
