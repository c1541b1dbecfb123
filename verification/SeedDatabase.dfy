/**
 The tables the visual-fixture seed reads and writes, with the keys, foreign keys and
 cascades of the migrations, and what each statement of the seed transaction does to them.
 */
module SeedDatabase {
  import opened Wrappers
  import opened Identity
  import opened Blueprint
  import opened Tables

  const EMPTY_NAME: string := "Visual \U{2014} Empty"
  const POPULATED_NAME: string := "Visual \U{2014} Populated"

  // ------------------------------------------------------------------ tables

  /** untouched stands for the columns no statement of the seed writes: broker, platform, risk limits, created_at. */
  datatype Account = Account(
    workspaceId: Uuid,
    name: string,
    accountMode: string,
    baseCurrency: string,
    startingBalance: string,
    timezone: string,
    isArchived: bool,
    mutationKey: Uuid,
    untouched: string,
    updatedAt: int)

  datatype TradeRow = TradeRow(workspaceId: Uuid, mutationKey: Uuid, tradingAccountId: Uuid, content: TradeContent)

  datatype ExitRow = ExitRow(
    workspaceId: Uuid,
    tradeId: Uuid,
    mutationKey: Uuid,
    sequence: nat,
    closedBps: int,
    realizedPnlMinor: int,
    exitReason: string,
    exitedAt: int)

  datatype CheckRow = CheckRow(
    workspaceId: Uuid,
    tradeId: Uuid,
    rule: Rule,
    checkStatus: string,
    createdAt: int,
    updatedAt: int)

  datatype MistakeRow = MistakeRow(
    workspaceId: Uuid,
    note: string,
    severityAtTime: string,
    weightAtTime: real,
    createdAt: int,
    updatedAt: int)

  datatype EmotionRow = EmotionRow(workspaceId: Uuid, createdAt: int)

  /** snapshots maps each trade_setup_condition_checks row to its trade. */
  datatype State = State(
    accounts: map<Uuid, Account>,
    trades: map<Uuid, TradeRow>,
    exits: map<Uuid, ExitRow>,
    checks: map<Uuid, CheckRow>,
    mistakes: map<(Uuid, Uuid), MistakeRow>,
    emotions: map<(Uuid, Uuid), EmotionRow>,
    snapshots: map<Uuid, Uuid>,
    journal: string)

  // ------------------------------------------------------------------- input

  datatype Rule = Rule(
    id: Uuid,
    strategyVersionId: Uuid,
    ruleKey: string,
    title: string,
    category: string,
    isRequired: bool,
    isPreTradeCheck: bool,
    sortOrder: nat)

  datatype MistakeType = MistakeType(id: Uuid, severity: string, defaultWeight: real)

  /** What main has read and checked before it opens the transaction. */
  datatype SeedInput = SeedInput(
    digest: Digest,
    normalise: string -> string,
    targetEmail: string,
    workspaceId: Uuid,
    timezone: string,
    framework: Framework,
    rules: seq<Rule>,
    mistakeTypes: map<string, MistakeType>,
    emotionTypes: map<string, Uuid>)

  /** The STOPs before the transaction, and the unique keys of the tables the input was read from. */
  ghost predicate Prepared(input: SeedInput) {
    && Ideal(input.digest)
    && |input.framework.setups| == 3
    && (forall i | 0 <= i < |input.rules| :: input.rules[i].strategyVersionId == input.framework.strategyVersionId)
    && (forall i, j | 0 <= i < j < |input.rules| :: input.rules[i].ruleKey != input.rules[j].ruleKey)
    && (forall key | key in ["early_exit", "chased_entry", "revenge_trade"] :: key in input.mistakeTypes)
    && (forall key | key in ["calm", "focused", "fearful", "fomo", "revenge"] :: key in input.emotionTypes)
    && (forall k, l | k in input.emotionTypes && l in input.emotionTypes && k != l ::
          input.emotionTypes[k] != input.emotionTypes[l])
  }

  datatype Stop =
    | EmptyIdentity
    | IdentityOwned
    | AmbiguousName(name: string)
    | MissingMarker(name: string)
    | MutationKeyTaken
    | ForeignCollision
    | ProtectedSnapshot
    | ConstraintViolated
    | UnrelatedChanged
    | JournalChanged

  // ------------------------------------------------------------- constraints

  predicate TradeUnique(a: Row<Uuid, TradeRow>, b: Row<Uuid, TradeRow>) {
    a.1.workspaceId == b.1.workspaceId ==> a.1.mutationKey != b.1.mutationKey
  }

  predicate ExitUnique(a: Row<Uuid, ExitRow>, b: Row<Uuid, ExitRow>) {
    && (a.1.tradeId == b.1.tradeId ==> a.1.sequence != b.1.sequence)
    && (a.1.workspaceId == b.1.workspaceId ==> a.1.mutationKey != b.1.mutationKey)
  }

  predicate CheckUnique(a: Row<Uuid, CheckRow>, b: Row<Uuid, CheckRow>) {
    a.1.tradeId == b.1.tradeId ==> a.1.rule.ruleKey != b.1.rule.ruleKey
  }

  predicate MistakeUnique(a: Row<(Uuid, Uuid), MistakeRow>, b: Row<(Uuid, Uuid), MistakeRow>) {
    a.0 != b.0
  }

  predicate EmotionUnique(a: Row<(Uuid, Uuid), EmotionRow>, b: Row<(Uuid, Uuid), EmotionRow>) {
    a.0 != b.0
  }

  predicate TradeValid(accounts: map<Uuid, Account>, row: TradeRow) {
    && row.tradingAccountId in accounts && accounts[row.tradingAccountId].workspaceId == row.workspaceId
    && SatisfiesTradeChecks(row.content)
  }

  predicate ExitValid(trades: map<Uuid, TradeRow>, row: ExitRow) {
    && row.tradeId in trades && trades[row.tradeId].workspaceId == row.workspaceId
    && 0 < row.sequence && 0 < row.closedBps <= 10_000 && row.exitReason != ""
    && (var c := trades[row.tradeId].content;
        c.actualResultMode == Some(Money) && c.enteredAt.Some? && c.enteredAt.value <= row.exitedAt)
  }

  predicate CheckValid(trades: map<Uuid, TradeRow>, row: CheckRow) {
    && row.tradeId in trades && trades[row.tradeId].workspaceId == row.workspaceId
    && trades[row.tradeId].content.strategyVersionId == Some(row.rule.strategyVersionId)
  }

  predicate ChildValid(trades: map<Uuid, TradeRow>, tradeId: Uuid, workspaceId: Uuid) {
    tradeId in trades && trades[tradeId].workspaceId == workspaceId
  }

  function TradeValidator(accounts: map<Uuid, Account>): Row<Uuid, TradeRow> -> bool {
    (row: Row<Uuid, TradeRow>) => TradeValid(accounts, row.1)
  }

  function ExitValidator(trades: map<Uuid, TradeRow>): Row<Uuid, ExitRow> -> bool {
    (row: Row<Uuid, ExitRow>) => ExitValid(trades, row.1)
  }

  function CheckValidator(trades: map<Uuid, TradeRow>): Row<Uuid, CheckRow> -> bool {
    (row: Row<Uuid, CheckRow>) => CheckValid(trades, row.1)
  }

  function MistakeValidator(trades: map<Uuid, TradeRow>): Row<(Uuid, Uuid), MistakeRow> -> bool {
    (row: Row<(Uuid, Uuid), MistakeRow>) => ChildValid(trades, row.0.0, row.1.workspaceId)
  }

  function EmotionValidator(trades: map<Uuid, TradeRow>): Row<(Uuid, Uuid), EmotionRow> -> bool {
    (row: Row<(Uuid, Uuid), EmotionRow>) => ChildValid(trades, row.0.0, row.1.workspaceId)
  }

  ghost predicate AccountsUnique(accounts: map<Uuid, Account>) {
    forall a, b | a in accounts && b in accounts && a != b && accounts[a].workspaceId == accounts[b].workspaceId ::
      accounts[a].mutationKey != accounts[b].mutationKey
  }

  ghost predicate TradesSound(s: State) {
    && (forall t | t in s.trades ::
          && s.trades[t].tradingAccountId in s.accounts
          && s.accounts[s.trades[t].tradingAccountId].workspaceId == s.trades[t].workspaceId)
    && (forall t, u | t in s.trades && u in s.trades && t != u :: TradeUnique((t, s.trades[t]), (u, s.trades[u])))
  }

  ghost predicate ExitsSound(s: State) {
    && (forall x | x in s.exits :: ChildValid(s.trades, s.exits[x].tradeId, s.exits[x].workspaceId))
    && (forall x, y | x in s.exits && y in s.exits && x != y :: ExitUnique((x, s.exits[x]), (y, s.exits[y])))
  }

  ghost predicate ChecksSound(s: State) {
    && (forall x | x in s.checks :: ChildValid(s.trades, s.checks[x].tradeId, s.checks[x].workspaceId))
    && (forall x, y | x in s.checks && y in s.checks && x != y :: CheckUnique((x, s.checks[x]), (y, s.checks[y])))
  }

  ghost predicate LinksSound(s: State) {
    && (forall x | x in s.mistakes :: ChildValid(s.trades, x.0, s.mistakes[x].workspaceId))
    && (forall x | x in s.emotions :: ChildValid(s.trades, x.0, s.emotions[x].workspaceId))
    && (forall x | x in s.snapshots :: s.snapshots[x] in s.trades)
  }

  /** The keys and foreign keys every database state satisfies. */
  ghost predicate Sound(s: State) {
    AccountsUnique(s.accounts) && TradesSound(s) && ExitsSound(s) && ChecksSound(s) && LinksSound(s)
  }

  // ------------------------------------------------------------- resolution

  datatype Resolution = Resolution(identities: AccountIdentity, emptyId: Uuid, populatedId: Uuid)

  /** A row that already has a derived id must carry the matching marker, in the target workspace. */
  predicate OwnedOrFree(accounts: map<Uuid, Account>, workspaceId: Uuid, id: Uuid, mutationKey: Uuid) {
    id in accounts ==> accounts[id].workspaceId == workspaceId && accounts[id].mutationKey == mutationKey
  }

  function Named(accounts: map<Uuid, Account>, workspaceId: Uuid, name: string): set<Uuid> {
    set id | id in accounts && accounts[id].workspaceId == workspaceId && accounts[id].name == name
  }

  function NameStop(accounts: map<Uuid, Account>, workspaceId: Uuid, name: string,
                    expectedKey: Uuid, legacyKey: Uuid): Option<Stop>
  {
    var ids := Named(accounts, workspaceId, name);
    if |ids| > 1 then Some(AmbiguousName(name))
    else if exists id | id in ids :: accounts[id].mutationKey != expectedKey && accounts[id].mutationKey != legacyKey
    then Some(MissingMarker(name))
    else None
  }

  ghost function Pick(ids: set<Uuid>): (id: Uuid)
    requires ids != {}
    ensures id in ids
  {
    var id :| id in ids; id
  }

  lemma OnlyPick(ids: set<Uuid>, id: Uuid)
    requires id in ids && |ids| <= 1
    ensures Pick(ids) == id && ids == {id}
  {
    var other := Pick(ids);
    if other != id {
      assert {id, other} <= ids;
      SubsetSize({id, other}, ids);
    }
    forall x | x in ids
      ensures x == id
    {
      if x != id {
        SubsetSize({id, x}, ids);
      }
    }
  }

  lemma SubsetSize(a: set<Uuid>, b: set<Uuid>)
    requires a <= b
    ensures |a| <= |b|
  {
    var rest := b - a;
    assert b == a + rest;
  }

  ghost function ResolveId(accounts: map<Uuid, Account>, workspaceId: Uuid, name: string, derivedId: Uuid): Uuid {
    var ids := Named(accounts, workspaceId, name);
    if ids == {} then derivedId else Pick(ids)
  }

  /** The derived-id guard, the name guards in their order, and the two account ids. */
  ghost function ResolveWith(accounts: map<Uuid, Account>, w: Uuid, i: AccountIdentity, legacy: AccountIdentity)
    : Result<Resolution, Stop>
  {
    if !OwnedOrFree(accounts, w, i.emptyId, i.emptyMutationKey)
       || !OwnedOrFree(accounts, w, i.populatedId, i.populatedMutationKey)
    then Err(IdentityOwned)
    else
      match NameStop(accounts, w, EMPTY_NAME, i.emptyMutationKey, legacy.emptyMutationKey)
      case Some(stop) => Err(stop)
      case None =>
        match NameStop(accounts, w, POPULATED_NAME, i.populatedMutationKey, legacy.populatedMutationKey)
        case Some(stop) => Err(stop)
        case None =>
          Ok(Resolution(i, ResolveId(accounts, w, EMPTY_NAME, i.emptyId),
                        ResolveId(accounts, w, POPULATED_NAME, i.populatedId)))
  }

  ghost function Resolve(s: State, input: SeedInput): Result<Resolution, Stop> {
    match VisualAccountIdentity(input.digest, input.normalise, input.targetEmail, input.workspaceId)
    case Err(_) => Err(EmptyIdentity)
    case Ok(i) =>
      ResolveWith(s.accounts, input.workspaceId, i,
                  LegacyVisualAccountIdentity(input.digest, input.normalise, input.targetEmail))
  }

  // --------------------------------------------------------------- statements

  function FixtureAccount(existing: Option<Account>, workspaceId: Uuid, name: string, timezone: string,
                          mutationKey: Uuid, now: int): Account
  {
    match existing
    case Some(a) =>
      a.(name := name, accountMode := "live", baseCurrency := "USD", startingBalance := "10000.0000000000",
      timezone := timezone, isArchived := false, mutationKey := mutationKey, updatedAt := now)
    case None =>
      Account(workspaceId, name, "live", "USD", "10000.0000000000", timezone, false, mutationKey, "", now)
  }

  function Existing(accounts: map<Uuid, Account>, id: Uuid): Option<Account> {
    if id in accounts then Some(accounts[id]) else None
  }

  /** INSERT ... ON CONFLICT (id) DO UPDATE, under the unique (workspace_id, mutation_key). */
  function Upsert(accounts: map<Uuid, Account>, id: Uuid, row: Account): Option<map<Uuid, Account>> {
    if exists k | k in accounts ::
        k != id && accounts[k].workspaceId == row.workspaceId && accounts[k].mutationKey == row.mutationKey
    then None
    else Some(accounts[id := row])
  }

  function EmptyRow(accounts: map<Uuid, Account>, input: SeedInput, r: Resolution, now: int): Account {
    FixtureAccount(Existing(accounts, r.emptyId), input.workspaceId, EMPTY_NAME, input.timezone,
                   r.identities.emptyMutationKey, now)
  }

  function PopulatedRow(accounts: map<Uuid, Account>, input: SeedInput, r: Resolution, now: int): Account {
    FixtureAccount(Existing(accounts, r.populatedId), input.workspaceId, POPULATED_NAME, input.timezone,
                   r.identities.populatedMutationKey, now)
  }

  /** Both upserts, the empty account first. */
  function Claim(accounts: map<Uuid, Account>, input: SeedInput, r: Resolution, now: int)
    : Result<map<Uuid, Account>, Stop>
  {
    match Upsert(accounts, r.emptyId, EmptyRow(accounts, input, r, now))
    case None => Err(MutationKeyTaken)
    case Some(first) =>
      match Upsert(first, r.populatedId, PopulatedRow(first, input, r, now))
      case None => Err(MutationKeyTaken)
      case Some(second) => Ok(second)
  }

  predicate OwnTrade(trade: TradeRow, workspaceId: Uuid, r: Resolution) {
    trade.workspaceId == workspaceId && trade.tradingAccountId in {r.emptyId, r.populatedId}
  }

  function TradeIds(blueprints: seq<TradeBlueprint>): set<Uuid> {
    set i | 0 <= i < |blueprints| :: blueprints[i].id
  }

  function TradeKeys(blueprints: seq<TradeBlueprint>): set<Uuid> {
    set i | 0 <= i < |blueprints| :: blueprints[i].mutationKey
  }

  predicate ForeignTrade(s: State, w: Uuid, r: Resolution, blueprints: seq<TradeBlueprint>) {
    var ids, keys := TradeIds(blueprints), TradeKeys(blueprints);
    exists t | t in s.trades ::
      (t in ids || (s.trades[t].workspaceId == w && s.trades[t].mutationKey in keys)) && !OwnTrade(s.trades[t], w, r)
  }

  predicate ForeignExit(s: State, w: Uuid, r: Resolution, rows: seq<Row<Uuid, ExitRow>>) {
    exists x | x in s.exits ::
      && s.exits[x].tradeId in s.trades
      && (exists i | 0 <= i < |rows| ::
            rows[i].0 == x || (s.exits[x].workspaceId == w && s.exits[x].mutationKey == rows[i].1.mutationKey))
      && !OwnTrade(s.trades[s.exits[x].tradeId], w, r)
  }

  predicate ForeignCheck(s: State, w: Uuid, r: Resolution, rows: seq<Row<Uuid, CheckRow>>) {
    exists x | x in s.checks ::
      && s.checks[x].tradeId in s.trades
      && (exists i | 0 <= i < |rows| :: rows[i].0 == x)
      && !OwnTrade(s.trades[s.checks[x].tradeId], w, r)
  }

  /** The trades the delete statement selects, through the joined account row. */
  function Doomed(s: State, w: Uuid, r: Resolution): set<Uuid> {
    set t | t in s.trades
            && s.trades[t].workspaceId == w
            && s.trades[t].tradingAccountId in s.accounts
            && s.accounts[s.trades[t].tradingAccountId].workspaceId == w
            && s.trades[t].tradingAccountId in {r.emptyId, r.populatedId}
            && s.accounts[s.trades[t].tradingAccountId].mutationKey
               in {r.identities.emptyMutationKey, r.identities.populatedMutationKey}
  }

  /** The delete with its cascades. */
  function Cascade(s: State, doomed: set<Uuid>): State {
    s.(trades := map t | t in s.trades && t !in doomed :: s.trades[t],
       exits := map x | x in s.exits && s.exits[x].tradeId !in doomed :: s.exits[x],
       checks := map x | x in s.checks && s.checks[x].tradeId !in doomed :: s.checks[x],
       mistakes := map x | x in s.mistakes && x.0 !in doomed :: s.mistakes[x],
       emotions := map x | x in s.emotions && x.0 !in doomed :: s.emotions[x])
  }

  /** The trigger on condition snapshots forbids deleting any trade that has one. */
  predicate Protected(s: State, doomed: set<Uuid>) {
    exists x | x in s.snapshots :: s.snapshots[x] in doomed
  }

  // --------------------------------------------------------------------- rows

  function TradeRowsOf(w: Uuid): TradeBlueprint -> seq<Row<Uuid, TradeRow>> {
    (b: TradeBlueprint) => [(b.id, TradeRow(w, b.mutationKey, b.tradingAccountId, b.content))]
  }

  function ExitRowOf(w: Uuid, b: TradeBlueprint, i: nat): Row<Uuid, ExitRow>
    requires i < |b.exits|
  {
    var e := b.exits[i];
    (e.id, ExitRow(w, b.id, e.mutationKey, e.sequence, e.closedBps, e.realizedPnlMinor, e.exitReason, e.exitedAt))
  }

  function ExitRowsOf(w: Uuid): TradeBlueprint -> seq<Row<Uuid, ExitRow>> {
    (b: TradeBlueprint) => seq(|b.exits|, i requires 0 <= i < |b.exits| => ExitRowOf(w, b, i))
  }

  function RuleStatus(index: nat, ruleIndex: nat): string {
    var value := index + ruleIndex * 3;
    if value % 17 == 0 then "not_checked"
    else if value % 13 == 0 then "not_applicable"
    else if value % 9 == 0 then "violated"
    else "followed"
  }

  function CheckRowOf(input: SeedInput, b: TradeBlueprint, i: nat): Row<Uuid, CheckRow>
    requires i < |input.rules|
  {
    (RuleCheckId(input.digest, b.id, input.rules[i].ruleKey),
     CheckRow(input.workspaceId, b.id, input.rules[i], RuleStatus(b.fixtureIndex, i),
              b.content.createdAt, b.content.updatedAt))
  }

  function CheckRowsOf(input: SeedInput): TradeBlueprint -> seq<Row<Uuid, CheckRow>> {
    (b: TradeBlueprint) =>
      if b.content.strategyVersionId.None? then []
      else seq(|input.rules|, i requires 0 <= i < |input.rules| => CheckRowOf(input, b, i))
  }

  function MistakeNote(key: string): string {
    if key == "chased_entry" then "FOMO/chased entry context for visual review."
    else "Deterministic " + key + " review context."
  }

  function MistakeRowOf(input: SeedInput, b: TradeBlueprint, key: string): Row<(Uuid, Uuid), MistakeRow> {
    var t := if key in input.mistakeTypes then input.mistakeTypes[key] else MistakeType("", "", 0.0);
    ((b.id, t.id),
     MistakeRow(input.workspaceId, MistakeNote(key), t.severity, t.defaultWeight,
                b.content.updatedAt, b.content.updatedAt))
  }

  function MistakeRowsOf(input: SeedInput): TradeBlueprint -> seq<Row<(Uuid, Uuid), MistakeRow>> {
    (b: TradeBlueprint) =>
      seq(|b.mistakeKeys|, i requires 0 <= i < |b.mistakeKeys| => MistakeRowOf(input, b, b.mistakeKeys[i]))
  }

  function EmotionRowOf(input: SeedInput, b: TradeBlueprint, key: string): Row<(Uuid, Uuid), EmotionRow> {
    var id := if key in input.emotionTypes then input.emotionTypes[key] else "";
    ((b.id, id), EmotionRow(input.workspaceId, b.content.updatedAt))
  }

  function EmotionRowsOf(input: SeedInput): TradeBlueprint -> seq<Row<(Uuid, Uuid), EmotionRow>> {
    (b: TradeBlueprint) =>
      seq(|b.emotionKeys|, i requires 0 <= i < |b.emotionKeys| => EmotionRowOf(input, b, b.emotionKeys[i]))
  }

  /** Every row the transaction inserts. */
  datatype FixtureRows = FixtureRows(
    trades: seq<Row<Uuid, TradeRow>>,
    exits: seq<Row<Uuid, ExitRow>>,
    checks: seq<Row<Uuid, CheckRow>>,
    mistakes: seq<Row<(Uuid, Uuid), MistakeRow>>,
    emotions: seq<Row<(Uuid, Uuid), EmotionRow>>)

  function RowsFor(input: SeedInput, blueprints: seq<TradeBlueprint>): FixtureRows {
    FixtureRows(
      FlatMap(blueprints, TradeRowsOf(input.workspaceId)),
      FlatMap(blueprints, ExitRowsOf(input.workspaceId)),
      FlatMap(blueprints, CheckRowsOf(input)),
      FlatMap(blueprints, MistakeRowsOf(input)),
      FlatMap(blueprints, EmotionRowsOf(input)))
  }

  // ------------------------------------------------------------- transaction

  predicate Foreign(s: State, w: Uuid, r: Resolution, blueprints: seq<TradeBlueprint>, rows: FixtureRows) {
    ForeignTrade(s, w, r, blueprints) || ForeignExit(s, w, r, rows.exits) || ForeignCheck(s, w, r, rows.checks)
  }

  /** The collision guards, then the delete. */
  function Clear(s: State, w: Uuid, r: Resolution, blueprints: seq<TradeBlueprint>, rows: FixtureRows)
    : Result<State, Stop>
  {
    if Foreign(s, w, r, blueprints, rows) then Err(ForeignCollision)
    else if Protected(s, Doomed(s, w, r)) then Err(ProtectedSnapshot)
    else Ok(Cascade(s, Doomed(s, w, r)))
  }

  /** The five inserts, in order. */
  function Rebuild(s: State, rows: FixtureRows): Option<State> {
    var trades :- InsertRows(s.trades, rows.trades, TradeUnique, TradeValidator(s.accounts));
    var exits :- InsertRows(s.exits, rows.exits, ExitUnique, ExitValidator(trades));
    var checks :- InsertRows(s.checks, rows.checks, CheckUnique, CheckValidator(trades));
    var mistakes :- InsertRows(s.mistakes, rows.mistakes, MistakeUnique, MistakeValidator(trades));
    var emotions :- InsertRows(s.emotions, rows.emotions, EmotionUnique, EmotionValidator(trades));
    Some(s.(trades := trades, exits := exits, checks := checks, mistakes := mistakes, emotions := emotions))
  }

  function TradesUnder(s: State, accountId: Uuid): set<Uuid> {
    set t | t in s.trades && s.trades[t].tradingAccountId == accountId
  }

  /** The fingerprint of the workspace's other accounts. */
  function Unrelated(s: State, w: Uuid, r: Resolution): map<Uuid, (string, int, nat)> {
    map a | a in s.accounts && s.accounts[a].workspaceId == w && a !in {r.emptyId, r.populatedId}
      :: (s.accounts[a].name, s.accounts[a].updatedAt, |TradesUnder(s, a)|)
  }

  /** From the claimed accounts to the commit, with the two fingerprint checks. */
  function Finish(s: State, accounts: map<Uuid, Account>, w: Uuid, r: Resolution,
                  blueprints: seq<TradeBlueprint>, rows: FixtureRows): Result<State, Stop>
  {
    var cleared :- Clear(s.(accounts := accounts), w, r, blueprints, rows);
    match Rebuild(cleared, rows)
    case None => Err(ConstraintViolated)
    case Some(rebuilt) =>
      if Unrelated(rebuilt, w, r) != Unrelated(s, w, r) then Err(UnrelatedChanged)
      else if rebuilt.journal != s.journal then Err(JournalChanged)
      else Ok(rebuilt)
  }

  function FixtureBlueprints(input: SeedInput, r: Resolution): seq<TradeBlueprint>
    requires |input.framework.setups| == 3
  {
    Blueprints(input.digest, r.populatedId, input.framework)
  }

  /** The whole transaction: the committed state, or the reason it rolls back. */
  ghost function Transaction(s: State, input: SeedInput, now: int): Result<State, Stop>
    requires |input.framework.setups| == 3
  {
    var r :- Resolve(s, input);
    var accounts :- Claim(s.accounts, input, r, now);
    var blueprints := FixtureBlueprints(input, r);
    Finish(s, accounts, input.workspaceId, r, blueprints, RowsFor(input, blueprints))
  }
}
