/**
 The 70 trades of the populated fixture account, and the parts of the trades schema
 they have to satisfy. Price-mode columns are null on every fixture row and are not modelled.
 */
module Blueprint {
  import opened Wrappers
  import opened Identity
  import opened Calendar
  import opened ExitLegs
  import opened FixtureTables
  import JsonNamespace

  datatype Setup = Setup(id: Uuid, versionId: Uuid, name: string)

  datatype Framework = Framework(strategyId: Uuid, strategyVersionId: Uuid, setups: seq<Setup>)

  datatype Population = A | B | C | Operational

  datatype Status = Planned | Open | Closed | Canceled

  datatype SystemStatus = Pending | Resolved | NoTrade

  datatype ResolutionKind = MoneyTarget | MoneyStop | MoneyBreakEven | MoneyCustom

  datatype SystemExitReason = TargetHit | StopHit | BreakEvenRule | ManualSystemValidExit | SetupInvalidated

  datatype ResultMode = Price | Money

  datatype TradeContent = TradeContent(
    strategyId: Option<Uuid>,
    strategyVersionId: Option<Uuid>,
    setupId: Option<Uuid>,
    setupVersionId: Option<Uuid>,
    strategyAssignedAt: Option<int>,
    setupAssignedAt: Option<int>,
    symbol: string,
    long: bool,
    timeframe: string,
    session: string,
    confirmationNotes: string,
    confidence: int,
    notes: string,
    reviewNotes: Option<string>,
    emotionsRecordedAt: Option<int>,
    plannedRiskMinor: int,
    plannedRewardMinor: int,
    plannedR: real,
    actualResultMode: Option<ResultMode>,
    actualInitialRiskMinor: Option<int>,
    grossPnlMinor: Option<int>,
    commissionMinor: int,
    feesMinor: int,
    swapMinor: int,
    netPnlMinor: Option<int>,
    enteredAt: Option<int>,
    exitedAt: Option<int>,
    systemStatus: SystemStatus,
    systemResolutionKind: Option<ResolutionKind>,
    systemGrossRInput: Option<real>,
    systemExitedAt: Option<int>,
    systemExitReason: Option<SystemExitReason>,
    systemCostR: real,
    systemResolvedAt: Option<int>,
    actualR: Option<real>,
    systemR: Option<real>,
    traderOutcome: Option<Outcome>,
    systemOutcome: Option<Outcome>,
    calcVersion: int,
    status: Status,
    followedPlan: Option<bool>,
    createdAt: int,
    updatedAt: int)

  datatype TradeBlueprint = TradeBlueprint(
    fixtureIndex: nat,
    id: Uuid,
    mutationKey: Uuid,
    population: Population,
    tradingAccountId: Uuid,
    content: TradeContent,
    exits: seq<ExitBlueprint>,
    emotionKeys: seq<string>,
    mistakeKeys: seq<string>)

  // -------------------------------------------------------------- generation

  const SYSTEM_COST_R: real := 0.05

  datatype SystemSnapshot = SystemSnapshot(grossR: real, systemR: real, outcome: Outcome)

  /** systemSnapshot, through resolveSystemR's money_custom branch. */
  function SystemSnapshotOf(targetR: real): Result<SystemSnapshot, CalcError> {
    var grossR := CanonicalR(targetR + SYSTEM_COST_R);
    if grossR <= -100_000_000.0 || 100_000_000.0 <= grossR then Err(InvalidDecimal)
    else
      var systemR := CanonicalR(CanonicalR(grossR) - SYSTEM_COST_R);
      Ok(SystemSnapshot(grossR, systemR, ClassifyOutcome(systemR)))
  }

  function PopulationOf(index: nat): Population {
    if index < 64 then C else if index < 66 then A else if index < 68 then B else Operational
  }

  function ActualTargetR(index: nat): Option<real>
    requires index < TRADE_COUNT
  {
    if index < 66 then Some(ActualTargets()[index]) else None
  }

  function SystemTargetR(index: nat): Option<real>
    requires index < TRADE_COUNT
  {
    if index < 64 then Some(SystemComparable()[index])
    else if index < 66 then None
    else Some(SYSTEM_ONLY[index - 66])
  }

  function EmotionKeys(index: nat): seq<string> {
    if index % 17 == 0 then ["revenge"]
    else if index % 13 == 0 then ["fomo"]
    else if index % 7 == 0 then ["fearful"]
    else if index % 3 == 0 then ["calm", "focused"]
    else if index % 4 == 0 then []
    else ["focused"]
  }

  function MistakeKeys(index: nat): seq<string> {
    if index == 14 || index == 51 then ["chased_entry"]
    else if index == 36 then ["revenge_trade"]
    else if index in {7, 23, 40, 58} then ["early_exit"]
    else []
  }

  function Symbol(index: nat): string {
    ["XAUUSD", "BTCUSD", "EURUSD"][index % 3]
  }

  function Timeframe(index: nat): string {
    ["15m", "1H", "4H"][index % 3]
  }

  function Session(index: nat): string {
    ["Asia", "London", "New York"][index % 3]
  }

  function ConfirmationNotes(index: nat): string {
    var digits := JsonNamespace.Digits(index + 1);
    "Deterministic visual fixture #" + (if |digits| < 2 then "0" else "") + digits + ": "
    + Session(index) + " " + Timeframe(index) + " confirmation."
  }

  function ReviewNotes(index: nat): Option<string>
    requires index < TRADE_COUNT
  {
    if ActualTargetR(index).None? || index == 65 then None
    else if index % 11 == 0 then
      Some("Exited early after hesitation; review confirms the original system target remained valid.")
    else if index % 9 == 0 then
      Some("FOMO was present, but risk stayed defined and the post-trade review is complete.")
    else Some("Reviewed against the plan; execution notes and outcome are complete.")
  }

  function Max(a: int, b: int): int {
    if a < b then b else a
  }

  function CreatedAt(index: nat): int {
    DateForIndex(index, 6, index % 4)
  }

  function EnteredAt(index: nat): Option<int> {
    if PopulationOf(index).B? then None else Some(DateForIndex(index, 8, index % 4 * 10))
  }

  function ExitedAt(index: nat): Option<int>
    requires index < TRADE_COUNT
  {
    if ActualTargetR(index).None? then None else Some(DateForIndex(index, 12, index % 4 * 10))
  }

  function SystemExitedAt(index: nat): Option<int>
    requires index < TRADE_COUNT
  {
    if SystemTargetR(index).None? then None else Some(DateForIndex(index, 13, index % 4 * 10))
  }

  function UpdatedAt(index: nat): int
    requires index < TRADE_COUNT
  {
    Max(CreatedAt(index),
        Max(EnteredAt(index).GetOr(0), Max(ExitedAt(index).GetOr(0), SystemExitedAt(index).GetOr(0))))
    + 60 * MINUTE
  }

  function Exits(digest: Digest, accountId: Uuid, index: nat): seq<ExitBlueprint>
    requires index < TRADE_COUNT
  {
    match ActualTargetR(index)
    case None => []
    case Some(r) => ExitBlueprints(digest, TradeId(digest, accountId, index), index, r, ExitedAt(index).value)
  }

  /** One iteration of buildVisualTradeBlueprints; an Err is a thrown requireCalc. */
  function BlueprintOf(digest: Digest, accountId: Uuid, framework: Framework, index: nat)
    : (r: Result<TradeBlueprint, CalcError>)
    requires index < TRADE_COUNT && 3 <= |framework.setups|
  {
    var exits := Exits(digest, accountId, index);
    var close :- if ActualTargetR(index).None? then Ok(None)
                 else match TraderCloseOf(RISK_MINOR, exits) { case Ok(c) => Ok(Some(c)) case Err(e) => Err(e) };
    var system :- match SystemTargetR(index)
                  case None => Ok(None)
                  case Some(r) =>
                    match SystemSnapshotOf(r) { case Ok(s) => Ok(Some(s)) case Err(e) => Err(e) };
    Ok(TradeBlueprint(
      index,
      TradeId(digest, accountId, index),
      TradeMutationKey(digest, accountId, index),
      PopulationOf(index),
      accountId,
      ContentOf(framework, index, exits, close, system),
      exits,
      EmotionKeys(index),
      MistakeKeys(index)))
  }

  function ContentOf(framework: Framework, index: nat, exits: seq<ExitBlueprint>,
                     close: Option<TraderClose>, system: Option<SystemSnapshot>): TradeContent
    requires index < TRADE_COUNT && 3 <= |framework.setups|
  {
    var isClassified := !PopulationOf(index).B?;
    var setup := framework.setups[index % 3];
    var commission := if close.None? then 0 else 75;
    var fees := if close.None? then 0 else 25;
    var swap := if close.None? || index % 3 != 0 then 0 else 25;
    TradeContent(
      strategyId := if isClassified then Some(framework.strategyId) else None,
      strategyVersionId := if isClassified then Some(framework.strategyVersionId) else None,
      setupId := if isClassified then Some(setup.id) else None,
      setupVersionId := if isClassified then Some(setup.versionId) else None,
      strategyAssignedAt := if isClassified then Some(CreatedAt(index)) else None,
      setupAssignedAt := if isClassified then Some(CreatedAt(index)) else None,
      symbol := Symbol(index),
      long := index % 2 == 0,
      timeframe := Timeframe(index),
      session := Session(index),
      confirmationNotes := ConfirmationNotes(index),
      confidence := [50, 75, 100, 75, 25][index % 5],
      notes := if index % 8 == 0 then "Execution deliberately includes a small visual-fixture imperfection."
               else "Canonical visual fixture trade.",
      reviewNotes := ReviewNotes(index),
      emotionsRecordedAt := if close.None? then None else Some(UpdatedAt(index)),
      plannedRiskMinor := RISK_MINOR,
      plannedRewardMinor := 22_000,
      plannedR := CanonicalR(22_000.0 / 10_000.0),
      actualResultMode := if PopulationOf(index).B? then None else Some(Money),
      actualInitialRiskMinor := if PopulationOf(index).B? then None else Some(RISK_MINOR),
      grossPnlMinor := if close.None? then None else Some(SumPnl(exits) + commission + fees + swap),
      commissionMinor := commission,
      feesMinor := fees,
      swapMinor := swap,
      netPnlMinor := if close.None? then None else Some(SumPnl(exits)),
      enteredAt := EnteredAt(index),
      exitedAt := ExitedAt(index),
      systemStatus := if system.None? then Pending else Resolved,
      systemResolutionKind := if system.None? then None else Some(MoneyCustom),
      systemGrossRInput := if system.None? then None else Some(system.value.grossR),
      systemExitedAt := SystemExitedAt(index),
      systemExitReason := if system.None? then None else Some(ManualSystemValidExit),
      systemCostR := if system.None? then 0.0 else SYSTEM_COST_R,
      systemResolvedAt := match SystemExitedAt(index) { case None => None case Some(t) => Some(t + 30 * MINUTE) },
      actualR := if close.None? then None else Some(close.value.actualR),
      systemR := if system.None? then None else Some(system.value.systemR),
      traderOutcome := if close.None? then None else Some(close.value.traderOutcome),
      systemOutcome := if system.None? then None else Some(system.value.outcome),
      calcVersion := 1,
      status := if PopulationOf(index).B? then Planned else if PopulationOf(index).Operational? then Open else Closed,
      followedPlan := if close.None? then None else Some(index % 8 != 0),
      createdAt := CreatedAt(index),
      updatedAt := UpdatedAt(index))
  }

  // ------------------------------------------------------------------ schema

  /** trades_status_consistency_check, for rows without price-mode columns. */
  predicate StatusConsistent(c: TradeContent) {
    match c.status
    case Planned =>
      && c.actualResultMode.None? && c.actualInitialRiskMinor.None? && c.enteredAt.None? && c.netPnlMinor.None?
      && c.exitedAt.None? && c.actualR.None? && c.traderOutcome.None?
    case Open =>
      && c.actualResultMode == Some(Money) && c.enteredAt.Some? && c.netPnlMinor.None? && c.exitedAt.None?
      && c.actualR.None? && c.traderOutcome.None? && c.actualInitialRiskMinor.Some?
    case Closed =>
      && c.actualResultMode == Some(Money) && c.enteredAt.Some? && c.exitedAt.Some? && c.actualR.Some?
      && c.traderOutcome.Some? && c.actualInitialRiskMinor.Some? && c.netPnlMinor.Some?
    case Canceled => true
  }

  /** trades_system_status_consistency_check, for rows without price-mode columns. */
  predicate SystemStatusConsistent(c: TradeContent) {
    match c.systemStatus
    case Pending =>
      && c.systemCostR == 0.0 && c.systemResolutionKind.None? && c.systemGrossRInput.None? && c.systemExitedAt.None?
      && c.systemExitReason.None? && c.systemResolvedAt.None? && c.systemR.None? && c.systemOutcome.None?
    case Resolved =>
      && 0.0 <= c.systemCostR && c.systemExitedAt.Some? && c.systemResolvedAt.Some? && c.systemR.Some?
      && c.systemOutcome.Some? && c.systemGrossRInput.Some?
      && (match c.systemResolutionKind
          case Some(MoneyTarget) => c.systemGrossRInput == Some(c.plannedR) && c.systemExitReason == Some(TargetHit)
          case Some(MoneyStop) => c.systemGrossRInput == Some(-1.0) && c.systemExitReason == Some(StopHit)
          case Some(MoneyBreakEven) => c.systemGrossRInput == Some(0.0) && c.systemExitReason == Some(BreakEvenRule)
          case Some(MoneyCustom) => c.systemExitReason == Some(ManualSystemValidExit)
          case None => false)
    case NoTrade =>
      && c.systemCostR == 0.0 && c.systemResolutionKind.None? && c.systemGrossRInput.None? && c.systemExitedAt.None?
      && c.systemExitReason == Some(SetupInvalidated) && c.systemResolvedAt.Some? && c.systemR.None?
      && c.systemOutcome.None?
  }

  /** The remaining single-row checks of the trades table. */
  predicate ColumnsInRange(c: TradeContent) {
    && (c.strategyId.None? <==> c.strategyVersionId.None?)
    && (c.setupId.None? <==> c.setupVersionId.None?)
    && (c.setupId.Some? ==> c.strategyId.Some?)
    && (c.exitedAt.Some? && c.enteredAt.Some? ==> c.enteredAt.value <= c.exitedAt.value)
    && 0 < c.plannedRiskMinor && 0 <= c.plannedRewardMinor
    && (c.actualInitialRiskMinor.Some? ==> 0 < c.actualInitialRiskMinor.value)
    && 0 <= c.commissionMinor && 0 <= c.feesMinor && 0 <= c.swapMinor
    && 0.0 <= c.systemCostR && 0 < c.calcVersion
    && c.confidence in {0, 25, 50, 75, 100}
  }

  predicate SatisfiesTradeChecks(c: TradeContent) {
    StatusConsistent(c) && SystemStatusConsistent(c) && ColumnsInRange(c)
  }

  /** trade_exits_guard on each leg in turn, and trade_execution_consistency_deferred at commit. */
  predicate SatisfiesExitTriggers(c: TradeContent, exits: seq<ExitBlueprint>) {
    && (forall i | 0 <= i < |exits| ::
          && c.enteredAt.Some? && c.enteredAt.value <= exits[i].exitedAt
          && c.actualResultMode == Some(Money)
          && 0 < exits[i].sequence && exits[i].exitReason != "")
    && LegsAccepted(exits)
    && (match c.status
        case Open => SumBps(exits) < 10_000
        case Closed => SumBps(exits) == 10_000
        case Planned => SumBps(exits) == 0
        case Canceled => SumBps(exits) == 0)
  }

  // ----------------------------------------------------------------- results

  /**
   The calculator accepts a target exactly when its gross R has at most eight digits before the point;
   an accepted snapshot gives its target back exactly when the target has at most four decimals.
   */
  lemma SystemSnapshotGivesBackTarget(r: real)
    ensures SystemSnapshotOf(r).Ok? <==> -100_000_000.0 < CanonicalR(r + SYSTEM_COST_R) < 100_000_000.0
    ensures SystemSnapshotOf(r).Ok? ==> (SystemSnapshotOf(r).value.systemR == r <==> AtMostFourDecimals(r))
    ensures SystemSnapshotOf(r).Ok? ==>
              SystemSnapshotOf(r).value.outcome == ClassifyOutcome(SystemSnapshotOf(r).value.systemR)
  {
    var n := RoundHalfUp((r + SYSTEM_COST_R) * 10_000.0);
    hide RoundHalfUp;
    TenThousandthsAreCanonical(n);
    TenThousandthsAreCanonical(n - 500);
    assert n as real / 10_000.0 - SYSTEM_COST_R == (n - 500) as real / 10_000.0;
    if AtMostFourDecimals(r) {
      var m := FourDecimalsAreTenThousandths(r);
      assert r + SYSTEM_COST_R == (m + 500) as real / 10_000.0;
      TenThousandthsAreCanonical(m + 500);
    }
  }

  lemma FixtureTargets(index: nat)
    requires index < TRADE_COUNT
    ensures ActualTargetR(index).Some? ==>
              -2.0 < ActualTargetR(index).value < 3.0 && AtMostFourDecimals(ActualTargetR(index).value)
    ensures SystemTargetR(index).Some? ==>
              -2.0 < SystemTargetR(index).value < 3.0 && AtMostFourDecimals(SystemTargetR(index).value)
  {
    TableValues();
    hide ActualTargets, SystemComparable;
    if ActualTargetR(index).Some? {
      assert ActualTargetR(index).value in ActualTargets();
    }
    if index < 64 {
      assert SystemTargetR(index).value in SystemComparable();
    }
  }

  /** The close and the system snapshot every index ends up with: the R values are the tabulated targets. */
  function CloseAt(index: nat): (close: Option<TraderClose>)
    requires index < TRADE_COUNT
    ensures close.Some? <==> ActualTargetR(index).Some?
  {
    match ActualTargetR(index)
    case None => None
    case Some(r) => Some(TraderClose(r, ClassifyOutcome(r)))
  }

  function SystemAt(index: nat): (system: Option<SystemSnapshot>)
    requires index < TRADE_COUNT
    ensures system.Some? <==> SystemTargetR(index).Some?
  {
    match SystemTargetR(index)
    case None => None
    case Some(r) => Some(SystemSnapshot(CanonicalR(r + SYSTEM_COST_R), r, ClassifyOutcome(r)))
  }

  function BlueprintAt(digest: Digest, accountId: Uuid, framework: Framework, index: nat): TradeBlueprint
    requires index < TRADE_COUNT && 3 <= |framework.setups|
  {
    var exits := Exits(digest, accountId, index);
    TradeBlueprint(
      index,
      TradeId(digest, accountId, index),
      TradeMutationKey(digest, accountId, index),
      PopulationOf(index),
      accountId,
      ContentOf(framework, index, exits, CloseAt(index), SystemAt(index)),
      exits,
      EmotionKeys(index),
      MistakeKeys(index))
  }

  lemma CloseNeverThrows(digest: Digest, accountId: Uuid, index: nat)
    requires index < TRADE_COUNT && ActualTargetR(index).Some?
    ensures TraderCloseOf(RISK_MINOR, Exits(digest, accountId, index)) == Ok(CloseAt(index).value)
  {
    FixtureTargets(index);
    hide ActualTargetR, DateForIndex;
    CloseGivesBackR(digest, TradeId(digest, accountId, index), index, ActualTargetR(index).value, ExitedAt(index).value);
    hide ExitBlueprints, TraderCloseOf;
  }

  lemma SystemNeverThrows(index: nat)
    requires index < TRADE_COUNT && SystemTargetR(index).Some?
    ensures SystemSnapshotOf(SystemTargetR(index).value) == Ok(SystemAt(index).value)
  {
    FixtureTargets(index);
    hide SystemTargetR;
    CanonicalExactly(SystemTargetR(index).value + SYSTEM_COST_R);
    SystemSnapshotGivesBackTarget(SystemTargetR(index).value);
    hide CanonicalR;
  }

  /** No requireCalc ever throws: the calculators give back exactly the R the tables ask for. */
  lemma BlueprintNeverThrows(digest: Digest, accountId: Uuid, framework: Framework, index: nat)
    requires index < TRADE_COUNT && 3 <= |framework.setups|
    ensures BlueprintOf(digest, accountId, framework, index) == Ok(BlueprintAt(digest, accountId, framework, index))
  {
    hide ContentOf, EmotionKeys, MistakeKeys, TradeId, TradeMutationKey, PopulationOf, Exits, TraderCloseOf;
    hide SystemSnapshotOf, ActualTargetR, SystemTargetR;
    if ActualTargetR(index).Some? {
      CloseNeverThrows(digest, accountId, index);
    }
    if SystemTargetR(index).Some? {
      SystemNeverThrows(index);
    }
  }

  lemma StatusHolds(framework: Framework, index: nat, exits: seq<ExitBlueprint>,
                    close: Option<TraderClose>, system: Option<SystemSnapshot>)
    requires index < TRADE_COUNT && 3 <= |framework.setups|
    requires close.Some? <==> ActualTargetR(index).Some?
    ensures StatusConsistent(ContentOf(framework, index, exits, close, system))
  {
    hide ConfirmationNotes, ReviewNotes, Symbol, Timeframe, Session, UpdatedAt, CreatedAt, SystemExitedAt;
    hide ActualTargets, SystemTargetR, SumPnl, CanonicalR, DateForIndex;
  }

  lemma SystemStatusHolds(framework: Framework, index: nat, exits: seq<ExitBlueprint>,
                          close: Option<TraderClose>, system: Option<SystemSnapshot>)
    requires index < TRADE_COUNT && 3 <= |framework.setups|
    requires system.Some? <==> SystemTargetR(index).Some?
    ensures SystemStatusConsistent(ContentOf(framework, index, exits, close, system))
  {
    hide ConfirmationNotes, ReviewNotes, Symbol, Timeframe, Session, UpdatedAt, CreatedAt, EnteredAt, ExitedAt;
    hide ActualTargetR, SystemTargetR, SumPnl, CanonicalR, DateForIndex, PopulationOf;
  }

  lemma ColumnsHold(framework: Framework, index: nat, exits: seq<ExitBlueprint>,
                    close: Option<TraderClose>, system: Option<SystemSnapshot>)
    requires index < TRADE_COUNT && 3 <= |framework.setups|
    ensures ColumnsInRange(ContentOf(framework, index, exits, close, system))
  {
    hide ConfirmationNotes, ReviewNotes, Symbol, Timeframe, Session, UpdatedAt, CreatedAt, EnteredAt, ExitedAt;
    hide ActualTargetR, SystemTargetR, SystemExitedAt, SumPnl, CanonicalR, PopulationOf;
    TimesOfDay(index);
  }

  lemma ContentSatisfiesChecks(framework: Framework, index: nat, exits: seq<ExitBlueprint>,
                               close: Option<TraderClose>, system: Option<SystemSnapshot>)
    requires index < TRADE_COUNT && 3 <= |framework.setups|
    requires close.Some? <==> ActualTargetR(index).Some?
    requires system.Some? <==> SystemTargetR(index).Some?
    ensures SatisfiesTradeChecks(ContentOf(framework, index, exits, close, system))
  {
    hide StatusConsistent, SystemStatusConsistent, ColumnsInRange, ContentOf, ActualTargetR, SystemTargetR;
    StatusHolds(framework, index, exits, close, system);
    SystemStatusHolds(framework, index, exits, close, system);
    ColumnsHold(framework, index, exits, close, system);
  }

  lemma ExitsSatisfyTriggers(digest: Digest, accountId: Uuid, index: nat)
    requires index < TRADE_COUNT
    ensures var exits := Exits(digest, accountId, index);
            && (forall i | 0 <= i < |exits| ::
                  && EnteredAt(index).Some? && EnteredAt(index).value <= exits[i].exitedAt
                  && 0 < exits[i].sequence && exits[i].exitReason != "")
            && LegsAccepted(exits)
            && SumBps(exits) == if ActualTargetR(index).Some? then 10_000 else 0
  {
    hide *;
    ExitsAre(digest, accountId, index);
    if ActualTargetR(index).Some? {
      EnteredBeforeExit(index);
      var tradeId, r, t := TradeId(digest, accountId, index), ActualTargetR(index).value, ExitedAt(index).value;
      TimesOfDay(index);
      LegsConserve(digest, tradeId, index, r, t);
      LegTimeline(digest, tradeId, index, r, t);
      LegReasons(digest, tradeId, index, r, t);
      EarliestLeg(ExitBlueprints(digest, tradeId, index, r, t), t);
    } else {
      NoLegs();
    }
  }

  lemma ExitsAre(digest: Digest, accountId: Uuid, index: nat)
    requires index < TRADE_COUNT
    ensures ActualTargetR(index).None? ==> Exits(digest, accountId, index) == []
    ensures ActualTargetR(index).Some? ==>
              Exits(digest, accountId, index)
              == ExitBlueprints(digest, TradeId(digest, accountId, index), index,
                                ActualTargetR(index).value, ExitedAt(index).value)
  {
    hide ActualTargetR, ExitedAt, TradeId, ExitBlueprints;
  }

  lemma EnteredBeforeExit(index: nat)
    requires index < TRADE_COUNT && ActualTargetR(index).Some?
    ensures EnteredAt(index).Some? && ExitedAt(index).Some?
  {
    hide ActualTargets, DateForIndex;
  }

  lemma NoLegs()
    ensures LegsAccepted([]) && SumBps([]) == 0
  {
  }

  lemma EarliestLeg(legs: seq<ExitBlueprint>, finalAt: int)
    requires 1 <= |legs| <= 3
    requires forall i | 0 <= i < |legs| - 1 :: legs[i + 1].exitedAt == legs[i].exitedAt + 45 * MINUTE
    requires legs[|legs| - 1].exitedAt == finalAt
    ensures forall i | 0 <= i < |legs| :: finalAt - 90 * MINUTE <= legs[i].exitedAt <= finalAt
  {
    assert 2 <= |legs| ==> legs[0 + 1].exitedAt == legs[0].exitedAt + 45 * MINUTE;
    assert 3 <= |legs| ==> legs[1 + 1].exitedAt == legs[1].exitedAt + 45 * MINUTE;
  }

  /** Every fixture row satisfies the checks and triggers that guard its insertion. */
  lemma BlueprintSatisfiesSchema(digest: Digest, accountId: Uuid, framework: Framework, index: nat)
    requires index < TRADE_COUNT && 3 <= |framework.setups|
    ensures var b := BlueprintAt(digest, accountId, framework, index);
            SatisfiesTradeChecks(b.content) && SatisfiesExitTriggers(b.content, b.exits)
  {
    hide EmotionKeys, MistakeKeys, TradeId, TradeMutationKey, ActualTargets, SystemComparable, LegsAccepted, SumBps;
    hide ConfirmationNotes, ReviewNotes, Symbol, Timeframe, Session, UpdatedAt, CreatedAt, SumPnl, Exits;
    hide StatusConsistent, SystemStatusConsistent, ColumnsInRange, CanonicalR, DateForIndex;
    ContentSatisfiesChecks(framework, index, Exits(digest, accountId, index), CloseAt(index), SystemAt(index));
    ExitsSatisfyTriggers(digest, accountId, index);
  }

  lemma LegReasons(digest: Digest, tradeId: Uuid, index: nat, r: real, t: int)
    ensures forall i | 0 <= i < |ExitBlueprints(digest, tradeId, index, r, t)| ::
              ExitBlueprints(digest, tradeId, index, r, t)[i].exitReason != ""
  {
    hide ExitId, ExitMutationKey, RoundHalfUp, TruncatingDiv;
  }

  /** The clock of one trade, in minutes after its own midnight. */
  lemma TimesOfDay(index: nat)
    requires index < TRADE_COUNT
    ensures CreatedAt(index) == Day(index) * DAY + (360 + index % 4) * MINUTE
    ensures EnteredAt(index).Some? ==> EnteredAt(index).value == Day(index) * DAY + (480 + index % 4 * 10) * MINUTE
    ensures ExitedAt(index).Some? ==> ExitedAt(index).value == Day(index) * DAY + (720 + index % 4 * 10) * MINUTE
    ensures SystemExitedAt(index).Some? ==> SystemExitedAt(index).value == Day(index) * DAY + (780 + index % 4 * 10) * MINUTE
    ensures 0 < Day(index)
  {
    hide ActualTargets, SystemComparable;
    SpreadWindow(DayIndex(index), TRADE_COUNT);
    hide DaysAgo;
  }

  /**
   created < entered < legs in 45-minute steps < system exit < system resolution < updated,
   wherever the dates exist; the legs end at the exit.
   */
  lemma TimelineOrdered(digest: Digest, accountId: Uuid, framework: Framework, index: nat)
    requires index < TRADE_COUNT && 3 <= |framework.setups|
    ensures var b := BlueprintAt(digest, accountId, framework, index);
            var c := b.content;
            && (c.enteredAt.Some? ==> c.createdAt < c.enteredAt.value)
            && (b.exits != [] <==> c.exitedAt.Some?)
            && (b.exits != [] ==> c.enteredAt.Some? && c.enteredAt.value < b.exits[0].exitedAt)
            && (forall i | 0 <= i < |b.exits| - 1 :: b.exits[i + 1].exitedAt == b.exits[i].exitedAt + 45 * MINUTE)
            && (b.exits != [] ==> b.exits[|b.exits| - 1].exitedAt == c.exitedAt.value)
            && (c.exitedAt.Some? && c.systemExitedAt.Some? ==> c.exitedAt.value < c.systemExitedAt.value)
            && (c.enteredAt.Some? && c.systemExitedAt.Some? ==> c.enteredAt.value < c.systemExitedAt.value)
            && (c.systemExitedAt.Some? <==> c.systemResolvedAt.Some?)
            && (c.systemExitedAt.Some? ==> c.systemExitedAt.value < c.systemResolvedAt.value < c.updatedAt)
            && (c.exitedAt.Some? ==> c.exitedAt.value < c.updatedAt)
            && c.createdAt < c.updatedAt
  {
    hide ContentOf, Exits, CloseAt, SystemAt, EmotionKeys, MistakeKeys, PopulationOf, TradeId, TradeMutationKey;
    hide CreatedAt, EnteredAt, ExitedAt, SystemExitedAt, UpdatedAt, ActualTargetR, ExitBlueprints;
    var exits := Exits(digest, accountId, index);
    ContentTimes(framework, index, exits, CloseAt(index), SystemAt(index));
    ClockOrdered(index);
    ExitsAre(digest, accountId, index);
    if ActualTargetR(index).Some? {
      LegTimeline(digest, TradeId(digest, accountId, index), index, ActualTargetR(index).value, ExitedAt(index).value);
    }
  }

  lemma ContentTimes(framework: Framework, index: nat, exits: seq<ExitBlueprint>,
                     close: Option<TraderClose>, system: Option<SystemSnapshot>)
    requires index < TRADE_COUNT && 3 <= |framework.setups|
    ensures var c := ContentOf(framework, index, exits, close, system);
            && c.createdAt == CreatedAt(index) && c.enteredAt == EnteredAt(index) && c.exitedAt == ExitedAt(index)
            && c.systemExitedAt == SystemExitedAt(index) && c.updatedAt == UpdatedAt(index)
            && (c.systemResolvedAt.Some? <==> c.systemExitedAt.Some?)
            && (c.systemResolvedAt.Some? ==> c.systemResolvedAt.value == c.systemExitedAt.value + 30 * MINUTE)
  {
    hide ConfirmationNotes, ReviewNotes, Symbol, Timeframe, Session, CreatedAt, EnteredAt, ExitedAt, SystemExitedAt;
    hide UpdatedAt, CanonicalR, SumPnl, PopulationOf;
  }

  lemma ClockOrdered(index: nat)
    requires index < TRADE_COUNT
    ensures EnteredAt(index).Some? ==> CreatedAt(index) < EnteredAt(index).value
    ensures ExitedAt(index).Some? <==> ActualTargetR(index).Some?
    ensures ExitedAt(index).Some? ==>
              EnteredAt(index).Some? && EnteredAt(index).value < ExitedAt(index).value - 90 * MINUTE
    ensures ExitedAt(index).Some? && SystemExitedAt(index).Some? ==> ExitedAt(index).value < SystemExitedAt(index).value
    ensures EnteredAt(index).Some? && SystemExitedAt(index).Some? ==> EnteredAt(index).value < SystemExitedAt(index).value
    ensures SystemExitedAt(index).Some? ==> SystemExitedAt(index).value + 30 * MINUTE < UpdatedAt(index)
    ensures ExitedAt(index).Some? ==> ExitedAt(index).value < UpdatedAt(index)
    ensures CreatedAt(index) < UpdatedAt(index)
  {
    hide ActualTargets, SystemComparable;
    TimesOfDay(index);
    hide DateForIndex;
  }

  /** What a closed trade grossed, less its costs, is what its legs realised: R times the risk, exactly. */
  lemma MoneyConserved(digest: Digest, accountId: Uuid, framework: Framework, index: nat)
    requires index < TRADE_COUNT && 3 <= |framework.setups|
    ensures var b := BlueprintAt(digest, accountId, framework, index);
            var c := b.content;
            && (c.grossPnlMinor.Some? <==> index < 66)
            && (c.netPnlMinor.Some? <==> index < 66)
            && (index < 66 ==>
                  && c.grossPnlMinor.value - c.commissionMinor - c.feesMinor - c.swapMinor == SumPnl(b.exits)
                  && c.netPnlMinor.value == SumPnl(b.exits)
                  && c.actualR == ActualTargetR(index)
                  && SumPnl(b.exits) as real == ActualTargetR(index).value * RISK_MINOR as real)
  {
    hide ConfirmationNotes, ReviewNotes, Symbol, Timeframe, Session, EmotionKeys, MistakeKeys, UpdatedAt, CreatedAt;
    hide TradeId, TradeMutationKey, ActualTargets, SystemComparable, SumPnl, CanonicalR;
    if index < 66 {
      RealisedPnl(digest, accountId, index);
    }
    hide Exits, DateForIndex;
  }

  lemma RealisedPnl(digest: Digest, accountId: Uuid, index: nat)
    requires index < 66
    ensures SumPnl(Exits(digest, accountId, index)) as real == ActualTargetR(index).value * RISK_MINOR as real
  {
    var tradeId, r, t := TradeId(digest, accountId, index), ActualTargetR(index).value, ExitedAt(index).value;
    hide *;
    ExitsAre(digest, accountId, index);
    FixtureTargets(index);
    LegsConserve(digest, tradeId, index, r, t);
    MinorOfFourDecimals(r);
  }

  // --------------------------------------------------------------- generator

  function Blueprints(digest: Digest, accountId: Uuid, framework: Framework): (r: seq<TradeBlueprint>)
    requires 3 <= |framework.setups|
    ensures |r| == TRADE_COUNT
    ensures forall i | 0 <= i < TRADE_COUNT :: r[i] == BlueprintAt(digest, accountId, framework, i)
  {
    hide BlueprintAt;
    seq(TRADE_COUNT, i requires 0 <= i < TRADE_COUNT => BlueprintAt(digest, accountId, framework, i))
  }

  /** buildVisualTradeBlueprints: the only failure left is a framework with fewer than three setups. */
  method BuildVisualTradeBlueprints(digest: Digest, accountId: Uuid, framework: Framework)
    returns (r: Result<seq<TradeBlueprint>, string>)
    ensures r == if |framework.setups| < 3
                 then Err("The visual fixture requires at least three usable Setup snapshots.")
                 else Ok(Blueprints(digest, accountId, framework))
  {
    hide *;
    if |framework.setups| < 3 {
      return Err("The visual fixture requires at least three usable Setup snapshots.");
    }
    var blueprints: seq<TradeBlueprint> := [];
    for index := 0 to TRADE_COUNT
      invariant |blueprints| == index
      invariant forall i | 0 <= i < index :: blueprints[i] == BlueprintAt(digest, accountId, framework, i)
    {
      BlueprintNeverThrows(digest, accountId, framework, index);
      var built := BlueprintOf(digest, accountId, framework, index);
      blueprints := blueprints + [built.value];
    }
    assert blueprints == Blueprints(digest, accountId, framework);
    return Ok(blueprints);
  }
}
