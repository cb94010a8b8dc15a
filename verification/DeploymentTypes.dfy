/** Values exchanged with the shadow/canary deployment coordinator. */
module DeploymentTypes {
  import opened Text

  const MAXIMUM_DEPLOYMENT_VALUE: int := 1_000_000_000_000_000
  const PARTS_PER_MILLION: int := 1_000_000
  const UINT64_LIMIT: int := 0x1_0000_0000_0000_0000
  const INT64_MIN: int := -0x8000_0000_0000_0000
  const INT64_MAX: int := 0x7FFF_FFFF_FFFF_FFFF

  type uint64 = x: int | 0 <= x < 0x1_0000_0000_0000_0000

  predicate IsInt64(x: int) { INT64_MIN <= x <= INT64_MAX }

  predicate IsUint64(x: int) { 0 <= x < UINT64_LIMIT }

  datatype RunState =
    | Shadow | PromotionPending | Canary | PromotionBlocked
    | RollbackPending | RolledBack | DisabledFailClosed | DisableFailed

  datatype Regime =
    | Normal | ScheduledEvent | BreakingNews | PriceDiscovery | VolatilitySpike | DataDegraded
    | UnknownRegime(name: string)

  datatype Metric =
    | LatencyRegression | DeadlineMisses | CalibrationDeterioration | FeatureDrift | OodIncrease
    | AbnormalTradeRate | UnexpectedDisagreement | ImplementationShortfall | PnlAttributionAnomaly
    | RiskLimitPressure

  const ALL_METRICS: seq<Metric> := [
    LatencyRegression, DeadlineMisses, CalibrationDeterioration, FeatureDrift, OodIncrease,
    AbnormalTradeRate, UnexpectedDisagreement, ImplementationShortfall, PnlAttributionAnomaly,
    RiskLimitPressure]

  datatype Action = Abstain | Buy | Sell | UnknownAction(name: string)

  datatype Threshold = Threshold(metric: Metric, minimumSamples: nat, maximumRegression: int)

  datatype ConfidenceInterval = ConfidenceInterval(
    metric: Metric, sampleCount: nat, meanDelta: int, lowerBound: int, upperBound: int,
    halfWidth: nat, threshold: int, enoughSamples: bool, triggered: bool)

  datatype RollbackTrigger = RollbackTrigger(metric: Metric, regime: Regime, interval: ConfidenceInterval)

  datatype ForecastMetrics = ForecastMetrics(
    latencyNS: int, calibrationErrorPPM: int, featureDriftPPM: int, oodScorePPM: int,
    tradeRatePPM: int, modelDisagreementPPM: int, implementationShortfallPPM: int,
    pnlAttributionAnomalyPPM: int, riskLimitPressurePPM: int)

  datatype ForecastSample = ForecastSample(
    forecastID: string, modelVersion: string, featureSnapshotID: string, featureSnapshotSHA256: string,
    asOfExchangeEventTimeNS: int, completedNS: uint64, deadlineNS: uint64,
    action: Action, netRobustEdgePPM: int, metrics: ForecastMetrics)

  datatype PairedObservation = PairedObservation(
    sequence: uint64, instrumentID: string, strategyID: string, regime: Regime, observedNS: uint64,
    production: ForecastSample, candidate: ForecastSample)

  datatype CanaryApproval = CanaryApproval(
    actor: string, reason: string, approvalReference: string, configurationSHA256: string)

  datatype ScopeRequest = ScopeRequest(
    sequence: uint64, instrumentID: string, strategyID: string, riskSnapshotID: string,
    riskSnapshotSHA256: string, nowNS: uint64, riskSnapshotObservedNS: uint64,
    currentGrossCapitalNanos: uint64, requestedCapitalNanos: uint64)

  datatype ScopeReason =
    | Admitted | NotCanary | InvalidRequest | SymbolDenied | StrategyDenied | CapitalExceeded
    | OrderRateExceeded | RiskSnapshotStale | TimeRegressed | AuditUnavailable

  datatype ScopeDecision = ScopeDecision(
    admitted: bool, reason: ScopeReason, remainingCapitalNanos: nat, remainingOrdersInWindow: nat)

  datatype DeploymentConfig = DeploymentConfig(
    deploymentID: string, modelID: string, candidateVersion: string, productionVersion: string,
    shadowEnvironment: string, canaryEnvironment: string,
    requiredRegimes: seq<Regime>, rollbackThresholds: seq<Threshold>,
    allowedInstrumentIDs: seq<string>, allowedStrategyIDs: seq<string>,
    maximumCapitalNanos: uint64, orderRateWindowNS: uint64, maximumOrdersPerWindow: nat,
    maximumRiskSnapshotAgeNS: uint64, confidenceZPPM: nat,
    approvedBy: string, approvalReference: string, automaticRollbackActor: string,
    createdAtUTCNS: int, configurationSHA256: string)

  predicate Distinct<T(==)>(xs: seq<T>) {
    forall i, j | 0 <= i < j < |xs| :: xs[i] != xs[j]
  }

  predicate ValidThreshold(t: Threshold) {
    && 2 <= t.minimumSamples <= 1_000_000
    && 0 <= t.maximumRegression <= MAXIMUM_DEPLOYMENT_VALUE
  }

  function MetricsOf(thresholds: seq<Threshold>): (ms: seq<Metric>) {
    seq(|thresholds|, i requires 0 <= i < |thresholds| => thresholds[i].metric)
  }

  predicate ValidStringSet(values: seq<string>, maximum: nat) {
    && 1 <= |values| <= maximum
    && (forall i | 0 <= i < |values| :: ValidIdentifier(values[i]))
    && Distinct(values)
  }

  predicate BoundedText(s: string, maximum: nat) { !Blank(s) && |s| <= maximum }

  predicate ValidZ(c: DeploymentConfig) { 1_000_000 <= c.confidenceZPPM <= 5_000_000 }

  // validateFinalDeploymentConfig; schema_version and the feature schema are not modelled.
  predicate ValidConfig(c: DeploymentConfig) {
    && ValidIdentifier(c.deploymentID) && ValidIdentifier(c.modelID)
    && ValidSemantic(c.candidateVersion) && ValidSemantic(c.productionVersion)
    && c.candidateVersion != c.productionVersion
    && ValidIdentifier(c.shadowEnvironment) && ValidIdentifier(c.canaryEnvironment)
    && c.shadowEnvironment != c.canaryEnvironment
    && 1 <= |c.requiredRegimes| <= 16
    && (forall i | 0 <= i < |c.requiredRegimes| :: !c.requiredRegimes[i].UnknownRegime?)
    && Distinct(c.requiredRegimes)
    && |c.rollbackThresholds| == |ALL_METRICS|
    && (forall i | 0 <= i < |c.rollbackThresholds| :: ValidThreshold(c.rollbackThresholds[i]))
    && Distinct(MetricsOf(c.rollbackThresholds))
    && ValidStringSet(c.allowedInstrumentIDs, 64)
    && ValidStringSet(c.allowedStrategyIDs, 32)
    && c.maximumCapitalNanos > 0 && c.orderRateWindowNS > 0
    && 1 <= c.maximumOrdersPerWindow <= 4096
    && c.maximumRiskSnapshotAgeNS > 0
    && ValidZ(c)
    && BoundedText(c.approvedBy, 128) && BoundedText(c.approvalReference, 256)
    && BoundedText(c.automaticRollbackActor, 128)
    && c.createdAtUTCNS > 0
    && Hex64(c.configurationSHA256)
  }

  // coordinator.thresholds[metric]; a metric without a threshold reads as Go's zero value.
  function ThresholdFor(thresholds: seq<Threshold>, metric: Metric): (t: Threshold) {
    if thresholds == [] then Threshold(metric, 0, 0)
    else
      var last := thresholds[|thresholds| - 1];
      if last.metric == metric then last else ThresholdFor(thresholds[..|thresholds| - 1], metric)
  }

  function MetricValue(m: ForecastMetrics, deadlineMiss: bool, metric: Metric): int {
    match metric
    case LatencyRegression => m.latencyNS
    case DeadlineMisses => if deadlineMiss then PARTS_PER_MILLION else 0
    case CalibrationDeterioration => m.calibrationErrorPPM
    case FeatureDrift => m.featureDriftPPM
    case OodIncrease => m.oodScorePPM
    case AbnormalTradeRate => m.tradeRatePPM
    case UnexpectedDisagreement => m.modelDisagreementPPM
    case ImplementationShortfall => m.implementationShortfallPPM
    case PnlAttributionAnomaly => m.pnlAttributionAnomalyPPM
    case RiskLimitPressure => m.riskLimitPressurePPM
  }

  predicate InRange(x: int) { 0 <= x <= MAXIMUM_DEPLOYMENT_VALUE }

  predicate Normalized(x: int) { 0 <= x <= PARTS_PER_MILLION }

  predicate ValidMetrics(m: ForecastMetrics) {
    && InRange(m.latencyNS) && InRange(m.tradeRatePPM) && InRange(m.implementationShortfallPPM)
    && Normalized(m.calibrationErrorPPM) && Normalized(m.featureDriftPPM) && Normalized(m.oodScorePPM)
    && Normalized(m.modelDisagreementPPM) && Normalized(m.pnlAttributionAnomalyPPM)
    && Normalized(m.riskLimitPressurePPM)
  }

  predicate ValidSample(s: ForecastSample, expectedVersion: string) {
    && ValidIdentifier(s.forecastID) && s.modelVersion == expectedVersion
    && ValidIdentifier(s.featureSnapshotID) && Hex64(s.featureSnapshotSHA256)
    && s.asOfExchangeEventTimeNS > 0 && s.completedNS != 0 && s.deadlineNS != 0
    && !s.action.UnknownAction?
    && -MAXIMUM_DEPLOYMENT_VALUE <= s.netRobustEdgePPM <= MAXIMUM_DEPLOYMENT_VALUE
    && ValidMetrics(s.metrics)
  }

  // validatePairedObservation
  predicate ValidPair(o: PairedObservation, productionVersion: string, candidateVersion: string) {
    && o.sequence != 0 && ValidIdentifier(o.instrumentID) && ValidIdentifier(o.strategyID)
    && !o.regime.UnknownRegime? && o.observedNS != 0
    && ValidSample(o.production, productionVersion) && ValidSample(o.candidate, candidateVersion)
    && o.production.featureSnapshotID == o.candidate.featureSnapshotID
    && o.production.featureSnapshotSHA256 == o.candidate.featureSnapshotSHA256
    && o.production.asOfExchangeEventTimeNS == o.candidate.asOfExchangeEventTimeNS
    && o.observedNS >= o.production.completedNS && o.observedNS >= o.candidate.completedNS
  }

  // The candidate-minus-production deterioration that one observation contributes to a metric.
  function Delta(o: PairedObservation, metric: Metric): int {
    MetricValue(o.candidate.metrics, o.candidate.completedNS > o.candidate.deadlineNS, metric)
    - MetricValue(o.production.metrics, o.production.completedNS > o.production.deadlineNS, metric)
  }

  lemma EveryMetricListed(metric: Metric)
    ensures exists i :: 0 <= i < |ALL_METRICS| && ALL_METRICS[i] == metric
  {
    match metric
    case LatencyRegression => assert ALL_METRICS[0] == metric;
    case DeadlineMisses => assert ALL_METRICS[1] == metric;
    case CalibrationDeterioration => assert ALL_METRICS[2] == metric;
    case FeatureDrift => assert ALL_METRICS[3] == metric;
    case OodIncrease => assert ALL_METRICS[4] == metric;
    case AbnormalTradeRate => assert ALL_METRICS[5] == metric;
    case UnexpectedDisagreement => assert ALL_METRICS[6] == metric;
    case ImplementationShortfall => assert ALL_METRICS[7] == metric;
    case PnlAttributionAnomaly => assert ALL_METRICS[8] == metric;
    case RiskLimitPressure => assert ALL_METRICS[9] == metric;
  }

  const METRIC_SET: set<Metric> := {
    LatencyRegression, DeadlineMisses, CalibrationDeterioration, FeatureDrift, OodIncrease,
    AbnormalTradeRate, UnexpectedDisagreement, ImplementationShortfall, PnlAttributionAnomaly,
    RiskLimitPressure}

  lemma {:induction false} DistinctCount<T>(xs: seq<T>, all: set<T>)
    requires Distinct(xs) && forall i | 0 <= i < |xs| :: xs[i] in all
    ensures |xs| <= |all|
    ensures |xs| == |all| ==> forall x | x in all :: x in xs
  {
    if xs == [] {
      if |all| == 0 { assert all == {}; }
    } else {
      var front, x := xs[..|xs| - 1], xs[|xs| - 1];
      DistinctCount(front, all - {x});
      assert xs == front + [x];
    }
  }

  lemma {:induction false} ThresholdFound(thresholds: seq<Threshold>, metric: Metric)
    requires metric in MetricsOf(thresholds)
    ensures ThresholdFor(thresholds, metric) in thresholds && ThresholdFor(thresholds, metric).metric == metric
  {
    var front := thresholds[..|thresholds| - 1];
    if thresholds[|thresholds| - 1].metric != metric {
      var i :| 0 <= i < |thresholds| && MetricsOf(thresholds)[i] == metric;
      assert MetricsOf(front)[i] == metric;
      ThresholdFound(front, metric);
    }
  }

  /** Ten distinct thresholds leave no metric without one: a validated configuration never
      falls back to the zero threshold. */
  lemma EveryMetricHasThreshold(c: DeploymentConfig, metric: Metric)
    requires ValidConfig(c)
    ensures ValidThreshold(ThresholdFor(c.rollbackThresholds, metric))
    ensures ThresholdFor(c.rollbackThresholds, metric).metric == metric
  {
    var ms := MetricsOf(c.rollbackThresholds);
    forall i | 0 <= i < |ms| ensures ms[i] in METRIC_SET { EveryMetricListed(ms[i]); }
    EveryMetricListed(metric);
    DistinctCount(ms, METRIC_SET);
    ThresholdFound(c.rollbackThresholds, metric);
  }

  /** A validated observation moves every metric by at most the supported range. */
  lemma DeltaInRange(o: PairedObservation, productionVersion: string, candidateVersion: string, metric: Metric)
    requires ValidPair(o, productionVersion, candidateVersion)
    ensures -MAXIMUM_DEPLOYMENT_VALUE <= Delta(o, metric) <= MAXIMUM_DEPLOYMENT_VALUE
    ensures IsInt64(Delta(o, metric))
  {
  }
}
