/** Which way the evidence points: what the coordinator acts on are the differences between the candidate's and
    production's readings, field by field, and a candidate that reads worse is caught. */
module Regression {
  import opened Results
  import opened Text
  import opened DeploymentTypes
  import opened Statistics
  import opened Coordinator
  import opened CanaryScope
  import opened Interleaving
  import opened Recovery
  import opened Restart

  // ----- Readings --------------------------------------------------------------------------------------

  predicate Late(s: ForecastSample) { s.deadlineNS < s.completedNS }

  // The candidate's reading of the metric is production's and this much more. More is worse.
  predicate Exceeds(o: PairedObservation, metric: Metric, excess: int) {
    var candidate, production := o.candidate.metrics, o.production.metrics;
    match metric
    case LatencyRegression => candidate.latencyNS == production.latencyNS + excess
    case DeadlineMisses =>
      if Late(o.candidate) && !Late(o.production) then excess == 1_000_000
      else if !Late(o.candidate) && Late(o.production) then excess == -1_000_000
      else excess == 0
    case CalibrationDeterioration => candidate.calibrationErrorPPM == production.calibrationErrorPPM + excess
    case FeatureDrift => candidate.featureDriftPPM == production.featureDriftPPM + excess
    case OodIncrease => candidate.oodScorePPM == production.oodScorePPM + excess
    case AbnormalTradeRate => candidate.tradeRatePPM == production.tradeRatePPM + excess
    case UnexpectedDisagreement => candidate.modelDisagreementPPM == production.modelDisagreementPPM + excess
    case ImplementationShortfall =>
      candidate.implementationShortfallPPM == production.implementationShortfallPPM + excess
    case PnlAttributionAnomaly => candidate.pnlAttributionAnomalyPPM == production.pnlAttributionAnomalyPPM + excess
    case RiskLimitPressure => candidate.riskLimitPressurePPM == production.riskLimitPressurePPM + excess
  }

  /** One observation contributes to a metric exactly what the candidate reads above production. */
  lemma DeltaIsExcess(o: PairedObservation, metric: Metric, excess: int)
    ensures Exceeds(o, metric, excess) <==> Delta(o, metric) == excess
  {
  }

  // The journaled observations of a regime, in order.
  function Observations(journal: seq<Record>, r: Regime): seq<PairedObservation> {
    if journal == [] then []
    else
      var last := journal[|journal| - 1].entry;
      Observations(journal[..|journal| - 1], r)
      + if last.Observed? && last.observation.regime == r then [last.observation] else []
  }

  // The excess of each observation in turn.
  ghost predicate Excesses(os: seq<PairedObservation>, metric: Metric, xs: seq<int>) {
    |xs| == |os| && forall i | 0 <= i < |os| :: Exceeds(os[i], metric, xs[i])
  }

  lemma {:induction false} DeltasOf(journal: seq<Record>, r: Regime, m: Metric)
    ensures Excesses(Observations(journal, r), m, DeltasIn(journal, r, m))
  {
    hide Delta, Exceeds, Excesses;
    if journal == [] {
      NoExcess(m);
    } else {
      var front, last := journal[..|journal| - 1], journal[|journal| - 1].entry;
      DeltasOf(front, r, m);
      if last.Observed? && last.observation.regime == r {
        DeltaIsExcess(last.observation, m, Delta(last.observation, m));
        OneMoreExcess(Observations(front, r), last.observation, m, DeltasIn(front, r, m), Delta(last.observation, m));
      } else {
        assert Observations(journal, r) == Observations(front, r) && DeltasIn(journal, r, m) == DeltasIn(front, r, m);
      }
    }
  }

  lemma NoExcess(m: Metric)
    ensures Excesses([], m, [])
  {
  }

  lemma OneMoreExcess(os: seq<PairedObservation>, o: PairedObservation, m: Metric, xs: seq<int>, x: int)
    requires Excesses(os, m, xs) && Exceeds(o, m, x)
    ensures Excesses(os + [o], m, xs + [x])
  {
    hide Exceeds;
  }

  lemma ExcessesAreUnique(os: seq<PairedObservation>, m: Metric, xs: seq<int>, ys: seq<int>)
    requires Excesses(os, m, xs) && Excesses(os, m, ys)
    ensures xs == ys
  {
    hide Exceeds;
    forall i | 0 <= i < |os| ensures xs[i] == ys[i] {
      DeltaIsExcess(os[i], m, xs[i]);
      DeltaIsExcess(os[i], m, ys[i]);
    }
  }

  lemma ExcessesAreDeltas(journal: seq<Record>, r: Regime, m: Metric, xs: seq<int>)
    requires Excesses(Observations(journal, r), m, xs)
    ensures xs == DeltasIn(journal, r, m)
  {
    hide Excesses, DeltasIn, Observations;
    DeltasOf(journal, r, m);
    ExcessesAreUnique(Observations(journal, r), m, xs, DeltasIn(journal, r, m));
  }

  // ----- The configured threshold -----------------------------------------------------------------------

  lemma ThresholdIs(cfg: DeploymentConfig, t: Threshold)
    requires ValidConfig(cfg) && t in cfg.rollbackThresholds
    ensures ThresholdFor(cfg.rollbackThresholds, t.metric) == t && ValidThreshold(t)
  {
    hide ValidIdentifier, ValidSemantic, Hex64, Blank, ValidStringSet, ThresholdFor;
    var ts := cfg.rollbackThresholds;
    var i :| 0 <= i < |ts| && ts[i] == t;
    assert MetricsOf(ts)[i] == t.metric;
    ThresholdFound(ts, t.metric);
    var j :| 0 <= j < |ts| && ts[j] == ThresholdFor(ts, t.metric);
    assert MetricsOf(ts)[j] == MetricsOf(ts)[i];
  }

  lemma ThresholdOf(cfg: DeploymentConfig, m: Metric) returns (t: Threshold)
    requires ValidConfig(cfg)
    ensures t in cfg.rollbackThresholds && t.metric == m
  {
    hide ValidIdentifier, ValidSemantic, Hex64, Blank, ValidStringSet, ThresholdFor;
    var ms := MetricsOf(cfg.rollbackThresholds);
    forall i | 0 <= i < |ms| ensures ms[i] in METRIC_SET { EveryMetricListed(ms[i]); }
    EveryMetricListed(m);
    DistinctCount(ms, METRIC_SET);
    ThresholdFound(cfg.rollbackThresholds, m);
    t := ThresholdFor(cfg.rollbackThresholds, m);
  }

  // ----- What every run acts on ----------------------------------------------------------------------------

  /** In every run the interval for a regime and a metric is the one of the excesses that its journal shows,
      against the configured threshold for that metric. */
  lemma EveryRunActsOnExcesses(cfg: DeploymentConfig, turns: seq<Turn>, r: Regime, t: Threshold, xs: seq<int>)
    requires ValidConfig(cfg) && ValidZ(cfg) && r in cfg.requiredRegimes && t in cfg.rollbackThresholds
    requires Excesses(Observations(Run(cfg, turns).journal, r), t.metric, xs)
    ensures var ms := Run(cfg, turns).c.statistics;
      && r in ms && t.metric in ms[r] && |xs| < UINT64_LIMIT && ms[r][t.metric] == Accumulate(xs)
      && MetricInterval(cfg, ms[r], t.metric) == Interval(Accumulate(xs), t.metric, t, cfg.confidenceZPPM)
      && MetricInterval(cfg, ms[r], t.metric).Ok?
      && (xs != [] ==>
            var ci := MetricInterval(cfg, ms[r], t.metric).value;
            && ci.sampleCount == |xs| && ci.threshold == t.maximumRegression
            && ci.lowerBound * |xs| <= Sum(xs) <= ci.upperBound * |xs|)
  {
    var sys := Run(cfg, turns);
    ThresholdIs(cfg, t);
    EveryRunJournalsItsStatistics(cfg, turns);
    AlwaysComputable(cfg, sys.c, r);
    ExcessesAreDeltas(sys.journal, r, t.metric, xs);
    assert sys.c.statistics[r][t.metric] == Accumulate(xs) && |xs| < UINT64_LIMIT;
    assert MetricInterval(cfg, sys.c.statistics[r], t.metric)
        == Interval(Accumulate(xs), t.metric, t, cfg.confidenceZPPM);
    hide Interval, Excesses, Accumulate, Sum, Run, WellKept, ValidConfig, Computable;
    if xs != [] {
      IntervalIsExact(xs, t.metric, t, cfg.confidenceZPPM);
      IntervalThreshold(Accumulate(xs), t.metric, t, cfg.confidenceZPPM);
    }
  }

  lemma IntervalThreshold(m: Moments, metric: Metric, t: Threshold, z: nat)
    requires Interval(m, metric, t, z).Ok?
    ensures Interval(m, metric, t, z).value.threshold == t.maximumRegression
    ensures Interval(m, metric, t, z).value.metric == metric
  {
    hide StandardError, CeilDiv, FloorDiv, Quo;
  }

  // While promotion or the canary is alive no regime is in breach.
  ghost predicate Unbreached(cfg: DeploymentConfig, c: Coordinator)
    requires WellKept(cfg, c)
  {
    Live(c.state) ==> forall r | r in c.statistics :: !Breached(cfg, c.statistics[r])
  }

  lemma NothingIsBreached(cfg: DeploymentConfig)
    requires WellKept(cfg, Fresh(cfg, Shadow))
    ensures Unbreached(cfg, Fresh(cfg, Shadow))
  {
  }

  lemma RecordedIsUnbreached(cfg: DeploymentConfig, c: Coordinator, o: PairedObservation, first: Journal,
                             second: Journal)
    requires ValidZ(cfg) && WellKept(cfg, c) && Taken(cfg, c, o, first)
    ensures o.regime in c.statistics && WellKept(cfg, ApplyObservation(c, o))
    ensures var ms := ApplyObservation(c, o).statistics[o.regime];
      Live(ObserveSection(cfg, c, o, first, second).next.state) ==> !Breached(cfg, ms)
  {
    RegimeHasMoments(cfg, c, o.regime);
    ObservationKept(cfg, c, o);
    var after := ApplyObservation(c, o);
    AlwaysComputable(cfg, after, o.regime);
    BreachedIsFirstBreach(cfg, o.regime, after.statistics[o.regime]);
    hide WellKept, ValidObservation, Computable, Breached, FirstBreach, AddDeltas, NewRecord;
  }

  lemma ObserveKeepsUnbreached(cfg: DeploymentConfig, c: Coordinator, o: PairedObservation, first: Journal,
                               second: Journal)
    requires ValidZ(cfg) && WellKept(cfg, c) && Unbreached(cfg, c)
    requires WellKept(cfg, ObserveSection(cfg, c, o, first, second).next)
    ensures Unbreached(cfg, ObserveSection(cfg, c, o, first, second).next)
  {
    hide WellKept, ObserveSection, Breached, ValidObservation, NewRecord, AddDeltas;
    if Taken(cfg, c, o, first) {
      TakenObservation(cfg, c, o, first, second);
      RecordedIsUnbreached(cfg, c, o, first, second);
    } else {
      UntakenObservation(cfg, c, o, first, second);
    }
  }

  lemma StepKeepsUnbreached(cfg: DeploymentConfig, sys: System, turn: Turn)
    requires ValidZ(cfg) && WellKept(cfg, sys.c) && Owned(sys) && Unbreached(cfg, sys.c)
    requires WellKept(cfg, Step(cfg, sys, turn).c)
    ensures Unbreached(cfg, Step(cfg, sys, turn).c)
  {
    if turn.Observe? {
      hide WellKept, ObserveSection, Unbreached, Owned;
      ObserveFailsClosed(cfg, sys.c, turn.observation, turn.first, turn.second);
      ObserveKeepsUnbreached(cfg, sys.c, turn.observation, turn.first, turn.second);
    } else {
      hide WellKept, Unbreached, Owned, Step;
      OthersKeepStatistics(cfg, sys, turn);
      SameIsUnbreached(cfg, sys.c, Step(cfg, sys, turn).c);
    }
  }

  // Any other turn leaves the statistics alone and brings nothing to life.
  lemma OthersKeepStatistics(cfg: DeploymentConfig, sys: System, turn: Turn)
    requires WellKept(cfg, sys.c) && Owned(sys) && !turn.Observe?
    ensures var next := Step(cfg, sys, turn); next.c.statistics == sys.c.statistics
    ensures var next := Step(cfg, sys, turn); Live(next.c.state) ==> Live(sys.c.state)
  {
    OwnersKnown(sys, turn.caller);
    hide WellKept, Owned, Evidence, ValidApproval, AdmitSection, ObserveSection, NewRecord;
    if turn.Admit? { AdmitFailsClosed(cfg, sys.c, turn.request, turn.io); }
  }

  lemma SameIsUnbreached(cfg: DeploymentConfig, c: Coordinator, d: Coordinator)
    requires WellKept(cfg, c) && WellKept(cfg, d) && Unbreached(cfg, c)
    requires d.statistics == c.statistics && (Live(d.state) ==> Live(c.state))
    ensures Unbreached(cfg, d)
  {
    hide WellKept, Breached;
  }

  lemma {:induction false} EveryRunIsUnbreached(cfg: DeploymentConfig, turns: seq<Turn>)
    requires ValidZ(cfg)
    ensures Unbreached(cfg, Run(cfg, turns).c)
  {
    hide WellKept, Unbreached, Step;
    if turns == [] {
      FreshIsWellKept(cfg, Shadow);
      NothingIsBreached(cfg);
    } else {
      hide Owned, Once, Justified, RateKept;
      var front := turns[..|turns| - 1];
      EveryRunIsUnbreached(cfg, front);
      EveryRunIsSafe(cfg, front);
      StepKeepsStatistics(cfg, Run(cfg, front), turns[|turns| - 1]);
      StepKeepsUnbreached(cfg, Run(cfg, front), turns[|turns| - 1]);
    }
  }

  lemma UnbreachedAt(cfg: DeploymentConfig, c: Coordinator, r: Regime, m: Metric)
    requires WellKept(cfg, c) && Unbreached(cfg, c) && Live(c.state) && r in c.statistics
    requires m in c.statistics[r] && MetricInterval(cfg, c.statistics[r], m).Ok?
    ensures !MetricInterval(cfg, c.statistics[r], m).value.triggered
  {
    hide MetricInterval;
  }

  /** A worse candidate does not stay: in every run that is in SHADOW, PROMOTION_PENDING or CANARY, for every
      regime and metric with enough journaled observations, the candidate's readings exceed production's by at
      most the permitted regression on average. */
  lemma LiveRunsAreWithinRegression(cfg: DeploymentConfig, turns: seq<Turn>, r: Regime, t: Threshold, xs: seq<int>)
    requires ValidConfig(cfg) && ValidZ(cfg) && r in cfg.requiredRegimes && t in cfg.rollbackThresholds
    requires Excesses(Observations(Run(cfg, turns).journal, r), t.metric, xs)
    requires Live(Run(cfg, turns).c.state) && |xs| >= t.minimumSamples
    ensures Sum(xs) <= t.maximumRegression * |xs|
  {
    hide ValidConfig, Run, Interval, Excesses, Unbreached, WellKept, Sum, Accumulate;
    var sys := Run(cfg, turns);
    EveryRunActsOnExcesses(cfg, turns, r, t, xs);
    EveryRunIsUnbreached(cfg, turns);
    UnbreachedAt(cfg, sys.c, r, t.metric);
    ThresholdIs(cfg, t);
    AccumulateIsExact(xs);
    TriggeredExactly(Accumulate(xs), t.metric, t, cfg.confidenceZPPM);
    IntervalIsExact(xs, t.metric, t, cfg.confidenceZPPM);
    var upper := Interval(Accumulate(xs), t.metric, t, cfg.confidenceZPPM).value.upperBound;
    Scaled(upper, t.maximumRegression, |xs|);
  }

  lemma Scaled(a: int, b: int, n: nat)
    requires a <= b
    ensures a * n <= b * n
  {
    assert (b - a) * n >= 0;
  }

  lemma {:induction false} ConstantSum(xs: seq<int>, k: int)
    requires forall i | 0 <= i < |xs| :: xs[i] == k
    ensures Sum(xs) == |xs| * k && SumSquares(xs) == |xs| * (k * k)
  {
    if xs != [] {
      ConstantSum(xs[..|xs| - 1], k);
      assert |xs| * k == (|xs| - 1) * k + k && |xs| * (k * k) == (|xs| - 1) * (k * k) + k * k;
    }
  }

  /** A candidate that always reads worse by one amount above the permitted regression is caught: once the regime
      has the required number of observations the run is in neither SHADOW nor PROMOTION_PENDING nor CANARY. */
  lemma WorseCandidateIsCaught(cfg: DeploymentConfig, turns: seq<Turn>, r: Regime, t: Threshold, excess: int)
    requires ValidConfig(cfg) && ValidZ(cfg) && r in cfg.requiredRegimes && t in cfg.rollbackThresholds
    requires var os := Observations(Run(cfg, turns).journal, r);
      |os| >= t.minimumSamples && forall i | 0 <= i < |os| :: Exceeds(os[i], t.metric, excess)
    requires excess > t.maximumRegression
    ensures !Live(Run(cfg, turns).c.state)
  {
    hide ValidConfig, Run, Exceeds, Sum, SumSquares, Live, WellKept, Observations, Accumulate;
    ThresholdIs(cfg, t);
    var os := Observations(Run(cfg, turns).journal, r);
    var xs := seq(|os|, _ => excess);
    ConstantExcesses(os, t.metric, excess);
    ConstantTotal(xs, excess, t.maximumRegression);
    hide Excesses;
    if Live(Run(cfg, turns).c.state) { LiveRunsAreWithinRegression(cfg, turns, r, t, xs); }
  }

  lemma ConstantTotal(xs: seq<int>, k: int, limit: int)
    requires xs != [] && k > limit && forall i | 0 <= i < |xs| :: xs[i] == k
    ensures Sum(xs) > limit * |xs|
  {
    ConstantSum(xs, k);
    assert |xs| * k - limit * |xs| == |xs| * (k - limit);
  }

  // ----- When an observation trips ----------------------------------------------------------------------------

  // These excesses are in breach of the threshold.
  predicate Breaches(cfg: DeploymentConfig, t: Threshold, xs: seq<int>) {
    var interval := Interval(Accumulate(xs), t.metric, t, cfg.confidenceZPPM);
    interval.Ok? && interval.value.triggered
  }

  // Some threshold is breached by the excesses of these observations.
  ghost predicate InBreach(cfg: DeploymentConfig, os: seq<PairedObservation>) {
    exists t, xs :: t in cfg.rollbackThresholds && Excesses(os, t.metric, xs) && Breaches(cfg, t, xs)
  }

  // The moments are those of the excesses of these observations, for every metric.
  ghost predicate MomentsOf(ms: RegimeMoments, os: seq<PairedObservation>) { forall m :: MomentOf(ms, os, m) }

  ghost predicate MomentOf(ms: RegimeMoments, os: seq<PairedObservation>, m: Metric) {
    m in ms && exists xs :: Excesses(os, m, xs) && ms[m] == Accumulate(xs)
  }

  lemma OneMoreMoment(ms: RegimeMoments, os: seq<PairedObservation>, o: PairedObservation)
    requires MomentsOf(ms, os)
    ensures MomentsOf(AddDeltas(ms, o), os + [o])
  {
    hide Excesses, Exceeds, Delta, Accumulate, AddSample;
    forall m ensures MomentOf(AddDeltas(ms, o), os + [o], m) {
      assert MomentOf(ms, os, m);
      var xs :| Excesses(os, m, xs) && ms[m] == Accumulate(xs);
      DeltaIsExcess(o, m, Delta(o, m));
      OneMoreExcess(os, o, m, xs, Delta(o, m));
      AccumulateExtends(xs, Delta(o, m));
      var more := xs + [Delta(o, m)];
      assert Excesses(os + [o], m, more) && AddDeltas(ms, o)[m] == Accumulate(more);
    }
  }

  lemma RunMoments(cfg: DeploymentConfig, turns: seq<Turn>, r: Regime)
    requires ValidZ(cfg) && r in cfg.requiredRegimes
    ensures r in Run(cfg, turns).c.statistics
    ensures MomentsOf(Run(cfg, turns).c.statistics[r], Observations(Run(cfg, turns).journal, r))
  {
    var sys := Run(cfg, turns);
    EveryRunJournalsItsStatistics(cfg, turns);
    RegimeHasMoments(cfg, sys.c, r);
    AlwaysComputable(cfg, sys.c, r);
    hide Run, WellKept, Excesses, Accumulate, Computable;
    forall m ensures MomentOf(sys.c.statistics[r], Observations(sys.journal, r), m) {
      assert Complete(sys.c.statistics[r]) && m in sys.c.statistics[r];
      DeltasOf(sys.journal, r, m);
      assert sys.c.statistics[r][m] == Accumulate(DeltasIn(sys.journal, r, m));
    }
  }

  lemma BreachedIsInBreach(cfg: DeploymentConfig, ms: RegimeMoments, os: seq<PairedObservation>)
    requires ValidConfig(cfg) && Complete(ms) && MomentsOf(ms, os)
    ensures Breached(cfg, ms) <==> InBreach(cfg, os)
  {
    hide ValidConfig, Interval, Excesses, Accumulate;
    if Breached(cfg, ms) {
      var m :| MetricInterval(cfg, ms, m).Ok? && MetricInterval(cfg, ms, m).value.triggered;
      var t := ThresholdOf(cfg, m);
      ThresholdIs(cfg, t);
      assert MomentOf(ms, os, m);
      var xs :| Excesses(os, m, xs) && ms[m] == Accumulate(xs);
      assert Breaches(cfg, t, xs);
    }
    if InBreach(cfg, os) {
      var t, xs :| t in cfg.rollbackThresholds && Excesses(os, t.metric, xs) && Breaches(cfg, t, xs);
      ThresholdIs(cfg, t);
      assert MomentOf(ms, os, t.metric);
      var ys :| Excesses(os, t.metric, ys) && ms[t.metric] == Accumulate(ys);
      ExcessesAreUnique(os, t.metric, xs, ys);
      assert MetricInterval(cfg, ms, t.metric).Ok?;
    }
  }

  /** In every run, a valid observation whose record becomes durable trips if and only if the regime's journaled
      observations together with it are in breach of some threshold; then SHADOW is blocked and CANARY owes a
      rollback, and otherwise the state stays. The trigger is the first metric in breach. */
  lemma ObservationTripsExactly(cfg: DeploymentConfig, turns: seq<Turn>, o: PairedObservation, first: Journal,
                                second: Journal)
    requires ValidConfig(cfg) && ValidZ(cfg) && Taken(cfg, Run(cfg, turns).c, o, first)
    ensures var sys := Run(cfg, turns);
      var s := ObserveSection(cfg, sys.c, o, first, second);
      && (s.outcome.Tripped? <==> InBreach(cfg, Observations(sys.journal, o.regime) + [o]))
      && (s.outcome.Tripped? || s.outcome.Recorded?)
      && s.next.state == (if s.outcome.Recorded? then sys.c.state
                          else if sys.c.state.Canary? then RollbackPending else PromotionBlocked)
      && s.mustRollBack == (s.outcome.Tripped? && sys.c.state.Canary?)
  {
    assert o.regime in cfg.requiredRegimes;
    RunMoments(cfg, turns, o.regime);
    var sys := Run(cfg, turns);
    ObservationKept(cfg, sys.c, o);
    hide ValidConfig, Run, Taken, WellKept, ObserveSection;
    var after := ApplyObservation(sys.c, o);
    OneMoreMoment(sys.c.statistics[o.regime], Observations(sys.journal, o.regime), o);
    AlwaysComputable(cfg, after, o.regime);
    BreachedIsInBreach(cfg, after.statistics[o.regime], Observations(sys.journal, o.regime) + [o]);
    TakenOutcome(cfg, sys.c, o, first, second);
  }

  lemma TakenOutcome(cfg: DeploymentConfig, c: Coordinator, o: PairedObservation, first: Journal, second: Journal)
    requires ValidZ(cfg) && WellKept(cfg, c) && Taken(cfg, c, o, first) && o.regime in c.statistics
    requires WellKept(cfg, ApplyObservation(c, o)) && Complete(ApplyObservation(c, o).statistics[o.regime])
    requires Computable(cfg, ApplyObservation(c, o).statistics[o.regime])
    ensures var s := ObserveSection(cfg, c, o, first, second);
      && (s.outcome.Tripped? <==> Breached(cfg, ApplyObservation(c, o).statistics[o.regime]))
      && (s.outcome.Tripped? || s.outcome.Recorded?)
      && s.next.state == (if s.outcome.Recorded? then c.state
                          else if c.state.Canary? then RollbackPending else PromotionBlocked)
      && s.mustRollBack == (s.outcome.Tripped? && c.state.Canary?)
  {
    BreachedIsFirstBreach(cfg, o.regime, ApplyObservation(c, o).statistics[o.regime]);
    hide WellKept, ValidObservation, Computable, Breached, FirstBreach, AddDeltas, NewRecord;
  }

  // ----- Constant differences -----------------------------------------------------------------------------------

  lemma ConstantInterval(cfg: DeploymentConfig, t: Threshold, xs: seq<int>, k: int)
    requires ValidZ(cfg) && ValidThreshold(t) && |xs| < UINT64_LIMIT
    requires -MAXIMUM_DEPLOYMENT_VALUE <= k <= MAXIMUM_DEPLOYMENT_VALUE
    requires forall i | 0 <= i < |xs| :: xs[i] == k
    ensures Breaches(cfg, t, xs) <==> |xs| >= t.minimumSamples && k > t.maximumRegression
  {
    hide Sum, SumSquares, Accumulate, Bounded;
    AccumulateIsExact(xs);
    AccumulateIsBounded(xs, MAXIMUM_DEPLOYMENT_VALUE);
    ConstantSum(xs, k);
    var m := Accumulate(xs);
    IntervalNeverFails(m, t.metric, t, cfg.confidenceZPPM);
    if |xs| >= 2 {
      NoSpread(|xs|, k);
      ExactQuotient(|xs|, k);
      DenominatorPositive(m);
      NothingOver(Denominator(m));
    }
    hide CeilDiv, FloorDiv, Quo, CeilSqrt;
  }

  lemma NoSpread(n: nat, k: int)
    ensures n * (n * (k * k)) - (n * k) * (n * k) == 0
  {
  }

  lemma ExactQuotient(n: nat, k: int)
    requires n > 0
    ensures CeilDiv(n * k, n) == k && FloorDiv(n * k, n) == k
  {
    CeilDivAtMost(n * k, n, k);
    FloorDivAtLeast(n * k, n, k);
    CancelPositive(k - 1, CeilDiv(n * k, n), n);
    CancelPositive(FloorDiv(n * k, n), k + 1, n);
  }

  lemma NothingOver(d: int)
    requires d > 0
    ensures CeilDiv(0, d) == 0 && CeilSqrt(0) == 0
  {
  }

  // Every observation differs by the same amount, metric by metric.
  ghost predicate Constant(os: seq<PairedObservation>, excess: Metric -> int) {
    forall m, i | 0 <= i < |os| :: Exceeds(os[i], m, excess(m))
  }

  lemma ConstantIsInBreach(cfg: DeploymentConfig, os: seq<PairedObservation>, excess: Metric -> int)
    requires ValidConfig(cfg) && ValidZ(cfg) && 0 < |os| < UINT64_LIMIT && Constant(os, excess)
    requires ValidPair(os[|os| - 1], cfg.productionVersion, cfg.candidateVersion)
    ensures InBreach(cfg, os) <==>
      exists t | t in cfg.rollbackThresholds :: |os| >= t.minimumSamples && excess(t.metric) > t.maximumRegression
  {
    hide ValidConfig, ValidPair, Breaches, Excesses, Exceeds;
    forall t, xs | t in cfg.rollbackThresholds && Excesses(os, t.metric, xs)
      ensures Breaches(cfg, t, xs) <==> |os| >= t.minimumSamples && excess(t.metric) > t.maximumRegression
    {
      ThresholdIs(cfg, t);
      ConstantBreaches(cfg, t, os, xs, excess(t.metric));
    }
    forall t | t in cfg.rollbackThresholds ensures Excesses(os, t.metric, seq(|os|, _ => excess(t.metric))) {
      ConstantExcesses(os, t.metric, excess(t.metric));
    }
  }

  lemma ConstantExcesses(os: seq<PairedObservation>, m: Metric, k: int)
    requires forall i | 0 <= i < |os| :: Exceeds(os[i], m, k)
    ensures Excesses(os, m, seq(|os|, _ => k))
  {
    hide Exceeds;
  }

  lemma ConstantBreaches(cfg: DeploymentConfig, t: Threshold, os: seq<PairedObservation>, xs: seq<int>, k: int)
    requires ValidZ(cfg) && ValidThreshold(t) && 0 < |os| < UINT64_LIMIT && Excesses(os, t.metric, xs)
    requires forall i | 0 <= i < |os| :: Exceeds(os[i], t.metric, k)
    requires ValidPair(os[|os| - 1], cfg.productionVersion, cfg.candidateVersion)
    ensures Breaches(cfg, t, xs) <==> |os| >= t.minimumSamples && k > t.maximumRegression
  {
    hide ValidPair, Breaches, Excesses, Exceeds, Delta;
    ConstantExcesses(os, t.metric, k);
    ExcessesAreUnique(os, t.metric, xs, seq(|os|, _ => k));
    DeltaIsExcess(os[|os| - 1], t.metric, k);
    DeltaInRange(os[|os| - 1], cfg.productionVersion, cfg.candidateVersion, t.metric);
    ConstantInterval(cfg, t, xs, k);
  }

  /** When all observations of a regime, the new one included, differ by the same amounts: the new one trips if
      and only if there are enough of them for some metric whose amount is above its permitted regression. In
      particular a candidate that reads the same or better on every field never trips. */
  lemma ConstantExcessTripsExactly(cfg: DeploymentConfig, turns: seq<Turn>, o: PairedObservation, first: Journal,
                                   second: Journal, excess: Metric -> int)
    requires ValidConfig(cfg) && ValidZ(cfg) && Taken(cfg, Run(cfg, turns).c, o, first)
    requires Constant(Observations(Run(cfg, turns).journal, o.regime) + [o], excess)
    ensures var sys := Run(cfg, turns);
      var n := |Observations(sys.journal, o.regime)| + 1;
      var s := ObserveSection(cfg, sys.c, o, first, second);
      && (s.outcome.Tripped? <==>
            exists t | t in cfg.rollbackThresholds :: n >= t.minimumSamples && excess(t.metric) > t.maximumRegression)
      && ((forall m :: excess(m) <= 0) ==> s.outcome.Recorded? && s.next.state == sys.c.state)
  {
    var sys := Run(cfg, turns);
    ObservationTripsExactly(cfg, turns, o, first, second);
    CountIsBelow(cfg, turns, o.regime);
    var os := Observations(sys.journal, o.regime) + [o];
    assert o.regime in cfg.requiredRegimes && o.sequence > sys.c.lastObservationSequence;
    assert ValidPair(os[|os| - 1], cfg.productionVersion, cfg.candidateVersion);
    forall t | t in cfg.rollbackThresholds ensures ValidThreshold(t) { ThresholdIs(cfg, t); }
    hide ValidConfig, Run, Taken, WellKept, ObserveSection, InBreach, ValidPair, Constant, Observations;
    ConstantIsInBreach(cfg, os, excess);
  }

  lemma CountIsBelow(cfg: DeploymentConfig, turns: seq<Turn>, r: Regime)
    requires ValidZ(cfg) && r in cfg.requiredRegimes
    ensures |Observations(Run(cfg, turns).journal, r)| <= Run(cfg, turns).c.lastObservationSequence
  {
    var sys := Run(cfg, turns);
    EveryRunJournalsItsStatistics(cfg, turns);
    AlwaysComputable(cfg, sys.c, r);
    RegimeHasMoments(cfg, sys.c, r);
    DeltasOf(sys.journal, r, LatencyRegression);
    hide Run, WellKept, Computable, Accumulate, Exceeds;
    assert LatencyRegression in sys.c.statistics[r];
  }

  // ----- Which observations count ------------------------------------------------------------------------------

  // The sequence of the last journaled observation.
  function LastObserved(journal: seq<Record>): nat {
    if journal == [] then 0
    else
      var last := journal[|journal| - 1].entry;
      if last.Observed? then last.observation.sequence else LastObserved(journal[..|journal| - 1])
  }

  lemma ObservedExtends(journal: seq<Record>, r: Record)
    ensures LastObserved(journal + [r])
         == if r.entry.Observed? then r.entry.observation.sequence else LastObserved(journal)
  {
    assert (journal + [r])[..|journal|] == journal;
  }

  lemma ObserveKeepsObserved(cfg: DeploymentConfig, c: Coordinator, o: PairedObservation, first: Journal,
                             second: Journal, journal: seq<Record>)
    requires ValidZ(cfg) && WellKept(cfg, c) && c.lastObservationSequence == LastObserved(journal)
    ensures var s := ObserveSection(cfg, c, o, first, second);
      s.next.lastObservationSequence == LastObserved(journal + s.journaled)
  {
    hide WellKept, LastObserved, ObserveSection, NewRecord, ValidObservation, HeaderOf, AddDeltas;
    var s := ObserveSection(cfg, c, o, first, second);
    if Taken(cfg, c, o, first) {
      TakenObservation(cfg, c, o, first, second);
      var record := NewRecord(cfg, c, first, Observed(o));
      assert record.entry == Observed(o) by { EntryIs(cfg, c, first, Observed(o)); }
      ObservedExtends(journal, record);
      if |s.journaled| == 2 {
        ObservedExtends(journal + [record], s.journaled[1]);
        assert journal + s.journaled == journal + [record] + [s.journaled[1]];
      }
    } else {
      UntakenObservation(cfg, c, o, first, second);
      assert journal + [] == journal;
    }
  }

  lemma EntryIs(cfg: DeploymentConfig, c: Coordinator, io: Journal, entry: Entry)
    ensures NewRecord(cfg, c, io, entry).entry == entry
  {
  }

  lemma StepKeepsObserved(cfg: DeploymentConfig, sys: System, turn: Turn)
    requires ValidZ(cfg) && WellKept(cfg, sys.c) && sys.c.lastObservationSequence == LastObserved(sys.journal)
    ensures var next := Step(cfg, sys, turn); next.c.lastObservationSequence == LastObserved(next.journal)
  {
    hide WellKept, LastObserved;
    if turn.Observe? {
      hide ObserveSection;
      ObserveKeepsObserved(cfg, sys.c, turn.observation, turn.first, turn.second, sys.journal);
    } else {
      hide Step;
      var added: seq<Record>;
      if turn.Admit? {
        added := AdmitAddsLittle(cfg, sys, turn);
      } else {
        added := ProtocolAddsLittle(cfg, sys, turn);
      }
      OthersObserveNothing(sys.journal, added);
    }
  }

  lemma OthersObserveNothing(journal: seq<Record>, added: seq<Record>)
    requires |added| <= 1 && forall i | 0 <= i < |added| :: !added[i].entry.Observed?
    ensures LastObserved(journal + added) == LastObserved(journal)
  {
    hide LastObserved;
    if added == [] {
      assert journal + added == journal;
    } else {
      assert journal + added == journal + [added[0]];
      ObservedExtends(journal, added[0]);
    }
  }

  lemma {:induction false} EveryRunRemembersItsLastObservation(cfg: DeploymentConfig, turns: seq<Turn>)
    requires ValidZ(cfg)
    ensures Run(cfg, turns).c.lastObservationSequence == LastObserved(Run(cfg, turns).journal)
  {
    hide WellKept, Step;
    if turns != [] {
      hide LastObserved;
      EveryRunRemembersItsLastObservation(cfg, turns[..|turns| - 1]);
      StepKeepsObserved(cfg, Run(cfg, turns[..|turns| - 1]), turns[|turns| - 1]);
    }
  }

  // One side of a comparison: the right version, a known action, times, and every reading within its range.
  predicate GoodSample(s: ForecastSample, version: string) {
    var m := s.metrics;
    && s.modelVersion == version && ValidIdentifier(s.forecastID) && ValidIdentifier(s.featureSnapshotID)
    && Hex64(s.featureSnapshotSHA256) && s.asOfExchangeEventTimeNS > 0 && s.completedNS > 0 && s.deadlineNS > 0
    && (s.action.Abstain? || s.action.Buy? || s.action.Sell?)
    && -1_000_000_000_000_000 <= s.netRobustEdgePPM <= 1_000_000_000_000_000
    && 0 <= m.latencyNS <= 1_000_000_000_000_000 && 0 <= m.tradeRatePPM <= 1_000_000_000_000_000
    && 0 <= m.implementationShortfallPPM <= 1_000_000_000_000_000
    && 0 <= m.calibrationErrorPPM <= 1_000_000 && 0 <= m.featureDriftPPM <= 1_000_000
    && 0 <= m.oodScorePPM <= 1_000_000 && 0 <= m.modelDisagreementPPM <= 1_000_000
    && 0 <= m.pnlAttributionAnomalyPPM <= 1_000_000 && 0 <= m.riskLimitPressurePPM <= 1_000_000
  }

  // Both sides are good and saw the same features at the same time, and both had finished.
  predicate GoodPair(productionVersion: string, candidateVersion: string, o: PairedObservation) {
    var p, c := o.production, o.candidate;
    && GoodSample(p, productionVersion) && GoodSample(c, candidateVersion)
    && ValidIdentifier(o.instrumentID) && ValidIdentifier(o.strategyID)
    && p.featureSnapshotID == c.featureSnapshotID && p.featureSnapshotSHA256 == c.featureSnapshotSHA256
    && p.asOfExchangeEventTimeNS == c.asOfExchangeEventTimeNS
    && p.completedNS <= o.observedNS && c.completedNS <= o.observedNS
  }

  lemma PairIsGood(productionVersion: string, candidateVersion: string, o: PairedObservation)
    requires o.sequence > 0 && !o.regime.UnknownRegime?
    ensures ValidPair(o, productionVersion, candidateVersion) <==> GoodPair(productionVersion, candidateVersion, o)
  {
    hide ValidIdentifier, Hex64;
  }

  /** Exactly which observations count: in every run that is in SHADOW or CANARY an observation is refused as
      invalid if and only if its sequence is not above that of the last journaled one, its regime is not
      required, or it is not a good pair; and then the run fails closed. */
  lemma ObservationCountsExactly(cfg: DeploymentConfig, turns: seq<Turn>, o: PairedObservation, first: Journal,
                                 second: Journal)
    requires ValidConfig(cfg) && ValidZ(cfg) && (Run(cfg, turns).c.state.Shadow? || Run(cfg, turns).c.state.Canary?)
    ensures var sys := Run(cfg, turns);
      var s := ObserveSection(cfg, sys.c, o, first, second);
      && (s.outcome.Invalid? <==>
            !(o.sequence > LastObserved(sys.journal) && o.regime in cfg.requiredRegimes
              && GoodPair(cfg.productionVersion, cfg.candidateVersion, o)))
      && (s.outcome.Invalid? ==>
            && s.journaled == [] && s.mustRollBack == sys.c.state.Canary?
            && s.next == sys.c.(state := if sys.c.state.Canary? then RollbackPending else PromotionBlocked))
  {
    hide ValidConfig, Run, LastObserved, WellKept, GoodPair, ValidPair, Computable, FirstBreach, NewRecord,
         ApplyObservation;
    EveryRunRemembersItsLastObservation(cfg, turns);
    KnownRegimes(cfg);
    if o.regime in cfg.requiredRegimes && o.sequence > 0 { PairIsGood(cfg.productionVersion, cfg.candidateVersion, o); }
  }

  lemma KnownRegimes(cfg: DeploymentConfig)
    requires ValidConfig(cfg)
    ensures forall r | r in cfg.requiredRegimes :: !r.UnknownRegime?
  {
  }

  // Where a failing observation leaves the run.
  function Failed(state: RunState): RunState { if state.Canary? then RollbackPending else PromotionBlocked }

  // The observation is counted in its regime and nowhere else.
  ghost predicate Counted(c: Coordinator, o: PairedObservation, os: seq<PairedObservation>, next: Coordinator) {
    && o.regime in c.statistics && o.regime in next.statistics
    && next == c.(lastObservationSequence := o.sequence, state := next.state,
                  statistics := c.statistics[o.regime := next.statistics[o.regime]])
    && MomentsOf(next.statistics[o.regime], os + [o])
  }

  /** Everything an observation does, in every run: outside SHADOW and CANARY nothing; one that does not count, or whose
      record is not durable, fails closed and leaves no record; any other is counted and recorded, and trips, with an
      alarm after its record if that becomes durable, exactly when the regime is then in breach. */
  lemma ObservesExactly(cfg: DeploymentConfig, turns: seq<Turn>, o: PairedObservation, first: Journal, second: Journal)
    requires ValidConfig(cfg) && ValidZ(cfg)
    ensures var sys := Run(cfg, turns);
      var c, s := sys.c, ObserveSection(cfg, sys.c, o, first, second);
      var header := Header(cfg.deploymentID, cfg.modelID, cfg.candidateVersion, cfg.productionVersion,
                           cfg.configurationSHA256);
      var record := Record(header, c.state, first.occurredAtUTCNS, Observed(o));
      var os, canary := Observations(sys.journal, o.regime), c.state.Canary?;
      if !c.state.Shadow? && !c.state.Canary? then s == Section(c, [], Blocked, false)
      else if !(o.sequence > LastObserved(sys.journal) && o.regime in cfg.requiredRegimes
                && GoodPair(cfg.productionVersion, cfg.candidateVersion, o)) then
        s == Section(c.(state := Failed(c.state)), [], Invalid, canary)
      else if !first.accepts(record) then s == Section(c.(state := Failed(c.state)), [], AuditFailed, canary)
      else if !InBreach(cfg, os + [o]) then
        Counted(c, o, os, s.next) && s == Section(s.next.(state := c.state), [record], Recorded, false)
      else
        && Counted(c, o, os, s.next) && s.next.state == Failed(c.state) && s.mustRollBack == canary
        && s.outcome.Tripped? && s.outcome.trigger.regime == o.regime
        && var alarm := Record(header, s.next.state, second.occurredAtUTCNS, Triggered(s.outcome.trigger));
           s.journaled == if second.accepts(alarm) then [record, alarm] else [record]
  {
    hide ValidConfig, Run, LastObserved, WellKept, GoodPair, InBreach, Observations, ObserveSection, Counted;
    var sys := Run(cfg, turns);
    if !sys.c.state.Shadow? && !sys.c.state.Canary? {
      BlockedObservation(cfg, sys.c, o, first, second);
    } else {
      ObservationCountsExactly(cfg, turns, o, first, second);
      NotCountedOutcome(cfg, sys.c, o, first, second);
      if Taken(cfg, sys.c, o, first) {
        ObservationTripsExactly(cfg, turns, o, first, second);
        CountedObservation(cfg, turns, o, first, second);
        TakenJournal(cfg, sys.c, o, first, second);
      }
    }
  }

  lemma BlockedObservation(cfg: DeploymentConfig, c: Coordinator, o: PairedObservation, first: Journal, second: Journal)
    requires WellKept(cfg, c) && !c.state.Shadow? && !c.state.Canary?
    ensures ObserveSection(cfg, c, o, first, second) == Section(c, [], Blocked, false)
  {
    hide WellKept;
  }

  // An observation is invalid, or not durable, or taken.
  lemma NotCountedOutcome(cfg: DeploymentConfig, c: Coordinator, o: PairedObservation, first: Journal, second: Journal)
    requires WellKept(cfg, c) && (c.state.Shadow? || c.state.Canary?)
    ensures var s := ObserveSection(cfg, c, o, first, second);
      var record := Record(Header(cfg.deploymentID, cfg.modelID, cfg.candidateVersion, cfg.productionVersion,
                                  cfg.configurationSHA256), c.state, first.occurredAtUTCNS, Observed(o));
      && (!s.outcome.Invalid? && !first.accepts(record) ==>
            s == Section(c.(state := Failed(c.state)), [], AuditFailed, c.state.Canary?))
      && (!s.outcome.Invalid? && first.accepts(record) ==> Taken(cfg, c, o, first))
  {
    hide WellKept, ValidObservation, Computable, FirstBreach, ApplyObservation;
  }

  lemma CountedObservation(cfg: DeploymentConfig, turns: seq<Turn>, o: PairedObservation, first: Journal,
                           second: Journal)
    requires ValidZ(cfg) && Taken(cfg, Run(cfg, turns).c, o, first)
    ensures Counted(Run(cfg, turns).c, o, Observations(Run(cfg, turns).journal, o.regime),
                    ObserveSection(cfg, Run(cfg, turns).c, o, first, second).next)
  {
    assert o.regime in cfg.requiredRegimes;
    RunMoments(cfg, turns, o.regime);
    hide Run, WellKept, ValidObservation, ObserveSection, NewRecord, Observations, AddDeltas, MomentsOf;
    var sys := Run(cfg, turns);
    TakenObservation(cfg, sys.c, o, first, second);
    OneMoreMoment(sys.c.statistics[o.regime], Observations(sys.journal, o.regime), o);
  }

  lemma TakenJournal(cfg: DeploymentConfig, c: Coordinator, o: PairedObservation, first: Journal, second: Journal)
    requires ValidZ(cfg) && WellKept(cfg, c) && Taken(cfg, c, o, first)
    ensures var s := ObserveSection(cfg, c, o, first, second);
      var header := Header(cfg.deploymentID, cfg.modelID, cfg.candidateVersion, cfg.productionVersion,
                           cfg.configurationSHA256);
      var record := Record(header, c.state, first.occurredAtUTCNS, Observed(o));
      && (s.outcome.Recorded? ==> s.journaled == [record])
      && (s.outcome.Tripped? ==>
            && s.outcome.trigger.regime == o.regime
            && var alarm := Record(header, s.next.state, second.occurredAtUTCNS, Triggered(s.outcome.trigger));
               s.journaled == if second.accepts(alarm) then [record, alarm] else [record])
  {
    RegimeHasMoments(cfg, c, o.regime);
    ObservationKept(cfg, c, o);
    AlwaysComputable(cfg, ApplyObservation(c, o), o.regime);
    var ms := ApplyObservation(c, o).statistics[o.regime];
    hide WellKept, ValidObservation, Computable, FirstBreach, AddDeltas;
    if FirstBreach(cfg, o.regime, ms, 0).Some? { TriggerIsFirst(cfg, o.regime, ms, 0); }
  }

  // ----- The trigger ----------------------------------------------------------------------------------------------

  /** A trigger names the observation's regime and the first metric in the fixed order that is in breach, with
      its interval. */
  lemma {:induction false} TriggerIsFirst(cfg: DeploymentConfig, r: Regime, ms: RegimeMoments, k: nat)
    requires Complete(ms) && Computable(cfg, ms) && k <= |ALL_METRICS| && FirstBreach(cfg, r, ms, k).Some?
    ensures var trigger := FirstBreach(cfg, r, ms, k).value;
      && trigger.regime == r && MetricInterval(cfg, ms, trigger.metric) == Ok(trigger.interval)
      && trigger.interval.triggered
      && exists i :: (&& k <= i < |ALL_METRICS| && ALL_METRICS[i] == trigger.metric
                      && forall j | k <= j < i :: !MetricInterval(cfg, ms, ALL_METRICS[j]).value.triggered)
    decreases |ALL_METRICS| - k
  {
    hide Interval, MetricInterval;
    if k < |ALL_METRICS| && !MetricInterval(cfg, ms, ALL_METRICS[k]).value.triggered {
      TriggerIsFirst(cfg, r, ms, k + 1);
      var trigger := FirstBreach(cfg, r, ms, k + 1).value;
      var i :| && k + 1 <= i < |ALL_METRICS| && ALL_METRICS[i] == trigger.metric
               && forall j | k + 1 <= j < i :: !MetricInterval(cfg, ms, ALL_METRICS[j]).value.triggered;
      assert forall j | k <= j < i :: !MetricInterval(cfg, ms, ALL_METRICS[j]).value.triggered;
    } else if k < |ALL_METRICS| {
      assert ALL_METRICS[k] == FirstBreach(cfg, r, ms, k).value.metric;
    }
  }
}
