/** The fail-closed shadow/canary coordinator: what one critical section of each operation
    does to the coordinator and to its audit journal. Everything the coordinator does not
    decide (the clock, whether the journal accepts a record, what the registry answers) is a
    parameter. */
module Coordinator {
  import opened Results
  import opened Text
  import opened DeploymentTypes
  import opened Statistics

  // ----- Journal records ----------------------------------------------------------------

  datatype Header = Header(
    deploymentID: string, modelID: string, candidateVersion: string, productionVersion: string,
    configurationSHA256: string)

  datatype Entry =
    | Observed(observation: PairedObservation)
    | Triggered(trigger: RollbackTrigger)
    | RollbackCompleted
    | FailClosedDisable
    | FailClosedDisableFailed
    | ApprovalRequested(approval: CanaryApproval)
    | CanaryActivated(approval: CanaryApproval)
    | ScopeDecided(request: ScopeRequest, decision: ScopeDecision)

  datatype Record = Record(header: Header, state: RunState, occurredAtUTCNS: int, entry: Entry)

  function HeaderOf(cfg: DeploymentConfig): Header {
    Header(cfg.deploymentID, cfg.modelID, cfg.candidateVersion, cfg.productionVersion, cfg.configurationSHA256)
  }

  // validateDeploymentAuditRecord
  predicate ValidRecord(r: Record) {
    && ValidIdentifier(r.header.deploymentID) && ValidIdentifier(r.header.modelID)
    && ValidSemantic(r.header.candidateVersion) && ValidSemantic(r.header.productionVersion)
    && Hex64(r.header.configurationSHA256) && r.occurredAtUTCNS > 0
    && match r.entry
       case Observed(o) => ValidPair(o, r.header.productionVersion, r.header.candidateVersion)
       case Triggered(t) => !t.regime.UnknownRegime?
       case ApprovalRequested(a) => !Blank(a.approvalReference) && Hex64(a.configurationSHA256)
       case CanaryActivated(a) => !Blank(a.approvalReference) && Hex64(a.configurationSHA256)
       case _ => true
  }

  // What the journal and the clock do to one append: which record it would make durable, and when.
  datatype Journal = Journal(accepts: Record -> bool, occurredAtUTCNS: int)

  // ----- Coordinator state ---------------------------------------------------------------

  type RegimeMoments = map<Metric, Moments>

  datatype Coordinator = Coordinator(
    state: RunState, statistics: map<Regime, RegimeMoments>, lastObservationSequence: uint64,
    lastScopeSequence: uint64, lastScopeTimeNS: uint64, orderTimes: seq<uint64>)

  function EmptyMoments(): RegimeMoments { map m: Metric | m in METRIC_SET :: EMPTY }

  function Fresh(cfg: DeploymentConfig, state: RunState): Coordinator {
    Coordinator(state, map r | r in cfg.requiredRegimes :: EmptyMoments(), 0, 0, 0, [])
  }

  function NewRecord(cfg: DeploymentConfig, c: Coordinator, io: Journal, entry: Entry): Record {
    Record(HeaderOf(cfg), c.state, io.occurredAtUTCNS, entry)
  }

  // Every configured regime has an accumulator per metric, and each is fed only with validated
  // deltas. No count can exceed the last observation sequence, so no count ever wraps.
  ghost predicate WellKept(cfg: DeploymentConfig, c: Coordinator) {
    && (forall r :: r in c.statistics <==> r in cfg.requiredRegimes)
    && (forall r, m | r in c.statistics :: m in c.statistics[r])
    && (forall r, m | r in c.statistics && m in c.statistics[r] ::
          && Bounded(c.statistics[r][m], MAXIMUM_DEPLOYMENT_VALUE)
          && c.statistics[r][m].count <= c.lastObservationSequence)
  }

  lemma FreshIsWellKept(cfg: DeploymentConfig, state: RunState)
    ensures WellKept(cfg, Fresh(cfg, state))
  {
    forall m: Metric ensures m in EmptyMoments() { EveryMetricListed(m); }
  }

  // ----- Evidence -------------------------------------------------------------------------

  function MetricInterval(cfg: DeploymentConfig, ms: RegimeMoments,
                          metric: Metric): Result<ConfidenceInterval, IntervalError>
    requires metric in ms
  {
    Interval(ms[metric], metric, ThresholdFor(cfg.rollbackThresholds, metric), cfg.confidenceZPPM)
  }

  ghost predicate Complete(ms: RegimeMoments) { forall m :: m in ms }

  ghost predicate Computable(cfg: DeploymentConfig, ms: RegimeMoments)
    requires Complete(ms)
  {
    forall m :: MetricInterval(cfg, ms, m).Ok?
  }

  ghost predicate Breached(cfg: DeploymentConfig, ms: RegimeMoments)
    requires Complete(ms)
  {
    exists m :: MetricInterval(cfg, ms, m).Ok? && MetricInterval(cfg, ms, m).value.triggered
  }

  ghost predicate Sufficient(cfg: DeploymentConfig, ms: RegimeMoments)
    requires Complete(ms)
  {
    forall m :: MetricInterval(cfg, ms, m).Ok? && MetricInterval(cfg, ms, m).value.enoughSamples
  }

  // Every metric in every configured regime has enough samples and none is in breach.
  ghost predicate Evidence(cfg: DeploymentConfig, c: Coordinator)
    requires WellKept(cfg, c)
  {
    forall r | r in cfg.requiredRegimes :: Sufficient(cfg, c.statistics[r]) && !Breached(cfg, c.statistics[r])
  }

  // The first metric, in the fixed metric order from k, whose interval is in breach.
  ghost function FirstBreach(cfg: DeploymentConfig, regime: Regime, ms: RegimeMoments,
                             k: nat): (t: Option<RollbackTrigger>)
    requires Complete(ms) && Computable(cfg, ms) && k <= |ALL_METRICS|
    decreases |ALL_METRICS| - k
  {
    if k == |ALL_METRICS| then None
    else
      var ci := MetricInterval(cfg, ms, ALL_METRICS[k]).value;
      if ci.triggered then Some(RollbackTrigger(ALL_METRICS[k], regime, ci))
      else FirstBreach(cfg, regime, ms, k + 1)
  }

  lemma {:induction false} FirstBreachFinds(cfg: DeploymentConfig, regime: Regime, ms: RegimeMoments, k: nat)
    requires Complete(ms) && Computable(cfg, ms) && k <= |ALL_METRICS|
    ensures FirstBreach(cfg, regime, ms, k).Some? <==>
      exists i :: k <= i < |ALL_METRICS| && MetricInterval(cfg, ms, ALL_METRICS[i]).value.triggered
    decreases |ALL_METRICS| - k
  {
    hide Interval;
    if k < |ALL_METRICS| { FirstBreachFinds(cfg, regime, ms, k + 1); }
  }

  lemma BreachedIsFirstBreach(cfg: DeploymentConfig, regime: Regime, ms: RegimeMoments)
    requires Complete(ms) && Computable(cfg, ms)
    ensures Breached(cfg, ms) <==> FirstBreach(cfg, regime, ms, 0).Some?
  {
    FirstBreachFinds(cfg, regime, ms, 0);
    if Breached(cfg, ms) {
      var m :| MetricInterval(cfg, ms, m).value.triggered;
      EveryMetricListed(m);
      var i :| 0 <= i < |ALL_METRICS| && ALL_METRICS[i] == m;
      assert MetricInterval(cfg, ms, ALL_METRICS[i]).value.triggered;
    }
  }

  lemma SameStatistics(cfg: DeploymentConfig, c: Coordinator, d: Coordinator)
    requires WellKept(cfg, c)
    requires d.statistics == c.statistics && d.lastObservationSequence == c.lastObservationSequence
    ensures WellKept(cfg, d)
    ensures Evidence(cfg, d) == Evidence(cfg, c)
  {
  }

  // ----- Observe ---------------------------------------------------------------------------

  predicate ValidObservation(cfg: DeploymentConfig, c: Coordinator, o: PairedObservation) {
    && o.sequence > c.lastObservationSequence
    && o.regime in cfg.requiredRegimes
    && ValidPair(o, cfg.productionVersion, cfg.candidateVersion)
  }

  function AddDeltas(ms: RegimeMoments, o: PairedObservation): RegimeMoments {
    map m | m in ms :: AddSample(ms[m], Delta(o, m))
  }

  function ApplyObservation(c: Coordinator, o: PairedObservation): Coordinator
    requires o.regime in c.statistics
  {
    c.(lastObservationSequence := o.sequence,
       statistics := c.statistics[o.regime := AddDeltas(c.statistics[o.regime], o)])
  }

  datatype ObserveOutcome =
    | Blocked | Invalid | AuditFailed | IntervalFailed
    | Recorded
    | Tripped(trigger: RollbackTrigger)

  // One critical section: the coordinator after it, the records it journaled, its outcome, and
  // whether the caller must now perform the rollback.
  datatype Section<+O> = Section(next: Coordinator, journaled: seq<Record>, outcome: O, mustRollBack: bool)

  // Leaving CANARY on a failure means owing a rollback; leaving SHADOW means promotion is blocked.
  function FailClosed(c: Coordinator): Coordinator {
    c.(state := if c.state.Canary? then RollbackPending else PromotionBlocked)
  }

  ghost function ObserveSection(cfg: DeploymentConfig, c: Coordinator, o: PairedObservation,
                                first: Journal, second: Journal): (s: Section<ObserveOutcome>)
    requires WellKept(cfg, c)
  {
    if !c.state.Shadow? && !c.state.Canary? then Section(c, [], Blocked, false)
    else if !ValidObservation(cfg, c, o) then Section(FailClosed(c), [], Invalid, c.state.Canary?)
    else
      var record := NewRecord(cfg, c, first, Observed(o));
      if !first.accepts(record) then Section(FailClosed(c), [], AuditFailed, c.state.Canary?)
      else
        var after := ApplyObservation(c, o);
        var ms := after.statistics[o.regime];
        if !Computable(cfg, ms) then Section(after.(state := PromotionBlocked), [record], IntervalFailed, false)
        else
          match FirstBreach(cfg, o.regime, ms, 0)
          case None => Section(after, [record], Recorded, false)
          case Some(trigger) =>
            var failed := FailClosed(after);
            var alarm := NewRecord(cfg, failed, second, Triggered(trigger));
            Section(failed, if second.accepts(alarm) then [record, alarm] else [record],
                    Tripped(trigger), c.state.Canary?)
  }

  lemma ObservationKept(cfg: DeploymentConfig, c: Coordinator, o: PairedObservation)
    requires WellKept(cfg, c) && ValidObservation(cfg, c, o)
    ensures WellKept(cfg, ApplyObservation(c, o))
  {
    hide ValidPair, Bounded, Delta;
    var after := ApplyObservation(c, o);
    forall r, m | r in after.statistics && m in after.statistics[r]
      ensures Bounded(after.statistics[r][m], MAXIMUM_DEPLOYMENT_VALUE)
      ensures after.statistics[r][m].count <= after.lastObservationSequence
    {
      if r == o.regime {
        DeltaInRange(o, cfg.productionVersion, cfg.candidateVersion, m);
        AddKeepsBounded(c.statistics[r][m], Delta(o, m), MAXIMUM_DEPLOYMENT_VALUE);
      }
    }
  }

  lemma AlwaysComputable(cfg: DeploymentConfig, c: Coordinator, r: Regime)
    requires ValidZ(cfg) && WellKept(cfg, c) && r in cfg.requiredRegimes
    ensures Complete(c.statistics[r]) && Computable(cfg, c.statistics[r])
  {
    var ms := c.statistics[r];
    forall m ensures MetricInterval(cfg, ms, m).Ok? {
      IntervalNeverFails(ms[m], m, ThresholdFor(cfg.rollbackThresholds, m), cfg.confidenceZPPM);
    }
  }

  /** The arithmetic bounds close a dangerous exit: an observation never leaves CANARY for
      PROMOTION_BLOCKED, because computing the intervals cannot fail. Every observation that
      leaves CANARY moves to ROLLBACK_PENDING and makes its caller the rollback's owner. */
  lemma ObserveFailsClosed(cfg: DeploymentConfig, c: Coordinator, o: PairedObservation, first: Journal, second: Journal)
    requires ValidZ(cfg) && WellKept(cfg, c)
    ensures var s := ObserveSection(cfg, c, o, first, second);
      && WellKept(cfg, s.next)
      && !s.outcome.IntervalFailed?
      && (c.state.Canary? ==> s.next.state.Canary? || (s.next.state.RollbackPending? && s.mustRollBack))
      && (s.mustRollBack ==> c.state.Canary? && s.next.state.RollbackPending?)
      && (c.state.Shadow? ==> s.next.state.Shadow? || s.next.state.PromotionBlocked?)
      && (!c.state.Shadow? && !c.state.Canary? ==> s.next == c && s.journaled == [])
  {
    hide ValidPair, Bounded, Interval;
    if (c.state.Shadow? || c.state.Canary?) && ValidObservation(cfg, c, o) {
      ObservationKept(cfg, c, o);
      AlwaysComputable(cfg, ApplyObservation(c, o), o.regime);
    }
  }

  lemma MoreSamplesStaySufficient(cfg: DeploymentConfig, ms: RegimeMoments, more: RegimeMoments)
    requires Complete(ms) && Complete(more) && Sufficient(cfg, ms) && Computable(cfg, more)
    requires forall m :: ms[m].count <= more[m].count
    ensures Sufficient(cfg, more)
  {
    forall m ensures MetricInterval(cfg, more, m).Ok? && MetricInterval(cfg, more, m).value.enoughSamples {
      assert MetricInterval(cfg, ms, m).Ok? && MetricInterval(cfg, ms, m).value.enoughSamples;
      assert ms[m].count <= more[m].count;
    }
  }

  lemma EvidenceGrows(cfg: DeploymentConfig, c: Coordinator, o: PairedObservation)
    requires ValidZ(cfg) && WellKept(cfg, c) && ValidObservation(cfg, c, o) && Evidence(cfg, c)
    requires WellKept(cfg, ApplyObservation(c, o))
    requires !Breached(cfg, ApplyObservation(c, o).statistics[o.regime])
    ensures Evidence(cfg, ApplyObservation(c, o))
  {
    hide ValidPair, Bounded, Interval, MetricInterval, Sufficient, Breached, Computable;
    var after := ApplyObservation(c, o);
    AlwaysComputable(cfg, after, o.regime);
    var ms, more := c.statistics[o.regime], after.statistics[o.regime];
    forall m ensures ms[m].count <= more[m].count { assert m in ms; }
    assert Sufficient(cfg, ms);
    MoreSamplesStaySufficient(cfg, ms, more);
    forall r | r in cfg.requiredRegimes
      ensures Sufficient(cfg, after.statistics[r]) && !Breached(cfg, after.statistics[r])
    {
      if r != o.regime { assert after.statistics[r] == c.statistics[r]; }
    }
  }

  lemma RecordedMeansQuiet(cfg: DeploymentConfig, c: Coordinator, o: PairedObservation, first: Journal, second: Journal)
    requires ValidZ(cfg) && WellKept(cfg, c) && c.state.Shadow?
    requires ObserveSection(cfg, c, o, first, second).next.state.Shadow?
    ensures ValidObservation(cfg, c, o) && WellKept(cfg, ApplyObservation(c, o))
    ensures ObserveSection(cfg, c, o, first, second).next == ApplyObservation(c, o)
    ensures !Breached(cfg, ApplyObservation(c, o).statistics[o.regime])
  {
    hide ValidPair, Bounded, Interval, Breached;
    ObservationKept(cfg, c, o);
    var after := ApplyObservation(c, o);
    AlwaysComputable(cfg, after, o.regime);
    BreachedIsFirstBreach(cfg, o.regime, after.statistics[o.regime]);
  }

  /** Readiness cannot be lost without leaving SHADOW: an observation that keeps the coordinator
      in SHADOW only adds samples and leaves no metric in breach. */
  lemma ReadinessSurvivesObservation(cfg: DeploymentConfig, c: Coordinator, o: PairedObservation,
                                     first: Journal, second: Journal)
    requires ValidZ(cfg) && WellKept(cfg, c) && c.state.Shadow? && Evidence(cfg, c)
    requires ObserveSection(cfg, c, o, first, second).next.state.Shadow?
    ensures WellKept(cfg, ObserveSection(cfg, c, o, first, second).next)
    ensures Evidence(cfg, ObserveSection(cfg, c, o, first, second).next)
  {
    RecordedMeansQuiet(cfg, c, o, first, second);
    EvidenceGrows(cfg, c, o);
  }

  // ----- Promotion and rollback -----------------------------------------------------------

  predicate ValidApproval(cfg: DeploymentConfig, a: CanaryApproval) {
    && BoundedText(a.actor, 128) && BoundedText(a.reason, 1024)
    && a.actor != cfg.approvedBy
    && BoundedText(a.approvalReference, 256)
    && a.configurationSHA256 == cfg.configurationSHA256
  }

  // ApproveCanary takes the lock a second time; the outcome says whether it may ask the registry.
  function LockPromotionSection(cfg: DeploymentConfig, c: Coordinator, a: CanaryApproval, io: Journal): Section<bool> {
    if !c.state.Shadow? then Section(c, [], false, false)
    else
      var pending := c.(state := PromotionPending);
      var record := NewRecord(cfg, pending, io, ApprovalRequested(a));
      if !io.accepts(record) then Section(c.(state := PromotionBlocked), [], false, false)
      else Section(pending, [record], true, false)
  }

  // The registry answered the promotion; the outcome says whether CANARY was entered.
  function FinishPromotionSection(cfg: DeploymentConfig, c: Coordinator, a: CanaryApproval, granted: bool,
                                  io: Journal): Section<bool> {
    if !granted then Section(c.(state := PromotionBlocked), [], false, false)
    else
      var canary := c.(state := Canary);
      var record := NewRecord(cfg, canary, io, CanaryActivated(a));
      if !io.accepts(record) then Section(c.(state := RollbackPending), [], true, true)
      else Section(canary, [record], true, false)
  }

  datatype RollbackAnswer = RolledBackToTarget | DisabledInstead | NeitherWorked

  function FinalState(answer: RollbackAnswer): RunState {
    match answer
    case RolledBackToTarget => RolledBack
    case DisabledInstead => DisabledFailClosed
    case NeitherWorked => DisableFailed
  }

  function FinishRollbackSection(cfg: DeploymentConfig, c: Coordinator, answer: RollbackAnswer,
                                 io: Journal): Section<RollbackAnswer> {
    var final := c.(state := FinalState(answer));
    var entry := match answer
      case RolledBackToTarget => RollbackCompleted
      case DisabledInstead => FailClosedDisable
      case NeitherWorked => FailClosedDisableFailed;
    var record := NewRecord(cfg, final, io, entry);
    Section(final, if io.accepts(record) then [record] else [], answer, false)
  }
}
