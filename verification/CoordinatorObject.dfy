/** The coordinator as the object callers share. Each method is what one call does while it holds the
    lock; it is tied to the section of the same name, and a failed journal append is told apart from a
    durable one by the journal passed in. */
module CoordinatorObject {
  import opened Results
  import opened DeploymentTypes
  import opened Statistics
  import opened Coordinator
  import Sections = Coordinator
  import opened CanaryScope
  import opened Recovery
  import Lifecycle

  class DeploymentCoordinator {
    const config: DeploymentConfig
    const window: OrderWindow
    var state: RunState
    var statistics: map<Regime, RegimeMoments>
    var lastObservationSequence: uint64
    var lastScopeSequence: uint64
    var lastScopeTimeNS: uint64

    ghost predicate Valid()
      reads this, window, window.buffer
    {
      && window.Valid()
      && config.maximumOrdersPerWindow <= window.buffer.Length
      && WellKept(config, View())
    }

    ghost function View(): Coordinator
      requires window.Valid()
      reads this, window, window.buffer
    {
      Coordinator(state, statistics, lastObservationSequence, lastScopeSequence, lastScopeTimeNS, window.Times())
    }

    constructor (config: DeploymentConfig, state: RunState)
      ensures Valid() && fresh(window) && fresh(window.buffer)
      ensures this.config == config && View() == Fresh(config, state)
    {
      this.config := config;
      this.state := state;
      this.window := new OrderWindow(config.maximumOrdersPerWindow);
      this.statistics := map r | r in config.requiredRegimes :: EmptyMoments();
      this.lastObservationSequence, this.lastScopeSequence, this.lastScopeTimeNS := 0, 0, 0;
      new;
      FreshIsWellKept(config, state);
    }

    // applyObservation: every metric of the observation's regime takes one more delta.
    method ApplyObservation(o: PairedObservation)
      requires Valid() && ValidObservation(config, View(), o)
      modifies this`statistics, this`lastObservationSequence
      ensures Valid() && View() == Sections.ApplyObservation(old(View()), o)
    {
      hide WellKept, ValidPair;
      ghost var c := View();
      ObservationKept(config, c, o);
      RegimeIsKept(config, c, o.regime);
      lastObservationSequence := o.sequence;
      var ms := AddToMetrics(statistics[o.regime], o);
      statistics := statistics[o.regime := ms];
      assert View() == Sections.ApplyObservation(c, o);
    }

    // intervalsForRegime: all ten intervals and the first breach, or nothing if one cannot be computed.
    method IntervalsForRegime(regime: Regime) returns (ok: bool, intervals: seq<ConfidenceInterval>,
                                                       trigger: Option<RollbackTrigger>)
      requires Valid() && regime in statistics
      ensures ok <==> Computable(config, statistics[regime])
      ensures ok ==> |intervals| == |ALL_METRICS| && forall i | 0 <= i < |intervals| ::
        Ok(intervals[i]) == MetricInterval(config, statistics[regime], ALL_METRICS[i])
      ensures ok ==> trigger == FirstBreach(config, regime, statistics[regime], 0)
    {
      hide WellKept, Interval, MetricInterval, FirstTriggered;
      var ms := statistics[regime];
      CompleteRegime(config, View(), regime);
      ok, intervals, trigger := true, [], None;
      NothingTriggered(regime);
      for i := 0 to |ALL_METRICS|
        invariant |intervals| == i && FirstTriggered(regime, intervals, trigger)
        invariant forall j | 0 <= j < i :: MetricInterval(config, ms, ALL_METRICS[j]) == Ok(intervals[j])
      {
        var metric := ALL_METRICS[i];
        match MetricInterval(config, ms, metric) {
          case Err(_) =>
            ok := false;
            return;
          case Ok(interval) =>
            ExtendTriggered(regime, intervals, trigger, interval);
            intervals := intervals + [interval];
            if interval.triggered && trigger.None? {
              trigger := Some(RollbackTrigger(metric, regime, interval));
            }
        }
      }
      forall m ensures MetricInterval(config, ms, m).Ok? { EveryMetricListed(m); }
      FirstTriggeredIsFirstBreach(config, regime, ms, intervals, trigger);
    }

    // One regime of Readiness: is any metric short of samples, is any in breach?
    method RegimeReadiness(regime: Regime) returns (missing: bool, breached: bool)
      requires Valid() && ValidZ(config) && regime in statistics
      ensures missing <==> !Sufficient(config, statistics[regime])
      ensures breached <==> Breached(config, statistics[regime])
    {
      hide Interval, MetricInterval, Bounded, Sufficient, Breached;
      AlwaysComputable(config, View(), regime);
      var _, intervals, trigger := IntervalsForRegime(regime);
      missing := false;
      for k := 0 to |intervals|
        invariant missing <==> exists j | 0 <= j < k :: !intervals[j].enoughSamples
      {
        if !intervals[k].enoughSamples { missing := true; }
      }
      SufficientListed(config, statistics[regime], intervals);
      BreachedIsFirstBreach(config, regime, statistics[regime]);
      breached := trigger.Some?;
    }

    // Readiness: complete evidence in every configured regime.
    method Readiness() returns (ready: bool)
      requires Valid() && ValidZ(config)
      ensures ready <==> state.Shadow? && Evidence(config, View())
    {
      hide Interval, MetricInterval, Bounded, Sufficient, Breached;
      if state != Shadow { return false; }
      var missing, reasons := false, false;
      for i := 0 to |config.requiredRegimes|
        invariant missing || reasons <==> exists j | 0 <= j < i ::
          var ms := statistics[config.requiredRegimes[j]]; !Sufficient(config, ms) || Breached(config, ms)
      {
        var short, breached := RegimeReadiness(config.requiredRegimes[i]);
        missing, reasons := missing || short, reasons || breached;
      }
      ready := !missing && !reasons;
    }

    // Observe, while it holds the lock.
    method Observe(o: PairedObservation, first: Journal, second: Journal)
      returns (outcome: ObserveOutcome, journaled: seq<Record>, mustRollBack: bool)
      requires Valid() && ValidZ(config)
      modifies this
      ensures Valid()
      ensures ObserveSection(config, old(View()), o, first, second) == Section(View(), journaled, outcome, mustRollBack)
    {
      hide ValidPair, Bounded, Interval, MetricInterval, WellKept, Computable;
      ghost var c := View();
      journaled, mustRollBack := [], false;
      if state != Shadow && state != Canary { return Blocked, journaled, mustRollBack; }
      if !ValidObservation(config, Coordinator(state, statistics, lastObservationSequence, 0, 0, []), o) {
        mustRollBack := state == Canary;
        state := if state == Canary then RollbackPending else PromotionBlocked;
        SameStatistics(config, c, View());
        return Invalid, journaled, mustRollBack;
      }
      assert ValidObservation(config, c, o);
      var record := Record(HeaderOf(config), state, first.occurredAtUTCNS, Observed(o));
      if !first.accepts(record) {
        mustRollBack := state == Canary;
        state := if state == Canary then RollbackPending else PromotionBlocked;
        SameStatistics(config, c, View());
        return AuditFailed, journaled, mustRollBack;
      }
      ApplyObservation(o);
      ghost var after := View();
      journaled := [record];
      RegimeIsKept(config, View(), o.regime);
      var ok, _, trigger := IntervalsForRegime(o.regime);
      if !ok {
        state := PromotionBlocked;
        SameStatistics(config, after, View());
        return IntervalFailed, journaled, false;
      }
      if trigger.None? { return Recorded, journaled, false; }
      mustRollBack := state == Canary;
      state := if state == Canary then RollbackPending else PromotionBlocked;
      SameStatistics(config, after, View());
      var alarm := Record(HeaderOf(config), state, second.occurredAtUTCNS, Triggered(trigger.value));
      if second.accepts(alarm) { journaled := journaled + [alarm]; }
      outcome := Tripped(trigger.value);
    }

    // The decision on a scope request in CANARY; order times expire on the way.
    method DecideScope(q: ScopeRequest) returns (decision: ScopeDecision)
      requires Valid() && |View().orderTimes| <= config.maximumOrdersPerWindow
      modifies window, window.buffer
      ensures window.Valid() && window.buffer == old(window.buffer)
      ensures decision == Decide(config, old(View()), q) && window.Times() == TimesConsidered(config, old(View()), q)
    {
      hide StructurallyValid, WellKept, Expire;
      if q.sequence <= lastScopeSequence || !StructurallyValid(q) { return Refused(InvalidRequest); }
      if lastScopeTimeNS != 0 && q.nowNS < lastScopeTimeNS { return Refused(TimeRegressed); }
      if q.nowNS < q.riskSnapshotObservedNS || q.nowNS - q.riskSnapshotObservedNS > config.maximumRiskSnapshotAgeNS {
        return Refused(RiskSnapshotStale);
      }
      if q.instrumentID !in config.allowedInstrumentIDs { return Refused(SymbolDenied); }
      if q.strategyID !in config.allowedStrategyIDs { return Refused(StrategyDenied); }
      if CapitalExceeds(config, q) { return Refused(CapitalExceeded); }
      window.ExpireOrderTimes(q.nowNS, config.orderRateWindowNS);
      if window.length >= config.maximumOrdersPerWindow { return Refused(OrderRateExceeded); }
      decision := ScopeDecision(true, Admitted,
                                config.maximumCapitalNanos - q.currentGrossCapitalNanos - q.requestedCapitalNanos,
                                config.maximumOrdersPerWindow - window.length - 1);
    }

    // AdmitCanaryScope, while it holds the lock.
    method AdmitCanaryScope(q: ScopeRequest, io: Journal)
      returns (decision: ScopeDecision, journaled: seq<Record>, mustRollBack: bool)
      requires Valid() && |View().orderTimes| <= config.maximumOrdersPerWindow
      modifies this, window, window.buffer
      ensures Valid() && window.buffer == old(window.buffer)
      ensures AdmitSection(config, old(View()), q, io) == Section(View(), journaled, decision, mustRollBack)
    {
      hide StructurallyValid, WellKept, Decide, TimesConsidered;
      ghost var c := View();
      DecisionShape(config, c, q);
      decision, journaled, mustRollBack := Refused(InvalidRequest), [], false;
      if state != Canary { return Refused(NotCanary), journaled, mustRollBack; }
      var validSequence := q.sequence > lastScopeSequence;
      var wellFormed := StructurallyValid(q);
      decision := DecideScope(q);
      var record := Record(HeaderOf(config), state, io.occurredAtUTCNS, ScopeDecided(q, decision));
      if !io.accepts(record) {
        state := RollbackPending;
        SameStatistics(config, c, View());
        return decision.(admitted := false, reason := AuditUnavailable), journaled, true;
      }
      journaled := [record];
      if validSequence && wellFormed { lastScopeSequence := q.sequence; }
      if validSequence && q.nowNS >= lastScopeTimeNS { lastScopeTimeNS := q.nowNS; }
      if decision.admitted { window.Append(q.nowNS); }
      assert View() == AfterDecision(config, c, q);
      SameStatistics(config, c, View());
    }

    // ApproveCanary's second critical section: claim the promotion.
    method LockPromotion(a: CanaryApproval, io: Journal) returns (locked: bool, journaled: seq<Record>)
      requires Valid()
      modifies this`state
      ensures Valid() && LockPromotionSection(config, old(View()), a, io) == Section(View(), journaled, locked, false)
    {
      hide WellKept;
      ghost var c := View();
      journaled := [];
      if !state.Shadow? { return false, journaled; }
      state := PromotionPending;
      SameStatistics(config, c, View());
      var record := Record(HeaderOf(config), state, io.occurredAtUTCNS, ApprovalRequested(a));
      if !io.accepts(record) {
        state := PromotionBlocked;
        SameStatistics(config, c, View());
        return false, journaled;
      }
      return true, [record];
    }

    // ApproveCanary's third critical section: the registry has answered.
    method FinishPromotion(a: CanaryApproval, granted: bool, io: Journal)
      returns (entered: bool, journaled: seq<Record>, mustRollBack: bool)
      requires Valid()
      modifies this`state
      ensures Valid()
        && FinishPromotionSection(config, old(View()), a, granted, io) ==
          Section(View(), journaled, entered, mustRollBack)
    {
      hide WellKept;
      ghost var c := View();
      journaled := [];
      if !granted {
        state := PromotionBlocked;
        SameStatistics(config, c, View());
        return false, journaled, false;
      }
      state := Canary;
      SameStatistics(config, c, View());
      var record := Record(HeaderOf(config), state, io.occurredAtUTCNS, CanaryActivated(a));
      if !io.accepts(record) {
        state := RollbackPending;
        SameStatistics(config, c, View());
        return true, journaled, true;
      }
      return true, [record], false;
    }

    // performRollback's last critical section: the registry rolled back, or was disabled, or neither.
    method FinishRollback(answer: RollbackAnswer, io: Journal) returns (journaled: seq<Record>)
      requires Valid()
      modifies this`state
      ensures Valid()
        && FinishRollbackSection(config, old(View()), answer, io) == Section(View(), journaled, answer, false)
    {
      hide WellKept;
      ghost var c := View();
      var entry;
      match answer {
        case RolledBackToTarget => state, entry := RolledBack, RollbackCompleted;
        case DisabledInstead => state, entry := DisabledFailClosed, FailClosedDisable;
        case NeitherWorked => state, entry := DisableFailed, FailClosedDisableFailed;
      }
      SameStatistics(config, c, View());
      var record := Record(HeaderOf(config), state, io.occurredAtUTCNS, entry);
      journaled := if io.accepts(record) then [record] else [];
    }

    // restore's scope case.
    method RestoreScope(q: ScopeRequest, decision: ScopeDecision) returns (restored: bool)
      requires Valid()
      modifies this, window, window.buffer
      ensures Valid() && (window.buffer == old(window.buffer) || fresh(window.buffer))
      ensures var c := old(View());
        && restored == !(q.sequence <= c.lastScopeSequence || q.nowNS < c.lastScopeTimeNS)
        && View() == if !restored then c else c.(
             lastScopeSequence := q.sequence, lastScopeTimeNS := q.nowNS,
             orderTimes := Expire(c.orderTimes, q.nowNS, config.orderRateWindowNS)
                           + if decision.admitted then [q.nowNS] else [])
    {
      hide WellKept, Expire;
      ghost var c := View();
      if q.sequence <= lastScopeSequence || q.nowNS < lastScopeTimeNS { return false; }
      window.ExpireOrderTimes(q.nowNS, config.orderRateWindowNS);
      lastScopeSequence, lastScopeTimeNS := q.sequence, q.nowNS;
      if decision.admitted { window.Append(q.nowNS); }
      SameStatistics(config, c, View());
      restored := true;
    }

    // One iteration of restore's loop.
    method RestoreRecord(r: Record) returns (refusal: Option<RestoreError>)
      requires Valid()
      modifies this, window, window.buffer
      ensures Valid() && (window.buffer == old(window.buffer) || fresh(window.buffer))
      ensures match Recovery.RestoreRecord(config, old(View()), r)
              case Ok(c) => refusal.None? && View() == c
              case Err(e) => refusal == Some(e)
    {
      hide WellKept, ValidRecord, ValidPair, Expire, Sections.ApplyObservation;
      ghost var c := View();
      if r.header != HeaderOf(config) { return Some(WrongDeployment); }
      if !ValidRecord(r) { return Some(MalformedRecord); }
      match r.entry {
        case Observed(o) =>
          if !ValidObservation(config, Coordinator(state, statistics, lastObservationSequence, 0, 0, []), o) {
            return Some(BadObservation);
          }
          RegimeIsKept(config, c, o.regime);
          ApplyObservation(o);
        case ScopeDecided(q, decision) =>
          var restored := RestoreScope(q, decision);
          if !restored { return Some(RegressedScope); }
        case _ =>
      }
      ghost var applied := View();
      state := r.state;
      SameStatistics(config, applied, View());
      refusal := None;
    }

    // restore: replay every journaled record into a coordinator that was just constructed.
    method Restore(records: seq<Record>, registryState: RunState) returns (refusal: Option<RestoreError>)
      requires Valid() && View() == Fresh(config, registryState)
      modifies this, window, window.buffer
      ensures Valid()
      ensures match Recovery.Restore(config, records, registryState)
              case Ok(c) => refusal.None? && View() == c
              case Err(e) => refusal == Some(e)
    {
      hide WellKept, Fresh, Recovery.RestoreRecord;
      ghost var start := Fresh(config, registryState);
      for i := 0 to |records|
        invariant Valid() && (window.buffer == old(window.buffer) || fresh(window.buffer))
        invariant RestoreAll(config, start, records[..i]) == Ok(View())
      {
        assert records[..i + 1][..i] == records[..i];
        refusal := RestoreRecord(records[i]);
        if refusal.Some? {
          FirstErrorDecides(config, start, records, i + 1);
          return;
        }
      }
      assert records[..|records|] == records;
      if registryState == Canary && state != Canary && state != RollbackPending { return Some(RegistryMismatch); }
      if registryState == Shadow && (state == Canary || state == RollbackPending) { return Some(RegistryMismatch); }
      return None;
    }
  }

  // What the registry says of one version.
  datatype VersionStatus = VersionStatus(stage: Lifecycle.Stage, approval: Lifecycle.Approval,
                                         activeEnvironments: seq<string>)

  // The state the registry puts a new coordinator in, if it may be opened at all.
  function StateFromRegistry(config: DeploymentConfig, candidate: VersionStatus,
                             production: VersionStatus): Option<RunState> {
    if !production.approval.Approved? || !production.stage.Production? then None
    else if candidate.stage.CanaryStage? && config.canaryEnvironment in candidate.activeEnvironments then Some(Canary)
    else if candidate.stage.ShadowStage? && config.shadowEnvironment in candidate.activeEnvironments then Some(Shadow)
    else None
  }

  datatype OpenError = RegistryRefused | NoReadableAudit | NotRestored(error: RestoreError)

  // The coordinator on values that opening yields: restored if the sink can be read back, or else new, but
  // never a new one in CANARY.
  function Opening(config: DeploymentConfig, candidate: VersionStatus, production: VersionStatus,
                   records: Option<seq<Record>>)
    : Result<Coordinator, OpenError>
  {
    match StateFromRegistry(config, candidate, production)
    case None => Err(RegistryRefused)
    case Some(state) =>
      match records
      case None => if state.Canary? then Err(NoReadableAudit) else Ok(Fresh(config, state))
      case Some(list) =>
        match Recovery.Restore(config, list, state)
        case Err(e) => Err(NotRestored(e))
        case Ok(c) => Ok(c)
  }

  // NewDeploymentCoordinator, for a verified configuration and loaded versions.
  method NewDeploymentCoordinator(
    config: DeploymentConfig, candidate: VersionStatus, production: VersionStatus, records: Option<seq<Record>>)
    returns (result: Result<DeploymentCoordinator, OpenError>)
    ensures result.Ok? ==> fresh(result.value) && result.value.Valid() && result.value.config == config
    ensures match Opening(config, candidate, production, records)
            case Err(e) => result == Err(e)
            case Ok(c) => result.Ok? && result.value.View() == c
  {
    hide Recovery.Restore, Fresh;
    if !production.approval.Approved? || !production.stage.Production? { return Err(RegistryRefused); }
    var state, required := Shadow, config.shadowEnvironment;
    if candidate.stage.CanaryStage? {
      state, required := Canary, config.canaryEnvironment;
    } else if !candidate.stage.ShadowStage? {
      return Err(RegistryRefused);
    }
    if required !in candidate.activeEnvironments { return Err(RegistryRefused); }
    var coordinator := new DeploymentCoordinator(config, state);
    if records.Some? {
      var refusal := coordinator.Restore(records.value, state);
      if refusal.Some? { return Err(NotRestored(refusal.value)); }
    } else if state == Canary {
      return Err(NoReadableAudit);
    }
    result := Ok(coordinator);
  }

  method AddToMetrics(before: RegimeMoments, o: PairedObservation) returns (ms: RegimeMoments)
    requires Complete(before)
    ensures ms == AddDeltas(before, o)
  {
    ms := before;
    for i := 0 to |ALL_METRICS|
      invariant ms.Keys == before.Keys
      invariant forall j | 0 <= j < i ::
        ms[ALL_METRICS[j]] == AddSample(before[ALL_METRICS[j]], Delta(o, ALL_METRICS[j]))
      invariant forall j | i <= j < |ALL_METRICS| :: ms[ALL_METRICS[j]] == before[ALL_METRICS[j]]
    {
      var metric := ALL_METRICS[i];
      MetricsAreDistinct(i);
      ms := ms[metric := AddSample(ms[metric], Delta(o, metric))];
    }
    forall m | m in before ensures ms[m] == AddSample(before[m], Delta(o, m)) { EveryMetricListed(m); }
  }

  // The trigger is the first breach among the intervals of the first metrics.
  ghost predicate FirstTriggered(regime: Regime, intervals: seq<ConfidenceInterval>, trigger: Option<RollbackTrigger>) {
    && |intervals| <= |ALL_METRICS|
    && match trigger
       case None => forall j | 0 <= j < |intervals| :: !intervals[j].triggered
       case Some(t) => exists j | 0 <= j < |intervals| ::
         && intervals[j].triggered && (forall k | 0 <= k < j :: !intervals[k].triggered)
         && t == RollbackTrigger(ALL_METRICS[j], regime, intervals[j])
  }

  // There is room for an admitted order in the buffer.
  lemma DecisionShape(cfg: DeploymentConfig, c: Coordinator, q: ScopeRequest)
    ensures Decide(cfg, c, q).admitted ==> |TimesConsidered(cfg, c, q)| < cfg.maximumOrdersPerWindow
  {
    hide StructurallyValid, Expire;
  }

  lemma NothingTriggered(regime: Regime)
    ensures FirstTriggered(regime, [], None)
  {
  }

  lemma ExtendTriggered(regime: Regime, intervals: seq<ConfidenceInterval>, trigger: Option<RollbackTrigger>,
                        next: ConfidenceInterval)
    requires FirstTriggered(regime, intervals, trigger) && |intervals| < |ALL_METRICS|
    ensures FirstTriggered(
      regime, intervals + [next],
      if next.triggered && trigger.None? then Some(RollbackTrigger(ALL_METRICS[|intervals|], regime, next))
      else trigger)
  {
    var longer := intervals + [next];
    if trigger.Some? {
      var j :| 0 <= j < |intervals| && intervals[j].triggered && (forall k | 0 <= k < j :: !intervals[k].triggered)
               && trigger.value == RollbackTrigger(ALL_METRICS[j], regime, intervals[j]);
      assert longer[j].triggered && trigger.value == RollbackTrigger(ALL_METRICS[j], regime, longer[j]);
    } else if next.triggered {
      assert longer[|intervals|].triggered;
    }
  }

  lemma FirstTriggeredIsFirstBreach(
    cfg: DeploymentConfig, regime: Regime, ms: RegimeMoments, intervals: seq<ConfidenceInterval>,
    trigger: Option<RollbackTrigger>)
    requires Complete(ms) && Computable(cfg, ms) && |intervals| == |ALL_METRICS|
      && FirstTriggered(regime, intervals, trigger)
    requires forall i | 0 <= i < |intervals| :: MetricInterval(cfg, ms, ALL_METRICS[i]) == Ok(intervals[i])
    ensures trigger == FirstBreach(cfg, regime, ms, 0)
  {
    hide Interval, MetricInterval, FirstBreach;
    FirstBreachIs(cfg, regime, ms, intervals, 0);
  }

  lemma CompleteRegime(cfg: DeploymentConfig, c: Coordinator, r: Regime)
    requires WellKept(cfg, c) && r in c.statistics
    ensures Complete(c.statistics[r])
  {
  }

  lemma RegimeIsKept(cfg: DeploymentConfig, c: Coordinator, r: Regime)
    requires WellKept(cfg, c) && r in cfg.requiredRegimes
    ensures r in c.statistics && Complete(c.statistics[r])
  {
  }

  lemma MetricsAreDistinct(i: nat)
    requires i < |ALL_METRICS|
    ensures forall j | 0 <= j < |ALL_METRICS| && j != i :: ALL_METRICS[j] != ALL_METRICS[i]
  {
  }

  lemma {:induction false} FirstBreachIs(cfg: DeploymentConfig, regime: Regime, ms: RegimeMoments,
                                         intervals: seq<ConfidenceInterval>, k: nat)
    requires Complete(ms) && Computable(cfg, ms) && k <= |intervals| == |ALL_METRICS|
    requires forall i | 0 <= i < |intervals| :: MetricInterval(cfg, ms, ALL_METRICS[i]) == Ok(intervals[i])
    ensures (forall i | k <= i < |intervals| :: !intervals[i].triggered) ==> FirstBreach(cfg, regime, ms, k).None?
    ensures forall j | k <= j < |intervals| && intervals[j].triggered
      && (forall i | k <= i < j :: !intervals[i].triggered) ::
      FirstBreach(cfg, regime, ms, k) == Some(RollbackTrigger(ALL_METRICS[j], regime, intervals[j]))
    decreases |intervals| - k
  {
    hide Interval, MetricInterval;
    if k < |intervals| {
      FirstBreachIs(cfg, regime, ms, intervals, k + 1);
      assert MetricInterval(cfg, ms, ALL_METRICS[k]) == Ok(intervals[k]);
    }
  }

  lemma SufficientListed(cfg: DeploymentConfig, ms: RegimeMoments, intervals: seq<ConfidenceInterval>)
    requires Complete(ms) && Computable(cfg, ms) && |intervals| == |ALL_METRICS|
    requires forall i | 0 <= i < |intervals| :: MetricInterval(cfg, ms, ALL_METRICS[i]) == Ok(intervals[i])
    ensures Sufficient(cfg, ms) <==> forall i | 0 <= i < |intervals| :: intervals[i].enoughSamples
  {
    hide Interval, MetricInterval;
    if forall i | 0 <= i < |intervals| :: intervals[i].enoughSamples {
      forall m ensures MetricInterval(cfg, ms, m).Ok? && MetricInterval(cfg, ms, m).value.enoughSamples {
        EveryMetricListed(m);
        var i :| 0 <= i < |ALL_METRICS| && ALL_METRICS[i] == m;
        assert MetricInterval(cfg, ms, ALL_METRICS[i]) == Ok(intervals[i]);
      }
    }
    if Sufficient(cfg, ms) {
      forall i | 0 <= i < |intervals| ensures intervals[i].enoughSamples {
        assert MetricInterval(cfg, ms, ALL_METRICS[i]) == Ok(intervals[i]);
      }
    }
  }
}
