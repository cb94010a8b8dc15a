/** For every valid configuration some run reaches CANARY: enough quiet observations in every regime, then
    one approval that the registry grants. */
module Reachability {
  import opened Text
  import opened DeploymentTypes
  import opened Statistics
  import opened Coordinator
  import opened CanaryScope
  import opened Interleaving
  import opened Recovery
  import opened Restart

  // Every threshold asks for at most this many samples.
  const ENOUGH: nat := 1_000_000

  // ----- Quiet observations ------------------------------------------------------------------------------

  function QuietSample(version: string): ForecastSample {
    ForecastSample("a", version, "a", seq(64, _ => '0'), 1, 1, 1, Abstain, 0,
                   ForecastMetrics(0, 0, 0, 0, 0, 0, 0, 0, 0))
  }

  // Production and candidate behave alike.
  function QuietObservation(cfg: DeploymentConfig, sequence: uint64, regime: Regime): PairedObservation {
    PairedObservation(sequence, "a", "a", regime, 1, QuietSample(cfg.productionVersion),
                      QuietSample(cfg.candidateVersion))
  }

  lemma QuietIsValid(cfg: DeploymentConfig, sequence: uint64, regime: Regime)
    requires sequence != 0 && !regime.UnknownRegime?
    ensures ValidPair(QuietObservation(cfg, sequence, regime), cfg.productionVersion, cfg.candidateVersion)
    ensures forall m :: Delta(QuietObservation(cfg, sequence, regime), m) == 0
  {
    assert ValidIdentifier("a") && Hex64(seq(64, _ => '0'));
  }

  ghost predicate Zero(m: Moments) { m.sum == 0 && m.sumSquares == 0 }

  lemma ZeroNeverTriggers(m: Moments, metric: Metric, t: Threshold, z: nat)
    requires Zero(m) && Bounded(m, MAXIMUM_DEPLOYMENT_VALUE) && ValidThreshold(t) && 1_000_000 <= z <= 5_000_000
    ensures Interval(m, metric, t, z).Ok? && !Interval(m, metric, t, z).value.triggered
    ensures Interval(m, metric, t, z).value.enoughSamples == (t.minimumSamples <= m.count)
  {
    IntervalNeverFails(m, metric, t, z);
    TriggeredExactly(m, metric, t, z);
    if m.count > 0 { ZeroUpperBound(m, metric, t, z); }
  }

  lemma ZeroUpperBound(m: Moments, metric: Metric, t: Threshold, z: nat)
    requires Zero(m) && m.count > 0 && Interval(m, metric, t, z).Ok?
    ensures Interval(m, metric, t, z).value.upperBound == 0
  {
    CeilOfZero(m.count);
    CeilOfZero(PARTS_PER_MILLION);
    if m.count >= 2 {
      StandardErrorIsLeast(m);
      assert StandardError(m) == 0;
    }
  }

  lemma CeilOfZero(b: int)
    requires b > 0
    ensures CeilDiv(0, b) == 0
  {
    var q := CeilDiv(0, b);
    CancelPositive(-1, q, b);
    CancelPositive(q - 1, 0, b);
  }

  // ----- Feeding them ---------------------------------------------------------------------------------------

  // Nothing but quiet observations so far: SHADOW, nobody busy, and no delta was ever anything but zero.
  ghost predicate Quiet(cfg: DeploymentConfig, sys: System) {
    && sys.c.state.Shadow? && At(sys, 0).Idle? && WellKept(cfg, sys.c)
    && (forall r, m | r in sys.c.statistics && m in sys.c.statistics[r] :: Zero(sys.c.statistics[r][m]))
  }

  ghost predicate Fed(sys: System, r: Regime, n: nat) {
    r in sys.c.statistics && forall m | m in sys.c.statistics[r] :: sys.c.statistics[r][m].count >= n
  }

  // The next quiet observation of a run.
  ghost function NextObservation(cfg: DeploymentConfig, sys: System, r: Regime): Turn
    requires sys.c.lastObservationSequence < UINT64_LIMIT - 1
  {
    Observe(0, QuietObservation(cfg, sys.c.lastObservationSequence + 1, r), Sink(1), Sink(1))
  }

  lemma QuietIsAccepted(cfg: DeploymentConfig, c: Coordinator, o: PairedObservation)
    requires ValidConfig(cfg) && ValidPair(o, cfg.productionVersion, cfg.candidateVersion)
    ensures Sink(1).accepts(NewRecord(cfg, c, Sink(1), Observed(o)))
  {
    hide ValidIdentifier, ValidSemantic, Hex64, Distinct, ValidStringSet, Blank, ValidPair;
  }

  lemma QuietNeverBreaches(cfg: DeploymentConfig, ms: RegimeMoments)
    requires ValidConfig(cfg) && Complete(ms)
    requires forall m :: Zero(ms[m]) && Bounded(ms[m], MAXIMUM_DEPLOYMENT_VALUE)
    ensures Computable(cfg, ms) && !Breached(cfg, ms)
    ensures (forall m :: ms[m].count >= ENOUGH) ==> Sufficient(cfg, ms)
  {
    ConfigFacts(cfg);
    forall m
      ensures MetricInterval(cfg, ms, m).Ok? && !MetricInterval(cfg, ms, m).value.triggered
      ensures ms[m].count >= ENOUGH ==> MetricInterval(cfg, ms, m).value.enoughSamples
    {
      EveryMetricHasThreshold(cfg, m);
      ZeroNeverTriggers(ms[m], m, ThresholdFor(cfg.rollbackThresholds, m), cfg.confidenceZPPM);
    }
  }

  lemma QuietObservationIsRecorded(cfg: DeploymentConfig, sys: System, r: Regime)
    requires ValidConfig(cfg) && Quiet(cfg, sys) && r in cfg.requiredRegimes
      && sys.c.lastObservationSequence < UINT64_LIMIT - 1
    ensures var o := NextObservation(cfg, sys, r).observation;
      && WellKept(cfg, ApplyObservation(sys.c, o))
      && ObserveSection(cfg, sys.c, o, Sink(1), Sink(1)).next == ApplyObservation(sys.c, o)
      && !ObserveSection(cfg, sys.c, o, Sink(1), Sink(1)).mustRollBack
      && forall x, m | x in sys.c.statistics && m in sys.c.statistics[x] ::
           Zero(ApplyObservation(sys.c, o).statistics[x][m])
  {
    hide ValidPair, Bounded, Interval, ValidRecord, Computable, Breached, Delta, Distinct, ValidStringSet,
         ValidIdentifier;
    var o := NextObservation(cfg, sys, r).observation;
    assert !r.UnknownRegime? by {
      var i :| 0 <= i < |cfg.requiredRegimes| && cfg.requiredRegimes[i] == r;
    }
    QuietIsValid(cfg, o.sequence, r);
    QuietIsAccepted(cfg, sys.c, o);
    ObservationKept(cfg, sys.c, o);
    var after := ApplyObservation(sys.c, o);
    var ms := after.statistics[r];
    assert Complete(ms);
    QuietNeverBreaches(cfg, ms);
    BreachedIsFirstBreach(cfg, r, ms);
    hide ValidConfig, ObserveSection, FirstBreach, NewRecord, Sink;
    UnbreachedIsRecorded(cfg, sys.c, o);
  }

  lemma UnbreachedIsRecorded(cfg: DeploymentConfig, c: Coordinator, o: PairedObservation)
    requires WellKept(cfg, c) && c.state.Shadow? && ValidObservation(cfg, c, o) && o.regime in c.statistics
    requires Sink(1).accepts(NewRecord(cfg, c, Sink(1), Observed(o)))
    requires var ms := ApplyObservation(c, o).statistics[o.regime];
      Complete(ms) && Computable(cfg, ms) && FirstBreach(cfg, o.regime, ms, 0).None?
    ensures var s := ObserveSection(cfg, c, o, Sink(1), Sink(1)); s.next == ApplyObservation(c, o) && !s.mustRollBack
  {
    hide WellKept, ValidObservation, Computable, FirstBreach, NewRecord, Sink;
  }

  // What one more quiet observation leaves.
  ghost predicate FedOneMore(sys: System, next: System, r: Regime) {
    && next.c.lastObservationSequence == sys.c.lastObservationSequence + 1
    && next.c.statistics.Keys == sys.c.statistics.Keys
    && (forall x, m | x in sys.c.statistics && m in sys.c.statistics[x] ::
          && m in next.c.statistics[x]
          && next.c.statistics[x][m].count >= sys.c.statistics[x][m].count + if x == r then 1 else 0)
    && (forall x, m | x in next.c.statistics && m in next.c.statistics[x] ::
          x in sys.c.statistics && m in sys.c.statistics[x])
  }

  lemma CountsGrow(cfg: DeploymentConfig, sys: System, next: System, o: PairedObservation)
    requires WellKept(cfg, sys.c) && o.regime in sys.c.statistics && next.c == ApplyObservation(sys.c, o)
    requires o.sequence == sys.c.lastObservationSequence + 1
    ensures FedOneMore(sys, next, o.regime)
  {
    hide WellKept, Delta;
    forall m | m in sys.c.statistics[o.regime]
      ensures AddSample(sys.c.statistics[o.regime][m], Delta(o, m)).count == sys.c.statistics[o.regime][m].count + 1
    {
      CountIsBelowSequence(cfg, sys.c, o.regime, m);
    }
  }

  lemma CountIsBelowSequence(cfg: DeploymentConfig, c: Coordinator, r: Regime, m: Metric)
    requires WellKept(cfg, c) && r in c.statistics && m in c.statistics[r]
    ensures c.statistics[r][m].count <= c.lastObservationSequence
  {
  }

  lemma StepFeeds(cfg: DeploymentConfig, sys: System, r: Regime)
    requires ValidConfig(cfg) && Quiet(cfg, sys) && r in cfg.requiredRegimes
      && sys.c.lastObservationSequence < UINT64_LIMIT - 1
    ensures var next := Step(cfg, sys, NextObservation(cfg, sys, r)); Quiet(cfg, next) && FedOneMore(sys, next, r)
  {
    QuietObservationIsRecorded(cfg, sys, r);
    RegimeHasMoments(cfg, sys.c, r);
    hide ValidConfig, ObserveSection, ApplyObservation, QuietObservation, WellKept;
    var next, o := Step(cfg, sys, NextObservation(cfg, sys, r)), NextObservation(cfg, sys, r).observation;
    assert next.c == ApplyObservation(sys.c, o);
    CountsGrow(cfg, sys, next, o);
  }

  // A run of turns on validating journals.
  ghost predicate Reaches(cfg: DeploymentConfig, turns: seq<Turn>, sys: System)
    requires ValidZ(cfg)
  {
    AllValidate(turns) && Run(cfg, turns) == sys
  }

  lemma ReachesNext(cfg: DeploymentConfig, turns: seq<Turn>, sys: System, turn: Turn)
    requires ValidZ(cfg) && Reaches(cfg, turns, sys) && SinkValidates(turn) && WellKept(cfg, sys.c)
    ensures Reaches(cfg, turns + [turn], Step(cfg, sys, turn))
  {
    hide Run, Step, SinkValidates, WellKept;
    RunExtends(cfg, turns, turn);
    ValidateExtends(turns, turn);
  }

  lemma FedMore(sys: System, next: System, r: Regime, x: Regime, n: nat)
    requires FedOneMore(sys, next, r) && Fed(sys, x, n)
    ensures Fed(next, x, if x == r then n + 1 else n)
  {
  }

  lemma {:induction false} FeedRegime(cfg: DeploymentConfig, turns: seq<Turn>, sys: System, r: Regime, n: nat)
    returns (more: seq<Turn>, next: System)
    requires ValidConfig(cfg) && ValidZ(cfg) && Reaches(cfg, turns, sys) && Quiet(cfg, sys) && r in cfg.requiredRegimes
    requires sys.c.lastObservationSequence + n < UINT64_LIMIT
    ensures Reaches(cfg, more, next) && Quiet(cfg, next) && Fed(next, r, n)
    ensures next.c.lastObservationSequence == sys.c.lastObservationSequence + n
    ensures forall x | Fed(sys, x, ENOUGH) :: Fed(next, x, ENOUGH)
  {
    hide ValidConfig, Reaches, Quiet, Step, Fed, FedOneMore;
    if n == 0 {
      more, next := turns, sys;
      NothingFed(cfg, sys, r);
    } else {
      var fed, mid := FeedRegime(cfg, turns, sys, r, n - 1);
      var turn := NextObservation(cfg, mid, r);
      QuietFacts(cfg, mid);
      more, next := fed + [turn], Step(cfg, mid, turn);
      ReachesNext(cfg, fed, mid, turn);
      StepFeeds(cfg, mid, r);
      FedMore(mid, next, r, r, n - 1);
      forall x | Fed(sys, x, ENOUGH) ensures Fed(next, x, ENOUGH) {
        FedMore(mid, next, r, x, ENOUGH);
        FedEnough(next, x);
      }
      CountedOneMore(mid, next, r);
    }
  }

  lemma QuietFacts(cfg: DeploymentConfig, sys: System)
    requires Quiet(cfg, sys)
    ensures sys.c.state.Shadow? && At(sys, 0).Idle? && WellKept(cfg, sys.c)
  {
  }

  lemma CountedOneMore(sys: System, next: System, r: Regime)
    requires FedOneMore(sys, next, r)
    ensures next.c.lastObservationSequence == sys.c.lastObservationSequence + 1
  {
  }

  lemma FedEnough(sys: System, x: Regime)
    requires Fed(sys, x, ENOUGH) || Fed(sys, x, ENOUGH + 1)
    ensures Fed(sys, x, ENOUGH)
  {
  }

  lemma NothingFed(cfg: DeploymentConfig, sys: System, r: Regime)
    requires Quiet(cfg, sys) && r in cfg.requiredRegimes
    ensures Fed(sys, r, 0)
  {
    hide Bounded;
    RegimeHasMoments(cfg, sys.c, r);
  }

  lemma {:induction false} FeedRegimes(cfg: DeploymentConfig, k: nat) returns (turns: seq<Turn>, sys: System)
    requires ValidConfig(cfg) && ValidZ(cfg) && k <= |cfg.requiredRegimes| <= 16
    ensures Reaches(cfg, turns, sys) && Quiet(cfg, sys)
    ensures sys.c.lastObservationSequence == k * ENOUGH
    ensures forall i | 0 <= i < k :: Fed(sys, cfg.requiredRegimes[i], ENOUGH)
  {
    hide ValidConfig, Fed, Reaches, Quiet;
    if k == 0 {
      turns, sys := [], Run(cfg, []);
      NothingYet(cfg);
    } else {
      var earlier, mid := FeedRegimes(cfg, k - 1);
      turns, sys := FeedRegime(cfg, earlier, mid, cfg.requiredRegimes[k - 1], ENOUGH);
    }
  }

  lemma NothingYet(cfg: DeploymentConfig)
    requires ValidZ(cfg)
    ensures Reaches(cfg, [], Run(cfg, [])) && Quiet(cfg, Run(cfg, []))
    ensures Run(cfg, []).c.lastObservationSequence == 0
  {
    hide Bounded;
    FreshIsWellKept(cfg, Shadow);
  }

  // ----- Promotion -----------------------------------------------------------------------------------------

  // An approval by somebody else than the configuration's approver.
  function SomeApproval(cfg: DeploymentConfig): CanaryApproval {
    CanaryApproval(if cfg.approvedBy == "a" then "b" else "a", "a", "a", cfg.configurationSHA256)
  }

  lemma ApprovalIsValid(cfg: DeploymentConfig, c: Coordinator)
    requires ValidConfig(cfg)
    ensures ValidApproval(cfg, SomeApproval(cfg))
    ensures Sink(1).accepts(NewRecord(cfg, c, Sink(1), ApprovalRequested(SomeApproval(cfg))))
    ensures Sink(1).accepts(NewRecord(cfg, c, Sink(1), CanaryActivated(SomeApproval(cfg))))
  {
    hide ValidIdentifier, ValidSemantic, Hex64, Distinct, ValidStringSet;
    assert !Blank("a") && !Blank("b") by { assert !Space("a"[0]) && !Space("b"[0]); }
  }

  lemma FedIsEvidence(cfg: DeploymentConfig, sys: System)
    requires ValidConfig(cfg) && Quiet(cfg, sys)
    requires forall i | 0 <= i < |cfg.requiredRegimes| :: Fed(sys, cfg.requiredRegimes[i], ENOUGH)
    ensures Evidence(cfg, sys.c)
  {
    hide ValidConfig, Sufficient, Breached, Computable, Bounded;
    forall r | r in cfg.requiredRegimes
      ensures Sufficient(cfg, sys.c.statistics[r]) && !Breached(cfg, sys.c.statistics[r]) {
      var i :| 0 <= i < |cfg.requiredRegimes| && cfg.requiredRegimes[i] == r;
      assert Fed(sys, cfg.requiredRegimes[i], ENOUGH);
      assert Complete(sys.c.statistics[r]);
      QuietNeverBreaches(cfg, sys.c.statistics[r]);
    }
  }

  lemma ReadyStep(cfg: DeploymentConfig, sys: System, a: CanaryApproval)
    requires WellKept(cfg, sys.c) && sys.c.state.Shadow? && At(sys, 0).Idle? && Evidence(cfg, sys.c)
      && ValidApproval(cfg, a)
    ensures Step(cfg, sys, CheckReadiness(0, a)) == Move(sys, 0, SawReady(a))
  {
    hide WellKept, Evidence, ValidApproval;
  }

  lemma LockStep(cfg: DeploymentConfig, sys: System, a: CanaryApproval)
    requires WellKept(cfg, sys.c) && sys.c.state.Shadow? && At(sys, 0) == SawReady(a)
    requires Sink(1).accepts(NewRecord(cfg, sys.c.(state := PromotionPending), Sink(1), ApprovalRequested(a)))
    ensures var next, c := Step(cfg, sys, LockPromotion(0, Sink(1))), sys.c.(state := PromotionPending);
      && next.c == c && At(next, 0) == AskingRegistry(a)
      && next.journal == sys.journal + [NewRecord(cfg, c, Sink(1), ApprovalRequested(a))]
  {
    hide WellKept, ValidRecord;
  }

  lemma AskStep(cfg: DeploymentConfig, sys: System, a: CanaryApproval)
    requires WellKept(cfg, sys.c) && At(sys, 0) == AskingRegistry(a)
    ensures var next := Step(cfg, sys, AskPromotion(0, true));
      next.c == sys.c && next.journal == sys.journal && At(next, 0) == RegistryAnswered(a, true)
  {
    hide WellKept;
  }

  lemma FinishStep(cfg: DeploymentConfig, sys: System, a: CanaryApproval)
    requires WellKept(cfg, sys.c) && At(sys, 0) == RegistryAnswered(a, true)
    requires Sink(1).accepts(NewRecord(cfg, sys.c.(state := Canary), Sink(1), CanaryActivated(a)))
    ensures var next, c := Step(cfg, sys, FinishPromotion(0, Sink(1))), sys.c.(state := Canary);
      && next.c == c && At(next, 0).Idle?
      && next.journal == sys.journal + [NewRecord(cfg, c, Sink(1), CanaryActivated(a))]
  {
    hide WellKept, ValidRecord;
  }

  // Readiness, lock, registry and activation, one turn each.
  lemma Promote(cfg: DeploymentConfig, turns: seq<Turn>, sys: System) returns (more: seq<Turn>, next: System)
    requires ValidConfig(cfg) && ValidZ(cfg) && Reaches(cfg, turns, sys) && WellKept(cfg, sys.c)
    requires sys.c.state.Shadow? && At(sys, 0).Idle? && Evidence(cfg, sys.c)
    ensures Reaches(cfg, more, next) && next.c.state.Canary? && At(next, 0).Idle?
    ensures ScopeRequests(next.journal) == ScopeRequests(sys.journal)
  {
    hide ValidConfig, Reaches, WellKept, Evidence, ValidApproval, Step, ValidRecord, ScopeRequests, NewRecord;
    var a, io := SomeApproval(cfg), Sink(1);
    var pending, canary := sys.c.(state := PromotionPending), sys.c.(state := Canary);
    ApprovalIsValid(cfg, pending);
    ApprovalIsValid(cfg, canary);
    SameStatistics(cfg, sys.c, pending);
    ReadyStep(cfg, sys, a);
    var s1 := Step(cfg, sys, CheckReadiness(0, a));
    more := turns + [CheckReadiness(0, a)];
    ReachesNext(cfg, turns, sys, CheckReadiness(0, a));
    LockStep(cfg, s1, a);
    var s2 := Step(cfg, s1, LockPromotion(0, io));
    ReachesNext(cfg, more, s1, LockPromotion(0, io));
    more := more + [LockPromotion(0, io)];
    AskStep(cfg, s2, a);
    var s3 := Step(cfg, s2, AskPromotion(0, true));
    ReachesNext(cfg, more, s2, AskPromotion(0, true));
    more := more + [AskPromotion(0, true)];
    FinishStep(cfg, s3, a);
    next := Step(cfg, s3, FinishPromotion(0, io));
    ReachesNext(cfg, more, s3, FinishPromotion(0, io));
    more := more + [FinishPromotion(0, io)];
    PromotionAddsNoScope(cfg, sys.journal, pending, canary, a);
  }

  lemma PromotionAddsNoScope(cfg: DeploymentConfig, journal: seq<Record>, pending: Coordinator, canary: Coordinator,
                             a: CanaryApproval)
    ensures ScopeRequests(journal + [NewRecord(cfg, pending, Sink(1), ApprovalRequested(a))]
                          + [NewRecord(cfg, canary, Sink(1), CanaryActivated(a))]) == ScopeRequests(journal)
  {
    hide ScopeRequests;
    var requested := NewRecord(cfg, pending, Sink(1), ApprovalRequested(a));
    ScopelessExtends(journal, [requested]);
    ScopelessExtends(journal + [requested], [NewRecord(cfg, canary, Sink(1), CanaryActivated(a))]);
  }

  /** Under every valid configuration some run, on journals that validate, reaches CANARY. */
  lemma CanaryIsReachable(cfg: DeploymentConfig) returns (turns: seq<Turn>)
    requires ValidConfig(cfg)
    ensures ValidZ(cfg) && AllValidate(turns) && Run(cfg, turns).c.state.Canary? && At(Run(cfg, turns), 0).Idle?
    ensures ScopeRequests(Run(cfg, turns).journal) == []
  {
    ConfigFacts(cfg);
    assert |cfg.requiredRegimes| <= 16;
    hide ValidConfig, Fed, Quiet, Run, Evidence, WellKept, ScopeRequests, Owned, Justified, RateKept;
    var fed, sys := FeedRegimes(cfg, |cfg.requiredRegimes|);
    QuietFacts(cfg, sys);
    FedIsEvidence(cfg, sys);
    EveryRunIsSafe(cfg, fed);
    NoScopesBeforeCanary(cfg, fed);
    var next;
    turns, next := Promote(cfg, fed, sys);
  }

  // ----- What can go wrong, under every valid configuration ----------------------------------------------------

  /** Some run stays in CANARY with a journal that no restart can restore. */
  lemma UnrestorableJournalIsReachable(cfg: DeploymentConfig, registryState: RunState) returns (turns: seq<Turn>)
    requires ValidConfig(cfg)
    ensures ValidZ(cfg) && AllValidate(turns) && Run(cfg, turns).c.state.Canary?
    ensures Restore(cfg, Run(cfg, turns).journal, registryState).Err?
  {
    hide ValidConfig, Run, Restore, RestoreAll, ScopeRequests;
    var before := CanaryIsReachable(cfg);
    var replay := ScopeRequest(0, "", "", "", "", 0, 0, 0, 0);
    AdmitExtends(cfg, before, 0, replay);
    ReplayedScopeLocksJournal(cfg, before, 0, replay, registryState);
    turns := before + [Admit(0, replay, Sink(1))];
  }

  /** Some run stays in CANARY with a journal that restores to a coordinator that answers differently. */
  lemma DivergingRestartIsReachable(cfg: DeploymentConfig) returns (turns: seq<Turn>, q: ScopeRequest)
    requires ValidConfig(cfg)
    ensures ValidZ(cfg) && AllValidate(turns) && Run(cfg, turns).c.state.Canary?
    ensures var sys := Run(cfg, turns);
      var rebuilt := Restore(cfg, sys.journal, Canary);
      && rebuilt.Ok?
      && Decide(cfg, rebuilt.value, q).reason.InvalidRequest? && !Decide(cfg, sys.c, q).reason.InvalidRequest?
  {
    hide ValidConfig, Run, Restore, ScopeRequests, Decide;
    var before := CanaryIsReachable(cfg);
    var malformed := MalformedScopeIsReachable(cfg, before, 0);
    turns := before + [Admit(0, malformed, Sink(1))];
    q := MalformedLastScopeIsVisible(cfg, turns);
  }

  /** Some run owes a rollback of which its journal has no trace, so that a restart resumes CANARY. */
  lemma LostRollbackIsReachable(cfg: DeploymentConfig) returns (turns: seq<Turn>)
    requires ValidConfig(cfg)
    ensures ValidZ(cfg) && Run(cfg, turns).c.state.RollbackPending?
    ensures var rebuilt := Restore(cfg, Run(cfg, turns).journal, Canary); rebuilt.Ok? && rebuilt.value.state.Canary?
  {
    hide ValidConfig, Run, Restore, ScopeRequests, ValidPair;
    var before := CanaryIsReachable(cfg);
    var stale := QuietObservation(cfg, 0, Normal);
    InvalidObservationLosesRollback(cfg, before, 0, stale);
    turns := before + [Observe(0, stale, Sink(1), Sink(1))];
  }
}
