/** Exactly which scope requests a canary admits, in terms of the request, the configuration and the admissions
    the run has made so far. */
module Admission {
  import opened Text
  import opened DeploymentTypes
  import opened Coordinator
  import opened CanaryScope
  import opened Interleaving
  import opened RestartHistory

  // ----- The buffer counts the admissions in the window ----------------------------------------------------

  // The admissions in the window of one length that ends at this time.
  ghost function InWindow(admissions: seq<ScopeRequest>, now: uint64, window: uint64): set<nat> {
    IndicesWithin(TimesOf(admissions), now - window + 1, window)
  }

  lemma KeptAreInside(times: seq<uint64>, recent: seq<uint64>, now: uint64, window: uint64)
    requires Ordered(times) && Recent(times, recent, now, window) && forall i | 0 <= i < |times| :: times[i] <= now
    ensures |Expire(recent, now, window)| == |IndicesWithin(times, now - window + 1, window)|
  {
    hide Expire;
    var kept := Expire(recent, now, window);
    ExpireDropsPrefix(recent, now, window);
    ExpiredIsRecent(times, recent, now, window);
    var older := |times| - |kept|;
    BetweenSize(older, |times|);
    forall i: nat | i < |times| ensures now - window + 1 <= times[i] <= now <==> older <= i {
      if older <= i { assert kept[0] == times[older]; }
    }
    assert IndicesWithin(times, now - window + 1, window) == Between(older, |times|);
  }

  // ----- The decision -----------------------------------------------------------------------------------------

  // Why a request is refused: the first of these conditions that it fails, in this order.
  ghost function Verdict(cfg: DeploymentConfig, c: Coordinator, admissions: seq<ScopeRequest>,
                         q: ScopeRequest): ScopeReason {
    if q.sequence <= c.lastScopeSequence || !WellFormed(q) then InvalidRequest
    else if q.nowNS < c.lastScopeTimeNS then TimeRegressed
    else if !(0 <= q.nowNS - q.riskSnapshotObservedNS <= cfg.maximumRiskSnapshotAgeNS) then RiskSnapshotStale
    else if q.instrumentID !in cfg.allowedInstrumentIDs then SymbolDenied
    else if q.strategyID !in cfg.allowedStrategyIDs then StrategyDenied
    else if q.currentGrossCapitalNanos + q.requestedCapitalNanos > cfg.maximumCapitalNanos then CapitalExceeded
    else if |InWindow(admissions, q.nowNS, cfg.orderRateWindowNS)| >= cfg.maximumOrdersPerWindow then OrderRateExceeded
    else Admitted
  }

  lemma DecidesExactly(cfg: DeploymentConfig, c: Coordinator, admissions: seq<ScopeRequest>, q: ScopeRequest)
    requires c.state.Canary? && RateKept(cfg, c, admissions)
    ensures var decision := Decide(cfg, c, q);
      var used := |InWindow(admissions, q.nowNS, cfg.orderRateWindowNS)|;
      && decision.reason == Verdict(cfg, c, admissions, q)
      && (decision.admitted <==>
            && q.sequence > c.lastScopeSequence && q.nowNS >= c.lastScopeTimeNS && InEnvelope(cfg, q)
            && used < cfg.maximumOrdersPerWindow)
      && (decision.admitted ==>
            && decision.remainingCapitalNanos + q.currentGrossCapitalNanos + q.requestedCapitalNanos
               == cfg.maximumCapitalNanos
            && decision.remainingOrdersInWindow + used + 1 == cfg.maximumOrdersPerWindow)
      && (!decision.admitted ==> decision.remainingCapitalNanos == 0 && decision.remainingOrdersInWindow == 0)
  {
    hide ValidIdentifier, Hex64, Expire, Recent, Ordered, Spaced, LedgerKept, IndicesWithin;
    if q.nowNS >= c.lastScopeTimeNS {
      var times, window := TimesOf(admissions), cfg.orderRateWindowNS;
      LaterIsRecent(times, c.orderTimes, c.lastScopeTimeNS, q.nowNS, window);
      KeptAreInside(times, c.orderTimes, q.nowNS, window);
    }
  }

  // ----- In every run -------------------------------------------------------------------------------------------

  /** From every reachable CANARY a request is admitted if and only if its sequence and time advance, it is inside
      the envelope, fewer than the maximum of the run's admissions lie in the window that ends at its time, and
      the journal takes the record. What remains is counted from those admissions, and a refusal names the first
      condition that fails. */
  lemma AdmittedExactly(cfg: DeploymentConfig, turns: seq<Turn>, q: ScopeRequest, io: Journal)
    requires ValidZ(cfg) && Run(cfg, turns).c.state.Canary?
    ensures var sys := Run(cfg, turns);
      var decision, s := Decide(cfg, sys.c, q), AdmitSection(cfg, sys.c, q, io);
      var used := |InWindow(sys.admissions, q.nowNS, cfg.orderRateWindowNS)|;
      var taken := io.accepts(NewRecord(cfg, sys.c, io, ScopeDecided(q, decision)));
      && (s.outcome.admitted <==>
            && q.sequence > sys.c.lastScopeSequence && q.nowNS >= sys.c.lastScopeTimeNS && InEnvelope(cfg, q)
            && used < cfg.maximumOrdersPerWindow && taken)
      && (s.outcome.admitted ==>
            && s.outcome.remainingCapitalNanos + q.currentGrossCapitalNanos + q.requestedCapitalNanos
               == cfg.maximumCapitalNanos
            && s.outcome.remainingOrdersInWindow + used + 1 == cfg.maximumOrdersPerWindow)
      && s.outcome.reason == (if taken then Verdict(cfg, sys.c, sys.admissions, q) else AuditUnavailable)
  {
    EveryRunIsSafe(cfg, turns);
    var sys := Run(cfg, turns);
    hide Run, WellKept, RateKept, Decide, InEnvelope, InWindow, Verdict, Owned, Justified, Once, NewRecord,
         AfterDecision;
    DecidesExactly(cfg, sys.c, sys.admissions, q);
  }

  // The decision, counted from the admissions of the run.
  ghost predicate Decided(cfg: DeploymentConfig, c: Coordinator, admissions: seq<ScopeRequest>, q: ScopeRequest,
                          decision: ScopeDecision) {
    var reason, used := Verdict(cfg, c, admissions, q), |InWindow(admissions, q.nowNS, cfg.orderRateWindowNS)|;
    && decision.reason == reason && (decision.admitted <==> reason == Admitted)
    && if reason == Admitted then
         && decision.remainingCapitalNanos + q.currentGrossCapitalNanos + q.requestedCapitalNanos
            == cfg.maximumCapitalNanos
         && decision.remainingOrdersInWindow + used + 1 == cfg.maximumOrdersPerWindow
       else decision.remainingCapitalNanos == 0 && decision.remainingOrdersInWindow == 0
  }

  // Replay protection after a journaled decision: only what was valid and later moves it.
  ghost predicate Protected(c: Coordinator, q: ScopeRequest, next: Coordinator) {
    && next.lastScopeSequence == (if q.sequence > c.lastScopeSequence && WellFormed(q) then q.sequence
                                  else c.lastScopeSequence)
    && next.lastScopeTimeNS == (if q.sequence > c.lastScopeSequence && q.nowNS >= c.lastScopeTimeNS then q.nowNS
                                else c.lastScopeTimeNS)
  }

  // What one request in CANARY does, given the decision.
  ghost predicate Acted(cfg: DeploymentConfig, c: Coordinator, q: ScopeRequest, io: Journal, decision: ScopeDecision,
                        s: Section<ScopeDecision>) {
    var record := Record(Header(cfg.deploymentID, cfg.modelID, cfg.candidateVersion, cfg.productionVersion,
                                cfg.configurationSHA256), Canary, io.occurredAtUTCNS, ScopeDecided(q, decision));
    && s.next.statistics == c.statistics && s.next.lastObservationSequence == c.lastObservationSequence
    && if io.accepts(record) then
         && s.next.state == Canary && s.journaled == [record] && s.outcome == decision && !s.mustRollBack
         && Protected(c, q, s.next)
         && (decision.admitted ==>
               s.next.orderTimes != [] && s.next.orderTimes[|s.next.orderTimes| - 1] == q.nowNS)
       else
         && s.next.state == RollbackPending && s.journaled == [] && s.mustRollBack
         && s.outcome == decision.(admitted := false, reason := AuditUnavailable)
         && s.next.lastScopeSequence == c.lastScopeSequence && s.next.lastScopeTimeNS == c.lastScopeTimeNS
  }

  lemma ActsExactly(cfg: DeploymentConfig, c: Coordinator, q: ScopeRequest, io: Journal)
    requires c.state.Canary?
    ensures Acted(cfg, c, q, io, Decide(cfg, c, q), AdmitSection(cfg, c, q, io))
  {
    hide Decide, TimesConsidered, ValidIdentifier, Hex64;
  }

  lemma DecidedExactly(cfg: DeploymentConfig, c: Coordinator, admissions: seq<ScopeRequest>, q: ScopeRequest)
    requires c.state.Canary? && RateKept(cfg, c, admissions)
    ensures Decided(cfg, c, admissions, q, Decide(cfg, c, q))
  {
    hide Decide, RateKept, InEnvelope, InWindow, Verdict;
    DecidesExactly(cfg, c, admissions, q);
    VerdictAdmits(cfg, c, admissions, q);
  }

  /** Everything a scope request does, in every run: outside CANARY nothing; in CANARY the decision is journaled and
      answered and replay protection moves, or, when the journal does not take it, nothing is admitted and the caller
      owes a rollback. The statistics never change. */
  lemma AdmitsExactly(cfg: DeploymentConfig, turns: seq<Turn>, q: ScopeRequest, io: Journal)
    requires ValidZ(cfg)
    ensures var sys := Run(cfg, turns);
      var s, decision := AdmitSection(cfg, sys.c, q, io), Decide(cfg, sys.c, q);
      if !sys.c.state.Canary? then s == Section(sys.c, [], ScopeDecision(false, NotCanary, 0, 0), false)
      else Decided(cfg, sys.c, sys.admissions, q, decision) && Acted(cfg, sys.c, q, io, decision, s)
  {
    hide Run, WellKept, RateKept, Owned, Justified, Once, Decided, Acted, Decide, AfterDecision, TimesConsidered;
    EveryRunIsSafe(cfg, turns);
    var sys := Run(cfg, turns);
    if sys.c.state.Canary? {
      ActsExactly(cfg, sys.c, q, io);
      DecidedExactly(cfg, sys.c, sys.admissions, q);
    }
  }

  lemma VerdictAdmits(cfg: DeploymentConfig, c: Coordinator, admissions: seq<ScopeRequest>, q: ScopeRequest)
    ensures Verdict(cfg, c, admissions, q) == Admitted <==>
      && q.sequence > c.lastScopeSequence && q.nowNS >= c.lastScopeTimeNS && InEnvelope(cfg, q)
      && |InWindow(admissions, q.nowNS, cfg.orderRateWindowNS)| < cfg.maximumOrdersPerWindow
  {
    hide InWindow, ValidIdentifier, Hex64;
  }

  /** The same across any number of restarts that restore the live coordinator. */
  lemma AdmittedExactlyInEveryLife(cfg: DeploymentConfig, moments: seq<Moment>, q: ScopeRequest)
    requires ValidZ(cfg) && cfg.orderRateWindowNS > 0 && Faithful(cfg, moments) && Life(cfg, moments).c.state.Canary?
    ensures var sys := Life(cfg, moments);
      var decision := Decide(cfg, sys.c, q);
      && decision.reason == Verdict(cfg, sys.c, sys.admissions, q)
      && (decision.admitted <==>
            && q.sequence > sys.c.lastScopeSequence && q.nowNS >= sys.c.lastScopeTimeNS && InEnvelope(cfg, q)
            && |InWindow(sys.admissions, q.nowNS, cfg.orderRateWindowNS)| < cfg.maximumOrdersPerWindow)
  {
    EveryLifeIsSafe(cfg, moments);
    var sys := Life(cfg, moments);
    hide Life, WellKept, RateKept, Decide, InEnvelope, InWindow, Verdict, Owned, Justified, Once, Mirrored;
    DecidesExactly(cfg, sys.c, sys.admissions, q);
  }
}
