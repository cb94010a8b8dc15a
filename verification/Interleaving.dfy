/** Every interleaving of concurrent callers. Each turn is one critical section of one caller, or
    one unlocked call to the registry; between any two of them any other caller may run. */
module Interleaving {
  import opened DeploymentTypes
  import opened Coordinator
  import opened CanaryScope

  // Where one caller stands between its critical sections.
  datatype Pc =
    | Idle
    | SawReady(approval: CanaryApproval)
    | AskingRegistry(approval: CanaryApproval)
    | RegistryAnswered(approval: CanaryApproval, granted: bool)
    | OwesRollback
    | RollbackAnswered(answer: RollbackAnswer)
  {
    predicate Promotes() { AskingRegistry? || RegistryAnswered? }

    predicate RollsBack() { OwesRollback? || RollbackAnswered? }
  }

  datatype Turn =
    | Observe(caller: nat, observation: PairedObservation, first: Journal, second: Journal)
    | CheckReadiness(caller: nat, approval: CanaryApproval)
    | LockPromotion(caller: nat, io: Journal)
    | AskPromotion(caller: nat, granted: bool)
    | FinishPromotion(caller: nat, io: Journal)
    | Admit(caller: nat, request: ScopeRequest, io: Journal)
    | AskRollback(caller: nat, answer: RollbackAnswer)
    | FinishRollback(caller: nat, io: Journal)

  // The coordinator, its journal and callers, and what happened so far: the coordinator at each
  // promotion request made to the registry, how often CANARY was entered, and every admission.
  datatype System = System(
    c: Coordinator, journal: seq<Record>, callers: map<nat, Pc>,
    promotions: seq<Coordinator>, canaryEntries: nat, admissions: seq<ScopeRequest>)

  function At(sys: System, caller: nat): Pc { if caller in sys.callers then sys.callers[caller] else Idle }

  function Move(sys: System, caller: nat, pc: Pc): System { sys.(callers := sys.callers[caller := pc]) }

  function Commit<O>(sys: System, caller: nat, s: Section<O>, pc: Pc): System {
    Move(sys.(c := s.next, journal := sys.journal + s.journaled), caller, if s.mustRollBack then OwesRollback else pc)
  }

  function Initial(cfg: DeploymentConfig): System { System(Fresh(cfg, Shadow), [], map[], [], 0, []) }

  // A turn that its caller cannot perform now changes nothing.
  ghost function Step(cfg: DeploymentConfig, sys: System, turn: Turn): (next: System)
    requires WellKept(cfg, sys.c)
  {
    var pc := At(sys, turn.caller);
    match turn
    case Observe(t, o, first, second) =>
      if !pc.Idle? then sys else Commit(sys, t, ObserveSection(cfg, sys.c, o, first, second), Idle)
    case CheckReadiness(t, a) =>
      if !pc.Idle? || !ValidApproval(cfg, a) || !sys.c.state.Shadow? || !Evidence(cfg, sys.c) then sys
      else Move(sys, t, SawReady(a))
    case LockPromotion(t, io) =>
      if !pc.SawReady? then sys
      else
        var s := LockPromotionSection(cfg, sys.c, pc.approval, io);
        Commit(sys, t, s, if s.outcome then AskingRegistry(pc.approval) else Idle)
    case AskPromotion(t, granted) =>
      if !pc.AskingRegistry? then sys
      else Move(sys.(promotions := sys.promotions + [sys.c]), t, RegistryAnswered(pc.approval, granted))
    case FinishPromotion(t, io) =>
      if !pc.RegistryAnswered? then sys
      else
        var s := FinishPromotionSection(cfg, sys.c, pc.approval, pc.granted, io);
        Commit(sys.(canaryEntries := sys.canaryEntries + if s.outcome then 1 else 0), t, s, Idle)
    case Admit(t, q, io) =>
      if !pc.Idle? then sys
      else
        var s := AdmitSection(cfg, sys.c, q, io);
        Commit(sys.(admissions := Extend(sys.admissions, q, s)), t, s, Idle)
    case AskRollback(t, answer) =>
      if !pc.OwesRollback? then sys else Move(sys, t, RollbackAnswered(answer))
    case FinishRollback(t, io) =>
      if !pc.RollbackAnswered? then sys
      else Commit(sys, t, FinishRollbackSection(cfg, sys.c, pc.answer, io), Idle)
  }

  lemma StepKeepsStatistics(cfg: DeploymentConfig, sys: System, turn: Turn)
    requires ValidZ(cfg) && WellKept(cfg, sys.c)
    ensures WellKept(cfg, Step(cfg, sys, turn).c)
  {
    hide WellKept, ObserveSection, AdmitSection, Evidence;
    if turn.Observe? {
      ObserveFailsClosed(cfg, sys.c, turn.observation, turn.first, turn.second);
    } else {
      if turn.Admit? { AdmitFailsClosed(cfg, sys.c, turn.request, turn.io); }
      var next := Step(cfg, sys, turn).c;
      assert next.statistics == sys.c.statistics && next.lastObservationSequence == sys.c.lastObservationSequence;
      SameStatistics(cfg, sys.c, next);
    }
  }

  // The system after a fresh SHADOW coordinator performed the turns in order.
  ghost function Run(cfg: DeploymentConfig, turns: seq<Turn>): (sys: System)
    requires ValidZ(cfg)
    ensures WellKept(cfg, sys.c)
  {
    if turns == [] then
      FreshIsWellKept(cfg, Shadow);
      Initial(cfg)
    else
      var before := Run(cfg, turns[..|turns| - 1]);
      StepKeepsStatistics(cfg, before, turns[|turns| - 1]);
      Step(cfg, before, turns[|turns| - 1])
  }

  // ----- Ownership ----------------------------------------------------------------------------

  // PROMOTION_PENDING and ROLLBACK_PENDING each have exactly one caller working on them.
  ghost predicate Owned(sys: System) {
    && (sys.c.state.PromotionPending? <==> exists t :: t in sys.callers && sys.callers[t].Promotes())
    && (sys.c.state.RollbackPending? <==> exists t :: t in sys.callers && sys.callers[t].RollsBack())
    && (forall t, u | t in sys.callers && u in sys.callers && sys.callers[t].Promotes()
        && sys.callers[u].Promotes() :: t == u)
    && (forall t, u | t in sys.callers && u in sys.callers && sys.callers[t].RollsBack()
        && sys.callers[u].RollsBack() :: t == u)
  }

  lemma StepKeepsOwners(cfg: DeploymentConfig, sys: System, turn: Turn)
    requires ValidZ(cfg) && WellKept(cfg, sys.c) && Owned(sys)
    ensures Owned(Step(cfg, sys, turn))
  {
    hide WellKept, Owned, Step;
    if turn.Observe? || turn.Admit? { CallKeepsOwners(cfg, sys, turn); } else { ProtocolKeepsOwners(cfg, sys, turn); }
  }

  lemma CallKeepsOwners(cfg: DeploymentConfig, sys: System, turn: Turn)
    requires ValidZ(cfg) && WellKept(cfg, sys.c) && Owned(sys) && (turn.Observe? || turn.Admit?)
    ensures Owned(Step(cfg, sys, turn))
  {
    hide WellKept, ObserveSection, AdmitSection, Owned;
    var next, t := Step(cfg, sys, turn), turn.caller;
    if turn.Observe? { ObserveFailsClosed(cfg, sys.c, turn.observation, turn.first, turn.second); }
    if turn.Admit? { AdmitFailsClosed(cfg, sys.c, turn.request, turn.io); }
    OwnersKnown(sys, t);
    OwnersFollow(sys, next, t);
  }

  lemma ProtocolKeepsOwners(cfg: DeploymentConfig, sys: System, turn: Turn)
    requires ValidZ(cfg) && WellKept(cfg, sys.c) && Owned(sys) && !turn.Observe? && !turn.Admit?
    ensures Owned(Step(cfg, sys, turn))
  {
    hide WellKept, Evidence, ValidApproval, NewRecord, Owned;
    OwnersKnown(sys, turn.caller);
    OwnersFollow(sys, Step(cfg, sys, turn), turn.caller);
  }

  lemma OwnersKnown(sys: System, t: nat)
    requires Owned(sys)
    ensures At(sys, t).Promotes() ==> sys.c.state.PromotionPending?
    ensures At(sys, t).RollsBack() ==> sys.c.state.RollbackPending?
  {
  }

  // One caller moved; ownership follows from what it was and became.
  lemma OwnersFollow(sys: System, next: System, t: nat)
    requires Owned(sys)
    requires next.callers == sys.callers || next.callers == sys.callers[t := At(next, t)]
    requires At(sys, t).Promotes() ==> (At(next, t).Promotes() <==> next.c.state.PromotionPending?)
    requires !At(sys, t).Promotes() ==>
      if sys.c.state.PromotionPending? then !At(next, t).Promotes() && next.c.state.PromotionPending?
      else At(next, t).Promotes() <==> next.c.state.PromotionPending?
    requires At(sys, t).RollsBack() ==> (At(next, t).RollsBack() <==> next.c.state.RollbackPending?)
    requires !At(sys, t).RollsBack() ==>
      if sys.c.state.RollbackPending? then !At(next, t).RollsBack() && next.c.state.RollbackPending?
      else At(next, t).RollsBack() <==> next.c.state.RollbackPending?
    ensures Owned(next)
  {
    if next.callers != sys.callers {
      forall u | u in next.callers && u != t ensures u in sys.callers && next.callers[u] == sys.callers[u] {}
      forall u | u in sys.callers && u != t ensures u in next.callers {}
    }
  }

  // ----- Readiness across the unlocked gap ------------------------------------------------------

  // A caller that saw readiness still has it as long as the coordinator stays in SHADOW, and the
  // registry was only ever asked to promote on complete, unbreached evidence.
  ghost predicate Justified(cfg: DeploymentConfig, sys: System)
    requires WellKept(cfg, sys.c)
  {
    && (forall t | t in sys.callers && sys.callers[t].SawReady? :: sys.c.state.Shadow? ==> Evidence(cfg, sys.c))
    && (sys.c.state.PromotionPending? ==> Evidence(cfg, sys.c))
    && (forall i | 0 <= i < |sys.promotions| ::
          && sys.promotions[i].state.PromotionPending?
          && WellKept(cfg, sys.promotions[i]) && Evidence(cfg, sys.promotions[i]))
  }

  lemma StepKeepsJustified(cfg: DeploymentConfig, sys: System, turn: Turn)
    requires ValidZ(cfg) && WellKept(cfg, sys.c) && Owned(sys) && Justified(cfg, sys)
    requires WellKept(cfg, Step(cfg, sys, turn).c)
    ensures Justified(cfg, Step(cfg, sys, turn))
  {
    hide WellKept, Owned, Justified, Step;
    if turn.Observe? || turn.Admit? {
      CallKeepsJustified(cfg, sys, turn);
    } else {
      ProtocolKeepsJustified(cfg, sys, turn);
    }
  }

  lemma CallKeepsJustified(cfg: DeploymentConfig, sys: System, turn: Turn)
    requires ValidZ(cfg) && WellKept(cfg, sys.c) && Justified(cfg, sys) && (turn.Observe? || turn.Admit?)
    requires WellKept(cfg, Step(cfg, sys, turn).c)
    ensures Justified(cfg, Step(cfg, sys, turn))
  {
    hide WellKept, ObserveSection, AdmitSection, Evidence;
    var next := Step(cfg, sys, turn);
    if turn.Observe? {
      ObserveFailsClosed(cfg, sys.c, turn.observation, turn.first, turn.second);
      if sys.c.state.Shadow? && next.c.state.Shadow? && next.c != sys.c && Evidence(cfg, sys.c) {
        ReadinessSurvivesObservation(cfg, sys.c, turn.observation, turn.first, turn.second);
      }
    } else {
      AdmitFailsClosed(cfg, sys.c, turn.request, turn.io);
      SameStatistics(cfg, sys.c, next.c);
    }
  }

  lemma ProtocolKeepsJustified(cfg: DeploymentConfig, sys: System, turn: Turn)
    requires ValidZ(cfg) && WellKept(cfg, sys.c) && Owned(sys) && Justified(cfg, sys) && !turn.Observe? && !turn.Admit?
    requires WellKept(cfg, Step(cfg, sys, turn).c)
    ensures Justified(cfg, Step(cfg, sys, turn))
  {
    hide WellKept, Evidence, ValidApproval, NewRecord, Owned;
    OwnersKnown(sys, turn.caller);
    SameStatistics(cfg, sys.c, Step(cfg, sys, turn).c);
  }

  // ----- CANARY is entered at most once ------------------------------------------------------------

  ghost predicate Once(sys: System) {
    && |sys.promotions| <= 1
    && sys.canaryEntries <= |sys.promotions|
    && (sys.c.state.Shadow? ==> sys.promotions == [])
    && (sys.c.state.PromotionPending? ==> sys.canaryEntries == 0)
    && (forall t | t in sys.callers && sys.callers[t].AskingRegistry? :: sys.promotions == [])
    && (forall t | t in sys.callers && sys.callers[t].RegistryAnswered? :: |sys.promotions| == 1)
    && (sys.canaryEntries == 0 ==> sys.admissions == [] && sys.c.orderTimes == [] && !sys.c.state.Canary?)
  }

  lemma StepKeepsOnce(cfg: DeploymentConfig, sys: System, turn: Turn)
    requires ValidZ(cfg) && WellKept(cfg, sys.c) && Owned(sys) && Once(sys)
    ensures Once(Step(cfg, sys, turn))
  {
    hide WellKept, Owned, Once, Step;
    if turn.Observe? || turn.Admit? { CallKeepsOnce(cfg, sys, turn); } else { ProtocolKeepsOnce(cfg, sys, turn); }
  }

  lemma CallKeepsOnce(cfg: DeploymentConfig, sys: System, turn: Turn)
    requires ValidZ(cfg) && WellKept(cfg, sys.c) && Once(sys) && (turn.Observe? || turn.Admit?)
    ensures Once(Step(cfg, sys, turn))
  {
    hide WellKept, ObserveSection, AdmitSection;
    if turn.Observe? {
      ObserveFailsClosed(cfg, sys.c, turn.observation, turn.first, turn.second);
      ObserveLeavesScope(cfg, sys.c, turn.observation, turn.first, turn.second);
    } else {
      AdmitFailsClosed(cfg, sys.c, turn.request, turn.io);
    }
  }

  lemma ProtocolKeepsOnce(cfg: DeploymentConfig, sys: System, turn: Turn)
    requires ValidZ(cfg) && WellKept(cfg, sys.c) && Owned(sys) && Once(sys) && !turn.Observe? && !turn.Admit?
    ensures Once(Step(cfg, sys, turn))
  {
    hide WellKept, Evidence, ValidApproval, NewRecord;
    OwnersKnown(sys, turn.caller);
  }

  lemma StepKeepsRate(cfg: DeploymentConfig, sys: System, turn: Turn)
    requires ValidZ(cfg) && WellKept(cfg, sys.c) && Owned(sys) && Once(sys) && RateKept(cfg, sys.c, sys.admissions)
    ensures var next := Step(cfg, sys, turn); RateKept(cfg, next.c, next.admissions)
  {
    hide WellKept, Evidence, ValidApproval, NewRecord, RateKept, AdmitSection;
    var next := Step(cfg, sys, turn);
    if turn.Admit? {
      AdmitKeepsRate(cfg, sys.c, turn.request, turn.io, sys.admissions);
    } else {
      OwnersKnown(sys, turn.caller);
      if turn.Observe? {
        ObserveFailsClosed(cfg, sys.c, turn.observation, turn.first, turn.second);
        ObserveLeavesScope(cfg, sys.c, turn.observation, turn.first, turn.second);
      }
      hide ObserveSection;
      StateChangeKeepsRate(cfg, sys.c, next.c, sys.admissions);
    }
  }

  lemma ObserveLeavesScope(cfg: DeploymentConfig, c: Coordinator, o: PairedObservation, first: Journal, second: Journal)
    requires WellKept(cfg, c)
    ensures var d := ObserveSection(cfg, c, o, first, second).next;
      && d.lastScopeSequence == c.lastScopeSequence && d.lastScopeTimeNS == c.lastScopeTimeNS
      && d.orderTimes == c.orderTimes
  {
    hide WellKept, ValidObservation, Computable;
  }

  // ----- Every run ------------------------------------------------------------------------------------

  /** Under every interleaving of any number of callers: the pending states have exactly one owner,
      the gap between readiness and the promotion lock is safe, the registry is asked to promote only
      on complete unbreached evidence, CANARY is entered at most once, and the canary limits hold. */
  lemma {:induction false} EveryRunIsSafe(cfg: DeploymentConfig, turns: seq<Turn>)
    requires ValidZ(cfg)
    ensures var sys := Run(cfg, turns);
      Owned(sys) && Justified(cfg, sys) && Once(sys) && RateKept(cfg, sys.c, sys.admissions)
  {
    hide WellKept, Evidence;
    if turns == [] {
      FreshIsWellKept(cfg, Shadow);
    } else {
      var before, turn := Run(cfg, turns[..|turns| - 1]), turns[|turns| - 1];
      hide Owned, Justified, Once, RateKept, Step;
      EveryRunIsSafe(cfg, turns[..|turns| - 1]);
      StepKeepsStatistics(cfg, before, turn);
      StepKeepsOwners(cfg, before, turn);
      StepKeepsJustified(cfg, before, turn);
      StepKeepsOnce(cfg, before, turn);
      StepKeepsRate(cfg, before, turn);
    }
  }

  /** Nothing leaves CANARY except into ROLLBACK_PENDING, and whoever does so owes the rollback. */
  lemma CanaryLeavesOnlyToRollback(cfg: DeploymentConfig, turns: seq<Turn>, turn: Turn)
    requires ValidZ(cfg) && Run(cfg, turns).c.state.Canary?
    ensures var next := Step(cfg, Run(cfg, turns), turn);
      next.c.state.Canary? || (next.c.state.RollbackPending? && At(next, turn.caller).OwesRollback?)
  {
    var sys := Run(cfg, turns);
    EveryRunIsSafe(cfg, turns);
    OwnersKnown(sys, turn.caller);
    hide WellKept, ObserveSection, AdmitSection, Evidence, ValidApproval, NewRecord;
    if turn.Observe? { ObserveFailsClosed(cfg, sys.c, turn.observation, turn.first, turn.second); }
    if turn.Admit? { AdmitFailsClosed(cfg, sys.c, turn.request, turn.io); }
  }

  predicate Final(state: RunState) {
    state.PromotionBlocked? || state.RolledBack? || state.DisabledFailClosed? || state.DisableFailed?
  }

  lemma FinalStateStays(cfg: DeploymentConfig, sys: System, turn: Turn)
    requires ValidZ(cfg) && WellKept(cfg, sys.c) && Owned(sys) && Final(sys.c.state)
    ensures Step(cfg, sys, turn).c.state == sys.c.state
  {
    hide WellKept, ObserveSection, AdmitSection, Evidence, ValidApproval, NewRecord;
    OwnersKnown(sys, turn.caller);
    if turn.Observe? { ObserveFailsClosed(cfg, sys.c, turn.observation, turn.first, turn.second); }
    if turn.Admit? { AdmitFailsClosed(cfg, sys.c, turn.request, turn.io); }
  }

  /** The fail-closed states are final: no later turn of any caller leaves them. */
  lemma {:induction false} FailClosedIsFinal(cfg: DeploymentConfig, turns: seq<Turn>, more: seq<Turn>)
    requires ValidZ(cfg) && Final(Run(cfg, turns).c.state)
    ensures Run(cfg, turns + more).c.state == Run(cfg, turns).c.state
  {
    hide WellKept, Owned, Justified, Once, RateKept, Step, Final;
    if more == [] {
      assert turns + more == turns;
    } else {
      var all, fewer := turns + more, more[..|more| - 1];
      assert all[..|all| - 1] == turns + fewer;
      FailClosedIsFinal(cfg, turns, fewer);
      EveryRunIsSafe(cfg, turns + fewer);
      FinalStateStays(cfg, Run(cfg, turns + fewer), all[|all| - 1]);
    }
  }

  /** In every run: no half-open interval of one rate window contains more than the configured number
      of admissions, admitted sequences strictly increase, and every admission is for a listed instrument and
      strategy, on a fresh risk snapshot, within the capital limit. */
  lemma EveryRunKeepsLimits(cfg: DeploymentConfig, turns: seq<Turn>, from: int)
    requires ValidZ(cfg)
    ensures var sys := Run(cfg, turns);
      && |IndicesWithin(TimesOf(sys.admissions), from, cfg.orderRateWindowNS)| <= cfg.maximumOrdersPerWindow
      && |sys.c.orderTimes| <= cfg.maximumOrdersPerWindow
      && (forall i, j | 0 <= i < j < |sys.admissions| :: sys.admissions[i].sequence < sys.admissions[j].sequence)
      && (forall i | 0 <= i < |sys.admissions| ::
            var q := sys.admissions[i];
            && q.instrumentID in cfg.allowedInstrumentIDs && q.strategyID in cfg.allowedStrategyIDs
            && 0 <= q.nowNS - q.riskSnapshotObservedNS <= cfg.maximumRiskSnapshotAgeNS
            && q.currentGrossCapitalNanos + q.requestedCapitalNanos <= cfg.maximumCapitalNanos)
  {
    EveryRunIsSafe(cfg, turns);
    hide WellKept, Evidence, Owned, Justified, Once, Run;
    var sys := Run(cfg, turns);
    AtMostMaximumPerWindow(TimesOf(sys.admissions), cfg.maximumOrdersPerWindow, cfg.orderRateWindowNS, from);
    assert forall i | 0 <= i < |sys.admissions| :: InEnvelope(cfg, sys.admissions[i]);
  }
}
