/** The promotion and rollback protocols, step by step over every interleaving: when a caller may go on, what it writes
    and where the coordinator then stands, and what every journal shows of it. */
module Promotion {
  import opened Text
  import opened DeploymentTypes
  import opened Statistics
  import opened Coordinator
  import opened CanaryScope
  import opened Interleaving
  import opened Recovery
  import opened Restart
  import opened Regression

  // ----- Approvals ------------------------------------------------------------------------------------------------

  // Someone other than the configuration's approver approves exactly this configuration, with a reason and a reference.
  ghost predicate SecondPerson(cfg: DeploymentConfig, a: CanaryApproval) {
    && NotBlank(a.actor) && |a.actor| <= 128 && a.actor != cfg.approvedBy
    && NotBlank(a.reason) && |a.reason| <= 1024
    && NotBlank(a.approvalReference) && |a.approvalReference| <= 256
    && a.configurationSHA256 == cfg.configurationSHA256
  }

  lemma ApprovalIsSecondPerson(cfg: DeploymentConfig, a: CanaryApproval)
    ensures ValidApproval(cfg, a) <==> SecondPerson(cfg, a)
  {
  }

  // Every regime has the samples every threshold asks for.
  ghost predicate EnoughSamples(cfg: DeploymentConfig, journal: seq<Record>) {
    forall r, t | r in cfg.requiredRegimes && t in cfg.rollbackThresholds ::
      |Observations(journal, r)| >= t.minimumSamples
  }

  lemma SufficientExactly(cfg: DeploymentConfig, turns: seq<Turn>, r: Regime, t: Threshold)
    requires ValidConfig(cfg) && ValidZ(cfg) && r in cfg.requiredRegimes && t in cfg.rollbackThresholds
    ensures var ms := Run(cfg, turns).c.statistics;
      && r in ms && t.metric in ms[r] && MetricInterval(cfg, ms[r], t.metric).Ok?
      && (MetricInterval(cfg, ms[r], t.metric).value.enoughSamples <==>
          |Observations(Run(cfg, turns).journal, r)| >= t.minimumSamples)
  {
    hide ValidConfig, Run, Interval, WellKept, Accumulate, DeltasIn, Observations, Exceeds, Sum;
    var journal := Run(cfg, turns).journal;
    var xs := DeltasIn(journal, r, t.metric);
    DeltasOf(journal, r, t.metric);
    EveryRunActsOnExcesses(cfg, turns, r, t, xs);
    ThresholdIs(cfg, t);
    AccumulateIsExact(xs);
    TriggeredExactly(Accumulate(xs), t.metric, t, cfg.confidenceZPPM);
  }

  lemma EvidenceExactly(cfg: DeploymentConfig, turns: seq<Turn>)
    requires ValidConfig(cfg) && ValidZ(cfg) && Run(cfg, turns).c.state.Shadow?
    ensures Evidence(cfg, Run(cfg, turns).c) <==> EnoughSamples(cfg, Run(cfg, turns).journal)
  {
    hide ValidConfig, Run, Breached, Sufficient, WellKept, Observations;
    var sys := Run(cfg, turns);
    EveryRunIsUnbreached(cfg, turns);
    forall r | r in cfg.requiredRegimes
      ensures r in sys.c.statistics && Complete(sys.c.statistics[r])
      ensures Sufficient(cfg, sys.c.statistics[r]) <==>
        forall t | t in cfg.rollbackThresholds :: |Observations(sys.journal, r)| >= t.minimumSamples
    {
      SufficientForRegime(cfg, turns, r);
    }
  }

  lemma SufficientForRegime(cfg: DeploymentConfig, turns: seq<Turn>, r: Regime)
    requires ValidConfig(cfg) && ValidZ(cfg) && r in cfg.requiredRegimes
    ensures var sys := Run(cfg, turns);
      && r in sys.c.statistics && Complete(sys.c.statistics[r])
      && (Sufficient(cfg, sys.c.statistics[r]) <==>
            forall t | t in cfg.rollbackThresholds :: |Observations(sys.journal, r)| >= t.minimumSamples)
  {
    hide ValidConfig, Run, MetricInterval, WellKept, Observations;
    var sys := Run(cfg, turns);
    AlwaysComputable(cfg, sys.c, r);
    RegimeHasMoments(cfg, sys.c, r);
    forall t | t in cfg.rollbackThresholds
      ensures MetricInterval(cfg, sys.c.statistics[r], t.metric).Ok?
      ensures MetricInterval(cfg, sys.c.statistics[r], t.metric).value.enoughSamples <==>
        |Observations(sys.journal, r)| >= t.minimumSamples
    {
      SufficientExactly(cfg, turns, r, t);
    }
    if forall t | t in cfg.rollbackThresholds :: |Observations(sys.journal, r)| >= t.minimumSamples {
      forall m ensures MetricInterval(cfg, sys.c.statistics[r], m).value.enoughSamples {
        var t := ThresholdOf(cfg, m);
        assert MetricInterval(cfg, sys.c.statistics[r], t.metric).Ok?;
      }
    }
  }

  /** Exactly when a caller passes the readiness check, in every run: it is between calls, the run is in SHADOW,
  a second
      person approves exactly this configuration, and every required regime has as many journaled observations as
      every threshold asks for. */
  lemma ReadyExactly(cfg: DeploymentConfig, turns: seq<Turn>, caller: nat, a: CanaryApproval)
    requires ValidConfig(cfg) && ValidZ(cfg) && At(Run(cfg, turns), caller).Idle?
    ensures var sys := Run(cfg, turns);
      var next := Step(cfg, sys, CheckReadiness(caller, a));
      && (At(next, caller) == SawReady(a) <==>
            sys.c.state.Shadow? && SecondPerson(cfg, a) && EnoughSamples(cfg, sys.journal))
      && next.c == sys.c && next.journal == sys.journal
      && (At(next, caller) == SawReady(a) || At(next, caller).Idle?)
  {
    hide ValidConfig, Run, Evidence, WellKept, ValidApproval, SecondPerson, EnoughSamples;
    ApprovalIsSecondPerson(cfg, a);
    if Run(cfg, turns).c.state.Shadow? { EvidenceExactly(cfg, turns); }
  }

  // ----- Each step -------------------------------------------------------------------------------------------

  // A record of this deployment.
  function Noted(cfg: DeploymentConfig, state: RunState, io: Journal, entry: Entry): Record {
    Record(Header(cfg.deploymentID, cfg.modelID, cfg.candidateVersion, cfg.productionVersion, cfg.configurationSHA256),
           state, io.occurredAtUTCNS, entry)
  }

  // The step took the coordinator to this state, added these records and left the caller here; the others stay.
  ghost predicate Went(sys: System, next: System, caller: nat, state: RunState, added: seq<Record>, pc: Pc) {
    && next.c == sys.c.(state := state) && next.journal == sys.journal + added && At(next, caller) == pc
    && forall other | other != caller :: At(next, other) == At(sys, other)
  }

  /** A caller that saw readiness locks the promotion exactly if the run is still in SHADOW and its request becomes
      durable; a run still in SHADOW is blocked if the request does not. */
  lemma LocksExactly(cfg: DeploymentConfig, turns: seq<Turn>, caller: nat, io: Journal)
    requires ValidZ(cfg) && At(Run(cfg, turns), caller).SawReady?
    ensures var sys := Run(cfg, turns);
      var a, next := At(sys, caller).approval, Step(cfg, sys, LockPromotion(caller, io));
      var request := Noted(cfg, PromotionPending, io, ApprovalRequested(a));
      if !sys.c.state.Shadow? then Went(sys, next, caller, sys.c.state, [], Idle)
      else if io.accepts(request) then Went(sys, next, caller, PromotionPending, [request], AskingRegistry(a))
      else Went(sys, next, caller, PromotionBlocked, [], Idle)
  {
    hide Run, WellKept;
  }

  /** Only the caller that locked the promotion finishes it. The run enters CANARY exactly if the registry granted it
      and the activation becomes durable; if the registry refused, promotion is blocked; if the activation does not
      become durable, the caller owes a rollback. */
  lemma FinishesExactly(cfg: DeploymentConfig, turns: seq<Turn>, caller: nat, io: Journal)
    requires ValidZ(cfg) && At(Run(cfg, turns), caller).RegistryAnswered?
    ensures var sys := Run(cfg, turns);
      var a, granted := At(sys, caller).approval, At(sys, caller).granted;
      var next := Step(cfg, sys, FinishPromotion(caller, io));
      var activation := Noted(cfg, Canary, io, CanaryActivated(a));
      && sys.c.state.PromotionPending? && next.canaryEntries == (if granted then 1 else 0)
      && if !granted then Went(sys, next, caller, PromotionBlocked, [], Idle)
         else if io.accepts(activation) then Went(sys, next, caller, Canary, [activation], Idle)
         else Went(sys, next, caller, RollbackPending, [], OwesRollback)
  {
    hide Run, WellKept, Justified, RateKept;
    EveryRunIsSafe(cfg, turns);
    OwnersKnown(Run(cfg, turns), caller);
  }

  // Whether the caller of a turn stands where the turn begins.
  predicate Performs(turn: Turn, pc: Pc) {
    match turn
    case Observe(_, _, _, _) => pc.Idle?
    case CheckReadiness(_, _) => pc.Idle?
    case LockPromotion(_, _) => pc.SawReady?
    case AskPromotion(_, _) => pc.AskingRegistry?
    case FinishPromotion(_, _) => pc.RegistryAnswered?
    case Admit(_, _, _) => pc.Idle?
    case AskRollback(_, _) => pc.OwesRollback?
    case FinishRollback(_, _) => pc.RollbackAnswered?
  }

  /** Asking the registry changes nothing but where the caller stands, which remembers the answer; a promotion is asked
      for once, from PROMOTION_PENDING, and what the coordinator then was is noted. A turn its caller cannot perform
      now changes nothing at all. */
  lemma AsksExactly(cfg: DeploymentConfig, turns: seq<Turn>, turn: Turn)
    requires ValidZ(cfg)
    ensures var sys := Run(cfg, turns);
      var pc, next := At(sys, turn.caller), Step(cfg, sys, turn);
      && (!Performs(turn, pc) ==> next == sys)
      && (turn.AskPromotion? && pc.AskingRegistry? ==>
            && sys.c.state.PromotionPending? && sys.promotions == [] && next.promotions == [sys.c]
            && Went(sys, next, turn.caller, PromotionPending, [], RegistryAnswered(pc.approval, turn.granted)))
      && (turn.AskRollback? && pc.OwesRollback? ==>
            && sys.c.state.RollbackPending? && next.promotions == sys.promotions
            && Went(sys, next, turn.caller, RollbackPending, [], RollbackAnswered(turn.answer)))
  {
    hide Run, WellKept, Justified, RateKept, ObserveSection, AdmitSection, Evidence, ValidApproval;
    EveryRunIsSafe(cfg, turns);
    OwnersKnown(Run(cfg, turns), turn.caller);
    var sys := Run(cfg, turns);
    assert sys.journal + [] == sys.journal;
  }

  // Where a rollback ends and what it writes, by what the registry managed.
  function Ending(answer: RollbackAnswer): (RunState, Entry) {
    match answer
    case RolledBackToTarget => (RolledBack, RollbackCompleted)
    case DisabledInstead => (DisabledFailClosed, FailClosedDisable)
    case NeitherWorked => (DisableFailed, FailClosedDisableFailed)
  }

  /** Only the caller that owes a rollback performs it, while the run is in ROLLBACK_PENDING: once the registry has
      answered, the run ends as the answer says, whether or not the record of it becomes durable. */
  lemma RollsBackExactly(cfg: DeploymentConfig, turns: seq<Turn>, caller: nat, io: Journal)
    requires ValidZ(cfg) && At(Run(cfg, turns), caller).RollbackAnswered?
    ensures var sys := Run(cfg, turns);
      var ending := Ending(At(sys, caller).answer);
      var record := Noted(cfg, ending.0, io, ending.1);
      && sys.c.state.RollbackPending?
      && Went(sys, Step(cfg, sys, FinishRollback(caller, io)), caller, ending.0,
              if io.accepts(record) then [record] else [], Idle)
  {
    hide Run, WellKept, Justified, RateKept;
    EveryRunIsSafe(cfg, turns);
    OwnersKnown(Run(cfg, turns), caller);
  }

  // ----- What every journal shows ----------------------------------------------------------------------------

  // The entry was written in a state in which it is written.
  ghost predicate Fitting(cfg: DeploymentConfig, r: Record) {
    && r.header == Header(cfg.deploymentID, cfg.modelID, cfg.candidateVersion, cfg.productionVersion,
                          cfg.configurationSHA256)
    && match r.entry
       case Observed(_) => r.state.Shadow? || r.state.Canary?
       case Triggered(_) => r.state.PromotionBlocked? || r.state.RollbackPending?
       case ApprovalRequested(a) => r.state.PromotionPending? && SecondPerson(cfg, a)
       case CanaryActivated(a) => r.state.Canary? && SecondPerson(cfg, a)
       case ScopeDecided(_, _) => r.state.Canary?
       case RollbackCompleted => r.state.RolledBack?
       case FailClosedDisable => r.state.DisabledFailClosed?
       case FailClosedDisableFailed => r.state.DisableFailed?
  }

  predicate Closing(entry: Entry) {
    entry.RollbackCompleted? || entry.FailClosedDisable? || entry.FailClosedDisableFailed?
  }

  // An activation follows the request it answers; a closing record ends the journal.
  ghost predicate Placed(journal: seq<Record>, i: nat)
    requires i < |journal|
  {
    && (journal[i].entry.CanaryActivated? ==>
          i > 0 && journal[i - 1].entry == ApprovalRequested(journal[i].entry.approval))
    && (Closing(journal[i].entry) ==> i == |journal| - 1)
  }

  // The approval a caller carries is a second person's, and once it is asking the registry its request is the last
  // record.
  ghost predicate Carries(cfg: DeploymentConfig, pc: Pc, journal: seq<Record>) {
    match pc
    case SawReady(a) => SecondPerson(cfg, a)
    case AskingRegistry(a) => SecondPerson(cfg, a) && journal != [] && LastRecord(journal).entry == ApprovalRequested(a)
    case RegistryAnswered(a, _) =>
      SecondPerson(cfg, a) && journal != [] && LastRecord(journal).entry == ApprovalRequested(a)
    case _ => true
  }

  ghost predicate Orderly(cfg: DeploymentConfig, sys: System) {
    && (forall i | 0 <= i < |sys.journal| :: Fitting(cfg, sys.journal[i]) && Placed(sys.journal, i))
    && (sys.journal != [] && Closing(LastRecord(sys.journal).entry) ==> Final(sys.c.state))
    && forall t | t in sys.callers :: Carries(cfg, sys.callers[t], sys.journal)
  }

  // What a critical section adds to the journal fits, and is in its place.
  ghost predicate Adds(cfg: DeploymentConfig, journal: seq<Record>, before: RunState, after: RunState,
                       added: seq<Record>) {
    && (forall i | 0 <= i < |added| ::
          && Fitting(cfg, added[i])
          && (added[i].entry.CanaryActivated? ==>
                i == 0 && journal != [] && LastRecord(journal).entry == ApprovalRequested(added[i].entry.approval))
          && (Closing(added[i].entry) ==> i == |added| - 1))
    && (added != [] ==> !Final(before) && (Closing(LastRecord(added).entry) ==> Final(after)))
    && (added == [] && Final(before) ==> Final(after))
  }

  // One turn of one caller; whoever asks the registry is not overtaken.
  ghost predicate Advances(cfg: DeploymentConfig, sys: System, next: System, t: nat, added: seq<Record>) {
    && next.journal == sys.journal + added
    && (next.callers == sys.callers || next.callers == sys.callers[t := At(next, t)])
    && Adds(cfg, sys.journal, sys.c.state, next.c.state, added)
    && Carries(cfg, At(next, t), next.journal)
    && (added != [] && sys.c.state.PromotionPending? ==> At(sys, t).Promotes())
  }

  lemma AdvanceKeepsOrder(cfg: DeploymentConfig, sys: System, next: System, t: nat, added: seq<Record>)
    requires Orderly(cfg, sys) && Owned(sys) && Advances(cfg, sys, next, t, added)
    ensures Orderly(cfg, next)
  {
    hide Fitting, SecondPerson, Final;
    var journal := next.journal;
    forall i | 0 <= i < |journal| ensures Fitting(cfg, journal[i]) && Placed(journal, i) {
      if i < |sys.journal| {
        assert Fitting(cfg, sys.journal[i]) && Placed(sys.journal, i) && journal[i] == sys.journal[i];
        assert i > 0 ==> journal[i - 1] == sys.journal[i - 1];
      } else {
        assert journal[i] == added[i - |sys.journal|];
        assert i == |sys.journal| && sys.journal != [] ==> journal[i - 1] == LastRecord(sys.journal);
      }
    }
    OthersCarry(cfg, sys, next, t, added);
    if journal != [] && Closing(LastRecord(journal).entry) && added != [] {
      assert LastRecord(journal) == LastRecord(added);
    } else if added == [] {
      assert journal == sys.journal;
    }
  }

  lemma OthersCarry(cfg: DeploymentConfig, sys: System, next: System, t: nat, added: seq<Record>)
    requires Orderly(cfg, sys) && Owned(sys) && Advances(cfg, sys, next, t, added)
    ensures forall u | u in next.callers :: Carries(cfg, next.callers[u], next.journal)
  {
    hide Fitting, SecondPerson, Final, Placed, Closing, Adds;
    forall u | u in next.callers ensures Carries(cfg, next.callers[u], next.journal) {
      if u == t {
        assert next.callers[u] == At(next, t);
      } else {
        assert next.callers[u] == sys.callers[u] && Carries(cfg, sys.callers[u], sys.journal);
        if next.callers[u].Promotes() {
          assert !At(sys, t).Promotes();
          assert next.journal == sys.journal;
        }
      }
    }
  }

  lemma StillCarries(cfg: DeploymentConfig, sys: System, t: nat)
    requires Orderly(cfg, sys)
    ensures Carries(cfg, At(sys, t), sys.journal)
  {
    hide Fitting, SecondPerson, Placed;
  }

  // Nothing happens but perhaps to where the caller stands.
  lemma MoveAdvances(cfg: DeploymentConfig, sys: System, next: System, t: nat)
    requires next.c == sys.c && next.journal == sys.journal && Carries(cfg, At(next, t), next.journal)
    requires next.callers == sys.callers || next.callers == sys.callers[t := At(next, t)]
    ensures Advances(cfg, sys, next, t, [])
  {
    hide Carries;
    assert sys.journal + [] == sys.journal;
  }

  lemma CommitAdvances<O>(cfg: DeploymentConfig, sys: System, mid: System, t: nat, s: Section<O>, pc: Pc)
    requires mid.journal == sys.journal && mid.callers == sys.callers
    requires Adds(cfg, sys.journal, sys.c.state, s.next.state, s.journaled)
    requires s.mustRollBack || Carries(cfg, pc, sys.journal + s.journaled)
    requires s.journaled != [] && sys.c.state.PromotionPending? ==> At(sys, t).Promotes()
    ensures Advances(cfg, sys, Commit(mid, t, s, pc), t, s.journaled)
  {
    hide Adds;
  }

  lemma ObserveAdds(cfg: DeploymentConfig, c: Coordinator, o: PairedObservation, first: Journal, second: Journal,
                    journal: seq<Record>)
    requires ValidZ(cfg) && WellKept(cfg, c)
    ensures var s := ObserveSection(cfg, c, o, first, second);
      && Adds(cfg, journal, c.state, s.next.state, s.journaled)
      && (s.journaled != [] ==> !c.state.PromotionPending?)
  {
    hide WellKept, ObserveSection, SecondPerson, ValidObservation, ApplyObservation;
    ObserveJournals(cfg, c, o, first, second);
  }

  lemma ObserveAdvances(cfg: DeploymentConfig, sys: System, turn: Turn) returns (added: seq<Record>)
    requires ValidZ(cfg) && WellKept(cfg, sys.c) && Orderly(cfg, sys) && turn.Observe?
    ensures Advances(cfg, sys, Step(cfg, sys, turn), turn.caller, added)
  {
    hide WellKept, ObserveSection, Adds, Advances, Orderly, Commit;
    StillCarries(cfg, sys, turn.caller);
    if At(sys, turn.caller).Idle? {
      var s := ObserveSection(cfg, sys.c, turn.observation, turn.first, turn.second);
      ObserveAdds(cfg, sys.c, turn.observation, turn.first, turn.second, sys.journal);
      CommitAdvances(cfg, sys, sys, turn.caller, s, Idle);
      added := s.journaled;
    } else {
      MoveAdvances(cfg, sys, sys, turn.caller);
      added := [];
    }
  }

  lemma AdmitAdds(cfg: DeploymentConfig, c: Coordinator, q: ScopeRequest, io: Journal, journal: seq<Record>)
    ensures var s := AdmitSection(cfg, c, q, io);
      && Adds(cfg, journal, c.state, s.next.state, s.journaled)
      && (s.journaled != [] ==> !c.state.PromotionPending?)
  {
    hide Decide, AfterDecision, SecondPerson, TimesConsidered;
    DecisionKeepsState(cfg, c, q);
  }

  lemma AdmitAdvances(cfg: DeploymentConfig, sys: System, turn: Turn) returns (added: seq<Record>)
    requires ValidZ(cfg) && WellKept(cfg, sys.c) && Orderly(cfg, sys) && turn.Admit?
    ensures Advances(cfg, sys, Step(cfg, sys, turn), turn.caller, added)
  {
    hide WellKept, AdmitSection, Adds, Advances, Orderly, Commit;
    StillCarries(cfg, sys, turn.caller);
    if At(sys, turn.caller).Idle? {
      var s := AdmitSection(cfg, sys.c, turn.request, turn.io);
      AdmitAdds(cfg, sys.c, turn.request, turn.io, sys.journal);
      CommitAdvances(cfg, sys, sys.(admissions := Extend(sys.admissions, turn.request, s)), turn.caller, s, Idle);
      added := s.journaled;
    } else {
      MoveAdvances(cfg, sys, sys, turn.caller);
      added := [];
    }
  }

  lemma LockAdds(cfg: DeploymentConfig, c: Coordinator, a: CanaryApproval, io: Journal, journal: seq<Record>)
    requires SecondPerson(cfg, a)
    ensures var s := LockPromotionSection(cfg, c, a, io);
      && Adds(cfg, journal, c.state, s.next.state, s.journaled) && !s.mustRollBack
      && (s.journaled != [] ==> c.state.Shadow?)
      && Carries(cfg, if s.outcome then AskingRegistry(a) else Idle, journal + s.journaled)
  {
    hide SecondPerson;
  }

  lemma LockAdvances(cfg: DeploymentConfig, sys: System, turn: Turn) returns (added: seq<Record>)
    requires WellKept(cfg, sys.c) && turn.LockPromotion? && At(sys, turn.caller).SawReady?
    requires Carries(cfg, At(sys, turn.caller), sys.journal)
    ensures Advances(cfg, sys, Step(cfg, sys, turn), turn.caller, added)
  {
    hide WellKept, LockPromotionSection, Adds, Advances, Commit, SecondPerson;
    var a := At(sys, turn.caller).approval;
    var s := LockPromotionSection(cfg, sys.c, a, turn.io);
    LockAdds(cfg, sys.c, a, turn.io, sys.journal);
    CommitAdvances(cfg, sys, sys, turn.caller, s, if s.outcome then AskingRegistry(a) else Idle);
    added := s.journaled;
  }

  lemma FinishAdds(cfg: DeploymentConfig, c: Coordinator, a: CanaryApproval, granted: bool, io: Journal,
                   journal: seq<Record>)
    requires SecondPerson(cfg, a) && journal != [] && LastRecord(journal).entry == ApprovalRequested(a)
    requires c.state.PromotionPending?
    ensures var s := FinishPromotionSection(cfg, c, a, granted, io);
      Adds(cfg, journal, c.state, s.next.state, s.journaled)
  {
    hide SecondPerson;
  }

  lemma FinishAdvances(cfg: DeploymentConfig, sys: System, turn: Turn) returns (added: seq<Record>)
    requires WellKept(cfg, sys.c) && turn.FinishPromotion? && At(sys, turn.caller).RegistryAnswered?
    requires Carries(cfg, At(sys, turn.caller), sys.journal) && sys.c.state.PromotionPending?
    ensures Advances(cfg, sys, Step(cfg, sys, turn), turn.caller, added)
  {
    hide WellKept, FinishPromotionSection, Adds, Advances, Commit, SecondPerson;
    var pc := At(sys, turn.caller);
    var s := FinishPromotionSection(cfg, sys.c, pc.approval, pc.granted, turn.io);
    FinishAdds(cfg, sys.c, pc.approval, pc.granted, turn.io, sys.journal);
    var mid := sys.(canaryEntries := sys.canaryEntries + if s.outcome then 1 else 0);
    CommitAdvances(cfg, sys, mid, turn.caller, s, Idle);
    added := s.journaled;
  }

  lemma RollbackAdds(cfg: DeploymentConfig, c: Coordinator, answer: RollbackAnswer, io: Journal, journal: seq<Record>)
    requires c.state.RollbackPending?
    ensures var s := FinishRollbackSection(cfg, c, answer, io); Adds(cfg, journal, c.state, s.next.state, s.journaled)
  {
  }

  lemma RollbackAdvances(cfg: DeploymentConfig, sys: System, turn: Turn) returns (added: seq<Record>)
    requires WellKept(cfg, sys.c) && turn.FinishRollback? && At(sys, turn.caller).RollbackAnswered?
    requires sys.c.state.RollbackPending?
    ensures Advances(cfg, sys, Step(cfg, sys, turn), turn.caller, added)
  {
    hide WellKept, FinishRollbackSection, Adds, Advances, Commit;
    var pc := At(sys, turn.caller);
    var s := FinishRollbackSection(cfg, sys.c, pc.answer, turn.io);
    RollbackAdds(cfg, sys.c, pc.answer, turn.io, sys.journal);
    CommitAdvances(cfg, sys, sys, turn.caller, s, Idle);
    added := s.journaled;
  }

  // The turns that add nothing: a check, a question to the registry, or one its caller cannot perform now.
  lemma SilentAdvances(cfg: DeploymentConfig, sys: System, turn: Turn)
    requires WellKept(cfg, sys.c) && !turn.Observe? && !turn.Admit? && Carries(cfg, At(sys, turn.caller), sys.journal)
    requires turn.LockPromotion? ==> !At(sys, turn.caller).SawReady?
    requires turn.FinishPromotion? ==> !At(sys, turn.caller).RegistryAnswered?
    requires turn.FinishRollback? ==> !At(sys, turn.caller).RollbackAnswered?
    ensures Advances(cfg, sys, Step(cfg, sys, turn), turn.caller, [])
  {
    hide WellKept, Evidence, ValidApproval, SecondPerson, Advances;
    if turn.CheckReadiness? { ApprovalIsSecondPerson(cfg, turn.approval); }
    MoveAdvances(cfg, sys, Step(cfg, sys, turn), turn.caller);
  }

  lemma ProtocolAdvances(cfg: DeploymentConfig, sys: System, turn: Turn) returns (added: seq<Record>)
    requires WellKept(cfg, sys.c) && Owned(sys) && Orderly(cfg, sys) && !turn.Observe? && !turn.Admit?
    ensures Advances(cfg, sys, Step(cfg, sys, turn), turn.caller, added)
  {
    hide WellKept, Owned, Orderly, Advances, Step, Carries;
    OwnersKnown(sys, turn.caller);
    StillCarries(cfg, sys, turn.caller);
    var pc := At(sys, turn.caller);
    if turn.LockPromotion? && pc.SawReady? {
      added := LockAdvances(cfg, sys, turn);
    } else if turn.FinishPromotion? && pc.RegistryAnswered? {
      added := FinishAdvances(cfg, sys, turn);
    } else if turn.FinishRollback? && pc.RollbackAnswered? {
      added := RollbackAdvances(cfg, sys, turn);
    } else {
      SilentAdvances(cfg, sys, turn);
      added := [];
    }
  }

  lemma {:induction false} EveryRunIsOrderly(cfg: DeploymentConfig, turns: seq<Turn>)
    requires ValidZ(cfg)
    ensures Orderly(cfg, Run(cfg, turns))
  {
    hide WellKept, Step;
    if turns != [] {
      hide Orderly, Owned, Once, Justified, RateKept, Advances;
      var sys, turn := Run(cfg, turns[..|turns| - 1]), turns[|turns| - 1];
      EveryRunIsOrderly(cfg, turns[..|turns| - 1]);
      EveryRunIsSafe(cfg, turns[..|turns| - 1]);
      var added: seq<Record>;
      if turn.Observe? {
        added := ObserveAdvances(cfg, sys, turn);
      } else if turn.Admit? {
        added := AdmitAdvances(cfg, sys, turn);
      } else {
        added := ProtocolAdvances(cfg, sys, turn);
      }
      AdvanceKeepsOrder(cfg, sys, Step(cfg, sys, turn), turn.caller, added);
    }
  }

  /** Every journal of every run: each record is this deployment's and was written in a state in which its entry is
      written; every request and every activation carries a second person's approval of exactly this configuration;
      an activation directly follows the request with the same approval; and a closing record is the last one, with
      the run in a final state. */
  lemma EveryJournalIsOrderly(cfg: DeploymentConfig, turns: seq<Turn>, i: nat)
    requires ValidZ(cfg) && i < |Run(cfg, turns).journal|
    ensures var sys := Run(cfg, turns);
      && Fitting(cfg, sys.journal[i])
      && (sys.journal[i].entry.CanaryActivated? ==>
            i > 0 && sys.journal[i - 1].entry == ApprovalRequested(sys.journal[i].entry.approval))
      && (Closing(sys.journal[i].entry) ==> i == |sys.journal| - 1 && Final(sys.c.state))
  {
    hide Run, Fitting, Final;
    EveryRunIsOrderly(cfg, turns);
    assert Placed(Run(cfg, turns).journal, i);
  }
}
