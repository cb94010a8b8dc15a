/** Restarting a coordinator from its journal: what the restarted one answers, which journals cannot be
    restored, and what becomes of a rollback or promotion that was under way. */
module Restart {
  import opened Results
  import opened Text
  import opened DeploymentTypes
  import opened Coordinator
  import opened CanaryScope
  import opened Interleaving
  import opened Recovery

  // ----- What callers are told ----------------------------------------------------------------------

  datatype Reply =
    | NoReply
    | Observation(outcome: ObserveOutcome, state: RunState)
    | Readiness(ready: bool)
    | Locked(locked: bool)
    | Promotion(entered: bool, state: RunState)
    | Scope(decision: ScopeDecision, state: RunState)
    | Rollback(state: RunState)

  // What the caller of one turn learns from it. The registry's own answers are inputs, not replies.
  ghost function ReplyTo(cfg: DeploymentConfig, sys: System, turn: Turn): Reply
    requires WellKept(cfg, sys.c)
  {
    var pc := At(sys, turn.caller);
    match turn
    case Observe(_, o, first, second) =>
      if !pc.Idle? then NoReply
      else
        var s := ObserveSection(cfg, sys.c, o, first, second);
        Observation(s.outcome, s.next.state)
    case CheckReadiness(_, a) =>
      if !pc.Idle? then NoReply else Readiness(ValidApproval(cfg, a) && sys.c.state.Shadow? && Evidence(cfg, sys.c))
    case LockPromotion(_, io) =>
      if !pc.SawReady? then NoReply else Locked(LockPromotionSection(cfg, sys.c, pc.approval, io).outcome)
    case FinishPromotion(_, io) =>
      if !pc.RegistryAnswered? then NoReply
      else
        var s := FinishPromotionSection(cfg, sys.c, pc.approval, pc.granted, io);
        Promotion(s.outcome, s.next.state)
    case Admit(_, q, io) =>
      if !pc.Idle? then NoReply
      else
        var s := AdmitSection(cfg, sys.c, q, io);
        Scope(s.outcome, s.next.state)
    case FinishRollback(_, io) =>
      if !pc.RollbackAnswered? then NoReply else Rollback(FinalState(pc.answer))
    case _ => NoReply
  }

  ghost function Replies(cfg: DeploymentConfig, sys: System, turns: seq<Turn>): seq<Reply>
    requires ValidZ(cfg) && WellKept(cfg, sys.c)
  {
    if turns == [] then []
    else
      var earlier := turns[..|turns| - 1];
      Replies(cfg, sys, earlier) + [ReplyTo(cfg, Continue(cfg, sys, earlier), turns[|turns| - 1])]
  }

  lemma AlikeReply(cfg: DeploymentConfig, x: System, y: System, turn: Turn)
    requires WellKept(cfg, x.c) && WellKept(cfg, y.c) && AlikeSystems(cfg, x, y)
    ensures ReplyTo(cfg, x, turn) == ReplyTo(cfg, y, turn)
  {
    hide WellKept, ObserveSection, AdmitSection, Expire, Evidence, ValidApproval;
    SameStatistics(cfg, x.c, y.c);
    if turn.Observe? { AlikeObserve(cfg, x.c, y.c, turn.observation, turn.first, turn.second); }
    if turn.Admit? { AlikeAdmit(cfg, x.c, y.c, turn.request, turn.io); }
  }

  /** Alike coordinators give every caller the same replies to every future sequence of turns. */
  lemma {:induction false} AlikeReplies(cfg: DeploymentConfig, x: System, y: System, turns: seq<Turn>)
    requires ValidZ(cfg) && WellKept(cfg, x.c) && WellKept(cfg, y.c) && AlikeSystems(cfg, x, y)
    ensures Replies(cfg, x, turns) == Replies(cfg, y, turns)
  {
    hide WellKept, ReplyTo, AlikeSystems, Continue;
    if turns != [] {
      var earlier := turns[..|turns| - 1];
      AlikeReplies(cfg, x, y, earlier);
      AlikeForever(cfg, x, y, earlier);
      AlikeReply(cfg, Continue(cfg, x, earlier), Continue(cfg, y, earlier), turns[|turns| - 1]);
    }
  }

  // ----- The restarted coordinator answers like the live one ----------------------------------------

  // The system as a restart leaves it: the same journal and coordinator, and nobody in the middle of a call.
  function Quiesced(sys: System): System { sys.(callers := map[]) }

  /** For every run that ends in SHADOW or CANARY, whose journaled scope requests have increasing sequences
      and non-regressing times and end in a structurally valid one: restoring the journal succeeds, and the
      restarted coordinator gives the same replies as the live one to every future sequence of turns, writes
      the same records and admits the same requests. */
  lemma RestartAnswersLikeLive(cfg: DeploymentConfig, turns: seq<Turn>, more: seq<Turn>)
    requires ValidConfig(cfg) && forall i | 0 <= i < |turns| :: SinkValidates(turns[i])
    requires Run(cfg, turns).c.state.Shadow? || Run(cfg, turns).c.state.Canary?
    requires var qs := ScopeRequests(Run(cfg, turns).journal); Monotone(qs) && LastIsStructurallyValid(qs)
    ensures var sys := Run(cfg, turns);
      var rebuilt := Restore(cfg, sys.journal, sys.c.state);
      && rebuilt.Ok? && WellKept(cfg, rebuilt.value)
      && var live, restarted := Quiesced(sys), Quiesced(sys).(c := rebuilt.value);
         && Replies(cfg, restarted, more) == Replies(cfg, live, more)
         && AlikeSystems(cfg, Continue(cfg, live, more), Continue(cfg, restarted, more))
  {
    ConfigFacts(cfg);
    RestoreIsFaithful(cfg, turns);
    hide ValidConfig, Run, SinkValidates, Monotone, LastIsStructurallyValid, WellKept, Restore, Replies, Continue;
    var sys := Run(cfg, turns);
    var rebuilt := Restore(cfg, sys.journal, sys.c.state).value;
    assert Alike(cfg, sys.c, rebuilt);
    SameStatistics(cfg, sys.c, rebuilt);
    var live, restarted := Quiesced(sys), Quiesced(sys).(c := rebuilt);
    AlikeReplies(cfg, live, restarted, more);
    AlikeForever(cfg, live, restarted, more);
  }

  // ----- Runs one turn longer --------------------------------------------------------------------------

  // A journal that makes exactly the valid records durable.
  function Sink(occurredAtUTCNS: int): Journal { Journal((r: Record) => ValidRecord(r), occurredAtUTCNS) }

  lemma RunExtends(cfg: DeploymentConfig, turns: seq<Turn>, turn: Turn)
    requires ValidZ(cfg)
    ensures Run(cfg, turns + [turn]) == Step(cfg, Run(cfg, turns), turn)
  {
    hide Step;
    assert (turns + [turn])[..|turns|] == turns;
  }

  ghost predicate AllValidate(turns: seq<Turn>) { forall i | 0 <= i < |turns| :: SinkValidates(turns[i]) }

  lemma ValidateExtends(turns: seq<Turn>, turn: Turn)
    requires AllValidate(turns) && SinkValidates(turn)
    ensures AllValidate(turns + [turn])
  {
    hide SinkValidates;
  }

  lemma ScopeIsAccepted(cfg: DeploymentConfig, c: Coordinator, q: ScopeRequest, decision: ScopeDecision)
    requires ValidConfig(cfg)
    ensures Sink(1).accepts(NewRecord(cfg, c, Sink(1), ScopeDecided(q, decision)))
  {
    hide ValidIdentifier, ValidSemantic, Hex64, Distinct, ValidStringSet, Blank;
  }

  // One admission decision in CANARY, on a journal that works.
  lemma AdmitExtends(cfg: DeploymentConfig, turns: seq<Turn>, caller: nat, q: ScopeRequest)
    requires ValidConfig(cfg) && AllValidate(turns) && Run(cfg, turns).c.state.Canary?
      && At(Run(cfg, turns), caller).Idle?
    ensures var longer := turns + [Admit(caller, q, Sink(1))];
      && AllValidate(longer) && Run(cfg, longer).c == AfterDecision(cfg, Run(cfg, turns).c, q)
      && Run(cfg, longer).c.state.Canary? && At(Run(cfg, longer), caller).Idle?
      && ScopeRequests(Run(cfg, longer).journal) == ScopeRequests(Run(cfg, turns).journal) + [q]
  {
    ConfigFacts(cfg);
    var sys, turn := Run(cfg, turns), Admit(caller, q, Sink(1));
    ScopeIsAccepted(cfg, sys.c, q, Decide(cfg, sys.c, q));
    hide ValidConfig, Run, AfterDecision, Decide, ScopeRequests, WellKept, Step, NewRecord, Sink, AllValidate;
    RunExtends(cfg, turns, turn);
    SinkAdmits(caller, q);
    ValidateExtends(turns, turn);
    AcceptedAdmission(cfg, sys, caller, q);
    ScopeRequestsExtend(sys.journal, NewRecord(cfg, sys.c, Sink(1), ScopeDecided(q, Decide(cfg, sys.c, q))));
    ScopeEntry(cfg, sys.c, q, Decide(cfg, sys.c, q));
  }

  lemma SinkAdmits(caller: nat, q: ScopeRequest)
    ensures SinkValidates(Admit(caller, q, Sink(1)))
  {
  }

  lemma ScopeEntry(cfg: DeploymentConfig, c: Coordinator, q: ScopeRequest, decision: ScopeDecision)
    ensures NewRecord(cfg, c, Sink(1), ScopeDecided(q, decision)).entry == ScopeDecided(q, decision)
  {
  }

  lemma AcceptedAdmission(cfg: DeploymentConfig, sys: System, caller: nat, q: ScopeRequest)
    requires WellKept(cfg, sys.c) && sys.c.state.Canary? && At(sys, caller).Idle?
    requires Sink(1).accepts(NewRecord(cfg, sys.c, Sink(1), ScopeDecided(q, Decide(cfg, sys.c, q))))
    ensures var next := Step(cfg, sys, Admit(caller, q, Sink(1)));
      && next.c == AfterDecision(cfg, sys.c, q) && next.c.state.Canary? && At(next, caller).Idle?
      && next.journal == sys.journal + [NewRecord(cfg, sys.c, Sink(1), ScopeDecided(q, Decide(cfg, sys.c, q)))]
  {
    hide WellKept, AfterDecision, Decide, Sink, NewRecord;
    DecisionKeepsState(cfg, sys.c, q);
  }

  lemma DecisionKeepsState(cfg: DeploymentConfig, c: Coordinator, q: ScopeRequest)
    ensures AfterDecision(cfg, c, q).state == c.state
  {
    hide Decide, TimesConsidered, StructurallyValid;
  }

  // ----- Journals that cannot be restored -------------------------------------------------------------------

  /** From every reachable CANARY one replayed scope request, such as one with sequence 0, is journaled,
      leaves the coordinator in CANARY, and makes its journal impossible to restore, whatever the registry
      says. */
  lemma ReplayedScopeLocksJournal(cfg: DeploymentConfig, turns: seq<Turn>, caller: nat, q: ScopeRequest,
                                  registryState: RunState)
    requires ValidConfig(cfg) && AllValidate(turns) && Run(cfg, turns).c.state.Canary?
      && At(Run(cfg, turns), caller).Idle?
    requires q.sequence <= Run(cfg, turns).c.lastScopeSequence
    ensures var after := Run(cfg, turns + [Admit(caller, q, Sink(1))]);
      && after.c.state.Canary?
      && RestoreAll(cfg, Fresh(cfg, registryState), after.journal).Err?
      && Restore(cfg, after.journal, registryState).Err?
  {
    ConfigFacts(cfg);
    var longer := turns + [Admit(caller, q, Sink(1))];
    AdmitExtends(cfg, turns, caller, q);
    EveryRunMirrors(cfg, turns, registryState);
    EveryRunMirrors(cfg, longer, registryState);
    hide ValidConfig, Run, RestoreAll, ScopeRequests, Fresh, LastIsStructurallyValid, AfterDecision, WellKept;
    var qs := ScopeRequests(Run(cfg, turns).journal);
    assert (qs + [q])[..|qs|] == qs;
  }

  /** No later turns repair such a journal: whatever the run does next, restoring it stays impossible. */
  lemma {:induction false} LockedJournalStaysLocked(cfg: DeploymentConfig, turns: seq<Turn>, more: seq<Turn>,
                                                    registryState: RunState)
    requires ValidZ(cfg) && RestoreAll(cfg, Fresh(cfg, registryState), Run(cfg, turns).journal).Err?
    ensures Restore(cfg, Run(cfg, turns + more).journal, registryState).Err?
  {
    hide RestoreAll, Fresh, Run;
    JournalGrows(cfg, turns, more);
    var shorter, longer := Run(cfg, turns).journal, Run(cfg, turns + more).journal;
    assert longer[..|shorter|] == shorter;
    FirstErrorDecides(cfg, Fresh(cfg, registryState), longer, |shorter|);
  }

  lemma {:induction false} JournalGrows(cfg: DeploymentConfig, turns: seq<Turn>, more: seq<Turn>)
    requires ValidZ(cfg)
    ensures Run(cfg, turns).journal <= Run(cfg, turns + more).journal
  {
    hide Step, Run, WellKept;
    if more == [] {
      assert turns + more == turns;
    } else {
      var fewer, last := more[..|more| - 1], more[|more| - 1];
      JournalGrows(cfg, turns, fewer);
      assert turns + more == turns + fewer + [last];
      RunExtends(cfg, turns + fewer, last);
      StepExtendsJournal(cfg, Run(cfg, turns + fewer), last);
    }
  }

  lemma StepExtendsJournal(cfg: DeploymentConfig, sys: System, turn: Turn)
    requires WellKept(cfg, sys.c)
    ensures sys.journal <= Step(cfg, sys, turn).journal
  {
    hide WellKept, ObserveSection, AdmitSection, Evidence, ValidApproval, NewRecord;
  }

  // ----- A malformed last request --------------------------------------------------------------------------

  /** In every run whose journal can be restored but ends in a malformed scope request, some request tells
      the live coordinator from the restored one: the live one considers it, the restored one calls it
      invalid because its sequence is already taken. */
  lemma MalformedLastScopeIsVisible(cfg: DeploymentConfig, turns: seq<Turn>) returns (q: ScopeRequest)
    requires ValidConfig(cfg) && AllValidate(turns)
    requires Run(cfg, turns).c.state.Shadow? || Run(cfg, turns).c.state.Canary?
    requires var qs := ScopeRequests(Run(cfg, turns).journal); Monotone(qs) && !LastIsStructurallyValid(qs)
    ensures var sys := Run(cfg, turns);
      var rebuilt := Restore(cfg, sys.journal, sys.c.state);
      && rebuilt.Ok?
      && Decide(cfg, rebuilt.value, q).reason.InvalidRequest? && !Decide(cfg, sys.c, q).reason.InvalidRequest?
  {
    ConfigFacts(cfg);
    var sys := Run(cfg, turns);
    RestoreIsFaithful(cfg, turns);
    EveryRunMirrors(cfg, turns, sys.c.state);
    hide ValidConfig, Run, ScopeRequests, Monotone, RestoreAll, Fresh, WellKept, Decide;
    q := TellApart(cfg, sys.c, Restore(cfg, sys.journal, sys.c.state).value, ScopeRequests(sys.journal));
  }

  lemma TellApart(cfg: DeploymentConfig, c: Coordinator, d: Coordinator,
                  qs: seq<ScopeRequest>) returns (q: ScopeRequest)
    requires Mirrors(cfg, c, d, qs) && !LastIsStructurallyValid(qs)
    ensures Decide(cfg, d, q).reason.InvalidRequest? && !Decide(cfg, c, q).reason.InvalidRequest?
  {
    q := ScopeRequest(d.lastScopeSequence, "A", "A", "A", seq(64, _ => '0'), 1, 1, 0, 1);
    assert StructurallyValid(q);
  }

  /** Such runs exist beyond every reachable CANARY that can be restored and has a sequence left: one
      malformed request with the next sequence leads there. */
  lemma MalformedScopeIsReachable(cfg: DeploymentConfig, turns: seq<Turn>, caller: nat) returns (q: ScopeRequest)
    requires ValidConfig(cfg) && AllValidate(turns) && Run(cfg, turns).c.state.Canary?
      && At(Run(cfg, turns), caller).Idle?
    requires var qs := ScopeRequests(Run(cfg, turns).journal); Monotone(qs) && LastSequence(qs) < UINT64_LIMIT - 1
    ensures var longer := turns + [Admit(caller, q, Sink(1))];
      && AllValidate(longer) && Run(cfg, longer).c.state.Canary?
      && var qs := ScopeRequests(Run(cfg, longer).journal); Monotone(qs) && !LastIsStructurallyValid(qs)
  {
    ConfigFacts(cfg);
    hide ValidConfig, Run, ScopeRequests, AfterDecision, Monotone, LastIsStructurallyValid, LastSequence, LastTime,
         AllValidate;
    var qs := ScopeRequests(Run(cfg, turns).journal);
    q := ScopeRequest(LastSequence(qs) + 1, "", "", "", "", LastTime(qs), 0, 0, 0);
    AdmitExtends(cfg, turns, caller, q);
    MalformedExtends(qs, q);
  }

  lemma MalformedExtends(qs: seq<ScopeRequest>, q: ScopeRequest)
    requires Monotone(qs) && q.sequence > LastSequence(qs) && q.nowNS == LastTime(qs) && q.instrumentID == ""
    ensures Monotone(qs + [q]) && !LastIsStructurallyValid(qs + [q])
  {
    assert (qs + [q])[..|qs|] == qs;
    assert !StructurallyValid(q);
  }

  // ----- Pending states nobody owns ----------------------------------------------------------------------------

  // Nobody is in the middle of a promotion or a rollback.
  ghost predicate Ownerless(sys: System) {
    forall t | t in sys.callers :: !sys.callers[t].Promotes() && !sys.callers[t].RollsBack()
  }

  lemma OwnerlessStays(cfg: DeploymentConfig, sys: System, turn: Turn)
    requires WellKept(cfg, sys.c) && Ownerless(sys) && (sys.c.state.PromotionPending? || sys.c.state.RollbackPending?)
    ensures var next := Step(cfg, sys, turn); next.c == sys.c && next.journal == sys.journal && Ownerless(next)
  {
    hide WellKept, Evidence, ValidApproval, NewRecord;
    assert sys.journal + [] == sys.journal;
  }

  /** A pending state that nobody owns, which is what a restart restores, is permanent: no turns of any
      callers ever change the coordinator or its journal again. */
  lemma {:induction false} OwnerlessPendingIsPermanent(cfg: DeploymentConfig, sys: System, turns: seq<Turn>)
    requires ValidZ(cfg) && WellKept(cfg, sys.c) && Ownerless(sys)
    requires sys.c.state.PromotionPending? || sys.c.state.RollbackPending?
    ensures var next := Continue(cfg, sys, turns); next.c == sys.c && next.journal == sys.journal && Ownerless(next)
  {
    hide WellKept, Step, Ownerless;
    if turns != [] {
      OwnerlessPendingIsPermanent(cfg, sys, turns[..|turns| - 1]);
      OwnerlessStays(cfg, Continue(cfg, sys, turns[..|turns| - 1]), turns[|turns| - 1]);
    }
  }

  // ----- What the journal says about a pending state ---------------------------------------------------------------

  function LastRecord(journal: seq<Record>): Record
    requires journal != []
  {
    journal[|journal| - 1]
  }

  // How the journal ends, by the state of the run.
  ghost predicate Ends(state: RunState, journal: seq<Record>) {
    match state
    case Shadow => journal == [] || (LastRecord(journal).entry.Observed? && LastRecord(journal).state.Shadow?)
    case PromotionPending =>
      journal != [] && LastRecord(journal).entry.ApprovalRequested? && LastRecord(journal).state.PromotionPending?
    case Canary => journal != [] && Activated(LastRecord(journal))
    case RollbackPending =>
      journal != [] && var last := LastRecord(journal);
        || Activated(last)
        || (last.entry.Triggered? && last.state.RollbackPending?)
        || (last.entry.ApprovalRequested? && last.state.PromotionPending?)
    case _ => true
  }

  // A record written in CANARY that says so.
  predicate Activated(r: Record) {
    r.state.Canary? && (r.entry.CanaryActivated? || r.entry.Observed? || r.entry.ScopeDecided?)
  }

  lemma StepKeepsEnds(cfg: DeploymentConfig, sys: System, turn: Turn)
    requires ValidZ(cfg) && WellKept(cfg, sys.c) && Owned(sys) && Ends(sys.c.state, sys.journal)
    ensures var next := Step(cfg, sys, turn); Ends(next.c.state, next.journal)
  {
    hide WellKept, Owned, Step, Ends;
    if turn.Observe? { ObserveKeepsEnds(cfg, sys, turn); } else { OtherKeepsEnds(cfg, sys, turn); }
  }

  // The observation is valid, comes in SHADOW or CANARY, and its record becomes durable.
  ghost predicate Taken(cfg: DeploymentConfig, c: Coordinator, o: PairedObservation, first: Journal) {
    && (c.state.Shadow? || c.state.Canary?) && ValidObservation(cfg, c, o)
    && first.accepts(NewRecord(cfg, c, first, Observed(o)))
  }

  lemma UntakenObservation(cfg: DeploymentConfig, c: Coordinator, o: PairedObservation, first: Journal, second: Journal)
    requires WellKept(cfg, c) && !Taken(cfg, c, o, first)
    ensures var s := ObserveSection(cfg, c, o, first, second);
      s.journaled == [] && (s.next == c || ((c.state.Shadow? || c.state.Canary?) && s.next == FailClosed(c)))
  {
    hide WellKept, ValidObservation, Computable, FirstBreach, ApplyObservation, NewRecord, FailClosed;
  }

  // The alarm that ends an observation in breach.
  ghost predicate Alarm(cfg: DeploymentConfig, failed: Coordinator, second: Journal, r: Record) {
    r.entry.Triggered? && r.header == HeaderOf(cfg) && r.state == failed.state && second.accepts(r)
  }

  lemma TakenObservation(cfg: DeploymentConfig, c: Coordinator, o: PairedObservation, first: Journal, second: Journal)
    requires ValidZ(cfg) && WellKept(cfg, c) && Taken(cfg, c, o, first)
    ensures o.regime in c.statistics
    ensures var s := ObserveSection(cfg, c, o, first, second);
      var record, after := NewRecord(cfg, c, first, Observed(o)), ApplyObservation(c, o);
      || (s.next == after && s.journaled == [record])
      || (&& s.next == FailClosed(after)
          && (s.journaled == [record]
              || (|s.journaled| == 2 && s.journaled[0] == record && Alarm(cfg, s.next, second, s.journaled[1]))))
  {
    ObserveFailsClosed(cfg, c, o, first, second);
    assert o.regime in cfg.requiredRegimes;
    RegimeHasMoments(cfg, c, o.regime);
    hide WellKept, ValidObservation, Computable, FirstBreach, ApplyObservation, FailClosed, HeaderOf;
  }

  // What an observation journals, and the state it leaves.
  lemma ObserveJournals(cfg: DeploymentConfig, c: Coordinator, o: PairedObservation, first: Journal, second: Journal)
    requires ValidZ(cfg) && WellKept(cfg, c)
    ensures var s := ObserveSection(cfg, c, o, first, second);
      var record := NewRecord(cfg, c, first, Observed(o));
      && (s.next.state == c.state || ((c.state.Shadow? || c.state.Canary?) && s.next.state == FailClosed(c).state))
      && (s.journaled == [] ==> s.next == c.(state := s.next.state))
      && (s.journaled != [] ==>
            && ValidObservation(cfg, c, o) && s.next == ApplyObservation(c, o).(state := s.next.state)
            && (c.state.Shadow? || c.state.Canary?) && first.accepts(record)
            && (s.journaled == [record] || (
                  && |s.journaled| == 2 && s.journaled[0] == record && s.journaled[1].entry.Triggered?
                  && s.journaled[1].header == HeaderOf(cfg) && second.accepts(s.journaled[1])
                  && s.journaled[1].state == s.next.state == FailClosed(c).state)))
  {
    if Taken(cfg, c, o, first) {
      TakenObservation(cfg, c, o, first, second);
      hide WellKept, ValidObservation, ObserveSection, NewRecord, HeaderOf, AddDeltas;
    } else {
      UntakenObservation(cfg, c, o, first, second);
      hide WellKept, ValidObservation, ObserveSection, NewRecord, ApplyObservation;
    }
  }

  lemma ObserveKeepsEnds(cfg: DeploymentConfig, sys: System, turn: Turn)
    requires ValidZ(cfg) && WellKept(cfg, sys.c) && Ends(sys.c.state, sys.journal) && turn.Observe?
    ensures var next := Step(cfg, sys, turn); Ends(next.c.state, next.journal)
  {
    hide WellKept, ObserveSection;
    ObserveJournals(cfg, sys.c, turn.observation, turn.first, turn.second);
    assert sys.journal + [] == sys.journal;
  }

  lemma OtherKeepsEnds(cfg: DeploymentConfig, sys: System, turn: Turn)
    requires ValidZ(cfg) && WellKept(cfg, sys.c) && Owned(sys) && Ends(sys.c.state, sys.journal) && !turn.Observe?
    ensures var next := Step(cfg, sys, turn); Ends(next.c.state, next.journal)
  {
    hide WellKept, Owned, Step, Ends;
    if turn.Admit? { AdmitKeepsEnds(cfg, sys, turn); } else { ProtocolKeepsEnds(cfg, sys, turn); }
  }

  lemma AdmitKeepsEnds(cfg: DeploymentConfig, sys: System, turn: Turn)
    requires WellKept(cfg, sys.c) && Ends(sys.c.state, sys.journal) && turn.Admit?
    ensures var next := Step(cfg, sys, turn); Ends(next.c.state, next.journal)
  {
    hide WellKept, Decide, AfterDecision;
    DecisionKeepsState(cfg, sys.c, turn.request);
    assert sys.journal + [] == sys.journal;
  }

  lemma ProtocolKeepsEnds(cfg: DeploymentConfig, sys: System, turn: Turn)
    requires WellKept(cfg, sys.c) && Owned(sys) && Ends(sys.c.state, sys.journal) && !turn.Observe? && !turn.Admit?
    ensures var next := Step(cfg, sys, turn); Ends(next.c.state, next.journal)
  {
    OwnersKnown(sys, turn.caller);
    hide WellKept, Owned, Evidence, ValidApproval, ObserveSection, AdmitSection, HeaderOf;
    assert sys.journal + [] == sys.journal;
  }

  lemma {:induction false} EveryRunEnds(cfg: DeploymentConfig, turns: seq<Turn>)
    requires ValidZ(cfg)
    ensures Ends(Run(cfg, turns).c.state, Run(cfg, turns).journal)
  {
    hide WellKept, Step;
    if turns != [] {
      hide Ends, Owned, Once, Justified, RateKept;
      EveryRunEnds(cfg, turns[..|turns| - 1]);
      EveryRunIsSafe(cfg, turns[..|turns| - 1]);
      StepKeepsEnds(cfg, Run(cfg, turns[..|turns| - 1]), turns[|turns| - 1]);
    }
  }

  // ----- What restoring a pending state yields ---------------------------------------------------------------

  // Restoring gives back the evidence, and the state of the last record.
  ghost predicate Recoverable(cfg: DeploymentConfig, c: Coordinator, journal: seq<Record>, registryState: RunState) {
    var rebuilt := RestoreAll(cfg, Fresh(cfg, registryState), journal);
    && (rebuilt.Ok? <==> Monotone(ScopeRequests(journal)))
    && (rebuilt.Ok? ==>
          && rebuilt.value.statistics == c.statistics
          && rebuilt.value.lastObservationSequence == c.lastObservationSequence
          && (journal != [] ==> rebuilt.value.state == LastRecord(journal).state))
  }

  lemma RestoredState(cfg: DeploymentConfig, c: Coordinator, journal: seq<Record>)
    requires journal != [] && RestoreAll(cfg, c, journal).Ok?
    ensures RestoreAll(cfg, c, journal).value.state == LastRecord(journal).state
  {
    hide ValidRecord, ValidObservation;
  }

  lemma MirrorsIsRecoverable(cfg: DeploymentConfig, c: Coordinator, d: Coordinator, journal: seq<Record>,
                             registryState: RunState)
    requires JournalMirrors(cfg, c, journal, registryState)
    requires d.statistics == c.statistics && d.lastObservationSequence == c.lastObservationSequence
    ensures Recoverable(cfg, d, journal, registryState)
  {
    hide RestoreAll, Fresh, ScopeRequests, Monotone, LastIsStructurallyValid, Expire;
    if journal != [] && RestoreAll(cfg, Fresh(cfg, registryState), journal).Ok? {
      RestoredState(cfg, Fresh(cfg, registryState), journal);
    }
  }

  // An observation that became durable, and the alarm after it if there is one.
  lemma RecordedIsRecoverable(cfg: DeploymentConfig, c: Coordinator, record: Record, next: Coordinator,
                              journal: seq<Record>, registryState: RunState)
    requires WellKept(cfg, c) && JournalMirrors(cfg, c, journal, registryState)
    requires record.header == HeaderOf(cfg) && ValidRecord(record) && record.state == c.state
    requires record.entry.Observed? && ValidObservation(cfg, c, record.entry.observation)
    requires record.entry.observation.regime in c.statistics
    requires next == ApplyObservation(c, record.entry.observation).(state := next.state)
    ensures Recoverable(cfg, next, journal + [record], registryState)
    ensures JournalMirrors(cfg, ApplyObservation(c, record.entry.observation), journal + [record], registryState)
  {
    hide WellKept, JournalMirrors, Recoverable, ValidObservation, ValidRecord, ApplyObservation, HeaderOf;
    AppendObservationMirrors(cfg, c, journal, record, registryState);
    MirrorsIsRecoverable(cfg, ApplyObservation(c, record.entry.observation), next, journal + [record], registryState);
  }

  lemma AlarmIsRecoverable(cfg: DeploymentConfig, after: Coordinator, alarm: Record, next: Coordinator,
                           journal: seq<Record>, registryState: RunState)
    requires JournalMirrors(cfg, after, journal, registryState) && next == after.(state := next.state)
    requires alarm.header == HeaderOf(cfg) && ValidRecord(alarm) && alarm.entry.Triggered?
    ensures Recoverable(cfg, next, journal + [alarm], registryState)
  {
    hide JournalMirrors, Recoverable, ValidRecord, HeaderOf;
    AppendOtherMirrors(cfg, after, journal, alarm, registryState);
    MirrorsIsRecoverable(cfg, after.(state := alarm.state), next, journal + [alarm], registryState);
  }

  lemma ObserveIsRecoverable(cfg: DeploymentConfig, c: Coordinator, o: PairedObservation, first: Journal,
                             second: Journal, journal: seq<Record>, registryState: RunState)
    requires ValidZ(cfg) && WellKept(cfg, c) && JournalMirrors(cfg, c, journal, registryState)
    requires Validates(first) && Validates(second)
    ensures var s := ObserveSection(cfg, c, o, first, second);
      Recoverable(cfg, s.next, journal + s.journaled, registryState)
  {
    hide WellKept, ObserveSection, JournalMirrors, Recoverable, ValidObservation, ApplyObservation, NewRecord, Alarm,
         ValidRecord, Validates, HeaderOf;
    var s := ObserveSection(cfg, c, o, first, second);
    if !Taken(cfg, c, o, first) {
      UntakenObservation(cfg, c, o, first, second);
      assert journal + [] == journal;
      MirrorsIsRecoverable(cfg, c, s.next, journal, registryState);
    } else {
      TakenObservation(cfg, c, o, first, second);
      var record := s.journaled[0];
      TakenRecord(cfg, c, o, first);
      RecordedIsRecoverable(cfg, c, record, s.next, journal, registryState);
      if |s.journaled| == 2 {
        var alarm := s.journaled[1];
        AlarmRecord(cfg, s.next, second, alarm);
        AlarmIsRecoverable(cfg, ApplyObservation(c, o), alarm, s.next, journal + [record], registryState);
        assert journal + s.journaled == journal + [record] + [alarm];
      }
    }
  }

  lemma TakenRecord(cfg: DeploymentConfig, c: Coordinator, o: PairedObservation, first: Journal)
    requires Taken(cfg, c, o, first) && Validates(first)
    ensures var record := NewRecord(cfg, c, first, Observed(o));
      && record.header == HeaderOf(cfg) && ValidRecord(record) && record.state == c.state
      && record.entry == Observed(o) && ValidObservation(cfg, c, o)
  {
    hide ValidRecord, ValidObservation, HeaderOf;
  }

  lemma AlarmRecord(cfg: DeploymentConfig, failed: Coordinator, second: Journal, r: Record)
    requires Alarm(cfg, failed, second, r) && Validates(second)
    ensures r.header == HeaderOf(cfg) && ValidRecord(r) && r.entry.Triggered?
  {
    hide ValidRecord, HeaderOf;
  }

  lemma RollbackIsRecoverable(cfg: DeploymentConfig, sys: System, turn: Turn, registryState: RunState)
    requires ValidZ(cfg) && WellKept(cfg, sys.c) && Owned(sys) && SinkValidates(turn)
    requires Live(sys.c.state) ==> JournalMirrors(cfg, sys.c, sys.journal, registryState)
    requires sys.c.state.RollbackPending? ==> Recoverable(cfg, sys.c, sys.journal, registryState)
    requires Step(cfg, sys, turn).c.state.RollbackPending?
    ensures var next := Step(cfg, sys, turn); Recoverable(cfg, next.c, next.journal, registryState)
  {
    hide WellKept, Owned, Step, JournalMirrors, Recoverable;
    if turn.Observe? {
      ObservedRollback(cfg, sys, turn, registryState);
    } else {
      OtherRollback(cfg, sys, turn);
      if Live(sys.c.state) { MirrorsIsRecoverable(cfg, sys.c, Step(cfg, sys, turn).c, sys.journal, registryState); }
    }
  }

  lemma ObservedRollback(cfg: DeploymentConfig, sys: System, turn: Turn, registryState: RunState)
    requires ValidZ(cfg) && WellKept(cfg, sys.c) && SinkValidates(turn) && turn.Observe?
    requires Live(sys.c.state) ==> JournalMirrors(cfg, sys.c, sys.journal, registryState)
    requires sys.c.state.RollbackPending? ==> Recoverable(cfg, sys.c, sys.journal, registryState)
    requires Step(cfg, sys, turn).c.state.RollbackPending?
    ensures var next := Step(cfg, sys, turn); Recoverable(cfg, next.c, next.journal, registryState)
  {
    ObserveFailsClosed(cfg, sys.c, turn.observation, turn.first, turn.second);
    hide WellKept, ObserveSection, JournalMirrors, Recoverable, Validates;
    assert sys.journal + [] == sys.journal;
    if Live(sys.c.state) {
      ObserveIsRecoverable(cfg, sys.c, turn.observation, turn.first, turn.second, sys.journal, registryState);
    }
  }

  // Any other way into ROLLBACK_PENDING, and any turn that stays there, journals nothing.
  lemma OtherRollback(cfg: DeploymentConfig, sys: System, turn: Turn)
    requires ValidZ(cfg) && WellKept(cfg, sys.c) && Owned(sys) && !turn.Observe?
    requires Step(cfg, sys, turn).c.state.RollbackPending?
    ensures var next := Step(cfg, sys, turn);
      && next.journal == sys.journal && (Live(sys.c.state) || next.c == sys.c)
      && (Live(sys.c.state) || sys.c.state.RollbackPending?)
      && next.c.statistics == sys.c.statistics && next.c.lastObservationSequence == sys.c.lastObservationSequence
  {
    assert sys.journal + [] == sys.journal;
    if turn.Admit? {
      hide WellKept, Owned, NewRecord, Decide, AfterDecision;
      AdmitFailsClosed(cfg, sys.c, turn.request, turn.io);
      DecisionKeepsState(cfg, sys.c, turn.request);
    } else {
      OwnersKnown(sys, turn.caller);
      hide WellKept, Owned, Evidence, ValidApproval, NewRecord, ObserveSection, AdmitSection;
    }
  }

  lemma {:induction false} EveryOwedRollbackIsRecoverable(cfg: DeploymentConfig, turns: seq<Turn>,
                                                          registryState: RunState)
    requires ValidZ(cfg) && cfg.orderRateWindowNS > 0 && AllValidate(turns)
    ensures var sys := Run(cfg, turns);
      sys.c.state.RollbackPending? ==> Recoverable(cfg, sys.c, sys.journal, registryState)
  {
    hide WellKept, Owned, Justified, Once, RateKept, Step, SinkValidates, Recoverable, JournalMirrors;
    if turns != [] && Run(cfg, turns).c.state.RollbackPending? {
      var earlier := turns[..|turns| - 1];
      EveryOwedRollbackIsRecoverable(cfg, earlier, registryState);
      EveryRunIsSafe(cfg, earlier);
      EveryRunMirrors(cfg, earlier, registryState);
      RollbackIsRecoverable(cfg, Run(cfg, earlier), turns[|turns| - 1], registryState);
    }
  }

  /** When a rollback was owed and the process stopped, restoring the journal against a registry still in
      CANARY succeeds exactly when the scope requests are monotone and the journal does not end in an approval
      request. The restored coordinator has all the evidence. It is in ROLLBACK_PENDING exactly when the last
      record is the alarm; otherwise it is back in CANARY and the rollback is lost. */
  lemma RestoreOfOwedRollback(cfg: DeploymentConfig, turns: seq<Turn>)
    requires ValidConfig(cfg) && AllValidate(turns) && Run(cfg, turns).c.state.RollbackPending?
    ensures Run(cfg, turns).journal != []
    ensures var sys := Run(cfg, turns);
      var rebuilt, last := Restore(cfg, sys.journal, Canary), LastRecord(sys.journal).entry;
      && (rebuilt.Ok? <==> Monotone(ScopeRequests(sys.journal)) && !last.ApprovalRequested?)
      && (rebuilt.Ok? ==>
            && rebuilt.value.statistics == sys.c.statistics
            && rebuilt.value.state == if last.Triggered? then RollbackPending else Canary)
  {
    ConfigFacts(cfg);
    hide ValidConfig, Run, WellKept, Ends, Recoverable, Restore, ScopeRequests, Monotone, SinkValidates;
    var sys := Run(cfg, turns);
    EveryRunEnds(cfg, turns);
    EveryOwedRollbackIsRecoverable(cfg, turns, Canary);
    OwedRollbackRestored(cfg, sys.c, sys.journal);
  }

  lemma OwedRollbackRestored(cfg: DeploymentConfig, c: Coordinator, journal: seq<Record>)
    requires Ends(RollbackPending, journal) && Recoverable(cfg, c, journal, Canary)
    ensures journal != []
    ensures var rebuilt, last := Restore(cfg, journal, Canary), LastRecord(journal).entry;
      && (rebuilt.Ok? <==> Monotone(ScopeRequests(journal)) && !last.ApprovalRequested?)
      && (rebuilt.Ok? ==>
            && rebuilt.value.statistics == c.statistics
            && rebuilt.value.state == if last.Triggered? then RollbackPending else Canary)
  {
    hide RestoreAll, ScopeRequests, Monotone, Fresh;
  }

  /** And a rollback restored as owed is never performed: the restarted system stays in ROLLBACK_PENDING
      whatever anybody calls, because the callers that owed it are gone. */
  lemma RestoredRollbackIsNeverPerformed(cfg: DeploymentConfig, turns: seq<Turn>, more: seq<Turn>)
    requires ValidConfig(cfg) && AllValidate(turns) && Run(cfg, turns).c.state.RollbackPending?
    requires Restore(cfg, Run(cfg, turns).journal, Canary).Ok?
    requires Restore(cfg, Run(cfg, turns).journal, Canary).value.state.RollbackPending?
    ensures var sys := Run(cfg, turns);
      var rebuilt := Restore(cfg, sys.journal, Canary).value;
      WellKept(cfg, rebuilt) && Continue(cfg, Quiesced(sys).(c := rebuilt), more).c == rebuilt
  {
    ConfigFacts(cfg);
    EveryOwedRollbackIsRecoverable(cfg, turns, Canary);
    hide ValidConfig, Run, RestoreAll, ScopeRequests, Monotone, Fresh, WellKept, Continue;
    var sys := Run(cfg, turns);
    var rebuilt := Restore(cfg, sys.journal, Canary).value;
    SameStatistics(cfg, sys.c, rebuilt);
    OwnerlessPendingIsPermanent(cfg, Quiesced(sys).(c := rebuilt), more);
  }

  /** From every reachable CANARY that can be restored, one invalid observation owes a rollback that a
      restart before its completion loses: the journal has no trace of it. */
  lemma InvalidObservationLosesRollback(cfg: DeploymentConfig, turns: seq<Turn>, caller: nat, o: PairedObservation)
    requires ValidConfig(cfg) && AllValidate(turns) && Run(cfg, turns).c.state.Canary?
      && At(Run(cfg, turns), caller).Idle?
    requires Monotone(ScopeRequests(Run(cfg, turns).journal)) && !ValidObservation(cfg, Run(cfg, turns).c, o)
    ensures var after := Run(cfg, turns + [Observe(caller, o, Sink(1), Sink(1))]);
      && after.c.state.RollbackPending? && At(after, caller).OwesRollback?
      && Restore(cfg, after.journal, Canary).Ok? && Restore(cfg, after.journal, Canary).value.state.Canary?
  {
    ConfigFacts(cfg);
    var turn := Observe(caller, o, Sink(1), Sink(1));
    hide ValidConfig, Run, Restore, ScopeRequests, Monotone, WellKept, Step, ValidObservation, SinkValidates, Sink,
         Ends, AllValidate, LastRecord;
    SinkObserves(caller, o);
    RunExtends(cfg, turns, turn);
    ValidateExtends(turns, turn);
    EveryRunEnds(cfg, turns);
    EndsInCanary(Run(cfg, turns).journal);
    RestoreOfOwedRollbackFacts(cfg, turns, turn);
    RestoreOfOwedRollback(cfg, turns + [turn]);
  }

  lemma SinkObserves(caller: nat, o: PairedObservation)
    ensures SinkValidates(Observe(caller, o, Sink(1), Sink(1)))
  {
  }

  lemma EndsInCanary(journal: seq<Record>)
    requires Ends(Canary, journal)
    ensures journal != [] && !LastRecord(journal).entry.Triggered? && !LastRecord(journal).entry.ApprovalRequested?
  {
  }

  lemma RestoreOfOwedRollbackFacts(cfg: DeploymentConfig, turns: seq<Turn>, turn: Turn)
    requires ValidZ(cfg) && Run(cfg, turns).c.state.Canary? && turn.Observe? && At(Run(cfg, turns), turn.caller).Idle?
    requires !ValidObservation(cfg, Run(cfg, turns).c, turn.observation)
    ensures var after := Step(cfg, Run(cfg, turns), turn);
      && after.c.state.RollbackPending? && At(after, turn.caller).OwesRollback?
      && after.journal == Run(cfg, turns).journal
  {
    hide Run, WellKept, ValidObservation;
  }

  // ----- A promotion under way -------------------------------------------------------------------------------

  lemma {:induction false} NoScopesBeforeCanary(cfg: DeploymentConfig, turns: seq<Turn>)
    requires ValidZ(cfg)
    ensures Run(cfg, turns).canaryEntries == 0 ==> ScopeRequests(Run(cfg, turns).journal) == []
  {
    hide WellKept, Step;
    if turns != [] {
      hide Owned, Justified, RateKept, ScopeRequests;
      NoScopesBeforeCanary(cfg, turns[..|turns| - 1]);
      EveryRunIsSafe(cfg, turns[..|turns| - 1]);
      StepAddsNoScope(cfg, Run(cfg, turns[..|turns| - 1]), turns[|turns| - 1]);
    }
  }

  lemma StepAddsNoScope(cfg: DeploymentConfig, sys: System, turn: Turn)
    requires ValidZ(cfg) && WellKept(cfg, sys.c) && Once(sys)
      && (sys.canaryEntries == 0 ==> ScopeRequests(sys.journal) == [])
    ensures var next := Step(cfg, sys, turn); next.canaryEntries == 0 ==> ScopeRequests(next.journal) == []
  {
    hide WellKept, Evidence, ValidApproval, ObserveSection, AdmitSection, ScopeRequests;
    var next := Step(cfg, sys, turn);
    if next.canaryEntries == 0 {
      assert sys.canaryEntries == 0 && !sys.c.state.Canary?;
      hide Step, Once;
      if turn.Observe? {
        ObserveAddsNoScope(cfg, sys, turn);
      } else {
        var added: seq<Record>;
        if turn.Admit? {
          added := AdmitAddsLittle(cfg, sys, turn);
        } else {
          added := ProtocolAddsLittle(cfg, sys, turn);
        }
        ScopelessExtends(sys.journal, added);
      }
    }
  }

  lemma ObserveAddsNoScope(cfg: DeploymentConfig, sys: System, turn: Turn)
    requires ValidZ(cfg) && WellKept(cfg, sys.c) && turn.Observe?
    ensures ScopeRequests(Step(cfg, sys, turn).journal) == ScopeRequests(sys.journal)
  {
    hide WellKept, ObserveSection, ScopeRequests;
    ObserveJournals(cfg, sys.c, turn.observation, turn.first, turn.second);
    var added := ObserveSection(cfg, sys.c, turn.observation, turn.first, turn.second).journaled;
    ScopelessExtends(sys.journal, added);
  }

  lemma ScopelessExtends(journal: seq<Record>, added: seq<Record>)
    requires |added| <= 2 && forall i | 0 <= i < |added| :: !added[i].entry.ScopeDecided?
    ensures ScopeRequests(journal + added) == ScopeRequests(journal)
  {
    hide ScopeRequests;
    if |added| == 0 {
      assert journal + added == journal;
    } else if |added| == 1 {
      ScopeRequestsExtend(journal, added[0]);
      assert journal + added == journal + [added[0]];
    } else {
      ScopeRequestsExtend(journal, added[0]);
      ScopeRequestsExtend(journal + [added[0]], added[1]);
      assert journal + added == journal + [added[0]] + [added[1]];
    }
  }

  /** When a promotion was under way: a registry still in SHADOW restores PROMOTION_PENDING, which nobody owns
      any more; a registry already in CANARY makes the journal impossible to restore. */
  lemma RestoreOfPendingPromotion(cfg: DeploymentConfig, turns: seq<Turn>)
    requires ValidConfig(cfg) && AllValidate(turns) && Run(cfg, turns).c.state.PromotionPending?
    ensures var sys := Run(cfg, turns);
      && Restore(cfg, sys.journal, Shadow).Ok? && Restore(cfg, sys.journal, Shadow).value.state.PromotionPending?
      && Restore(cfg, sys.journal, Canary) == Err(RegistryMismatch)
  {
    ConfigFacts(cfg);
    EveryRunEnds(cfg, turns);
    EveryRunIsSafe(cfg, turns);
    NoScopesBeforeCanary(cfg, turns);
    EveryRunMirrors(cfg, turns, Shadow);
    EveryRunMirrors(cfg, turns, Canary);
    hide ValidConfig, Run, Restore, ScopeRequests, WellKept, Owned, Justified, RateKept, JournalMirrors, Ends;
    var sys := Run(cfg, turns);
    PendingRestored(cfg, sys.c, sys.journal);
  }

  lemma PendingRestored(cfg: DeploymentConfig, c: Coordinator, journal: seq<Record>)
    requires c.state.PromotionPending? && Ends(PromotionPending, journal) && ScopeRequests(journal) == []
    requires JournalMirrors(cfg, c, journal, Shadow) && JournalMirrors(cfg, c, journal, Canary)
    ensures Restore(cfg, journal, Shadow).Ok? && Restore(cfg, journal, Shadow).value.state.PromotionPending?
    ensures Restore(cfg, journal, Canary) == Err(RegistryMismatch)
  {
    hide RestoreAll, ScopeRequests, Fresh, Mirrors;
  }
}
