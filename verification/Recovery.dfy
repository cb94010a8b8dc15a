/** Rebuilding a coordinator from its journal, and how faithful the rebuilt one is. */
module Recovery {
  import opened Results
  import opened DeploymentTypes
  import opened Statistics
  import opened Coordinator
  import opened CanaryScope
  import opened Interleaving

  datatype RestoreError = WrongDeployment | MalformedRecord | BadObservation | RegressedScope | RegistryMismatch

  // One iteration of restore's loop.
  function RestoreRecord(cfg: DeploymentConfig, c: Coordinator, r: Record): Result<Coordinator, RestoreError> {
    if r.header != HeaderOf(cfg) then Err(WrongDeployment)
    else if !ValidRecord(r) then Err(MalformedRecord)
    else
      match r.entry
      case Observed(o) =>
        if !ValidObservation(cfg, c, o) || o.regime !in c.statistics then Err(BadObservation)
        else Ok(ApplyObservation(c, o).(state := r.state))
      case ScopeDecided(q, decision) =>
        if q.sequence <= c.lastScopeSequence || q.nowNS < c.lastScopeTimeNS then Err(RegressedScope)
        else
          var kept := Expire(c.orderTimes, q.nowNS, cfg.orderRateWindowNS);
          Ok(c.(lastScopeSequence := q.sequence, lastScopeTimeNS := q.nowNS,
                orderTimes := kept + (if decision.admitted then [q.nowNS] else []), state := r.state))
      case _ => Ok(c.(state := r.state))
  }

  function RestoreAll(cfg: DeploymentConfig, c: Coordinator, records: seq<Record>): Result<Coordinator, RestoreError> {
    if records == [] then Ok(c)
    else
      match RestoreAll(cfg, c, records[..|records| - 1])
      case Err(e) => Err(e)
      case Ok(d) => RestoreRecord(cfg, d, records[|records| - 1])
  }

  function Restore(cfg: DeploymentConfig, records: seq<Record>,
                   registryState: RunState): Result<Coordinator, RestoreError> {
    match RestoreAll(cfg, Fresh(cfg, registryState), records)
    case Err(e) => Err(e)
    case Ok(d) =>
      if registryState.Canary? && !d.state.Canary? && !d.state.RollbackPending? then Err(RegistryMismatch)
      else if registryState.Shadow? && (d.state.Canary? || d.state.RollbackPending?) then Err(RegistryMismatch)
      else Ok(d)
  }

  /** The first record that restore refuses decides the outcome. */
  lemma {:induction false} FirstErrorDecides(cfg: DeploymentConfig, c: Coordinator, records: seq<Record>, k: nat)
    requires k <= |records| && RestoreAll(cfg, c, records[..k]).Err?
    ensures RestoreAll(cfg, c, records) == RestoreAll(cfg, c, records[..k])
  {
    if k == |records| {
      assert records[..k] == records;
    } else {
      var front := records[..|records| - 1];
      assert front[..k] == records[..k];
      FirstErrorDecides(cfg, c, front, k);
    }
  }

  // ----- What the journal says about scope requests -----------------------------------------------

  function ScopeRequests(records: seq<Record>): seq<ScopeRequest> {
    if records == [] then []
    else
      var last := records[|records| - 1];
      ScopeRequests(records[..|records| - 1]) + if last.entry.ScopeDecided? then [last.entry.request] else []
  }

  // Sequences strictly increase from a positive one and times never regress.
  predicate Monotone(qs: seq<ScopeRequest>) {
    qs == [] ||
    var earlier, q := qs[..|qs| - 1], qs[|qs| - 1];
    Monotone(earlier) && q.sequence > LastSequence(earlier) && q.nowNS >= LastTime(earlier)
  }

  function LastSequence(qs: seq<ScopeRequest>): uint64 { if qs == [] then 0 else qs[|qs| - 1].sequence }

  function LastTime(qs: seq<ScopeRequest>): uint64 { if qs == [] then 0 else qs[|qs| - 1].nowNS }

  predicate LastIsStructurallyValid(qs: seq<ScopeRequest>) { qs == [] || StructurallyValid(qs[|qs| - 1]) }

  // ----- Expiry composes -----------------------------------------------------------------------------

  lemma {:induction false} ExpireTwice(times: seq<uint64>, earlier: uint64, now: uint64, window: uint64)
    requires earlier <= now
    ensures Expire(Expire(times, earlier, window), now, window) == Expire(times, now, window)
  {
    if times != [] && Expired(times[0], earlier, window) {
      ExpireTwice(times[1..], earlier, now, window);
    }
  }

  lemma ExpireAfterAdmission(times: seq<uint64>, now: uint64, window: uint64)
    requires window > 0
    ensures var kept := Expire(times, now, window) + [now]; Expire(kept, now, window) == kept
  {
    ExpireDropsPrefix(times, now, window);
  }

  // ----- The rebuilt coordinator mirrors the live one ---------------------------------------------------

  // The same coordinator up to order times that have already left the window.
  ghost predicate Alike(cfg: DeploymentConfig, c: Coordinator, d: Coordinator) {
    && d == c.(orderTimes := d.orderTimes)
    && Expire(d.orderTimes, c.lastScopeTimeNS, cfg.orderRateWindowNS)
       == Expire(c.orderTimes, c.lastScopeTimeNS, cfg.orderRateWindowNS)
  }

  // How a coordinator rebuilt from journaled scope requests qs stands to the live one.
  ghost predicate Mirrors(cfg: DeploymentConfig, c: Coordinator, d: Coordinator, qs: seq<ScopeRequest>) {
    && d.statistics == c.statistics && d.lastObservationSequence == c.lastObservationSequence
    && d.lastScopeTimeNS == c.lastScopeTimeNS == LastTime(qs)
    && d.lastScopeSequence == LastSequence(qs) >= c.lastScopeSequence
    && (d.lastScopeSequence == c.lastScopeSequence <==> LastIsStructurallyValid(qs))
    && d.orderTimes == Expire(c.orderTimes, c.lastScopeTimeNS, cfg.orderRateWindowNS)
  }

  lemma ScopeMirrors(cfg: DeploymentConfig, c: Coordinator, d: Coordinator, qs: seq<ScopeRequest>, r: Record)
    requires cfg.orderRateWindowNS > 0 && c.state.Canary? && Mirrors(cfg, c, d, qs) && r.entry.ScopeDecided?
    requires r.header == HeaderOf(cfg) && ValidRecord(r) && r.entry.decision == Decide(cfg, c, r.entry.request)
    ensures var q := r.entry.request;
      RestoreRecord(cfg, d, r).Ok? <==> q.sequence > LastSequence(qs) && q.nowNS >= LastTime(qs)
    ensures RestoreRecord(cfg, d, r).Ok? ==>
      var q := r.entry.request;
      Mirrors(cfg, AfterDecision(cfg, c, q), RestoreRecord(cfg, d, r).value, qs + [q])
  {
    hide StructurallyValid, ValidRecord, Refusal;
    var q, w := r.entry.request, cfg.orderRateWindowNS;
    if RestoreRecord(cfg, d, r).Ok? {
      ExpireTwice(c.orderTimes, c.lastScopeTimeNS, q.nowNS, w);
      ExpireTwice(c.orderTimes, q.nowNS, q.nowNS, w);
      ExpireAfterAdmission(c.orderTimes, q.nowNS, w);
      var kept, considered := Expire(c.orderTimes, q.nowNS, w), TimesConsidered(cfg, c, q);
      assert kept + [] == kept && considered + [] == considered && (qs + [q])[|qs|] == q;
    }
  }

  // ----- Along every run ----------------------------------------------------------------------------------

  predicate Live(state: RunState) { state.Shadow? || state.PromotionPending? || state.Canary? }

  // A journal that validates what it makes durable, as the file sink does.
  ghost predicate Validates(io: Journal) { forall r | io.accepts(r) :: ValidRecord(r) }

  ghost predicate SinkValidates(turn: Turn) {
    match turn
    case Observe(_, _, first, second) => Validates(first) && Validates(second)
    case LockPromotion(_, io) => Validates(io)
    case FinishPromotion(_, io) => Validates(io)
    case Admit(_, _, io) => Validates(io)
    case FinishRollback(_, io) => Validates(io)
    case _ => true
  }

  ghost predicate JournalMirrors(cfg: DeploymentConfig, c: Coordinator, journal: seq<Record>, registryState: RunState) {
    var rebuilt, qs := RestoreAll(cfg, Fresh(cfg, registryState), journal), ScopeRequests(journal);
    && (rebuilt.Ok? <==> Monotone(qs))
    && (rebuilt.Ok? ==> Mirrors(cfg, c, rebuilt.value, qs) && (journal != [] ==> rebuilt.value.state == c.state))
    && (journal == [] ==> c.state.Shadow?)
  }

  lemma ScopeRequestsExtend(journal: seq<Record>, r: Record)
    ensures ScopeRequests(journal + [r])
         == ScopeRequests(journal) + if r.entry.ScopeDecided? then [r.entry.request] else []
  {
    assert (journal + [r])[..|journal|] == journal;
  }

  lemma RestoreExtends(cfg: DeploymentConfig, c: Coordinator, journal: seq<Record>, r: Record)
    ensures RestoreAll(cfg, c, journal + [r]) ==
      match RestoreAll(cfg, c, journal) case Err(e) => Err(e) case Ok(d) => RestoreRecord(cfg, d, r)
  {
    assert (journal + [r])[..|journal|] == journal;
  }

  lemma AppendScopeMirrors(cfg: DeploymentConfig, c: Coordinator, journal: seq<Record>, r: Record,
                           registryState: RunState)
    requires cfg.orderRateWindowNS > 0 && c.state.Canary? && JournalMirrors(cfg, c, journal, registryState)
    requires r.header == HeaderOf(cfg) && ValidRecord(r) && r.state == c.state
    requires r.entry.ScopeDecided? && r.entry.decision == Decide(cfg, c, r.entry.request)
    ensures JournalMirrors(cfg, AfterDecision(cfg, c, r.entry.request), journal + [r], registryState)
  {
    hide ValidRecord, Decide, Fresh, Mirrors, TimesConsidered, StructurallyValid, RestoreAll, ScopeRequests;
    var rebuilt, qs, q := RestoreAll(cfg, Fresh(cfg, registryState), journal), ScopeRequests(journal), r.entry.request;
    ScopeRequestsExtend(journal, r);
    RestoreExtends(cfg, Fresh(cfg, registryState), journal, r);
    assert (qs + [q])[..|qs|] == qs;
    if rebuilt.Ok? { ScopeMirrors(cfg, c, rebuilt.value, qs, r); }
  }

  lemma AppendObservationMirrors(cfg: DeploymentConfig, c: Coordinator, journal: seq<Record>, r: Record,
                                 registryState: RunState)
    requires WellKept(cfg, c) && JournalMirrors(cfg, c, journal, registryState)
    requires r.header == HeaderOf(cfg) && ValidRecord(r) && r.state == c.state
    requires r.entry.Observed? && ValidObservation(cfg, c, r.entry.observation)
    ensures JournalMirrors(cfg, ApplyObservation(c, r.entry.observation), journal + [r], registryState)
  {
    hide ValidRecord, Fresh, ValidPair, RestoreAll, ScopeRequests, Bounded, StructurallyValid, Expire;
    var qs := ScopeRequests(journal);
    ScopeRequestsExtend(journal, r);
    RestoreExtends(cfg, Fresh(cfg, registryState), journal, r);
    assert qs + [] == qs;
  }

  lemma AppendOtherMirrors(cfg: DeploymentConfig, c: Coordinator, journal: seq<Record>, r: Record,
                           registryState: RunState)
    requires JournalMirrors(cfg, c, journal, registryState)
    requires r.header == HeaderOf(cfg) && ValidRecord(r) && !r.entry.Observed? && !r.entry.ScopeDecided?
    ensures JournalMirrors(cfg, c.(state := r.state), journal + [r], registryState)
  {
    hide ValidRecord, Fresh, RestoreAll, ScopeRequests, StructurallyValid, Expire;
    var qs := ScopeRequests(journal);
    ScopeRequestsExtend(journal, r);
    RestoreExtends(cfg, Fresh(cfg, registryState), journal, r);
    assert qs + [] == qs;
  }

  lemma LiveObservationIsRecorded(cfg: DeploymentConfig, c: Coordinator, o: PairedObservation, first: Journal,
                                  second: Journal)
    requires ValidZ(cfg) && WellKept(cfg, c) && Live(c.state)
    requires Live(ObserveSection(cfg, c, o, first, second).next.state)
    ensures var s := ObserveSection(cfg, c, o, first, second);
      var r := NewRecord(cfg, c, first, Observed(o));
      || (s.next == c && s.journaled == [])
      || (ValidObservation(cfg, c, o) && s.next == ApplyObservation(c, o) && s.journaled == [r] && first.accepts(r))
  {
    hide WellKept, ValidPair, Bounded, Interval, Breached;
    ObserveFailsClosed(cfg, c, o, first, second);
  }

  lemma StepKeepsMirror(cfg: DeploymentConfig, sys: System, turn: Turn, registryState: RunState)
    requires ValidZ(cfg) && cfg.orderRateWindowNS > 0 && WellKept(cfg, sys.c) && Owned(sys) && SinkValidates(turn)
    requires Live(sys.c.state) ==> JournalMirrors(cfg, sys.c, sys.journal, registryState)
    ensures var next := Step(cfg, sys, turn);
      Live(next.c.state) ==> JournalMirrors(cfg, next.c, next.journal, registryState)
  {
    hide WellKept, ObserveSection, Decide, TimesConsidered, Evidence, ValidApproval, JournalMirrors, ValidRecord;
    var next, t := Step(cfg, sys, turn), turn.caller;
    var pc := At(sys, t);
    assert sys.journal + [] == sys.journal;
    OwnersKnown(sys, t);
    if !Live(next.c.state) { return; }
    match turn
    case Observe(_, o, first, second) =>
      ObserveFailsClosed(cfg, sys.c, o, first, second);
      if pc.Idle? {
        LiveObservationIsRecorded(cfg, sys.c, o, first, second);
        if next.c != sys.c {
          AppendObservationMirrors(cfg, sys.c, sys.journal, NewRecord(cfg, sys.c, first, Observed(o)), registryState);
        }
      }
    case Admit(_, q, io) =>
      if pc.Idle? && sys.c.state.Canary? {
        AppendScopeMirrors(cfg, sys.c, sys.journal, NewRecord(cfg, sys.c, io, ScopeDecided(q, Decide(cfg, sys.c, q))),
                           registryState);
      }
    case LockPromotion(_, io) =>
      if pc.SawReady? && sys.c.state.Shadow? {
        AppendOtherMirrors(cfg, sys.c, sys.journal, NewRecord(cfg, next.c, io, ApprovalRequested(pc.approval)),
                           registryState);
      }
    case FinishPromotion(_, io) =>
      if pc.RegistryAnswered? {
        AppendOtherMirrors(cfg, sys.c, sys.journal, NewRecord(cfg, next.c, io, CanaryActivated(pc.approval)),
                           registryState);
      }
    case _ =>
  }

  lemma {:induction false} EveryRunMirrors(cfg: DeploymentConfig, turns: seq<Turn>, registryState: RunState)
    requires ValidZ(cfg) && cfg.orderRateWindowNS > 0
    requires forall i | 0 <= i < |turns| :: SinkValidates(turns[i])
    ensures var sys := Run(cfg, turns);
      Live(sys.c.state) ==> JournalMirrors(cfg, sys.c, sys.journal, registryState)
  {
    hide WellKept, Owned, Justified, Once, RateKept, Step, SinkValidates;
    if turns != [] {
      hide JournalMirrors;
      var earlier := turns[..|turns| - 1];
      EveryRunMirrors(cfg, earlier, registryState);
      EveryRunIsSafe(cfg, earlier);
      StepKeepsMirror(cfg, Run(cfg, earlier), turns[|turns| - 1], registryState);
    }
  }

  /** Recovery, exactly. For every run that ends in SHADOW or CANARY, restoring its journal succeeds
      if and only if the journaled scope requests have increasing sequences and non-regressing times;
      and then the rebuilt coordinator is the live one, up to order times already outside the window,
      if and only if the last journaled scope request was structurally valid. */
  lemma RestoreIsFaithful(cfg: DeploymentConfig, turns: seq<Turn>)
    requires ValidConfig(cfg) && forall i | 0 <= i < |turns| :: SinkValidates(turns[i])
    requires Run(cfg, turns).c.state.Shadow? || Run(cfg, turns).c.state.Canary?
    ensures var sys := Run(cfg, turns);
      var rebuilt, qs := Restore(cfg, sys.journal, sys.c.state), ScopeRequests(sys.journal);
      && (rebuilt.Ok? <==> Monotone(qs))
      && (rebuilt.Ok? ==> (Alike(cfg, sys.c, rebuilt.value) <==> LastIsStructurallyValid(qs)))
  {
    ConfigFacts(cfg);
    hide ValidConfig, Run, SinkValidates, Monotone, LastIsStructurallyValid, JournalMirrors, Restore, ScopeRequests,
         Alike;
    var sys := Run(cfg, turns);
    EveryRunMirrors(cfg, turns, sys.c.state);
    MirroredIsFaithful(cfg, sys.c, sys.journal);
  }

  lemma MirroredIsFaithful(cfg: DeploymentConfig, c: Coordinator, journal: seq<Record>)
    requires JournalMirrors(cfg, c, journal, c.state) && (c.state.Shadow? || c.state.Canary?)
    ensures var rebuilt, qs := Restore(cfg, journal, c.state), ScopeRequests(journal);
      && (rebuilt.Ok? <==> Monotone(qs))
      && (rebuilt.Ok? ==> (Alike(cfg, c, rebuilt.value) <==> LastIsStructurallyValid(qs)))
  {
    hide RestoreAll, ScopeRequests, Monotone, LastIsStructurallyValid, Expire;
    ExpireTwice(c.orderTimes, c.lastScopeTimeNS, c.lastScopeTimeNS, cfg.orderRateWindowNS);
    if journal == [] { NothingRestored(cfg, Fresh(cfg, c.state)); }
  }

  lemma NothingRestored(cfg: DeploymentConfig, c: Coordinator)
    ensures RestoreAll(cfg, c, []) == Ok(c)
  {
  }

  lemma ConfigFacts(cfg: DeploymentConfig)
    requires ValidConfig(cfg)
    ensures ValidZ(cfg) && cfg.orderRateWindowNS > 0
  {
  }

  // ----- Alike coordinators cannot be told apart -------------------------------------------------------------

  lemma AlikeWindows(cfg: DeploymentConfig, c: Coordinator, d: Coordinator, now: uint64)
    requires Alike(cfg, c, d) && now >= c.lastScopeTimeNS
    ensures Expire(d.orderTimes, now, cfg.orderRateWindowNS) == Expire(c.orderTimes, now, cfg.orderRateWindowNS)
  {
    ExpireTwice(c.orderTimes, c.lastScopeTimeNS, now, cfg.orderRateWindowNS);
    ExpireTwice(d.orderTimes, c.lastScopeTimeNS, now, cfg.orderRateWindowNS);
  }

  lemma AlikeDecide(cfg: DeploymentConfig, c: Coordinator, d: Coordinator, q: ScopeRequest)
    requires Alike(cfg, c, d)
    ensures Decide(cfg, d, q) == Decide(cfg, c, q)
    ensures Alike(cfg, AfterDecision(cfg, c, q), AfterDecision(cfg, d, q))
    ensures Refusal(cfg, d, q) == Refusal(cfg, c, q)
    ensures Refusal(cfg, c, q).None? ==> TimesConsidered(cfg, d, q) == TimesConsidered(cfg, c, q)
  {
    hide StructurallyValid;
    if ValidSequence(c, q) && q.nowNS >= c.lastScopeTimeNS { AlikeWindows(cfg, c, d, q.nowNS); }
    var cs, ds := TimesConsidered(cfg, c, q), TimesConsidered(cfg, d, q);
    assert cs + [] == cs && ds + [] == ds;
  }

  lemma AlikeAdmit(cfg: DeploymentConfig, c: Coordinator, d: Coordinator, q: ScopeRequest, io: Journal)
    requires Alike(cfg, c, d)
    ensures var s, r := AdmitSection(cfg, c, q, io), AdmitSection(cfg, d, q, io);
      && r == s.(next := r.next)
      && Alike(cfg, s.next, r.next)
  {
    hide StructurallyValid, Decide, AfterDecision, Refusal;
    AlikeDecide(cfg, c, d, q);
  }

  lemma AlikeObserve(cfg: DeploymentConfig, c: Coordinator, d: Coordinator, o: PairedObservation, first: Journal,
                     second: Journal)
    requires WellKept(cfg, c) && WellKept(cfg, d) && Alike(cfg, c, d)
    ensures var s, r := ObserveSection(cfg, c, o, first, second), ObserveSection(cfg, d, o, first, second);
      && r == s.(next := r.next)
      && Alike(cfg, s.next, r.next)
  {
    hide ValidPair, Bounded, Interval, Expire, MetricInterval;
  }

  // The system after performing further turns.
  ghost function Continue(cfg: DeploymentConfig, sys: System, turns: seq<Turn>): (next: System)
    requires ValidZ(cfg) && WellKept(cfg, sys.c)
    ensures WellKept(cfg, next.c)
  {
    if turns == [] then sys
    else
      var before := Continue(cfg, sys, turns[..|turns| - 1]);
      StepKeepsStatistics(cfg, before, turns[|turns| - 1]);
      Step(cfg, before, turns[|turns| - 1])
  }

  // Two systems that differ only inside alike coordinators.
  ghost predicate AlikeSystems(cfg: DeploymentConfig, x: System, y: System) {
    && Alike(cfg, x.c, y.c)
    && y.journal == x.journal && y.callers == x.callers
    && y.canaryEntries == x.canaryEntries && y.admissions == x.admissions && |y.promotions| == |x.promotions|
  }

  lemma StepKeepsAlike(cfg: DeploymentConfig, x: System, y: System, turn: Turn)
    requires ValidZ(cfg) && WellKept(cfg, x.c) && WellKept(cfg, y.c) && AlikeSystems(cfg, x, y)
    ensures AlikeSystems(cfg, Step(cfg, x, turn), Step(cfg, y, turn))
  {
    hide WellKept, Step, AlikeSystems;
    if turn.Observe? || turn.Admit? { CallKeepsAlike(cfg, x, y, turn); } else { ProtocolKeepsAlike(cfg, x, y, turn); }
  }

  lemma CallKeepsAlike(cfg: DeploymentConfig, x: System, y: System, turn: Turn)
    requires ValidZ(cfg) && WellKept(cfg, x.c) && WellKept(cfg, y.c) && AlikeSystems(cfg, x, y)
    requires turn.Observe? || turn.Admit?
    ensures AlikeSystems(cfg, Step(cfg, x, turn), Step(cfg, y, turn))
  {
    hide WellKept, ObserveSection, AdmitSection, Alike;
    if turn.Observe? { AlikeObserve(cfg, x.c, y.c, turn.observation, turn.first, turn.second); }
    if turn.Admit? { AlikeAdmit(cfg, x.c, y.c, turn.request, turn.io); }
  }

  lemma ProtocolKeepsAlike(cfg: DeploymentConfig, x: System, y: System, turn: Turn)
    requires ValidZ(cfg) && WellKept(cfg, x.c) && WellKept(cfg, y.c) && AlikeSystems(cfg, x, y)
    requires !turn.Observe? && !turn.Admit?
    ensures AlikeSystems(cfg, Step(cfg, x, turn), Step(cfg, y, turn))
  {
    hide WellKept, Expire, Evidence, ValidApproval;
    SameStatistics(cfg, x.c, y.c);
  }

  /** Alike systems stay alike under every future sequence of turns: the same records reach the journal, the
      same requests are admitted, every caller ends up in the same place. */
  lemma {:induction false} AlikeForever(cfg: DeploymentConfig, x: System, y: System, turns: seq<Turn>)
    requires ValidZ(cfg) && WellKept(cfg, x.c) && WellKept(cfg, y.c) && AlikeSystems(cfg, x, y)
    ensures AlikeSystems(cfg, Continue(cfg, x, turns), Continue(cfg, y, turns))
  {
    hide WellKept, Step, AlikeSystems;
    if turns != [] {
      var earlier := turns[..|turns| - 1];
      AlikeForever(cfg, x, y, earlier);
      StepKeepsAlike(cfg, Continue(cfg, x, earlier), Continue(cfg, y, earlier), turns[|turns| - 1]);
    }
  }

  // ----- The statistics are those of the journaled observations ------------------------------------------------

  function DeltasIn(journal: seq<Record>, r: Regime, m: Metric): seq<int> {
    if journal == [] then []
    else
      var last := journal[|journal| - 1].entry;
      DeltasIn(journal[..|journal| - 1], r, m)
      + if last.Observed? && last.observation.regime == r then [Delta(last.observation, m)] else []
  }

  ghost predicate StatisticsAreJournaled(c: Coordinator, journal: seq<Record>) {
    forall r, m | r in c.statistics && m in c.statistics[r] ::
      && c.statistics[r][m] == Accumulate(DeltasIn(journal, r, m))
      && |DeltasIn(journal, r, m)| <= c.lastObservationSequence
  }

  lemma DeltasExtend(journal: seq<Record>, e: Record, r: Regime, m: Metric)
    ensures DeltasIn(journal + [e], r, m) == DeltasIn(journal, r, m) +
      if e.entry.Observed? && e.entry.observation.regime == r then [Delta(e.entry.observation, m)] else []
  {
    assert (journal + [e])[..|journal|] == journal;
  }

  lemma AccumulateExtends(xs: seq<int>, x: int)
    ensures Accumulate(xs + [x]) == AddSample(Accumulate(xs), x)
  {
    assert (xs + [x])[..|xs|] == xs;
  }

  lemma JournalObservation(cfg: DeploymentConfig, c: Coordinator, o: PairedObservation, journal: seq<Record>, e: Record)
    requires WellKept(cfg, c) && o.regime in c.statistics && o.sequence > c.lastObservationSequence
    requires StatisticsAreJournaled(c, journal) && e.entry == Observed(o)
    ensures StatisticsAreJournaled(ApplyObservation(c, o), journal + [e])
  {
    hide Bounded, Delta, Accumulate, AddSample, DeltasIn;
    var next := ApplyObservation(c, o);
    forall r, m | r in next.statistics && m in next.statistics[r]
      ensures next.statistics[r][m] == Accumulate(DeltasIn(journal + [e], r, m))
      ensures |DeltasIn(journal + [e], r, m)| <= next.lastObservationSequence
    {
      DeltasExtend(journal, e, r, m);
      AccumulateExtends(DeltasIn(journal, r, m), Delta(o, m));
      assert DeltasIn(journal, r, m) + [] == DeltasIn(journal, r, m);
    }
  }

  lemma JournalOther(c: Coordinator, next: Coordinator, journal: seq<Record>, more: seq<Record>)
    requires StatisticsAreJournaled(c, journal)
    requires next.statistics == c.statistics && next.lastObservationSequence == c.lastObservationSequence
    requires |more| <= 1 && forall i | 0 <= i < |more| :: !more[i].entry.Observed?
    ensures StatisticsAreJournaled(next, journal + more)
  {
    hide Accumulate, DeltasIn;
    if more == [] {
      assert journal + more == journal;
    } else {
      assert journal + more == journal + [more[0]];
      forall r, m | r in next.statistics && m in next.statistics[r]
        ensures next.statistics[r][m] == Accumulate(DeltasIn(journal + more, r, m))
        ensures |DeltasIn(journal + more, r, m)| <= next.lastObservationSequence
      {
        DeltasExtend(journal, more[0], r, m);
        assert DeltasIn(journal, r, m) + [] == DeltasIn(journal, r, m);
      }
    }
  }

  // A turn that adds at most one record, no observation, and a scope decision only in CANARY.
  ghost predicate AddsLittle(sys: System, next: System, added: seq<Record>) {
    && next.journal == sys.journal + added && |added| <= 1
    && next.c.statistics == sys.c.statistics && next.c.lastObservationSequence == sys.c.lastObservationSequence
    && (forall i | 0 <= i < |added| ::
          !added[i].entry.Observed? && (added[i].entry.ScopeDecided? ==> sys.c.state.Canary?))
  }

  lemma AdmitAddsLittle(cfg: DeploymentConfig, sys: System, turn: Turn) returns (added: seq<Record>)
    requires WellKept(cfg, sys.c) && turn.Admit?
    ensures AddsLittle(sys, Step(cfg, sys, turn), added)
  {
    hide WellKept, Decide, AfterDecision;
    AdmitFailsClosed(cfg, sys.c, turn.request, turn.io);
    var next := Step(cfg, sys, turn);
    added := next.journal[|sys.journal|..];
  }

  lemma ProtocolAddsLittle(cfg: DeploymentConfig, sys: System, turn: Turn) returns (added: seq<Record>)
    requires WellKept(cfg, sys.c) && !turn.Observe? && !turn.Admit?
    ensures AddsLittle(sys, Step(cfg, sys, turn), added)
  {
    hide WellKept, Evidence, ValidApproval, ObserveSection, AdmitSection;
    var next := Step(cfg, sys, turn);
    added := next.journal[|sys.journal|..];
  }

  lemma StepKeepsJournaled(cfg: DeploymentConfig, sys: System, turn: Turn)
    requires ValidZ(cfg) && WellKept(cfg, sys.c) && StatisticsAreJournaled(sys.c, sys.journal)
    ensures var next := Step(cfg, sys, turn); StatisticsAreJournaled(next.c, next.journal)
  {
    hide WellKept, StatisticsAreJournaled;
    if turn.Observe? {
      hide ObserveSection;
      if At(sys, turn.caller).Idle? {
        ObserveIsJournaled(cfg, sys.c, turn.observation, turn.first, turn.second, sys.journal);
      }
    } else {
      hide Step;
      var added: seq<Record>;
      if turn.Admit? {
        added := AdmitAddsLittle(cfg, sys, turn);
      } else {
        added := ProtocolAddsLittle(cfg, sys, turn);
      }
      JournalOther(sys.c, Step(cfg, sys, turn).c, sys.journal, added);
    }
  }

  lemma ObserveIsJournaled(cfg: DeploymentConfig, c: Coordinator, o: PairedObservation, first: Journal, second: Journal,
                           journal: seq<Record>)
    requires ValidZ(cfg) && WellKept(cfg, c) && StatisticsAreJournaled(c, journal)
    ensures var s := ObserveSection(cfg, c, o, first, second); StatisticsAreJournaled(s.next, journal + s.journaled)
  {
    hide WellKept, StatisticsAreJournaled, ValidPair, Computable;
    var s := ObserveSection(cfg, c, o, first, second);
    if s.journaled == [] {
      JournalOther(c, s.next, journal, []);
    } else {
      RegimeHasMoments(cfg, c, o.regime);
      JournalObservation(cfg, c, o, journal, s.journaled[0]);
      JournalOther(ApplyObservation(c, o), s.next, journal + [s.journaled[0]], s.journaled[1..]);
      assert journal + s.journaled == journal + [s.journaled[0]] + s.journaled[1..];
    }
  }

  lemma RegimeHasMoments(cfg: DeploymentConfig, c: Coordinator, r: Regime)
    requires WellKept(cfg, c)
    ensures r in cfg.requiredRegimes <==> r in c.statistics
  {
  }

  lemma {:induction false} EveryRunJournalsItsStatistics(cfg: DeploymentConfig, turns: seq<Turn>)
    requires ValidZ(cfg)
    ensures StatisticsAreJournaled(Run(cfg, turns).c, Run(cfg, turns).journal)
  {
    hide WellKept, Step;
    if turns != [] {
      hide StatisticsAreJournaled;
      EveryRunJournalsItsStatistics(cfg, turns[..|turns| - 1]);
      StepKeepsJournaled(cfg, Run(cfg, turns[..|turns| - 1]), turns[|turns| - 1]);
    }
  }

  /** In every run, for every regime and metric, the interval the coordinator acts on is computed and
      brackets the exact mean of the deltas its own journal proves it observed. */
  lemma EveryRunReportsExactIntervals(cfg: DeploymentConfig, turns: seq<Turn>, r: Regime, m: Metric)
    requires ValidZ(cfg) && r in cfg.requiredRegimes
    requires DeltasIn(Run(cfg, turns).journal, r, m) != []
    ensures var sys := Run(cfg, turns);
      var deltas := DeltasIn(sys.journal, r, m);
      && r in sys.c.statistics && m in sys.c.statistics[r]
      && MetricInterval(cfg, sys.c.statistics[r], m).Ok?
      && var ci := MetricInterval(cfg, sys.c.statistics[r], m).value;
         && ci.sampleCount == |deltas|
         && ci.lowerBound * |deltas| <= Sum(deltas) <= ci.upperBound * |deltas|
  {
    var sys := Run(cfg, turns);
    EveryRunJournalsItsStatistics(cfg, turns);
    AlwaysComputable(cfg, sys.c, r);
    hide WellKept, Run, Interval;
    IntervalIsExact(DeltasIn(sys.journal, r, m), m, ThresholdFor(cfg.rollbackThresholds, m), cfg.confidenceZPPM);
  }
}
