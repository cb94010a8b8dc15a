/** Runs with any number of restarts in between: what holds in every run of one process holds across all
    restarts from a journal that can be restored and ends in no malformed scope request. */
module RestartHistory {
  import opened DeploymentTypes
  import opened Coordinator
  import opened CanaryScope
  import opened Interleaving
  import opened Recovery
  import opened Restart

  datatype Moment = Turned(turn: Turn) | Restarted

  // ----- Restarting ------------------------------------------------------------------------------------

  // The restarts that restore the live coordinator.
  ghost predicate Restartable(sys: System) {
    && (sys.c.state.Shadow? || sys.c.state.Canary?)
    && var qs := ScopeRequests(sys.journal); Monotone(qs) && LastIsStructurallyValid(qs)
  }

  lemma {:induction false} RestoredIsWellKept(cfg: DeploymentConfig, c: Coordinator, records: seq<Record>)
    requires WellKept(cfg, c) && RestoreAll(cfg, c, records).Ok?
    ensures WellKept(cfg, RestoreAll(cfg, c, records).value)
  {
    hide WellKept, RestoreRecord;
    if records != [] {
      var front, last := records[..|records| - 1], records[|records| - 1];
      RestoredIsWellKept(cfg, c, front);
      RecordKeepsStatistics(cfg, RestoreAll(cfg, c, front).value, last);
    }
  }

  lemma RecordKeepsStatistics(cfg: DeploymentConfig, c: Coordinator, r: Record)
    requires WellKept(cfg, c) && RestoreRecord(cfg, c, r).Ok?
    ensures WellKept(cfg, RestoreRecord(cfg, c, r).value)
  {
    hide WellKept, ValidRecord, ValidObservation, ApplyObservation, Expire, HeaderOf, Evidence;
    var next := RestoreRecord(cfg, c, r).value;
    if r.entry.Observed? {
      ObservationKept(cfg, c, r.entry.observation);
      SameStatistics(cfg, ApplyObservation(c, r.entry.observation), next);
    } else {
      SameStatistics(cfg, c, next);
    }
  }

  // The system after the process stopped and a new one opened the journal, if it can.
  ghost function Reopened(cfg: DeploymentConfig, sys: System): (next: System)
    requires WellKept(cfg, sys.c)
    ensures WellKept(cfg, next.c)
  {
    match Restore(cfg, sys.journal, sys.c.state)
    case Err(_) => sys
    case Ok(d) =>
      FreshIsWellKept(cfg, sys.c.state);
      RestoredIsWellKept(cfg, Fresh(cfg, sys.c.state), sys.journal);
      Quiesced(sys).(c := d)
  }

  // ----- Lives --------------------------------------------------------------------------------------------

  ghost function Life(cfg: DeploymentConfig, moments: seq<Moment>): (sys: System)
    requires ValidZ(cfg)
    ensures WellKept(cfg, sys.c)
  {
    if moments == [] then
      FreshIsWellKept(cfg, Shadow);
      Initial(cfg)
    else
      var before, last := Life(cfg, moments[..|moments| - 1]), moments[|moments| - 1];
      match last
      case Restarted => Reopened(cfg, before)
      case Turned(turn) =>
        StepKeepsStatistics(cfg, before, turn);
        Step(cfg, before, turn)
  }

  // Journals validate, and every restart is one that restores the live coordinator.
  ghost predicate Faithful(cfg: DeploymentConfig, moments: seq<Moment>)
    requires ValidZ(cfg)
  {
    moments == []
    || (&& Faithful(cfg, moments[..|moments| - 1])
        && match moments[|moments| - 1]
           case Restarted => Restartable(Life(cfg, moments[..|moments| - 1]))
           case Turned(turn) => SinkValidates(turn))
  }

  // Whatever the registry says, the journal of a live system mirrors its coordinator.
  ghost predicate Mirrored(cfg: DeploymentConfig, sys: System) {
    Live(sys.c.state) ==> forall r: RunState :: JournalMirrors(cfg, sys.c, sys.journal, r)
  }

  ghost predicate Safe(cfg: DeploymentConfig, sys: System)
    requires WellKept(cfg, sys.c)
  {
    && Owned(sys) && Justified(cfg, sys) && Once(sys) && RateKept(cfg, sys.c, sys.admissions) && Mirrored(cfg, sys)
  }

  lemma InitialIsSafe(cfg: DeploymentConfig)
    requires ValidZ(cfg) && cfg.orderRateWindowNS > 0 && WellKept(cfg, Initial(cfg).c)
    ensures Safe(cfg, Initial(cfg))
  {
    hide WellKept, Evidence, JournalMirrors, RateKept, Owned, Justified, Once;
    assert Run(cfg, []) == Initial(cfg);
    EveryRunIsSafe(cfg, []);
    forall r: RunState ensures JournalMirrors(cfg, Initial(cfg).c, Initial(cfg).journal, r) {
      EveryRunMirrors(cfg, [], r);
    }
  }

  lemma TurnKeepsSafe(cfg: DeploymentConfig, sys: System, turn: Turn)
    requires ValidZ(cfg) && cfg.orderRateWindowNS > 0 && WellKept(cfg, sys.c) && Safe(cfg, sys) && SinkValidates(turn)
    requires WellKept(cfg, Step(cfg, sys, turn).c)
    ensures Safe(cfg, Step(cfg, sys, turn))
  {
    hide WellKept, Owned, Justified, Once, RateKept, Step, JournalMirrors, SinkValidates;
    StepKeepsOwners(cfg, sys, turn);
    StepKeepsJustified(cfg, sys, turn);
    StepKeepsOnce(cfg, sys, turn);
    StepKeepsRate(cfg, sys, turn);
    var next := Step(cfg, sys, turn);
    if Live(next.c.state) {
      forall r: RunState ensures JournalMirrors(cfg, next.c, next.journal, r) { StepKeepsMirror(cfg, sys, turn, r); }
    }
  }

  // ----- A restart changes nothing that matters ---------------------------------------------------------------

  lemma RestartRestores(cfg: DeploymentConfig, sys: System)
    requires WellKept(cfg, sys.c) && Mirrored(cfg, sys) && Restartable(sys)
    ensures var rebuilt := Restore(cfg, sys.journal, sys.c.state);
      && rebuilt.Ok? && Alike(cfg, sys.c, rebuilt.value)
      && rebuilt.value.orderTimes == Expire(sys.c.orderTimes, sys.c.lastScopeTimeNS, cfg.orderRateWindowNS)
  {
    hide WellKept, RestoreAll, ScopeRequests, Monotone, LastIsStructurallyValid, Expire;
    assert JournalMirrors(cfg, sys.c, sys.journal, sys.c.state);
    ExpireTwice(sys.c.orderTimes, sys.c.lastScopeTimeNS, sys.c.lastScopeTimeNS, cfg.orderRateWindowNS);
    if sys.journal == [] { NothingRestored(cfg, Fresh(cfg, sys.c.state)); }
  }

  // What is left out of the order times has left the window.
  lemma ExpiredKeepsRate(cfg: DeploymentConfig, c: Coordinator, d: Coordinator, admissions: seq<ScopeRequest>)
    requires RateKept(cfg, c, admissions) && d == c.(orderTimes := d.orderTimes)
    requires d.orderTimes == Expire(c.orderTimes, c.lastScopeTimeNS, cfg.orderRateWindowNS)
    ensures RateKept(cfg, d, admissions) && |d.orderTimes| <= |c.orderTimes|
  {
    hide Expire, Recent, Spaced, Ordered, LedgerKept;
    ExpireDropsPrefix(c.orderTimes, c.lastScopeTimeNS, cfg.orderRateWindowNS);
    SameLedger(cfg, c, d, admissions);
    if c.state.Canary? {
      ExpiredIsRecent(TimesOf(admissions), c.orderTimes, c.lastScopeTimeNS, cfg.orderRateWindowNS);
    }
  }

  lemma SameLedger(cfg: DeploymentConfig, c: Coordinator, d: Coordinator, admissions: seq<ScopeRequest>)
    requires LedgerKept(cfg, c, admissions) && d.lastScopeSequence == c.lastScopeSequence
    ensures LedgerKept(cfg, d, admissions)
  {
  }

  lemma RestoredMirrors(cfg: DeploymentConfig, c: Coordinator, d: Coordinator, journal: seq<Record>, r: RunState)
    requires JournalMirrors(cfg, c, journal, r) && d == c.(orderTimes := d.orderTimes)
    requires d.orderTimes == Expire(c.orderTimes, c.lastScopeTimeNS, cfg.orderRateWindowNS)
    ensures JournalMirrors(cfg, d, journal, r)
  {
    hide RestoreAll, ScopeRequests, Monotone, LastIsStructurallyValid, Fresh, Expire;
    ExpireTwice(c.orderTimes, c.lastScopeTimeNS, c.lastScopeTimeNS, cfg.orderRateWindowNS);
  }

  lemma RestartKeepsSafe(cfg: DeploymentConfig, sys: System)
    requires WellKept(cfg, sys.c) && Safe(cfg, sys) && Restartable(sys)
    ensures Safe(cfg, Reopened(cfg, sys))
    ensures Reopened(cfg, sys).admissions == sys.admissions && Reopened(cfg, sys).journal == sys.journal
    ensures Reopened(cfg, sys).canaryEntries == sys.canaryEntries
  {
    RestartRestores(cfg, sys);
    StateIsRunning(sys);
    hide WellKept, Restore, JournalMirrors, RateKept, Expire, Owned, Once, Justified, Restartable;
    var next := Reopened(cfg, sys);
    ExpiredKeepsRate(cfg, sys.c, next.c, sys.admissions);
    NobodyOwns(next);
    RestartKeepsOnce(sys, next);
    RestartKeepsJustified(cfg, sys, next);
    forall r: RunState ensures JournalMirrors(cfg, next.c, next.journal, r) {
      assert JournalMirrors(cfg, sys.c, sys.journal, r);
      RestoredMirrors(cfg, sys.c, next.c, sys.journal, r);
    }
  }

  lemma NobodyOwns(sys: System)
    requires sys.callers == map[] && (sys.c.state.Shadow? || sys.c.state.Canary?)
    ensures Owned(sys)
  {
  }

  lemma RestartKeepsOnce(sys: System, next: System)
    requires Once(sys) && next == sys.(callers := map[], c := sys.c.(orderTimes := next.c.orderTimes))
    requires |next.c.orderTimes| <= |sys.c.orderTimes|
    ensures Once(next)
  {
  }

  lemma RestartKeepsJustified(cfg: DeploymentConfig, sys: System, next: System)
    requires WellKept(cfg, sys.c) && WellKept(cfg, next.c) && Justified(cfg, sys)
    requires next == sys.(callers := map[], c := sys.c.(orderTimes := next.c.orderTimes))
    requires sys.c.state.Shadow? || sys.c.state.Canary?
    ensures Justified(cfg, next)
  {
    hide WellKept, Evidence;
  }

  lemma StateIsRunning(sys: System)
    requires Restartable(sys)
    ensures sys.c.state.Shadow? || sys.c.state.Canary?
  {
  }

  // ----- Every life ---------------------------------------------------------------------------------------------

  /** Across any number of such restarts, with any calls before, between and after them: one owner per pending
      state, the registry is asked to promote at most once and only on complete unbreached evidence, CANARY is
      entered at most once, and the canary limits hold. */
  lemma {:induction false} EveryLifeIsSafe(cfg: DeploymentConfig, moments: seq<Moment>)
    requires ValidZ(cfg) && cfg.orderRateWindowNS > 0 && Faithful(cfg, moments)
    ensures Safe(cfg, Life(cfg, moments))
  {
    hide WellKept, Safe, Step, Reopened, SinkValidates, Restartable;
    if moments == [] {
      FreshIsWellKept(cfg, Shadow);
      InitialIsSafe(cfg);
    } else {
      var front, last := moments[..|moments| - 1], moments[|moments| - 1];
      EveryLifeIsSafe(cfg, front);
      match last
      case Restarted => RestartKeepsSafe(cfg, Life(cfg, front));
      case Turned(turn) =>
        StepKeepsStatistics(cfg, Life(cfg, front), turn);
        TurnKeepsSafe(cfg, Life(cfg, front), turn);
    }
  }

  /** Across any number of such restarts: no half-open interval of one rate window contains more than the
      configured number of admissions, the buffer never exceeds it, admitted sequences strictly increase, every
      admission is for a listed instrument and strategy, on a fresh risk snapshot, within the capital limit, and
      CANARY is entered at most once. */
  lemma EveryLifeKeepsLimits(cfg: DeploymentConfig, moments: seq<Moment>, from: int)
    requires ValidConfig(cfg) && ValidZ(cfg) && Faithful(cfg, moments)
    ensures var sys := Life(cfg, moments);
      && |IndicesWithin(TimesOf(sys.admissions), from, cfg.orderRateWindowNS)| <= cfg.maximumOrdersPerWindow
      && |sys.c.orderTimes| <= cfg.maximumOrdersPerWindow && sys.canaryEntries <= 1 && |sys.promotions| <= 1
      && (forall i, j | 0 <= i < j < |sys.admissions| :: sys.admissions[i].sequence < sys.admissions[j].sequence)
      && (forall i | 0 <= i < |sys.admissions| ::
            var q := sys.admissions[i];
            && q.instrumentID in cfg.allowedInstrumentIDs && q.strategyID in cfg.allowedStrategyIDs
            && 0 <= q.nowNS - q.riskSnapshotObservedNS <= cfg.maximumRiskSnapshotAgeNS
            && q.currentGrossCapitalNanos + q.requestedCapitalNanos <= cfg.maximumCapitalNanos)
  {
    ConfigFacts(cfg);
    EveryLifeIsSafe(cfg, moments);
    hide ValidConfig, WellKept, Evidence, Owned, Justified, Life, Mirrored, Spaced, IndicesWithin, Recent, Faithful;
    var sys := Life(cfg, moments);
    AtMostMaximumPerWindow(TimesOf(sys.admissions), cfg.maximumOrdersPerWindow, cfg.orderRateWindowNS, from);
    assert forall i | 0 <= i < |sys.admissions| :: InEnvelope(cfg, sys.admissions[i]);
  }

  /** Every such restart, however many came before it, answers like the coordinator it replaces: to every
      future sequence of turns it gives the same replies, records and admissions. */
  lemma EveryRestartAnswersLikeLive(cfg: DeploymentConfig, moments: seq<Moment>, more: seq<Turn>)
    requires ValidConfig(cfg) && ValidZ(cfg) && Faithful(cfg, moments) && Restartable(Life(cfg, moments))
    ensures var live, restarted := Quiesced(Life(cfg, moments)), Reopened(cfg, Life(cfg, moments));
      && Replies(cfg, restarted, more) == Replies(cfg, live, more)
      && AlikeSystems(cfg, Continue(cfg, live, more), Continue(cfg, restarted, more))
  {
    ConfigFacts(cfg);
    EveryLifeIsSafe(cfg, moments);
    var sys := Life(cfg, moments);
    RestartRestores(cfg, sys);
    hide ValidConfig, WellKept, Life, Restore, Replies, Continue, Safe, Restartable, Expire;
    var live, restarted := Quiesced(sys), Reopened(cfg, sys);
    assert AlikeSystems(cfg, live, restarted);
    AlikeReplies(cfg, live, restarted, more);
    AlikeForever(cfg, live, restarted, more);
  }
}
