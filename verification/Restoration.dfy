/** Exactly which journals a coordinator can be rebuilt from, and exactly what it then holds: for every sequence of
    records, whoever wrote it. */
module Restoration {
  import opened Text
  import opened DeploymentTypes
  import opened Statistics
  import opened Coordinator
  import opened CanaryScope
  import opened Recovery
  import opened Regression

  // ----- One record ------------------------------------------------------------------------------------------------

  // A record of this deployment, well formed by itself.
  ghost predicate Proper(cfg: DeploymentConfig, r: Record) {
    && r.header.deploymentID == cfg.deploymentID && r.header.modelID == cfg.modelID
    && r.header.candidateVersion == cfg.candidateVersion && r.header.productionVersion == cfg.productionVersion
    && r.header.configurationSHA256 == cfg.configurationSHA256 && r.occurredAtUTCNS > 0
    && match r.entry
       case Observed(o) =>
         o.sequence > 0 && o.regime in cfg.requiredRegimes && GoodPair(cfg.productionVersion, cfg.candidateVersion, o)
       case Triggered(t) => !t.regime.UnknownRegime?
       case ApprovalRequested(a) => NotBlank(a.approvalReference) && Hex64(a.configurationSHA256)
       case CanaryActivated(a) => NotBlank(a.approvalReference) && Hex64(a.configurationSHA256)
       case ScopeDecided(q, _) => q.sequence > 0
       case _ => true
  }

  // The record comes after everything the coordinator has seen.
  ghost predicate Next(c: Coordinator, r: Record) {
    match r.entry
    case Observed(o) => o.sequence > c.lastObservationSequence
    case ScopeDecided(q, _) => q.sequence > c.lastScopeSequence && q.nowNS >= c.lastScopeTimeNS
    case _ => true
  }

  ghost predicate Keeps(cfg: DeploymentConfig, c: Coordinator) {
    forall r :: r in c.statistics <==> r in cfg.requiredRegimes
  }

  lemma ProperIsValid(cfg: DeploymentConfig, r: Record)
    requires ValidConfig(cfg) && r.header == HeaderOf(cfg)
    requires r.entry.Observed? ==> r.entry.observation.sequence > 0
    requires r.entry.Observed? ==> r.entry.observation.regime in cfg.requiredRegimes
    requires r.entry.ScopeDecided? ==> r.entry.request.sequence > 0
    ensures ValidRecord(r) <==> Proper(cfg, r)
  {
    if r.entry.Observed? {
      KnownRegimes(cfg);
      PairIsGood(cfg.productionVersion, cfg.candidateVersion, r.entry.observation);
    }
    hide ValidIdentifier, ValidSemantic, Hex64, ValidPair, GoodPair, ValidStringSet, Distinct;
  }

  lemma ObservedIsPositive(r: Record)
    requires ValidRecord(r) && r.entry.Observed?
    ensures r.entry.observation.sequence > 0
  {
    hide ValidIdentifier, ValidSemantic, Hex64, ValidSample;
  }

  lemma RestoresRecordExactly(cfg: DeploymentConfig, c: Coordinator, r: Record)
    requires ValidConfig(cfg) && Keeps(cfg, c)
    ensures RestoreRecord(cfg, c, r).Ok? <==> Proper(cfg, r) && Next(c, r)
  {
    hide ValidConfig, ValidRecord, ValidPair, ApplyObservation, Expire, GoodPair, Hex64;
    if r.header == HeaderOf(cfg) {
      if r.entry.Observed? && ValidRecord(r) { ObservedIsPositive(r); }
      if ValidRecord(r) && r.entry.Observed? { ValidPairOf(r); }
      if (r.entry.Observed? ==> r.entry.observation.sequence > 0
                                && r.entry.observation.regime in cfg.requiredRegimes)
         && (r.entry.ScopeDecided? ==> r.entry.request.sequence > 0) {
        ProperIsValid(cfg, r);
      }
      if Proper(cfg, r) && r.entry.Observed? { ValidPairOf(r); }
    }
  }

  lemma ValidPairOf(r: Record)
    requires r.entry.Observed? && ValidRecord(r)
    ensures ValidPair(r.entry.observation, r.header.productionVersion, r.header.candidateVersion)
  {
    hide ValidIdentifier, ValidSemantic, Hex64, ValidPair;
  }

  // ----- The whole journal -----------------------------------------------------------------------------------

  // Observations come in the order of their sequences; so do scope requests, whose times never go back.
  ghost predicate InOrder(records: seq<Record>) {
    forall i, j | 0 <= i < j < |records| :: Precedes(records[i].entry, records[j].entry)
  }

  ghost predicate Precedes(earlier: Entry, later: Entry) {
    && (earlier.Observed? && later.Observed? ==> earlier.observation.sequence < later.observation.sequence)
    && (earlier.ScopeDecided? && later.ScopeDecided? ==>
          earlier.request.sequence < later.request.sequence && earlier.request.nowNS <= later.request.nowNS)
  }

  // The times of the admissions the journal shows.
  function AdmittedTimes(records: seq<Record>): seq<uint64> {
    if records == [] then []
    else
      var last := records[|records| - 1].entry;
      AdmittedTimes(records[..|records| - 1])
      + if last.ScopeDecided? && last.decision.admitted then [last.request.nowNS] else []
  }

  // What the coordinator remembers of a journal that is in order.
  ghost predicate Remembers(cfg: DeploymentConfig, c: Coordinator, records: seq<Record>) {
    && Keeps(cfg, c)
    && c.lastObservationSequence == LastObserved(records)
    && c.lastScopeSequence == LastSequence(ScopeRequests(records))
    && c.lastScopeTimeNS == LastTime(ScopeRequests(records))
    && c.orderTimes == Expire(AdmittedTimes(records), c.lastScopeTimeNS, cfg.orderRateWindowNS)
    && forall r | r in c.statistics :: MomentsOf(c.statistics[r], Observations(records, r))
  }

  lemma FreshRemembers(cfg: DeploymentConfig, state: RunState)
    ensures Remembers(cfg, Fresh(cfg, state), [])
  {
    EmptyIsOfNone();
    hide EmptyMoments, MomentsOf;
    assert forall r :: Observations([], r) == [];
  }

  lemma EmptyIsOfNone()
    ensures MomentsOf(EmptyMoments(), [])
  {
    hide Excesses;
    forall m: Metric
      ensures m in EmptyMoments() && exists xs :: Excesses([], m, xs) && EmptyMoments()[m] == Accumulate(xs) {
      EveryMetricListed(m);
      NoExcess(m);
      assert Accumulate([]) == EMPTY;
    }
  }

  lemma {:induction false} ExpireAppends(times: seq<uint64>, now: uint64, window: uint64)
    requires window > 0
    ensures Expire(times + [now], now, window) == Expire(times, now, window) + [now]
  {
    if times != [] {
      assert (times + [now])[1..] == times[1..] + [now];
      if Expired(times[0], now, window) { ExpireAppends(times[1..], now, window); }
    }
  }

  lemma WindowIsPositive(cfg: DeploymentConfig)
    requires ValidConfig(cfg)
    ensures cfg.orderRateWindowNS > 0
  {
    hide ValidIdentifier, ValidSemantic, Hex64, ValidStringSet, Distinct, Blank;
  }

  lemma AdmittedExtends(records: seq<Record>, r: Record)
    ensures AdmittedTimes(records + [r]) ==
      if r.entry.ScopeDecided? && r.entry.decision.admitted then AdmittedTimes(records) + [r.entry.request.nowNS]
      else AdmittedTimes(records)
  {
    assert (records + [r])[..|records|] == records;
  }

  lemma ObservationsExtend(records: seq<Record>, r: Record, regime: Regime)
    ensures Observations(records + [r], regime) ==
      if r.entry.Observed? && r.entry.observation.regime == regime then
        Observations(records, regime) + [r.entry.observation]
      else Observations(records, regime)
  {
    assert (records + [r])[..|records|] == records;
  }

  lemma LastScopeIs(records: seq<Record>, r: Record)
    ensures var before, after := ScopeRequests(records), ScopeRequests(records + [r]);
      && (r.entry.ScopeDecided? ==>
            LastSequence(after) == r.entry.request.sequence && LastTime(after) == r.entry.request.nowNS)
      && (!r.entry.ScopeDecided? ==> after == before)
  {
    hide ScopeRequests;
    ScopeRequestsExtend(records, r);
  }

  // The times kept after a decision are those of the longer journal.
  lemma TimesRemember(times: seq<uint64>, earlier: uint64, now: uint64, window: uint64, admitted: bool)
    requires window > 0 && earlier <= now
    ensures Expire(Expire(times, earlier, window), now, window) + (if admitted then [now] else [])
         == Expire(if admitted then times + [now] else times, now, window)
  {
    hide Expire;
    ExpireTwice(times, earlier, now, window);
    ExpireAppends(times, now, window);
  }

  lemma ScopeRemembers(cfg: DeploymentConfig, c: Coordinator, records: seq<Record>, r: Record)
    requires cfg.orderRateWindowNS > 0 && Remembers(cfg, c, records) && r.entry.ScopeDecided?
    requires RestoreRecord(cfg, c, r).Ok?
    ensures Remembers(cfg, RestoreRecord(cfg, c, r).value, records + [r])
  {
    hide ValidRecord, Expire, MomentsOf, AdmittedTimes, Observations, ScopeRequests, LastObserved, LastSequence,
         LastTime;
    AdmittedExtends(records, r);
    LastScopeIs(records, r);
    ObservedExtends(records, r);
    TimesRemember(AdmittedTimes(records), c.lastScopeTimeNS, r.entry.request.nowNS, cfg.orderRateWindowNS,
                  r.entry.decision.admitted);
    forall x ensures Observations(records + [r], x) == Observations(records, x) { ObservationsExtend(records, r, x); }
  }

  lemma ObservationRemembers(cfg: DeploymentConfig, c: Coordinator, records: seq<Record>, r: Record)
    requires Remembers(cfg, c, records) && r.entry.Observed? && RestoreRecord(cfg, c, r).Ok?
    ensures Remembers(cfg, RestoreRecord(cfg, c, r).value, records + [r])
  {
    hide ValidRecord, Expire, MomentsOf, ValidPair, AddDeltas, AdmittedTimes, Observations, ScopeRequests, LastObserved;
    var o := r.entry.observation;
    AdmittedExtends(records, r);
    LastScopeIs(records, r);
    ObservedExtends(records, r);
    OneMoreMoment(c.statistics[o.regime], Observations(records, o.regime), o);
    forall x
      ensures Observations(records + [r], x) ==
        if o.regime == x then Observations(records, x) + [o] else Observations(records, x)
    {
      ObservationsExtend(records, r, x);
    }
  }

  lemma OtherRemembers(cfg: DeploymentConfig, c: Coordinator, records: seq<Record>, r: Record)
    requires Remembers(cfg, c, records) && !r.entry.Observed? && !r.entry.ScopeDecided?
    requires RestoreRecord(cfg, c, r).Ok?
    ensures Remembers(cfg, RestoreRecord(cfg, c, r).value, records + [r])
  {
    hide ValidRecord, Expire, MomentsOf, AdmittedTimes, Observations, ScopeRequests, LastObserved;
    AdmittedExtends(records, r);
    LastScopeIs(records, r);
    ObservedExtends(records, r);
    forall x ensures Observations(records + [r], x) == Observations(records, x) { ObservationsExtend(records, r, x); }
  }

  // In an ordered journal the last observation and the last scope request are the greatest.
  lemma {:induction false} LastIsGreatest(records: seq<Record>, i: nat)
    requires InOrder(records) && i < |records|
    ensures records[i].entry.Observed? ==> records[i].entry.observation.sequence <= LastObserved(records)
    ensures records[i].entry.ScopeDecided? ==>
      var q := records[i].entry.request;
      q.sequence <= LastSequence(ScopeRequests(records)) && q.nowNS <= LastTime(ScopeRequests(records))
  {
    var front := records[..|records| - 1];
    if i < |front| {
      assert Precedes(records[i].entry, records[|front|].entry);
      PrefixIsOrdered(records);
      LastIsGreatest(front, i);
      assert front[i] == records[i];
      assert ScopeRequests(front) + [] == ScopeRequests(front);
    }
  }

  lemma PrefixIsOrdered(records: seq<Record>)
    requires records != [] && InOrder(records)
    ensures InOrder(records[..|records| - 1])
  {
    hide Precedes;
  }

  lemma {:induction false} LastIsOneOfThem(records: seq<Record>)
    ensures LastObserved(records) == 0 ||
      exists i | 0 <= i < |records| ::
        records[i].entry.Observed? && records[i].entry.observation.sequence == LastObserved(records)
    ensures ScopeRequests(records) == [] ||
      exists i | 0 <= i < |records| ::
        && records[i].entry.ScopeDecided? && records[i].entry.request.sequence == LastSequence(ScopeRequests(records))
        && records[i].entry.request.nowNS == LastTime(ScopeRequests(records))
  {
    if records != [] {
      var front := records[..|records| - 1];
      LastIsOneOfThem(front);
      assert ScopeRequests(front) + [] == ScopeRequests(front);
      forall i | 0 <= i < |front| ensures front[i] == records[i] {}
    }
  }

  lemma NextIsInOrder(cfg: DeploymentConfig, c: Coordinator, records: seq<Record>, r: Record)
    requires Remembers(cfg, c, records) && InOrder(records) && Proper(cfg, r)
    ensures Next(c, r) <==> InOrder(records + [r])
  {
    hide Remembers, Proper;
    RememberedNumbers(cfg, c, records);
    ProperNumbers(cfg, r);
    LastIsOneOfThem(records);
    var longer := records + [r];
    if InOrder(longer) {
      forall i | 0 <= i < |records| ensures Precedes(records[i].entry, r.entry) {
        assert Precedes(longer[i].entry, longer[|records|].entry);
      }
    }
    if Next(c, r) {
      forall i, j | 0 <= i < j < |longer| ensures Precedes(longer[i].entry, longer[j].entry) {
        if j == |records| {
          LastIsGreatest(records, i);
        } else {
          assert Precedes(records[i].entry, records[j].entry);
        }
      }
    }
  }

  lemma RememberedNumbers(cfg: DeploymentConfig, c: Coordinator, records: seq<Record>)
    requires Remembers(cfg, c, records)
    ensures c.lastObservationSequence == LastObserved(records)
    ensures c.lastScopeSequence == LastSequence(ScopeRequests(records))
    ensures c.lastScopeTimeNS == LastTime(ScopeRequests(records)) && Keeps(cfg, c)
  {
    hide Expire, MomentsOf, LastObserved, LastSequence, LastTime, Keeps;
  }

  lemma ProperNumbers(cfg: DeploymentConfig, r: Record)
    requires Proper(cfg, r)
    ensures r.entry.Observed? ==> r.entry.observation.sequence > 0
    ensures r.entry.ScopeDecided? ==> r.entry.request.sequence > 0
  {
    hide GoodPair, Hex64, NotBlank;
  }

  ghost predicate AllProper(cfg: DeploymentConfig, records: seq<Record>) {
    forall i | 0 <= i < |records| :: Proper(cfg, records[i])
  }

  lemma {:induction false} RestoresAllExactly(cfg: DeploymentConfig, state: RunState, records: seq<Record>)
    requires ValidConfig(cfg)
    ensures var rebuilt := RestoreAll(cfg, Fresh(cfg, state), records);
      && (rebuilt.Ok? <==> AllProper(cfg, records) && InOrder(records))
      && (rebuilt.Ok? ==>
            && Remembers(cfg, rebuilt.value, records)
            && rebuilt.value.state == if records == [] then state else records[|records| - 1].state)
  {
    hide ValidConfig, RestoreRecord, Remembers, Proper, Precedes, Fresh;
    if records == [] {
      FreshRemembers(cfg, state);
      FreshState(cfg, state);
    } else {
      var front, r := records[..|records| - 1], records[|records| - 1];
      RestoresAllExactly(cfg, state, front);
      assert records == front + [r];
      if InOrder(records) { PrefixIsOrdered(records); }
      assert AllProper(cfg, records) <==> AllProper(cfg, front) && Proper(cfg, r) by {
        forall i | 0 <= i < |front| ensures front[i] == records[i] {}
      }
      if RestoreAll(cfg, Fresh(cfg, state), front).Ok? {
        var c := RestoreAll(cfg, Fresh(cfg, state), front).value;
        RememberedNumbers(cfg, c, front);
        RestoresRecordExactly(cfg, c, r);
        if Proper(cfg, r) { NextIsInOrder(cfg, c, front, r); }
        if RestoreRecord(cfg, c, r).Ok? { RecordRemembers(cfg, c, front, r); }
      }
    }
  }

  lemma FreshState(cfg: DeploymentConfig, state: RunState)
    ensures Fresh(cfg, state).state == state
  {
  }

  lemma RecordRemembers(cfg: DeploymentConfig, c: Coordinator, records: seq<Record>, r: Record)
    requires ValidConfig(cfg) && Remembers(cfg, c, records) && RestoreRecord(cfg, c, r).Ok?
    ensures Remembers(cfg, RestoreRecord(cfg, c, r).value, records + [r])
    ensures RestoreRecord(cfg, c, r).value.state == r.state
  {
    hide ValidConfig, Remembers, ValidRecord, Expire, ValidObservation, AddDeltas;
    WindowIsPositive(cfg);
    match r.entry
    case Observed(_) => ObservationRemembers(cfg, c, records, r);
    case ScopeDecided(_, _) => ScopeRemembers(cfg, c, records, r);
    case _ => OtherRemembers(cfg, c, records, r);
  }

  // ----- The result ------------------------------------------------------------------------------------------

  // In order, and none after this time.
  ghost predicate UpTo(times: seq<uint64>, now: uint64) {
    && (forall i, j | 0 <= i < j < |times| :: times[i] <= times[j])
    && (forall i | 0 <= i < |times| :: times[i] <= now)
  }

  lemma UpToExtends(times: seq<uint64>, earlier: uint64, now: uint64)
    requires UpTo(times, earlier) && earlier <= now
    ensures UpTo(times, now) && UpTo(times + [now], now)
  {
  }

  lemma NoneUpTo(now: uint64)
    ensures UpTo([], now)
  {
  }

  lemma TimesAdvance(front: seq<Record>, r: Record)
    requires InOrder(front + [r]) && r.entry.ScopeDecided?
    ensures LastTime(ScopeRequests(front)) <= r.entry.request.nowNS
  {
    hide ScopeRequests;
    var records := front + [r];
    LastIsOneOfThem(front);
    if ScopeRequests(front) != [] {
      var k :| 0 <= k < |front| && front[k].entry.ScopeDecided?
               && front[k].entry.request.nowNS == LastTime(ScopeRequests(front));
      assert Precedes(records[k].entry, records[|front|].entry);
    }
  }

  lemma {:induction false} AdmittedAreOrdered(records: seq<Record>)
    requires InOrder(records)
    ensures UpTo(AdmittedTimes(records), LastTime(ScopeRequests(records)))
  {
    hide UpTo, InOrder;
    if records == [] {
      NoneUpTo(0);
    } else {
      var front, r := records[..|records| - 1], records[|records| - 1];
      PrefixIsOrdered(records);
      AdmittedAreOrdered(front);
      assert ScopeRequests(front) + [] == ScopeRequests(front) && AdmittedTimes(front) + [] == AdmittedTimes(front);
      if r.entry.ScopeDecided? {
        assert records == front + [r];
        TimesAdvance(front, r);
        UpToExtends(AdmittedTimes(front), LastTime(ScopeRequests(front)), r.entry.request.nowNS);
      }
    }
  }

  // The admissions still inside the window that ends at this time: a suffix of all of them, and no other.
  ghost predicate StillInside(all: seq<uint64>, kept: seq<uint64>, now: uint64, window: uint64) {
    && |kept| <= |all| && kept == all[|all| - |kept|..]
    && (forall i | 0 <= i < |all| - |kept| :: all[i] + window <= now)
    && (forall i | 0 <= i < |kept| :: kept[i] + window > now)
  }

  lemma ExpireKeepsInside(times: seq<uint64>, now: uint64, window: uint64)
    requires UpTo(times, now)
    ensures StillInside(times, Expire(times, now, window), now, window)
  {
    hide Expire;
    ExpireDropsPrefix(times, now, window);
    var kept := Expire(times, now, window);
    var older := |times| - |kept|;
    forall i | 0 <= i < |kept| ensures kept[i] + window > now {
      assert kept[i] == times[older + i] && kept[0] == times[older];
    }
  }

  // The registry and the journal agree on whether the canary runs.
  predicate Agree(registry: RunState, journal: RunState) {
    && (registry.Canary? ==> journal.Canary? || journal.RollbackPending?)
    && (registry.Shadow? ==> !journal.Canary? && !journal.RollbackPending?)
  }

  /** For every sequence of records and every state of the registry: restoring succeeds exactly when each record is a
      well-formed one of this deployment, observations and scope requests are in order, and the last record's state
      agrees with the registry. The coordinator then has the last record's state, the last sequences and time, for
      every regime and metric the moments of the excesses the records show, and the admission times still inside the
      window. */
  lemma RestoresExactly(cfg: DeploymentConfig, records: seq<Record>, registry: RunState)
    requires ValidConfig(cfg)
    ensures var rebuilt := Restore(cfg, records, registry);
      var state := if records == [] then registry else records[|records| - 1].state;
      && (rebuilt.Ok? <==>
            && (forall i | 0 <= i < |records| :: Proper(cfg, records[i]))
            && (forall i, j | 0 <= i < j < |records| :: Precedes(records[i].entry, records[j].entry))
            && Agree(registry, state))
      && (rebuilt.Ok? ==>
            var c := rebuilt.value;
            && c.state == state && c.lastObservationSequence == LastObserved(records)
            && c.lastScopeSequence == LastSequence(ScopeRequests(records))
            && c.lastScopeTimeNS == LastTime(ScopeRequests(records))
            && StillInside(AdmittedTimes(records), c.orderTimes, c.lastScopeTimeNS, cfg.orderRateWindowNS)
            && (forall r :: r in c.statistics <==> r in cfg.requiredRegimes)
            && forall r | r in c.statistics :: MomentsOf(c.statistics[r], Observations(records, r)))
  {
    hide ValidConfig, RestoreAll, Fresh, Proper, Precedes, StillInside, Expire, MomentsOf;
    RestoresAllExactly(cfg, registry, records);
    if Restore(cfg, records, registry).Ok? {
      AdmittedAreOrdered(records);
      ExpireKeepsInside(AdmittedTimes(records), LastTime(ScopeRequests(records)), cfg.orderRateWindowNS);
    }
  }
}
