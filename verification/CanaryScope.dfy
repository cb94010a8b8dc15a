/** The canary scope envelope: admission of one bounded policy request, and the sliding window
    that limits how many requests are admitted per unit of time. */
module CanaryScope {
  import opened Results
  import opened Text
  import opened DeploymentTypes
  import opened Coordinator

  // ----- The sliding window -------------------------------------------------------------

  predicate Expired(t: uint64, now: uint64, window: uint64) { t <= now && now - t >= window }

  // The recorded times from the first one that is still inside the window.
  function Expire(times: seq<uint64>, now: uint64, window: uint64): (kept: seq<uint64>) {
    if times == [] || !Expired(times[0], now, window) then times else Expire(times[1..], now, window)
  }

  /** Expiry keeps a suffix, drops only entries that left the window, and stops at the first
      entry still inside it. */
  lemma {:induction false} ExpireDropsPrefix(times: seq<uint64>, now: uint64, window: uint64)
    ensures var kept := Expire(times, now, window);
      && |kept| <= |times| && kept == times[|times| - |kept|..]
      && (forall i | 0 <= i < |times| - |kept| :: Expired(times[i], now, window))
      && (kept != [] ==> !Expired(kept[0], now, window))
  {
    hide Expired;
    var kept := Expire(times, now, window);
    if times != [] && Expired(times[0], now, window) {
      var rest := times[1..];
      ExpireDropsPrefix(rest, now, window);
      var k := |rest| - |kept|;
      assert rest[k..] == times[k + 1..];
      forall i | 0 <= i < k + 1 ensures Expired(times[i], now, window) {
        if i > 0 { assert rest[i - 1] == times[i]; }
      }
    } else {
      assert kept == times && times[0..] == times;
    }
  }

  ghost predicate Ordered(times: seq<uint64>) {
    forall i, j | 0 <= i <= j < |times| :: times[i] <= times[j]
  }

  /** The slice of admission times: a buffer shifted in place when entries expire, and replaced by a
      larger one only when an entry is appended to a full buffer. */
  class OrderWindow {
    var buffer: array<uint64>
    var length: nat

    ghost predicate Valid()
      reads this
    {
      length <= buffer.Length
    }

    function Times(): seq<uint64>
      requires Valid()
      reads this, buffer
    {
      buffer[..length]
    }

    constructor (capacity: nat)
      ensures Valid() && fresh(buffer) && buffer.Length == capacity && Times() == []
    {
      buffer := new uint64[capacity](_ => 0);
      length := 0;
    }

    method ExpireOrderTimes(now: uint64, window: uint64)
      requires Valid()
      modifies this`length, buffer
      ensures Valid() && Times() == Expire(old(Times()), now, window)
    {
      ghost var times := Times();
      var firstActive := 0;
      while firstActive < length
        invariant 0 <= firstActive <= length
        invariant Expire(times, now, window) == Expire(times[firstActive..], now, window)
        invariant buffer[..length] == times
      {
        var timestamp := buffer[firstActive];
        if now < timestamp || now - timestamp < window { break; }
        firstActive := firstActive + 1;
        assert times[firstActive - 1..][1..] == times[firstActive..];
      }
      assert Expire(times, now, window) == times[firstActive..];
      if firstActive != 0 {
        var i := 0;
        while i < length - firstActive
          invariant 0 <= i <= length - firstActive && length == |times| <= buffer.Length
          invariant forall j | 0 <= j < i :: buffer[j] == times[firstActive + j]
          invariant forall j | i <= j < length :: buffer[j] == times[j]
        {
          buffer[i] := buffer[firstActive + i];
          i := i + 1;
        }
        length := length - firstActive;
        assert buffer[..length] == times[firstActive..];
      }
    }

    method Append(now: uint64)
      requires Valid()
      modifies this, buffer
      ensures Valid() && Times() == old(Times()) + [now]
      ensures buffer.Length >= old(buffer.Length)
      ensures if old(length < buffer.Length) then buffer == old(buffer) else fresh(buffer)
    {
      if length == buffer.Length {
        var larger := new uint64[2 * length + 1](_ => 0);
        for i := 0 to length
          invariant buffer == old(buffer) && length == old(length) == buffer.Length && buffer[..] == old(buffer[..])
          invariant forall j | 0 <= j < i :: larger[j] == buffer[j]
        {
          larger[i] := buffer[i];
        }
        buffer := larger;
      }
      buffer[length] := now;
      length := length + 1;
    }
  }

  // ----- Admission ------------------------------------------------------------------------

  predicate ValidSequence(c: Coordinator, q: ScopeRequest) { q.sequence > c.lastScopeSequence }

  predicate StructurallyValid(q: ScopeRequest) {
    && ValidIdentifier(q.instrumentID) && ValidIdentifier(q.strategyID)
    && ValidIdentifier(q.riskSnapshotID) && Hex64(q.riskSnapshotSHA256)
    && q.nowNS != 0 && q.riskSnapshotObservedNS != 0 && q.requestedCapitalNanos != 0
  }

  predicate CapitalExceeds(cfg: DeploymentConfig, q: ScopeRequest) {
    || q.currentGrossCapitalNanos > cfg.maximumCapitalNanos
    || q.requestedCapitalNanos > cfg.maximumCapitalNanos - q.currentGrossCapitalNanos
  }

  // The first check a request fails before the order rate is considered, if any.
  function Refusal(cfg: DeploymentConfig, c: Coordinator, q: ScopeRequest): Option<ScopeReason> {
    if !ValidSequence(c, q) || !StructurallyValid(q) then Some(InvalidRequest)
    else if c.lastScopeTimeNS != 0 && q.nowNS < c.lastScopeTimeNS then Some(TimeRegressed)
    else if q.nowNS < q.riskSnapshotObservedNS || q.nowNS - q.riskSnapshotObservedNS > cfg.maximumRiskSnapshotAgeNS then
      Some(RiskSnapshotStale)
    else if q.instrumentID !in cfg.allowedInstrumentIDs then Some(SymbolDenied)
    else if q.strategyID !in cfg.allowedStrategyIDs then Some(StrategyDenied)
    else if CapitalExceeds(cfg, q) then Some(CapitalExceeded)
    else None
  }

  function Refused(reason: ScopeReason): ScopeDecision { ScopeDecision(false, reason, 0, 0) }

  // The order times the decision is made on: they expire only for a request that reaches the rate check.
  function TimesConsidered(cfg: DeploymentConfig, c: Coordinator, q: ScopeRequest): seq<uint64> {
    if Refusal(cfg, c, q).Some? then c.orderTimes else Expire(c.orderTimes, q.nowNS, cfg.orderRateWindowNS)
  }

  function Decide(cfg: DeploymentConfig, c: Coordinator, q: ScopeRequest): ScopeDecision {
    match Refusal(cfg, c, q)
    case Some(reason) => Refused(reason)
    case None =>
      var used := |Expire(c.orderTimes, q.nowNS, cfg.orderRateWindowNS)|;
      if used >= cfg.maximumOrdersPerWindow then Refused(OrderRateExceeded)
      else ScopeDecision(true, Admitted,
                         cfg.maximumCapitalNanos - q.currentGrossCapitalNanos - q.requestedCapitalNanos,
                         cfg.maximumOrdersPerWindow - used - 1)
  }

  // Only structurally valid, monotonic requests advance replay protection.
  function AfterDecision(cfg: DeploymentConfig, c: Coordinator, q: ScopeRequest): Coordinator {
    c.(lastScopeSequence :=
         if ValidSequence(c, q) && StructurallyValid(q) then q.sequence else c.lastScopeSequence,
       lastScopeTimeNS :=
         if ValidSequence(c, q) && q.nowNS >= c.lastScopeTimeNS then q.nowNS else c.lastScopeTimeNS,
       orderTimes :=
         TimesConsidered(cfg, c, q) + if Decide(cfg, c, q).admitted then [q.nowNS] else [])
  }

  function AdmitSection(cfg: DeploymentConfig, c: Coordinator, q: ScopeRequest,
                        io: Journal): (s: Section<ScopeDecision>) {
    if !c.state.Canary? then Section(c, [], Refused(NotCanary), false)
    else
      var decision := Decide(cfg, c, q);
      var record := NewRecord(cfg, c, io, ScopeDecided(q, decision));
      if !io.accepts(record) then
        Section(c.(state := RollbackPending, orderTimes := TimesConsidered(cfg, c, q)), [],
                decision.(admitted := false, reason := AuditUnavailable), true)
      else Section(AfterDecision(cfg, c, q), [record], decision, false)
  }

  /** A scope decision only ever leaves CANARY for ROLLBACK_PENDING, when its journal fails, and then
      admits nothing; outside CANARY it changes nothing at all. */
  lemma AdmitFailsClosed(cfg: DeploymentConfig, c: Coordinator, q: ScopeRequest, io: Journal)
    ensures var s := AdmitSection(cfg, c, q, io);
      && s.next.statistics == c.statistics && s.next.lastObservationSequence == c.lastObservationSequence
      && (!c.state.Canary? ==> s.next == c && !s.outcome.admitted && !s.mustRollBack)
      && (c.state.Canary? ==> s.next.state == if s.mustRollBack then RollbackPending else Canary)
      && (s.mustRollBack ==> c.state.Canary? && !s.outcome.admitted && s.journaled == [])
  {
    hide Decide, TimesConsidered, StructurallyValid, NewRecord;
  }

  // ----- What holds of everything a canary ever admitted -----------------------------------

  function TimesOf(admissions: seq<ScopeRequest>): (ts: seq<uint64>)
    ensures |ts| == |admissions|
    ensures forall i | 0 <= i < |ts| :: ts[i] == admissions[i].nowNS
  {
    seq(|admissions|, i requires 0 <= i < |admissions| => admissions[i].nowNS)
  }

  // Any admission comes at least one window after the one `maximum` places before it.
  ghost predicate Spaced(times: seq<uint64>, maximum: nat, window: uint64) {
    forall i, j | 0 <= i && i + maximum <= j < |times| :: times[j] - times[i] >= window
  }

  // The request names who, what and a risk snapshot, and asks for something.
  ghost predicate WellFormed(q: ScopeRequest) {
    && ValidIdentifier(q.instrumentID) && ValidIdentifier(q.strategyID) && ValidIdentifier(q.riskSnapshotID)
    && Hex64(q.riskSnapshotSHA256) && 0 < q.nowNS && 0 < q.riskSnapshotObservedNS && 0 < q.requestedCapitalNanos
  }

  // Listed instrument and strategy, a snapshot that is neither old nor from the future, and capital to spare.
  ghost predicate InEnvelope(cfg: DeploymentConfig, q: ScopeRequest) {
    && WellFormed(q) && q.instrumentID in cfg.allowedInstrumentIDs && q.strategyID in cfg.allowedStrategyIDs
    && 0 <= q.nowNS - q.riskSnapshotObservedNS <= cfg.maximumRiskSnapshotAgeNS
    && q.currentGrossCapitalNanos + q.requestedCapitalNanos <= cfg.maximumCapitalNanos
  }

  // Admitted sequences strictly increase and every admission is inside the envelope.
  ghost predicate LedgerKept(cfg: DeploymentConfig, c: Coordinator, admissions: seq<ScopeRequest>) {
    && (forall i | 0 <= i < |admissions| :: InEnvelope(cfg, admissions[i]))
    && (forall i, j | 0 <= i < j < |admissions| :: admissions[i].sequence < admissions[j].sequence)
    && (forall i | 0 <= i < |admissions| :: admissions[i].sequence <= c.lastScopeSequence)
  }

  ghost predicate TimesKept(cfg: DeploymentConfig, c: Coordinator, times: seq<uint64>) {
    && |c.orderTimes| <= cfg.maximumOrdersPerWindow
    && Ordered(times)
    && Spaced(times, cfg.maximumOrdersPerWindow, cfg.orderRateWindowNS)
    && (forall i | 0 <= i < |times| :: times[i] <= c.lastScopeTimeNS)
    && (c.state.Canary? ==> BufferIsRecent(cfg, c, times))
  }

  ghost predicate RateKept(cfg: DeploymentConfig, c: Coordinator, admissions: seq<ScopeRequest>) {
    LedgerKept(cfg, c, admissions) && TimesKept(cfg, c, TimesOf(admissions))
  }

  // The buffer holds the latest admissions; everything older left the window.
  ghost predicate BufferIsRecent(cfg: DeploymentConfig, c: Coordinator, times: seq<uint64>) {
    Recent(times, c.orderTimes, c.lastScopeTimeNS, cfg.orderRateWindowNS)
  }

  // What the admissions of a run become after one decision.
  function Extend(admissions: seq<ScopeRequest>, q: ScopeRequest, s: Section<ScopeDecision>): seq<ScopeRequest> {
    if s.outcome.admitted then admissions + [q] else admissions
  }

  // recent is the end of times, and everything before it has left the window.
  ghost predicate Recent(times: seq<uint64>, recent: seq<uint64>, now: uint64, window: uint64) {
    && |recent| <= |times| && recent == times[|times| - |recent|..]
    && forall i | 0 <= i < |times| - |recent| :: Expired(times[i], now, window)
  }

  lemma LaterIsRecent(times: seq<uint64>, recent: seq<uint64>, earlier: uint64, now: uint64, window: uint64)
    requires Recent(times, recent, earlier, window) && earlier <= now
    ensures Recent(times, recent, now, window)
  {
  }

  lemma ExpiredIsRecent(times: seq<uint64>, recent: seq<uint64>, now: uint64, window: uint64)
    requires Recent(times, recent, now, window)
    ensures Recent(times, Expire(recent, now, window), now, window)
  {
    hide Expire, Expired;
    var kept, older := Expire(recent, now, window), |times| - |recent|;
    ExpireDropsPrefix(recent, now, window);
    assert kept == times[|times| - |kept|..];
    forall i | 0 <= i < |times| - |kept| ensures Expired(times[i], now, window) {
      if i >= older { assert times[i] == recent[i - older]; }
    }
  }

  lemma AppendedIsRecent(times: seq<uint64>, recent: seq<uint64>, now: uint64, window: uint64)
    requires Recent(times, recent, now, window)
    ensures Recent(times + [now], recent + [now], now, window)
  {
    hide Expired;
    var all, last := times + [now], recent + [now];
    assert all[|all| - |last|..] == last;
    forall i | 0 <= i < |all| - |last| ensures Expired(all[i], now, window) { assert all[i] == times[i]; }
  }

  lemma DecisionKeepsBuffer(cfg: DeploymentConfig, c: Coordinator, q: ScopeRequest, times: seq<uint64>)
    requires BufferIsRecent(cfg, c, times)
    ensures var next := AfterDecision(cfg, c, q);
      BufferIsRecent(cfg, next, if Decide(cfg, c, q).admitted then times + [q.nowNS] else times)
  {
    hide StructurallyValid, Expire, Recent;
    var next, window := AfterDecision(cfg, c, q), cfg.orderRateWindowNS;
    assert c.orderTimes + [] == c.orderTimes;
    LaterIsRecent(times, c.orderTimes, c.lastScopeTimeNS, next.lastScopeTimeNS, window);
    if Refusal(cfg, c, q).None? {
      var kept := Expire(c.orderTimes, q.nowNS, window);
      ExpiredIsRecent(times, c.orderTimes, q.nowNS, window);
      AppendedIsRecent(times, kept, q.nowNS, window);
      assert kept + [] == kept;
    }
  }

  lemma OldEnough(times: seq<uint64>, recent: seq<uint64>, now: uint64, maximum: nat, window: uint64, i: nat)
    requires Recent(times, recent, now, window) && |Expire(recent, now, window)| < maximum
    requires i + maximum <= |times|
    ensures now - times[i] >= window
  {
    hide Expire, Recent;
    ExpiredIsRecent(times, recent, now, window);
    OutsideIsExpired(times, Expire(recent, now, window), now, window, i);
  }

  lemma OutsideIsExpired(times: seq<uint64>, recent: seq<uint64>, now: uint64, window: uint64, i: nat)
    requires Recent(times, recent, now, window) && i + |recent| < |times|
    ensures Expired(times[i], now, window)
  {
  }

  lemma SpacedExtends(times: seq<uint64>, now: uint64, maximum: nat, window: uint64)
    requires Ordered(times) && Spaced(times, maximum, window)
    requires forall i | 0 <= i < |times| :: times[i] <= now
    requires forall i | 0 <= i && i + maximum <= |times| && i < |times| :: now - times[i] >= window
    requires maximum > 0
    ensures Ordered(times + [now]) && Spaced(times + [now], maximum, window)
  {
    var all := times + [now];
    forall i, j | 0 <= i <= j < |all| ensures all[i] <= all[j] {
      if j < |times| { assert all[i] == times[i] && all[j] == times[j]; }
    }
    forall i, j | 0 <= i && i + maximum <= j < |all| ensures all[j] - all[i] >= window {
      if j < |times| { assert all[i] == times[i] && all[j] == times[j]; }
    }
  }

  lemma DecisionKeepsLedger(cfg: DeploymentConfig, c: Coordinator, q: ScopeRequest, admissions: seq<ScopeRequest>)
    requires LedgerKept(cfg, c, admissions)
    ensures LedgerKept(cfg, AfterDecision(cfg, c, q), if Decide(cfg, c, q).admitted then admissions + [q]
                       else admissions)
  {
    hide ValidIdentifier, Hex64, InEnvelope, Expire;
    if Decide(cfg, c, q).admitted { AdmittedIsInEnvelope(cfg, c, q); }
  }

  lemma AdmittedIsInEnvelope(cfg: DeploymentConfig, c: Coordinator, q: ScopeRequest)
    requires Decide(cfg, c, q).admitted
    ensures InEnvelope(cfg, q) && q.sequence > c.lastScopeSequence
  {
    hide ValidIdentifier, Hex64, Expire;
  }

  lemma DecisionKeepsTimes(cfg: DeploymentConfig, c: Coordinator, q: ScopeRequest, times: seq<uint64>)
    requires c.state.Canary? && TimesKept(cfg, c, times)
    ensures TimesKept(cfg, AfterDecision(cfg, c, q), if Decide(cfg, c, q).admitted then times + [q.nowNS] else times)
  {
    hide Ordered, Spaced, BufferIsRecent, StructurallyValid;
    DecisionKeepsBuffer(cfg, c, q, times);
    BufferStaysBounded(cfg, c, q);
    var next := AfterDecision(cfg, c, q);
    if Decide(cfg, c, q).admitted {
      AdmittedIsSpaced(cfg, c, q, times);
      var all := times + [q.nowNS];
      forall i | 0 <= i < |all| ensures all[i] <= next.lastScopeTimeNS {
        if i < |times| { assert all[i] == times[i]; }
      }
    }
  }

  lemma BufferStaysBounded(cfg: DeploymentConfig, c: Coordinator, q: ScopeRequest)
    requires |c.orderTimes| <= cfg.maximumOrdersPerWindow
    ensures |AfterDecision(cfg, c, q).orderTimes| <= cfg.maximumOrdersPerWindow
    ensures AfterDecision(cfg, c, q).lastScopeTimeNS >= c.lastScopeTimeNS
  {
    hide StructurallyValid;
    ExpireDropsPrefix(c.orderTimes, q.nowNS, cfg.orderRateWindowNS);
  }

  lemma AdmittedIsSpaced(cfg: DeploymentConfig, c: Coordinator, q: ScopeRequest, times: seq<uint64>)
    requires c.state.Canary? && TimesKept(cfg, c, times) && Decide(cfg, c, q).admitted
    ensures Ordered(times + [q.nowNS])
    ensures Spaced(times + [q.nowNS], cfg.maximumOrdersPerWindow, cfg.orderRateWindowNS)
  {
    hide Ordered, Spaced, StructurallyValid, Recent, Expire;
    LaterIsRecent(times, c.orderTimes, c.lastScopeTimeNS, q.nowNS, cfg.orderRateWindowNS);
    forall i | 0 <= i && i + cfg.maximumOrdersPerWindow <= |times| ensures q.nowNS - times[i] >= cfg.orderRateWindowNS {
      OldEnough(times, c.orderTimes, q.nowNS, cfg.maximumOrdersPerWindow, cfg.orderRateWindowNS, i);
    }
    SpacedExtends(times, q.nowNS, cfg.maximumOrdersPerWindow, cfg.orderRateWindowNS);
  }

  lemma ConsideredIsShorter(cfg: DeploymentConfig, c: Coordinator, q: ScopeRequest)
    ensures |TimesConsidered(cfg, c, q)| <= |c.orderTimes|
  {
    hide Expire, Refusal;
    ExpireDropsPrefix(c.orderTimes, q.nowNS, cfg.orderRateWindowNS);
  }

  /** Leaving CANARY, and entering it for the first time, keep the limits. */
  lemma StateChangeKeepsRate(cfg: DeploymentConfig, c: Coordinator, next: Coordinator, admissions: seq<ScopeRequest>)
    requires RateKept(cfg, c, admissions)
    requires next.lastScopeSequence == c.lastScopeSequence && next.lastScopeTimeNS == c.lastScopeTimeNS
    requires |next.orderTimes| <= |c.orderTimes|
    requires next.state.Canary? ==>
      next.orderTimes == c.orderTimes && (c.state.Canary? || (admissions == [] && c.orderTimes == []))
    ensures RateKept(cfg, next, admissions)
  {
  }

  /** Every scope decision, admitted or not, journaled or not, keeps the rate, capital and
      replay limits over the whole history of admissions. */
  lemma AdmitKeepsRate(cfg: DeploymentConfig, c: Coordinator, q: ScopeRequest, io: Journal,
                       admissions: seq<ScopeRequest>)
    requires RateKept(cfg, c, admissions)
    ensures var s := AdmitSection(cfg, c, q, io);
      RateKept(cfg, s.next, Extend(admissions, q, s))
  {
    hide LedgerKept, TimesKept, Decide, TimesConsidered, AfterDecision;
    var times := TimesOf(admissions);
    if c.state.Canary? {
      ConsideredIsShorter(cfg, c, q);
      DecisionKeepsLedger(cfg, c, q, admissions);
      DecisionKeepsTimes(cfg, c, q, times);
      assert TimesOf(admissions + [q]) == times + [q.nowNS];
      StateChangeKeepsRate(cfg, c, c.(state := RollbackPending, orderTimes := TimesConsidered(cfg, c, q)), admissions);
    }
  }

  ghost function IndicesWithin(times: seq<uint64>, from: int, window: uint64): set<nat> {
    set i: nat | i < |times| && from <= times[i] < from + window
  }

  ghost function Between(lo: nat, hi: nat): set<nat> {
    if lo >= hi then {} else Between(lo, hi - 1) + {hi - 1}
  }

  lemma {:induction false} BetweenSize(lo: nat, hi: nat)
    requires lo <= hi
    ensures |Between(lo, hi)| == hi - lo
    ensures forall i | lo <= i < hi :: i in Between(lo, hi)
    ensures forall i | i in Between(lo, hi) :: lo <= i < hi
    decreases hi - lo
  {
    if lo < hi { BetweenSize(lo, hi - 1); }
  }

  lemma SubsetSize(a: set<nat>, b: set<nat>)
    requires a <= b
    ensures |a| <= |b|
  {
    assert b == a + (b - a);
  }

  lemma LeastIndex(s: set<nat>) returns (least: nat)
    requires s != {}
    ensures least in s && forall i | i in s :: least <= i
  {
    var x :| x in s;
    if s == {x} {
      least := x;
    } else {
      var rest := LeastIndex(s - {x});
      least := if rest < x then rest else x;
      assert s == (s - {x}) + {x};
    }
  }

  /** The rate limit: no half-open interval of one window length, wherever it starts, contains
      more than the configured maximum of admissions. */
  lemma AtMostMaximumPerWindow(times: seq<uint64>, maximum: nat, window: uint64, from: int)
    requires Ordered(times) && Spaced(times, maximum, window)
    ensures |IndicesWithin(times, from, window)| <= maximum
  {
    var inside := IndicesWithin(times, from, window);
    if inside != {} {
      var lo := LeastIndex(inside);
      forall i | i in inside ensures i < lo + maximum {
        assert times[i] - times[lo] < window;
      }
      BetweenSize(lo, lo + maximum);
      SubsetSize(inside, Between(lo, lo + maximum));
    }
  }
}
