/** The edge's admission precheck over index maps built from a configuration, and its agreement with a
    linear scan of the configuration's lists. */
module EdgeRuntime {
  import opened Results
  import opened Text
  import opened DeploymentTypes
  import opened Configuration
  import opened AuditLog
  import Canonical

  datatype EdgeRequest = EdgeRequest(
    nowWallUTCNS: int, nowMonotonicNS: uint64, accountID: string, instrumentID: string, strategyID: string,
    venueID: string, sessionID: string, modelID: string, modelVersion: string)

  datatype Reason =
    | ConfigurationUnavailable | ExpiredOrClockUnsafe | MonotonicRegression | CacheStale | IdentityInvalid
    | KillSwitchEngaged | StrategyNotAuthorized | VenueNotAuthorized | LiveModeUnavailable | RiskLimitsUnavailable
    | RiskConfigurationStale | SymbolNotAuthorized | ModelNotEligible | TradingSessionClosed | EdgeAuthorized

  datatype Decision = Decision(
    allowNewOrders: bool, reason: Reason, configurationID: string, revision: uint64, version: string, sha256: string,
    mode: string)

  const UNAVAILABLE := Decision(false, ConfigurationUnavailable, "", 0, "", "", "")

  // ----- The runtime ---------------------------------------------------------------------------------------

  datatype Runtime = Runtime(
    configuration: Config, installedWallUTCNS: int, receivedMonotonicNS: uint64, strategies: map<string, Strategy>,
    venues: map<string, Venue>, risk: map<string, RiskLimits>, models: map<string, map<string, Model>>,
    sessions: map<string, TradingSession>, emergencyKills: map<string, KillCommand>)

  // Filling a map from a list; a later item with the same key wins.
  function Index<T>(key: T -> string, items: seq<T>): map<string, T> {
    if items == [] then map[]
    else
      var last := items[|items| - 1];
      Index(key, items[..|items| - 1])[key(last) := last]
  }

  function WithModel(index: map<string, map<string, Model>>, m: Model): map<string, map<string, Model>> {
    var versions := if m.modelID in index then index[m.modelID] else map[];
    index[m.modelID := versions[m.semanticVersion := m]]
  }

  function ModelIndex(items: seq<Model>): map<string, map<string, Model>> {
    if items == [] then map[] else WithModel(ModelIndex(items[..|items| - 1]), items[|items| - 1])
  }

  // buildEdgeRuntime
  function Build(configuration: Config, installedWallUTCNS: int, monotonicNS: uint64,
                 kills: map<string, KillCommand>): Runtime {
    var c := Canonical.Canonical(configuration);
    Runtime(c, installedWallUTCNS, monotonicNS, Index(StrategyKey, c.strategies), Index(VenueKey, c.venues),
            Index(AccountKey, c.riskLimits), ModelIndex(c.models), Index(SessionKey, c.tradingSessions), kills)
  }

  // ----- Kill switches ---------------------------------------------------------------------------------------

  predicate KillMatches(scope: string, target: string, q: EdgeRequest) {
    if scope == FIRM_SCOPE then true
    else if scope == ACCOUNT_SCOPE then target == q.accountID
    else if scope == VENUE_SCOPE then target == q.venueID
    else if scope == STRATEGY_SCOPE then target == q.strategyID
    else if scope == SYMBOL_SCOPE then target == q.instrumentID
    else true
  }

  predicate SwitchKills(k: KillSwitch, q: EdgeRequest) { k.engaged && KillMatches(k.scope, k.targetID, q) }

  predicate CommandKills(k: KillCommand, q: EdgeRequest) { k.engaged && KillMatches(k.scope, k.targetID, q) }

  predicate KilledByMap(emergency: map<string, KillCommand>, q: EdgeRequest) {
    exists key | key in emergency :: CommandKills(emergency[key], q)
  }

  predicate KilledBySwitch(configured: seq<KillSwitch>, q: EdgeRequest) {
    exists i | 0 <= i < |configured| :: SwitchKills(configured[i], q)
  }

  predicate Killed(configured: seq<KillSwitch>, emergency: map<string, KillCommand>, q: EdgeRequest) {
    KilledBySwitch(configured, q) || KilledByMap(emergency, q)
  }

  // ----- The decision ------------------------------------------------------------------------------------------

  function Version(c: Config): string { if Hex64(c.sha256) then c.sha256[..32] else "" }

  function Lookup<T>(index: map<string, T>, id: string): Option<T> { if id in index then Some(index[id]) else None }

  function LookupModel(index: map<string, map<string, Model>>, id: string, version: string): Option<Model> {
    if id in index && version in index[id] then Some(index[id][version]) else None
  }

  // The first item of the list that fits.
  function Find<T(!new)>(fits: T -> bool, items: seq<T>): Option<T> {
    if items == [] then None else if fits(items[0]) then Some(items[0]) else Find(fits, items[1..])
  }

  predicate IdentifiedRequest(q: EdgeRequest) {
    && ValidIdentifier(q.accountID) && ValidIdentifier(q.instrumentID) && ValidIdentifier(q.strategyID)
    && ValidIdentifier(q.venueID)
    && ValidIdentifier(q.sessionID) && ValidIdentifier(q.modelID) && ValidSemantic(q.modelVersion)
  }

  predicate SymbolAuthorized(limits: RiskLimits, instrumentID: string) {
    var found := Find((s: SymbolLimit) => s.instrumentID == instrumentID, limits.symbolLimits);
    found.Some? && found.value.authorized && !found.value.restricted
  }

  // What the request's identifiers name.
  datatype Found = Found(
    killed: bool, strategy: Option<Strategy>, venue: Option<Venue>, limits: Option<RiskLimits>, model: Option<Model>,
    session: Option<TradingSession>)

  predicate StrategyAllows(s: Strategy, q: EdgeRequest) {
    s.enabled && q.modelID in s.allowedModelIDs && q.sessionID in s.tradingSessionIDs
  }

  predicate ModelAllows(m: Model, q: EdgeRequest) { m.eligible && q.strategyID in m.allowedStrategyIDs }

  predicate SessionOpen(s: TradingSession, q: EdgeRequest) {
    s.venueID == q.venueID && s.opensWallUTCNS <= q.nowWallUTCNS < s.closesWallUTCNS
  }

  // Evaluate's checks, in its order, over whatever found what the request names.
  function Judge(c: Config, installedWallUTCNS: int, receivedMonotonicNS: uint64, f: Found, q: EdgeRequest): Decision {
    var deny := (reason: Reason, mode: string) =>
      Decision(false, reason, c.configurationID, c.revision, Version(c), c.sha256, mode);
    var wallAge, monotonicAge := q.nowWallUTCNS - installedWallUTCNS, q.nowMonotonicNS - receivedMonotonicNS;
    if q.nowWallUTCNS < c.validFromWallUTCNS || q.nowWallUTCNS >= c.validUntilWallUTCNS
       || q.nowWallUTCNS < installedWallUTCNS then
      deny(ExpiredOrClockUnsafe, "")
    else if q.nowMonotonicNS < receivedMonotonicNS then deny(MonotonicRegression, "")
    else if wallAge > c.maximumEdgeOfflineAgeNS || monotonicAge > c.maximumEdgeOfflineAgeNS then deny(CacheStale, "")
    else if !IdentifiedRequest(q) then deny(IdentityInvalid, "")
    else if f.killed then deny(KillSwitchEngaged, "")
    else if f.strategy.None? || !StrategyAllows(f.strategy.value, q) then deny(StrategyNotAuthorized, "")
    else if f.venue.None? || !f.venue.value.enabled then deny(VenueNotAuthorized, "")
    else
      var mode := f.venue.value.mode;
      if mode == LIVE || (mode != PAPER && mode != SIMULATION) then deny(LiveModeUnavailable, mode)
      else if f.limits.None? then deny(RiskLimitsUnavailable, mode)
      else if f.limits.value.maximumConfigurationAgeNS < c.maximumEdgeOfflineAgeNS
           && (wallAge > f.limits.value.maximumConfigurationAgeNS
               || monotonicAge > f.limits.value.maximumConfigurationAgeNS) then
        deny(RiskConfigurationStale, mode)
      else if !SymbolAuthorized(f.limits.value, q.instrumentID) then deny(SymbolNotAuthorized, mode)
      else if f.model.None? || !ModelAllows(f.model.value, q) then deny(ModelNotEligible, mode)
      else if f.session.None? || !SessionOpen(f.session.value, q) then deny(TradingSessionClosed, mode)
      else Decision(true, EdgeAuthorized, c.configurationID, c.revision, Version(c), c.sha256, mode)
  }

  // Evaluate: the lookups go through the runtime's maps.
  function Evaluate(r: Runtime, q: EdgeRequest): Decision {
    Judge(r.configuration, r.installedWallUTCNS, r.receivedMonotonicNS,
          Found(Killed(r.configuration.killSwitches, r.emergencyKills, q), Lookup(r.strategies, q.strategyID),
                Lookup(r.venues, q.venueID), Lookup(r.risk, q.accountID),
                LookupModel(r.models, q.modelID, q.modelVersion),
                Lookup(r.sessions, q.sessionID)), q)
  }

  // ----- The reference: scan the lists -----------------------------------------------------------------------

  // Some command ever accepted kills the request.
  predicate KilledByLog(kills: seq<KillCommand>, q: EdgeRequest) {
    exists i | 0 <= i < |kills| :: CommandKills(kills[i], q)
  }

  function Scan(c: Config, kills: seq<KillCommand>, q: EdgeRequest): Found {
    Found(KilledBySwitch(c.killSwitches, q) || KilledByLog(kills, q),
          Find((s: Strategy) => s.strategyID == q.strategyID, c.strategies),
          Find((v: Venue) => v.venueID == q.venueID, c.venues),
          Find((r: RiskLimits) => r.accountID == q.accountID, c.riskLimits),
          Find((m: Model) => m.modelID == q.modelID && m.semanticVersion == q.modelVersion, c.models),
          Find((s: TradingSession) => s.sessionID == q.sessionID, c.tradingSessions))
  }

  // ----- Lookup is scan --------------------------------------------------------------------------------------

  lemma {:induction false} FindFinds<T(!new)>(fits: T -> bool, items: seq<T>)
    ensures match Find(fits, items)
            case None => forall x | x in items :: !fits(x)
            case Some(x) => x in items && fits(x)
  {
    if items != [] && !fits(items[0]) {
      FindFinds(fits, items[1..]);
      forall x | x in items && x != items[0] ensures x in items[1..] {}
    }
  }

  lemma {:induction false} IndexHolds<T>(key: T -> string, items: seq<T>, id: string)
    ensures id in Index(key, items) ==> Index(key, items)[id] in items && key(Index(key, items)[id]) == id
    ensures id !in Index(key, items) ==> forall x | x in items :: key(x) != id
  {
    if items != [] {
      var front, last := items[..|items| - 1], items[|items| - 1];
      IndexHolds(key, front, id);
      forall x | x in items && x != last ensures x in front {}
    }
  }

  lemma UniqueItem<T, K>(key: T -> K, items: seq<T>, x: T, y: T)
    requires UniqueBy(key, items) && x in items && y in items && key(x) == key(y)
    ensures x == y
  {
    var i :| 0 <= i < |items| && items[i] == x;
    var j :| 0 <= j < |items| && items[j] == y;
    assert key(items[i]) == key(items[j]);
  }

  lemma LookupIsFind<T(!new)>(key: T -> string, fits: T -> bool, items: seq<T>, id: string)
    requires UniqueBy(key, items) && forall x :: fits(x) <==> key(x) == id
    ensures Lookup(Index(key, items), id) == Find(fits, items)
  {
    hide UniqueBy, Index, Find;
    FindFinds(fits, items);
    IndexHolds(key, items, id);
    var found := Find(fits, items);
    if found.Some? && id in Index(key, items) { UniqueItem(key, items, found.value, Index(key, items)[id]); }
  }

  lemma {:induction false} ModelIndexHolds(items: seq<Model>, id: string, version: string)
    ensures match LookupModel(ModelIndex(items), id, version)
            case None => forall m | m in items :: ModelKey(m) != (id, version)
            case Some(m) => m in items && ModelKey(m) == (id, version)
  {
    if items != [] {
      var front, last := items[..|items| - 1], items[|items| - 1];
      ModelIndexHolds(front, id, version);
      forall m | m in items && m != last ensures m in front {}
    }
  }

  lemma LookupModelIsFind(items: seq<Model>, fits: Model -> bool, id: string, version: string)
    requires UniqueBy(ModelKey, items) && forall m :: fits(m) <==> ModelKey(m) == (id, version)
    ensures LookupModel(ModelIndex(items), id, version) == Find(fits, items)
  {
    hide UniqueBy, ModelIndex, Find;
    FindFinds(fits, items);
    ModelIndexHolds(items, id, version);
    var found, looked := Find(fits, items), LookupModel(ModelIndex(items), id, version);
    if found.Some? && looked.Some? { UniqueItem(ModelKey, items, found.value, looked.value); }
  }

  // The index holds, for every list, what a scan of a list with unique keys finds.
  ghost predicate Keyed(c: Config) {
    && UniqueBy(StrategyKey, c.strategies) && UniqueBy(VenueKey, c.venues) && UniqueBy(AccountKey, c.riskLimits)
    && UniqueBy(ModelKey, c.models) && UniqueBy(SessionKey, c.tradingSessions)
  }

  lemma ValidIsKeyed(c: Config)
    requires ValidConfiguration(c)
    ensures Keyed(c)
  {
    hide All, UniqueBy, Covered, RoleMap, ValidHeader, ValidCounts, Keys, ValidCaps, ValidKills, ValidCalendar,
         ResolvedStrategies;
  }

  // The map of latest kills says the same as the whole log of kills.
  ghost predicate SameKills(emergency: map<string, KillCommand>, kills: seq<KillCommand>) {
    forall q :: KilledByMap(emergency, q) <==> KilledByLog(kills, q)
  }

  /** For every configuration with unique keys, and so for every valid one, evaluating through the index maps
      and the latest-kill map gives the decision of a linear scan of its lists and of the kill log. */
  lemma EvaluateIsScan(c: Config, installedWallUTCNS: int, monotonicNS: uint64, emergency: map<string, KillCommand>,
                       kills: seq<KillCommand>, q: EdgeRequest)
    requires ValidConfiguration(c) && Canonical.Canonical(c) == c && SameKills(emergency, kills)
    ensures Evaluate(Build(c, installedWallUTCNS, monotonicNS, emergency), q)
         == Judge(c, installedWallUTCNS, monotonicNS, Scan(c, kills, q), q)
  {
    hide ValidConfiguration, Canonical.Canonical, UniqueBy, Index, ModelIndex, Find, Judge, KilledByMap, KilledByLog,
         KilledBySwitch;
    ValidIsKeyed(c);
    LookupIsFind(StrategyKey, (s: Strategy) => s.strategyID == q.strategyID, c.strategies, q.strategyID);
    LookupIsFind(VenueKey, (v: Venue) => v.venueID == q.venueID, c.venues, q.venueID);
    LookupIsFind(AccountKey, (r: RiskLimits) => r.accountID == q.accountID, c.riskLimits, q.accountID);
    LookupIsFind(SessionKey, (s: TradingSession) => s.sessionID == q.sessionID, c.tradingSessions, q.sessionID);
    var fits := (m: Model) => m.modelID == q.modelID && m.semanticVersion == q.modelVersion;
    LookupModelIsFind(c.models, fits, q.modelID, q.modelVersion);
  }

  // ----- What an allow means ---------------------------------------------------------------------------------

  ghost predicate FreshEnough(installedWallUTCNS: int, receivedMonotonicNS: uint64, limit: uint64, q: EdgeRequest) {
    && 0 <= q.nowWallUTCNS - installedWallUTCNS <= limit
    && 0 <= q.nowMonotonicNS - receivedMonotonicNS <= limit
  }

  // Which requests a kill stops, by its scope: all of them, or those of one account, venue, strategy or symbol.
  predicate Stops(scope: string, target: string, q: EdgeRequest) {
    || scope == "FIRM"
    || (scope == "ACCOUNT" && target == q.accountID)
    || (scope == "VENUE" && target == q.venueID)
    || (scope == "STRATEGY" && target == q.strategyID)
    || (scope == "SYMBOL" && target == q.instrumentID)
    || scope !in {"FIRM", "ACCOUNT", "VENUE", "STRATEGY", "SYMBOL"}
  }

  /** A kill matches exactly the requests that its scope and target name. */
  lemma MatchesExactly(scope: string, target: string, q: EdgeRequest)
    ensures KillMatches(scope, target, q) <==> Stops(scope, target, q)
  {
    assert |"FIRM"| == 4 && |"VENUE"| == 5 && |"SYMBOL"| == 6 && |"ACCOUNT"| == 7 && |"STRATEGY"| == 8;
  }

  // Some engaged switch or command stops the request.
  ghost predicate Halted(switches: seq<KillSwitch>, kills: seq<KillCommand>, q: EdgeRequest) {
    || (exists k | k in switches :: k.engaged && Stops(k.scope, k.targetID, q))
    || (exists k | k in kills :: k.engaged && Stops(k.scope, k.targetID, q))
  }

  lemma HaltedExactly(switches: seq<KillSwitch>, kills: seq<KillCommand>, q: EdgeRequest)
    ensures KilledBySwitch(switches, q) || KilledByLog(kills, q) <==> Halted(switches, kills, q)
  {
    hide KillMatches, Stops;
    forall k: KillSwitch ensures SwitchKills(k, q) <==> k.engaged && Stops(k.scope, k.targetID, q) {
      MatchesExactly(k.scope, k.targetID, q);
    }
    forall k: KillCommand ensures CommandKills(k, q) <==> k.engaged && Stops(k.scope, k.targetID, q) {
      MatchesExactly(k.scope, k.targetID, q);
    }
    hide SwitchKills, CommandKills;
    if Halted(switches, kills, q) {
      if k: KillSwitch :| k in switches && k.engaged && Stops(k.scope, k.targetID, q) {
        var i :| 0 <= i < |switches| && switches[i] == k;
        assert SwitchKills(switches[i], q);
      } else {
        var k :| k in kills && k.engaged && Stops(k.scope, k.targetID, q);
        var i :| 0 <= i < |kills| && kills[i] == k;
        assert CommandKills(kills[i], q);
      }
    }
  }

  ghost predicate Identified(q: EdgeRequest) {
    && ValidSemantic(q.modelVersion)
    && forall id | id in [q.accountID, q.instrumentID, q.strategyID, q.venueID, q.sessionID, q.modelID] ::
      ValidIdentifier(id)
  }

  // What the configuration must hold for the request, list by list.
  ghost predicate StrategyServes(c: Config, q: EdgeRequest) {
    exists s | s in c.strategies ::
      s.strategyID == q.strategyID && s.enabled && q.modelID in s.allowedModelIDs && q.sessionID in s.tradingSessionIDs
  }

  ghost predicate VenueServes(c: Config, q: EdgeRequest) {
    exists v | v in c.venues :: v.venueID == q.venueID && v.enabled
  }

  ghost predicate AccountExists(c: Config, q: EdgeRequest) {
    exists r | r in c.riskLimits :: r.accountID == q.accountID
  }

  ghost predicate AccountIsFresh(c: Config, installedWallUTCNS: int, monotonicNS: uint64, q: EdgeRequest) {
    exists r | r in c.riskLimits ::
      r.accountID == q.accountID && FreshEnough(installedWallUTCNS, monotonicNS, r.maximumConfigurationAgeNS, q)
  }

  ghost predicate SymbolServes(c: Config, q: EdgeRequest) {
    exists r | r in c.riskLimits ::
      r.accountID == q.accountID && exists s | s in r.symbolLimits :: s.instrumentID == q.instrumentID && s.authorized
  }

  ghost predicate ModelServes(c: Config, q: EdgeRequest) {
    exists m | m in c.models ::
      m.modelID == q.modelID && m.semanticVersion == q.modelVersion && m.eligible
        && q.strategyID in m.allowedStrategyIDs
  }

  ghost predicate SessionServes(c: Config, q: EdgeRequest) {
    exists s | s in c.tradingSessions ::
      && s.sessionID == q.sessionID && s.venueID == q.venueID
      && s.opensWallUTCNS <= q.nowWallUTCNS < s.closesWallUTCNS
  }

  // Why an order is denied: the first of these conditions that fails, in this order.
  ghost function Verdict(c: Config, installedWallUTCNS: int, monotonicNS: uint64, kills: seq<KillCommand>,
                         q: EdgeRequest): Reason {
    if !(c.validFromWallUTCNS <= q.nowWallUTCNS < c.validUntilWallUTCNS) || q.nowWallUTCNS < installedWallUTCNS then
      ExpiredOrClockUnsafe
    else if q.nowMonotonicNS < monotonicNS then MonotonicRegression
    else if !FreshEnough(installedWallUTCNS, monotonicNS, c.maximumEdgeOfflineAgeNS, q) then CacheStale
    else if !Identified(q) then IdentityInvalid
    else if Halted(c.killSwitches, kills, q) then KillSwitchEngaged
    else if !StrategyServes(c, q) then StrategyNotAuthorized
    else if !VenueServes(c, q) then VenueNotAuthorized
    else if !AccountExists(c, q) then RiskLimitsUnavailable
    else if !AccountIsFresh(c, installedWallUTCNS, monotonicNS, q) then RiskConfigurationStale
    else if !SymbolServes(c, q) then SymbolNotAuthorized
    else if !ModelServes(c, q) then ModelNotEligible
    else if !SessionServes(c, q) then TradingSessionClosed
    else EdgeAuthorized
  }

  // New orders are authorized.
  ghost predicate Authorized(c: Config, installedWallUTCNS: int, monotonicNS: uint64, kills: seq<KillCommand>,
                             q: EdgeRequest) {
    && c.validFromWallUTCNS <= q.nowWallUTCNS < c.validUntilWallUTCNS
    && FreshEnough(installedWallUTCNS, monotonicNS, c.maximumEdgeOfflineAgeNS, q)
    && AccountIsFresh(c, installedWallUTCNS, monotonicNS, q)
    && Identified(q) && !Halted(c.killSwitches, kills, q)
    && StrategyServes(c, q) && VenueServes(c, q) && SymbolServes(c, q) && ModelServes(c, q) && SessionServes(c, q)
  }

  // What a scan finds, said of the lists.
  lemma ScanMeans(c: Config, kills: seq<KillCommand>, q: EdgeRequest)
    requires ValidConfiguration(c)
    ensures var f := Scan(c, kills, q);
      && (f.killed <==> Halted(c.killSwitches, kills, q)) && (IdentifiedRequest(q) <==> Identified(q))
      && (f.strategy.Some? && StrategyAllows(f.strategy.value, q) <==> StrategyServes(c, q))
      && (f.venue.Some? && f.venue.value.enabled <==> VenueServes(c, q))
      && (f.venue.Some? ==> f.venue.value.mode == SIMULATION || f.venue.value.mode == PAPER)
      && (f.model.Some? && ModelAllows(f.model.value, q) <==> ModelServes(c, q))
      && (f.session.Some? && SessionOpen(f.session.value, q) <==> SessionServes(c, q))
  {
    hide ValidConfiguration, UniqueBy, Find, KilledByLog, KilledBySwitch, Halted, ValidIdentifier, ValidSemantic;
    ValidIsKeyed(c);
    HaltedExactly(c.killSwitches, kills, q);
    IdentifiedExactly(q);
    UniqueFind(StrategyKey, (s: Strategy) => s.strategyID == q.strategyID, c.strategies);
    UniqueFind(VenueKey, (v: Venue) => v.venueID == q.venueID, c.venues);
    UniqueFind(ModelKey, (m: Model) => m.modelID == q.modelID && m.semanticVersion == q.modelVersion, c.models);
    UniqueFind(SessionKey, (s: TradingSession) => s.sessionID == q.sessionID, c.tradingSessions);
    var f := Scan(c, kills, q);
    if f.venue.Some? { ValidMode(c, f.venue.value); }
  }

  lemma IdentifiedExactly(q: EdgeRequest)
    ensures IdentifiedRequest(q) <==> Identified(q)
  {
    hide ValidIdentifier, ValidSemantic;
    var ids := [q.accountID, q.instrumentID, q.strategyID, q.venueID, q.sessionID, q.modelID];
    assert ids[0] in ids && ids[1] in ids && ids[2] in ids && ids[3] in ids && ids[4] in ids && ids[5] in ids;
  }

  lemma AccountScanMeans(c: Config, kills: seq<KillCommand>, installedWallUTCNS: int, monotonicNS: uint64,
                         q: EdgeRequest)
    requires ValidConfiguration(c)
    ensures var f := Scan(c, kills, q).limits;
      && (f.Some? <==> AccountExists(c, q))
      && (f.Some? && FreshEnough(installedWallUTCNS, monotonicNS, f.value.maximumConfigurationAgeNS, q)
          <==> AccountIsFresh(c, installedWallUTCNS, monotonicNS, q))
      && (f.Some? && SymbolAuthorized(f.value, q.instrumentID) <==> SymbolServes(c, q))
  {
    hide ValidConfiguration, UniqueBy, Find, KilledByLog, KilledBySwitch, SymbolAuthorized, FreshEnough;
    ValidIsKeyed(c);
    UniqueFind(AccountKey, (r: RiskLimits) => r.accountID == q.accountID, c.riskLimits);
    forall r | r in c.riskLimits
      ensures SymbolAuthorized(r, q.instrumentID) <==>
        exists s | s in r.symbolLimits :: s.instrumentID == q.instrumentID && s.authorized
    {
      SymbolScan(c, r, q.instrumentID);
    }
  }

  /** For every valid configuration, log of kills and request: the decision's reason is the first condition that
      fails, new orders are allowed if and only if none does, and the decision names the configuration. */
  lemma JudgesExactly(c: Config, installedWallUTCNS: int, monotonicNS: uint64, kills: seq<KillCommand>, q: EdgeRequest)
    requires ValidConfiguration(c)
    ensures var decision := Judge(c, installedWallUTCNS, monotonicNS, Scan(c, kills, q), q);
      && decision.reason == Verdict(c, installedWallUTCNS, monotonicNS, kills, q)
      && (decision.allowNewOrders <==> decision.reason.EdgeAuthorized?)
      && decision.configurationID == c.configurationID && decision.revision == c.revision
      && decision.sha256 == c.sha256 && (Hex64(c.sha256) ==> decision.version == c.sha256[..32])
      && (decision.allowNewOrders ==>
            exists v | v in c.venues :: v.venueID == q.venueID && v.enabled && v.mode == decision.mode)
  {
    hide ValidConfiguration, Find, Halted, StrategyServes, VenueServes, ModelServes, SessionServes, AccountExists,
         AccountIsFresh, SymbolServes, Identified, IdentifiedRequest, StrategyAllows, ModelAllows, SessionOpen,
         SymbolAuthorized, Scan, Hex64;
    ScanMeans(c, kills, q);
    AccountScanMeans(c, kills, installedWallUTCNS, monotonicNS, q);
    FoundVenue(c, kills, q);
  }

  lemma FoundVenue(c: Config, kills: seq<KillCommand>, q: EdgeRequest)
    ensures var f := Scan(c, kills, q).venue; f.Some? ==> f.value in c.venues && f.value.venueID == q.venueID
  {
    hide Find;
    FindFinds((v: Venue) => v.venueID == q.venueID, c.venues);
  }

  /** New orders are allowed exactly when the configuration is valid now and fresh by both clocks for the edge
      and for the account, nothing stops the request, and the configuration has the strategy, venue, account,
      symbol, model and session that authorize it. */
  lemma AllowedExactly(c: Config, installedWallUTCNS: int, monotonicNS: uint64, kills: seq<KillCommand>, q: EdgeRequest)
    requires ValidConfiguration(c)
    ensures Judge(c, installedWallUTCNS, monotonicNS, Scan(c, kills, q), q).allowNewOrders
       <==> Authorized(c, installedWallUTCNS, monotonicNS, kills, q)
  {
    hide ValidConfiguration, Judge, Scan, Halted, StrategyServes, VenueServes, ModelServes, SessionServes, SymbolServes,
         Identified;
    JudgesExactly(c, installedWallUTCNS, monotonicNS, kills, q);
  }

  // With unique keys the found item is the only one that fits.
  lemma UniqueFind<T(!new), K>(key: T -> K, fits: T -> bool, items: seq<T>)
    requires UniqueBy(key, items) && forall x, y | fits(x) && fits(y) :: key(x) == key(y)
    ensures match Find(fits, items)
            case None => forall x | x in items :: !fits(x)
            case Some(f) => f in items && fits(f) && forall x | x in items && fits(x) :: x == f
  {
    hide UniqueBy, Find;
    FindFinds(fits, items);
    var found := Find(fits, items);
    if found.Some? {
      forall x | x in items && fits(x) ensures x == found.value { UniqueItem(key, items, x, found.value); }
    }
  }

  lemma ValidMode(c: Config, v: Venue)
    requires ValidConfiguration(c) && v in c.venues
    ensures v.mode == SIMULATION || v.mode == PAPER
  {
    hide UniqueBy, ValidHeader, ValidCounts, ValidStrategies, ValidRiskLimits, ValidModels, ValidCaps,
         ValidSessions, ResolvedStrategies, ValidCalendar, ValidKills, ValidRoles, ValidIdentifier;
    var i :| 0 <= i < |c.venues| && c.venues[i] == v;
    assert ValidVenue(c.venues[i]);
  }

  lemma SymbolScan(c: Config, r: RiskLimits, instrumentID: string)
    requires ValidConfiguration(c) && r in c.riskLimits
    ensures SymbolAuthorized(r, instrumentID) <==>
      exists s | s in r.symbolLimits :: s.instrumentID == instrumentID && s.authorized
  {
    hide UniqueBy, ValidHeader, ValidCounts, ValidStrategies, ValidVenues, ValidModels, ValidCaps, Find,
         ValidSessions, ResolvedStrategies, ValidCalendar, ValidKills, ValidRoles, ValidIdentifier, ValidLimits;
    var i :| 0 <= i < |c.riskLimits| && c.riskLimits[i] == r;
    assert ValidAccount(c.riskLimits[i]);
    UniqueFind(InstrumentKey, (s: SymbolLimit) => s.instrumentID == instrumentID, r.symbolLimits);
    forall s | s in r.symbolLimits ensures !s.restricted || !s.authorized {
      var j :| 0 <= j < |r.symbolLimits| && r.symbolLimits[j] == s;
      assert ValidSymbol(r.symbolLimits[j]);
    }
  }
}
