/** The administrative configuration and what it means for one to be valid: every list has unique keys and
    every reference names something the configuration contains. */
module Configuration {
  import opened Text
  import opened DeploymentTypes

  const UINT32_LIMIT: int := 0x1_0000_0000

  type uint32 = x: int | 0 <= x < UINT32_LIMIT

  const SIMULATION := "SIMULATION"
  const PAPER := "PAPER"
  const LIVE := "LIVE"

  const VIEWER := "VIEWER"
  const AUTHOR := "CONFIGURATION_AUTHOR"
  const APPROVER := "APPROVER"
  const ACTIVATOR := "ACTIVATOR"
  const ROLLBACK_OPERATOR := "ROLLBACK_OPERATOR"
  const KILL_OPERATOR := "KILL_OPERATOR"

  const FIRM_SCOPE := "FIRM"
  const ACCOUNT_SCOPE := "ACCOUNT"
  const VENUE_SCOPE := "VENUE"
  const STRATEGY_SCOPE := "STRATEGY"
  const SYMBOL_SCOPE := "SYMBOL"

  const MAXIMUM_EDGE_OFFLINE_AGE_NS: nat := 86_400_000_000_000

  datatype Strategy = Strategy(
    strategyID: string, enabled: bool, maximumOrderQuantity: uint64, maximumPositionQuantity: uint64,
    allowedModelIDs: seq<string>, tradingSessionIDs: seq<string>)

  datatype Venue = Venue(
    venueID: string, enabled: bool, mode: string, maximumOrdersPerSecond: uint32,
    maximumCancelsPerSecond: uint32, requireSelfTradePrevention: bool)

  datatype SymbolLimit = SymbolLimit(
    instrumentID: string, authorized: bool, restricted: bool, maximumOrderQuantity: uint64,
    maximumOrderNotional: uint64, maximumAbsolutePosition: uint64)

  datatype RiskLimits = RiskLimits(
    accountID: string, maximumGrossExposure: uint64, maximumAbsoluteNetExposure: uint64, maximumDailyLoss: uint64,
    maximumDrawdown: uint64, creditCapitalLimit: uint64, maximumConfigurationAgeNS: uint64,
    symbolLimits: seq<SymbolLimit>)

  datatype Model = Model(
    modelID: string, semanticVersion: string, eligible: bool, maximumOODScorePPM: uint32,
    allowedStrategyIDs: seq<string>)

  datatype EnsembleCap = EnsembleCap(ensembleID: string, modelID: string, maximumWeightPPM: uint32)

  datatype TradingSession = TradingSession(sessionID: string, venueID: string, opensWallUTCNS: int,
                                           closesWallUTCNS: int)

  datatype CalendarEvent = CalendarEvent(
    eventID: string, eventType: string, scheduledWallUTCNS: int, preEventLeadNS: uint64,
    postEventStabilizationNS: uint64, sourceID: string)

  datatype KillSwitch = KillSwitch(killID: string, scope: string, targetID: string, engaged: bool, reasonCode: string)

  datatype RoleBinding = RoleBinding(principal: string, roles: seq<string>)

  datatype Config = Config(
    schemaVersion: uint32, configurationID: string, revision: uint64, parentSHA256: string, environment: string,
    createdWallUTCNS: int, validFromWallUTCNS: int, validUntilWallUTCNS: int, maximumEdgeOfflineAgeNS: uint64,
    strategies: seq<Strategy>, venues: seq<Venue>, riskLimits: seq<RiskLimits>, models: seq<Model>,
    ensembleCaps: seq<EnsembleCap>, tradingSessions: seq<TradingSession>, eventCalendar: seq<CalendarEvent>,
    killSwitches: seq<KillSwitch>, operatorRoles: seq<RoleBinding>, sha256: string)

  // ----- Keys ----------------------------------------------------------------------------------------

  // The keys of a list's items.
  function Keys<T, K>(key: T -> K, items: seq<T>): set<K> { set i | 0 <= i < |items| :: key(items[i]) }

  // No two items share a key.
  predicate UniqueBy<T, K(==)>(key: T -> K, items: seq<T>) {
    forall i, j | 0 <= i < j < |items| :: key(items[i]) != key(items[j])
  }

  function StrategyKey(s: Strategy): string { s.strategyID }
  function VenueKey(v: Venue): string { v.venueID }
  function AccountKey(r: RiskLimits): string { r.accountID }
  function InstrumentKey(s: SymbolLimit): string { s.instrumentID }
  function ModelKey(m: Model): (string, string) { (m.modelID, m.semanticVersion) }
  function ModelIDOf(m: Model): string { m.modelID }
  function CapKey(c: EnsembleCap): (string, string) { (c.ensembleID, c.modelID) }
  function SessionKey(s: TradingSession): string { s.sessionID }
  function EventKey(e: CalendarEvent): string { e.eventID }
  function KillKey(k: KillSwitch): string { k.killID }
  function PrincipalKey(b: RoleBinding): string { b.principal }
  function Itself(s: string): string { s }

  // ----- What a valid item is -------------------------------------------------------------------------

  predicate UniqueIdentifiers(values: seq<string>) {
    (forall i | 0 <= i < |values| :: ValidIdentifier(values[i])) && UniqueBy(Itself, values)
  }

  predicate ValidStrategy(s: Strategy) {
    && ValidIdentifier(s.strategyID) && UniqueIdentifiers(s.allowedModelIDs) && UniqueIdentifiers(s.tradingSessionIDs)
    && (s.enabled ==>
        s.maximumOrderQuantity > 0 && s.maximumPositionQuantity > 0 && s.allowedModelIDs != []
        && s.tradingSessionIDs != [])
  }

  predicate ValidVenue(v: Venue) {
    && ValidIdentifier(v.venueID) && (v.mode == SIMULATION || v.mode == PAPER)
    && v.maximumOrdersPerSecond > 0 && v.maximumCancelsPerSecond > 0 && v.requireSelfTradePrevention
  }

  predicate ValidLimits(r: RiskLimits) {
    && ValidIdentifier(r.accountID) && r.maximumGrossExposure > 0 && r.maximumAbsoluteNetExposure > 0
    && r.maximumDailyLoss > 0 && r.maximumDrawdown > 0 && r.creditCapitalLimit > 0 && r.maximumConfigurationAgeNS > 0
    && 0 < |r.symbolLimits| <= 64
  }

  predicate ValidSymbol(s: SymbolLimit) {
    && ValidIdentifier(s.instrumentID) && s.maximumOrderQuantity > 0 && s.maximumOrderNotional > 0
    && s.maximumAbsolutePosition > 0 && (!s.restricted || !s.authorized)
  }

  predicate ValidSymbols(symbols: seq<SymbolLimit>) {
    (forall i | 0 <= i < |symbols| :: ValidSymbol(symbols[i])) && UniqueBy(InstrumentKey, symbols)
  }

  predicate ValidModel(strategyIDs: set<string>, m: Model) {
    && ValidIdentifier(m.modelID) && ValidSemantic(m.semanticVersion) && m.maximumOODScorePPM <= PARTS_PER_MILLION
    && UniqueIdentifiers(m.allowedStrategyIDs) && (m.eligible ==> m.allowedStrategyIDs != [])
    && Keys(Itself, m.allowedStrategyIDs) <= strategyIDs
  }

  predicate ValidCap(modelIDs: set<string>, c: EnsembleCap) {
    && ValidIdentifier(c.ensembleID) && ValidIdentifier(c.modelID)
    && 0 < c.maximumWeightPPM <= PARTS_PER_MILLION && c.modelID in modelIDs
  }

  predicate ValidSession(venueIDs: set<string>, s: TradingSession) {
    ValidIdentifier(s.sessionID) && s.venueID in venueIDs && 0 < s.opensWallUTCNS < s.closesWallUTCNS
  }

  predicate ResolvedStrategy(sessionIDs: set<string>, modelIDs: set<string>, s: Strategy) {
    Keys(Itself, s.tradingSessionIDs) <= sessionIDs && Keys(Itself, s.allowedModelIDs) <= modelIDs
  }

  predicate ValidEvent(e: CalendarEvent) {
    ValidIdentifier(e.eventID) && ValidIdentifier(e.eventType) && ValidIdentifier(e.sourceID)
      && e.scheduledWallUTCNS > 0
  }

  predicate TargetedScope(scope: string) {
    scope == ACCOUNT_SCOPE || scope == VENUE_SCOPE || scope == STRATEGY_SCOPE || scope == SYMBOL_SCOPE
  }

  predicate ValidKillTarget(scope: string, target: string) {
    if scope == FIRM_SCOPE then target == "" else TargetedScope(scope) && ValidIdentifier(target)
  }

  // What a kill switch may target.
  datatype Targets = Targets(accounts: set<string>, venues: set<string>, strategies: set<string>,
                             instruments: set<string>)

  predicate TargetExists(t: Targets, scope: string, target: string) {
    && (scope == ACCOUNT_SCOPE ==> target in t.accounts)
    && (scope == VENUE_SCOPE ==> target in t.venues)
    && (scope == STRATEGY_SCOPE ==> target in t.strategies)
    && (scope == SYMBOL_SCOPE ==> target in t.instruments)
  }

  predicate ValidKill(t: Targets, k: KillSwitch) {
    && ValidIdentifier(k.killID) && ValidKillTarget(k.scope, k.targetID) && ValidIdentifier(k.reasonCode)
    && TargetExists(t, k.scope, k.targetID)
  }

  predicate ValidRole(role: string) {
    role == VIEWER || role == AUTHOR || role == APPROVER || role == ACTIVATOR || role == ROLLBACK_OPERATOR
      || role == KILL_OPERATOR
  }

  predicate ValidBinding(b: RoleBinding) {
    && ValidIdentifier(b.principal) && 0 < |b.roles| <= 8
    && (forall i | 0 <= i < |b.roles| :: ValidRole(b.roles[i])) && UniqueBy(Itself, b.roles)
  }

  // sortedRoleMap: each principal's roles; a later binding of the same principal wins.
  function RoleMap(bindings: seq<RoleBinding>): map<string, set<string>> {
    if bindings == [] then map[]
    else
      var last := bindings[|bindings| - 1];
      RoleMap(bindings[..|bindings| - 1])[last.principal := Keys(Itself, last.roles)]
  }

  predicate HasRole(roles: map<string, set<string>>, principal: string, role: string) {
    principal in roles && role in roles[principal]
  }

  // Somebody can do each job, and an author and an approver are different people.
  predicate Covered(roles: map<string, set<string>>) {
    && (exists author, approver | author in roles && approver in roles ::
          author != approver && HasRole(roles, author, AUTHOR) && HasRole(roles, approver, APPROVER))
    && (exists p | p in roles :: HasRole(roles, p, ACTIVATOR))
    && (exists p | p in roles :: HasRole(roles, p, ROLLBACK_OPERATOR))
    && (exists p | p in roles :: HasRole(roles, p, KILL_OPERATOR))
    && (exists p | p in roles :: HasRole(roles, p, VIEWER))
  }

  // ----- A valid configuration ----------------------------------------------------------------------------

  predicate ValidHeader(c: Config) {
    && c.schemaVersion == 1 && ValidIdentifier(c.configurationID) && ValidIdentifier(c.environment)
    && c.revision != 0 && (if c.revision == 1 then c.parentSHA256 == "" else Hex64(c.parentSHA256))
    && 0 < c.createdWallUTCNS <= c.validFromWallUTCNS < c.validUntilWallUTCNS
    && 0 < c.maximumEdgeOfflineAgeNS <= MAXIMUM_EDGE_OFFLINE_AGE_NS
  }

  predicate ValidCounts(c: Config) {
    && 0 < |c.strategies| <= 64 && 0 < |c.venues| <= 32 && 0 < |c.riskLimits| <= 64 && 0 < |c.models| <= 128
    && 0 < |c.ensembleCaps| <= 512 && 0 < |c.tradingSessions| <= 128 && |c.eventCalendar| <= 512
    && |c.killSwitches| <= 256 && 0 < |c.operatorRoles| <= 256
  }

  predicate All<T(!new)>(ok: T -> bool, items: seq<T>) { forall i | 0 <= i < |items| :: ok(items[i]) }

  predicate ValidStrategies(c: Config) { All(ValidStrategy, c.strategies) && UniqueBy(StrategyKey, c.strategies) }

  predicate ValidVenues(c: Config) { All(ValidVenue, c.venues) && UniqueBy(VenueKey, c.venues) }

  predicate ValidAccount(r: RiskLimits) { ValidLimits(r) && ValidSymbols(r.symbolLimits) }

  predicate ValidRiskLimits(c: Config) { All(ValidAccount, c.riskLimits) && UniqueBy(AccountKey, c.riskLimits) }

  predicate ValidModels(c: Config) {
    var strategyIDs := Keys(StrategyKey, c.strategies);
    All(m => ValidModel(strategyIDs, m), c.models) && UniqueBy(ModelKey, c.models)
  }

  predicate ValidCaps(c: Config) {
    var modelIDs := Keys(ModelIDOf, c.models);
    All(p => ValidCap(modelIDs, p), c.ensembleCaps) && UniqueBy(CapKey, c.ensembleCaps)
  }

  predicate ValidSessions(c: Config) {
    var venueIDs := Keys(VenueKey, c.venues);
    All(s => ValidSession(venueIDs, s), c.tradingSessions) && UniqueBy(SessionKey, c.tradingSessions)
  }

  predicate ResolvedStrategies(c: Config) {
    var sessionIDs, modelIDs := Keys(SessionKey, c.tradingSessions), Keys(ModelIDOf, c.models);
    All(s => ResolvedStrategy(sessionIDs, modelIDs, s), c.strategies)
  }

  predicate ValidCalendar(c: Config) { All(ValidEvent, c.eventCalendar) && UniqueBy(EventKey, c.eventCalendar) }

  function Instruments(limits: seq<RiskLimits>): set<string> {
    set i, j | 0 <= i < |limits| && 0 <= j < |limits[i].symbolLimits| :: limits[i].symbolLimits[j].instrumentID
  }

  function TargetsOf(c: Config): Targets {
    Targets(Keys(AccountKey, c.riskLimits), Keys(VenueKey, c.venues), Keys(StrategyKey, c.strategies),
            Instruments(c.riskLimits))
  }

  predicate ValidKills(c: Config) {
    var targets := TargetsOf(c);
    All(k => ValidKill(targets, k), c.killSwitches) && UniqueBy(KillKey, c.killSwitches)
  }

  predicate ValidRoles(c: Config) {
    All(ValidBinding, c.operatorRoles) && UniqueBy(PrincipalKey, c.operatorRoles) && Covered(RoleMap(c.operatorRoles))
  }

  predicate ValidConfiguration(c: Config) {
    && ValidHeader(c) && ValidCounts(c)
    && ValidStrategies(c) && ValidVenues(c) && ValidRiskLimits(c) && ValidModels(c) && ValidCaps(c)
    && ValidSessions(c) && ResolvedStrategies(c) && ValidCalendar(c) && ValidKills(c) && ValidRoles(c)
  }
}
