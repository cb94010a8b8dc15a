/** What the validator's rules amount to, field by field: which configurations are valid, without keys, sets or role
    maps. */
module ConfigurationMeaning {
  import opened Text
  import opened Configuration

  // ----- Rules ----------------------------------------------------------------------------------------------------

  ghost predicate Listed(ids: seq<string>) {
    && (forall i | 0 <= i < |ids| :: ValidIdentifier(ids[i]))
    && (forall i, j | 0 <= i < j < |ids| :: ids[i] != ids[j])
  }

  ghost predicate HasModel(c: Config, id: string) { exists m | m in c.models :: m.modelID == id }

  ghost predicate HasSession(c: Config, id: string) { exists t | t in c.tradingSessions :: t.sessionID == id }

  ghost predicate HasVenue(c: Config, id: string) { exists v | v in c.venues :: v.venueID == id }

  ghost predicate HasStrategy(c: Config, id: string) { exists s | s in c.strategies :: s.strategyID == id }

  ghost predicate HasAccount(c: Config, id: string) { exists r | r in c.riskLimits :: r.accountID == id }

  ghost predicate HasInstrument(c: Config, id: string) {
    exists r, s | r in c.riskLimits && s in r.symbolLimits :: s.instrumentID == id
  }

  ghost predicate HeaderRule(c: Config) {
    && c.schemaVersion == 1 && ValidIdentifier(c.configurationID) && ValidIdentifier(c.environment)
    && c.revision >= 1 && (c.revision == 1 ==> c.parentSHA256 == "") && (c.revision > 1 ==> Hex64(c.parentSHA256))
    && 0 < c.createdWallUTCNS <= c.validFromWallUTCNS < c.validUntilWallUTCNS
    && 0 < c.maximumEdgeOfflineAgeNS <= 24 * 3600 * 1_000_000_000
    && 1 <= |c.strategies| <= 64 && 1 <= |c.venues| <= 32 && 1 <= |c.riskLimits| <= 64 && 1 <= |c.models| <= 128
    && 1 <= |c.ensembleCaps| <= 512 && 1 <= |c.tradingSessions| <= 128 && |c.eventCalendar| <= 512
    && |c.killSwitches| <= 256 && 1 <= |c.operatorRoles| <= 256
  }

  ghost predicate StrategyRule(c: Config, s: Strategy) {
    && ValidIdentifier(s.strategyID)
    && Listed(s.allowedModelIDs) && (forall id | id in s.allowedModelIDs :: HasModel(c, id))
    && Listed(s.tradingSessionIDs) && (forall id | id in s.tradingSessionIDs :: HasSession(c, id))
    && (s.enabled ==>
          && s.maximumOrderQuantity > 0 && s.maximumPositionQuantity > 0
          && |s.allowedModelIDs| > 0 && |s.tradingSessionIDs| > 0)
  }

  ghost predicate VenueRule(v: Venue) {
    && ValidIdentifier(v.venueID) && (v.mode == "SIMULATION" || v.mode == "PAPER")
    && v.maximumOrdersPerSecond > 0 && v.maximumCancelsPerSecond > 0 && v.requireSelfTradePrevention
  }

  ghost predicate SymbolRule(s: SymbolLimit) {
    && ValidIdentifier(s.instrumentID) && s.maximumOrderQuantity > 0 && s.maximumOrderNotional > 0
    && s.maximumAbsolutePosition > 0 && !(s.restricted && s.authorized)
  }

  ghost predicate AccountRule(r: RiskLimits) {
    && ValidIdentifier(r.accountID) && r.maximumGrossExposure > 0 && r.maximumAbsoluteNetExposure > 0
    && r.maximumDailyLoss > 0 && r.maximumDrawdown > 0 && r.creditCapitalLimit > 0 && r.maximumConfigurationAgeNS > 0
    && 1 <= |r.symbolLimits| <= 64 && (forall s | s in r.symbolLimits :: SymbolRule(s))
    && forall i, j | 0 <= i < j < |r.symbolLimits| :: r.symbolLimits[i].instrumentID != r.symbolLimits[j].instrumentID
  }

  ghost predicate ModelRule(c: Config, m: Model) {
    && ValidIdentifier(m.modelID) && ValidSemantic(m.semanticVersion) && m.maximumOODScorePPM <= 1_000_000
    && Listed(m.allowedStrategyIDs) && (forall id | id in m.allowedStrategyIDs :: HasStrategy(c, id))
    && (m.eligible ==> |m.allowedStrategyIDs| > 0)
  }

  ghost predicate CapRule(c: Config, p: EnsembleCap) {
    && ValidIdentifier(p.ensembleID) && ValidIdentifier(p.modelID) && 0 < p.maximumWeightPPM <= 1_000_000
    && HasModel(c, p.modelID)
  }

  ghost predicate SessionRule(c: Config, s: TradingSession) {
    ValidIdentifier(s.sessionID) && HasVenue(c, s.venueID) && 0 < s.opensWallUTCNS < s.closesWallUTCNS
  }

  ghost predicate EventRule(e: CalendarEvent) {
    && ValidIdentifier(e.eventID) && ValidIdentifier(e.eventType) && ValidIdentifier(e.sourceID)
    && e.scheduledWallUTCNS > 0
  }

  ghost predicate KillRule(c: Config, k: KillSwitch) {
    && ValidIdentifier(k.killID) && ValidIdentifier(k.reasonCode)
    && (|| (k.scope == "FIRM" && k.targetID == "")
        || (ValidIdentifier(k.targetID)
            && (|| (k.scope == "ACCOUNT" && HasAccount(c, k.targetID))
                || (k.scope == "VENUE" && HasVenue(c, k.targetID))
                || (k.scope == "STRATEGY" && HasStrategy(c, k.targetID))
                || (k.scope == "SYMBOL" && HasInstrument(c, k.targetID)))))
  }

  ghost predicate RoleRule(role: string) {
    || role == "VIEWER" || role == "CONFIGURATION_AUTHOR" || role == "APPROVER" || role == "ACTIVATOR"
    || role == "ROLLBACK_OPERATOR" || role == "KILL_OPERATOR"
  }

  ghost predicate BindingRule(b: RoleBinding) {
    && ValidIdentifier(b.principal) && 1 <= |b.roles| <= 8 && (forall i | 0 <= i < |b.roles| :: RoleRule(b.roles[i]))
    && forall i, j | 0 <= i < j < |b.roles| :: b.roles[i] != b.roles[j]
  }

  ghost predicate SomeoneIs(c: Config, role: string) { exists b | b in c.operatorRoles :: role in b.roles }

  // Somebody for each job, and two different people to write and to approve.
  ghost predicate CoverageRule(c: Config) {
    && (exists x, y | x in c.operatorRoles && y in c.operatorRoles ::
          x.principal != y.principal && "CONFIGURATION_AUTHOR" in x.roles && "APPROVER" in y.roles)
    && SomeoneIs(c, "ACTIVATOR") && SomeoneIs(c, "ROLLBACK_OPERATOR") && SomeoneIs(c, "KILL_OPERATOR")
    && SomeoneIs(c, "VIEWER")
  }

  // Every item follows its rule.
  ghost predicate ItemRules(c: Config) {
    && (forall i | 0 <= i < |c.strategies| :: StrategyRule(c, c.strategies[i]))
    && (forall i | 0 <= i < |c.venues| :: VenueRule(c.venues[i]))
    && (forall i | 0 <= i < |c.riskLimits| :: AccountRule(c.riskLimits[i]))
    && (forall i | 0 <= i < |c.models| :: ModelRule(c, c.models[i]))
    && (forall i | 0 <= i < |c.ensembleCaps| :: CapRule(c, c.ensembleCaps[i]))
    && (forall i | 0 <= i < |c.tradingSessions| :: SessionRule(c, c.tradingSessions[i]))
    && (forall i | 0 <= i < |c.eventCalendar| :: EventRule(c.eventCalendar[i]))
    && (forall i | 0 <= i < |c.killSwitches| :: KillRule(c, c.killSwitches[i]))
    && (forall i | 0 <= i < |c.operatorRoles| :: BindingRule(c.operatorRoles[i]))
  }

  // No two items of a list have the same identity.
  ghost predicate IdentityRules(c: Config) {
    && (forall i, j | 0 <= i < j < |c.strategies| :: c.strategies[i].strategyID != c.strategies[j].strategyID)
    && (forall i, j | 0 <= i < j < |c.venues| :: c.venues[i].venueID != c.venues[j].venueID)
    && (forall i, j | 0 <= i < j < |c.riskLimits| :: c.riskLimits[i].accountID != c.riskLimits[j].accountID)
    && (forall i, j | 0 <= i < j < |c.models| ::
          c.models[i].modelID != c.models[j].modelID || c.models[i].semanticVersion != c.models[j].semanticVersion)
    && (forall i, j | 0 <= i < j < |c.ensembleCaps| ::
          c.ensembleCaps[i].ensembleID != c.ensembleCaps[j].ensembleID
          || c.ensembleCaps[i].modelID != c.ensembleCaps[j].modelID)
    && (forall i, j | 0 <= i < j < |c.tradingSessions| ::
          c.tradingSessions[i].sessionID != c.tradingSessions[j].sessionID)
    && (forall i, j | 0 <= i < j < |c.eventCalendar| :: c.eventCalendar[i].eventID != c.eventCalendar[j].eventID)
    && (forall i, j | 0 <= i < j < |c.killSwitches| :: c.killSwitches[i].killID != c.killSwitches[j].killID)
    && (forall i, j | 0 <= i < j < |c.operatorRoles| :: c.operatorRoles[i].principal != c.operatorRoles[j].principal)
  }

  // ----- Keys and references ---------------------------------------------------------------------------------

  lemma KeysMean<T, K>(key: T -> K, items: seq<T>, k: K)
    ensures k in Keys(key, items) <==> exists x | x in items :: key(x) == k
  {
    if k in Keys(key, items) {
      var i :| 0 <= i < |items| && key(items[i]) == k;
      assert items[i] in items;
    }
    if x :| x in items && key(x) == k {
      var i :| 0 <= i < |items| && items[i] == x;
      assert key(items[i]) in Keys(key, items);
    }
  }

  lemma ReferencesMean(c: Config, id: string)
    ensures id in Keys(ModelIDOf, c.models) <==> HasModel(c, id)
    ensures id in Keys(SessionKey, c.tradingSessions) <==> HasSession(c, id)
    ensures id in Keys(VenueKey, c.venues) <==> HasVenue(c, id)
    ensures id in Keys(StrategyKey, c.strategies) <==> HasStrategy(c, id)
    ensures id in Keys(AccountKey, c.riskLimits) <==> HasAccount(c, id)
  {
    hide Keys;
    KeysMean(ModelIDOf, c.models, id);
    KeysMean(SessionKey, c.tradingSessions, id);
    KeysMean(VenueKey, c.venues, id);
    KeysMean(StrategyKey, c.strategies, id);
    KeysMean(AccountKey, c.riskLimits, id);
  }

  lemma InstrumentsMean(c: Config, id: string)
    ensures id in Instruments(c.riskLimits) <==> HasInstrument(c, id)
  {
    var limits := c.riskLimits;
    if id in Instruments(limits) {
      var i, j :| 0 <= i < |limits| && 0 <= j < |limits[i].symbolLimits|
                  && limits[i].symbolLimits[j].instrumentID == id;
      assert limits[i] in limits && limits[i].symbolLimits[j] in limits[i].symbolLimits;
    }
    if r, s :| r in limits && s in r.symbolLimits && s.instrumentID == id {
      var i :| 0 <= i < |limits| && limits[i] == r;
      var j :| 0 <= j < |limits[i].symbolLimits| && limits[i].symbolLimits[j] == s;
    }
  }

  // A list of identifiers refers only to known ones.
  lemma AllRefer(ids: seq<string>, known: set<string>)
    ensures Keys(Itself, ids) <= known <==> forall id | id in ids :: id in known
  {
    hide Keys;
    forall id ensures id in Keys(Itself, ids) <==> id in ids { KeysMean(Itself, ids, id); }
  }

  lemma ListedMeans(ids: seq<string>)
    ensures UniqueIdentifiers(ids) <==> Listed(ids)
  {
    hide ValidIdentifier;
  }

  // ----- Section by section ----------------------------------------------------------------------------------

  lemma StrategiesMean(c: Config)
    ensures ValidStrategies(c) && ResolvedStrategies(c) <==>
      && (forall i | 0 <= i < |c.strategies| :: StrategyRule(c, c.strategies[i]))
      && (forall i, j | 0 <= i < j < |c.strategies| :: c.strategies[i].strategyID != c.strategies[j].strategyID)
  {
    hide Keys, ValidIdentifier, UniqueIdentifiers, Listed, HasModel, HasSession;
    var sessionIDs, modelIDs := Keys(SessionKey, c.tradingSessions), Keys(ModelIDOf, c.models);
    forall i | 0 <= i < |c.strategies|
      ensures ValidStrategy(c.strategies[i]) && ResolvedStrategy(sessionIDs, modelIDs, c.strategies[i]) <==>
        StrategyRule(c, c.strategies[i])
    {
      StrategyMeans(c, c.strategies[i]);
    }
    hide StrategyRule, ValidStrategy, ResolvedStrategy;
  }

  lemma StrategyMeans(c: Config, s: Strategy)
    ensures var sessionIDs, modelIDs := Keys(SessionKey, c.tradingSessions), Keys(ModelIDOf, c.models);
      ValidStrategy(s) && ResolvedStrategy(sessionIDs, modelIDs, s) <==> StrategyRule(c, s)
  {
    hide Keys, ValidIdentifier, UniqueIdentifiers, Listed, HasModel, HasSession;
    ListedMeans(s.allowedModelIDs);
    ListedMeans(s.tradingSessionIDs);
    AllRefer(s.allowedModelIDs, Keys(ModelIDOf, c.models));
    AllRefer(s.tradingSessionIDs, Keys(SessionKey, c.tradingSessions));
    forall id
      ensures id in Keys(ModelIDOf, c.models) <==> HasModel(c, id)
      ensures id in Keys(SessionKey, c.tradingSessions) <==> HasSession(c, id)
    {
      ReferencesMean(c, id);
    }
  }

  lemma VenuesMean(c: Config)
    ensures ValidVenues(c) <==>
      && (forall i | 0 <= i < |c.venues| :: VenueRule(c.venues[i]))
      && (forall i, j | 0 <= i < j < |c.venues| :: c.venues[i].venueID != c.venues[j].venueID)
  {
    hide ValidIdentifier;
    forall i | 0 <= i < |c.venues| ensures ValidVenue(c.venues[i]) <==> VenueRule(c.venues[i]) {}
    hide ValidVenue, VenueRule;
  }

  lemma AccountMeans(r: RiskLimits)
    ensures ValidAccount(r) <==> AccountRule(r)
  {
    hide ValidIdentifier;
    var symbols := r.symbolLimits;
    forall i | 0 <= i < |symbols| ensures ValidSymbol(symbols[i]) <==> SymbolRule(symbols[i]) {}
    hide ValidSymbol, SymbolRule;
    assert (forall s | s in symbols :: SymbolRule(s)) <==> forall i | 0 <= i < |symbols| :: SymbolRule(symbols[i]);
  }

  lemma RiskLimitsMean(c: Config)
    ensures ValidRiskLimits(c) <==>
      && (forall i | 0 <= i < |c.riskLimits| :: AccountRule(c.riskLimits[i]))
      && (forall i, j | 0 <= i < j < |c.riskLimits| :: c.riskLimits[i].accountID != c.riskLimits[j].accountID)
  {
    hide ValidAccount, AccountRule;
    forall i | 0 <= i < |c.riskLimits| ensures ValidAccount(c.riskLimits[i]) <==> AccountRule(c.riskLimits[i]) {
      AccountMeans(c.riskLimits[i]);
    }
  }

  lemma ModelMeans(c: Config, m: Model)
    ensures ValidModel(Keys(StrategyKey, c.strategies), m) <==> ModelRule(c, m)
  {
    hide Keys, ValidIdentifier, ValidSemantic, UniqueIdentifiers, Listed, HasStrategy;
    ListedMeans(m.allowedStrategyIDs);
    AllRefer(m.allowedStrategyIDs, Keys(StrategyKey, c.strategies));
    forall id ensures id in Keys(StrategyKey, c.strategies) <==> HasStrategy(c, id) { ReferencesMean(c, id); }
  }

  lemma ModelsMean(c: Config)
    ensures ValidModels(c) <==>
      && (forall i | 0 <= i < |c.models| :: ModelRule(c, c.models[i]))
      && (forall i, j | 0 <= i < j < |c.models| ::
            c.models[i].modelID != c.models[j].modelID || c.models[i].semanticVersion != c.models[j].semanticVersion)
  {
    hide ValidModel, ModelRule, Keys;
    forall i | 0 <= i < |c.models|
      ensures ValidModel(Keys(StrategyKey, c.strategies), c.models[i]) <==> ModelRule(c, c.models[i])
    {
      ModelMeans(c, c.models[i]);
    }
  }

  lemma CapsMean(c: Config)
    ensures ValidCaps(c) <==>
      && (forall i | 0 <= i < |c.ensembleCaps| :: CapRule(c, c.ensembleCaps[i]))
      && (forall i, j | 0 <= i < j < |c.ensembleCaps| ::
            c.ensembleCaps[i].ensembleID != c.ensembleCaps[j].ensembleID
            || c.ensembleCaps[i].modelID != c.ensembleCaps[j].modelID)
  {
    hide Keys, ValidIdentifier, HasModel;
    forall i | 0 <= i < |c.ensembleCaps|
      ensures ValidCap(Keys(ModelIDOf, c.models), c.ensembleCaps[i]) <==> CapRule(c, c.ensembleCaps[i])
    {
      ReferencesMean(c, c.ensembleCaps[i].modelID);
    }
    hide ValidCap, CapRule;
  }

  lemma SessionsMean(c: Config)
    ensures ValidSessions(c) <==>
      && (forall i | 0 <= i < |c.tradingSessions| :: SessionRule(c, c.tradingSessions[i]))
      && (forall i, j | 0 <= i < j < |c.tradingSessions| ::
            c.tradingSessions[i].sessionID != c.tradingSessions[j].sessionID)
  {
    hide Keys, ValidIdentifier, HasVenue;
    forall i | 0 <= i < |c.tradingSessions|
      ensures ValidSession(Keys(VenueKey, c.venues), c.tradingSessions[i]) <==> SessionRule(c, c.tradingSessions[i])
    {
      ReferencesMean(c, c.tradingSessions[i].venueID);
    }
    hide ValidSession, SessionRule;
  }

  lemma CalendarMeans(c: Config)
    ensures ValidCalendar(c) <==>
      && (forall i | 0 <= i < |c.eventCalendar| :: EventRule(c.eventCalendar[i]))
      && (forall i, j | 0 <= i < j < |c.eventCalendar| :: c.eventCalendar[i].eventID != c.eventCalendar[j].eventID)
  {
    hide ValidIdentifier;
  }

  lemma KillsMean(c: Config)
    ensures ValidKills(c) <==>
      && (forall i | 0 <= i < |c.killSwitches| :: KillRule(c, c.killSwitches[i]))
      && (forall i, j | 0 <= i < j < |c.killSwitches| :: c.killSwitches[i].killID != c.killSwitches[j].killID)
  {
    hide Keys, Instruments, ValidIdentifier, HasVenue, HasAccount, HasStrategy, HasInstrument;
    forall i | 0 <= i < |c.killSwitches|
      ensures ValidKill(TargetsOf(c), c.killSwitches[i]) <==> KillRule(c, c.killSwitches[i])
    {
      ReferencesMean(c, c.killSwitches[i].targetID);
      InstrumentsMean(c, c.killSwitches[i].targetID);
    }
    hide ValidKill, KillRule, TargetsOf;
  }

  // ----- Roles -----------------------------------------------------------------------------------------------

  ghost predicate Named(bindings: seq<RoleBinding>, principal: string) {
    exists b | b in bindings :: b.principal == principal
  }

  ghost predicate Bound(bindings: seq<RoleBinding>, principal: string, role: string) {
    exists b | b in bindings :: b.principal == principal && role in b.roles
  }

  lemma BoundExtends(front: seq<RoleBinding>, last: RoleBinding, principal: string, role: string)
    ensures Named(front + [last], principal) <==> Named(front, principal) || last.principal == principal
    ensures Bound(front + [last], principal, role) <==>
      Bound(front, principal, role) || (last.principal == principal && role in last.roles)
  {
    var all := front + [last];
    assert last in all && forall b | b in front :: b in all;
    assert forall b | b in all :: b in front || b == last;
  }

  lemma LastIsAlone(bindings: seq<RoleBinding>)
    requires bindings != [] && UniqueBy(PrincipalKey, bindings)
    ensures UniqueBy(PrincipalKey, bindings[..|bindings| - 1])
    ensures !Named(bindings[..|bindings| - 1], bindings[|bindings| - 1].principal)
  {
    var front, last := bindings[..|bindings| - 1], bindings[|bindings| - 1];
    forall b | b in front ensures b.principal != last.principal {
      var i :| 0 <= i < |front| && front[i] == b;
      assert PrincipalKey(bindings[i]) != PrincipalKey(bindings[|front|]);
    }
  }

  lemma {:induction false} RoleMapMeans(bindings: seq<RoleBinding>, principal: string, role: string)
    requires UniqueBy(PrincipalKey, bindings)
    ensures principal in RoleMap(bindings) <==> Named(bindings, principal)
    ensures HasRole(RoleMap(bindings), principal, role) <==> Bound(bindings, principal, role)
  {
    hide Keys, UniqueBy, Named, Bound;
    if bindings == [] {
      NobodyBound(principal, role);
    } else {
      var front, last := bindings[..|bindings| - 1], bindings[|bindings| - 1];
      LastIsAlone(bindings);
      RoleMapMeans(front, principal, role);
      assert bindings == front + [last];
      BoundExtends(front, last, principal, role);
      if last.principal == principal {
        UnnamedIsUnbound(front, principal, role);
        KeysAreRoles(last.roles, role);
      }
    }
  }

  lemma NobodyBound(principal: string, role: string)
    ensures !Named([], principal) && !Bound([], principal, role)
  {
  }

  lemma UnnamedIsUnbound(bindings: seq<RoleBinding>, principal: string, role: string)
    requires !Named(bindings, principal)
    ensures !Bound(bindings, principal, role)
  {
  }

  lemma KeysAreRoles(roles: seq<string>, role: string)
    ensures role in Keys(Itself, roles) <==> role in roles
  {
    hide Keys;
    KeysMean(Itself, roles, role);
  }

  lemma SomeoneMeans(c: Config, role: string)
    requires UniqueBy(PrincipalKey, c.operatorRoles)
    ensures var roles := RoleMap(c.operatorRoles);
      (exists p | p in roles :: HasRole(roles, p, role)) <==> SomeoneIs(c, role)
  {
    hide RoleMap, UniqueBy, HasRole;
    var roles := RoleMap(c.operatorRoles);
    if p :| p in roles && HasRole(roles, p, role) { RoleMapMeans(c.operatorRoles, p, role); }
    if b :| b in c.operatorRoles && role in b.roles { RoleMapMeans(c.operatorRoles, b.principal, role); }
  }

  lemma PairMeans(c: Config)
    requires UniqueBy(PrincipalKey, c.operatorRoles)
    ensures var roles := RoleMap(c.operatorRoles);
      (exists x, y | x in roles && y in roles ::
         x != y && HasRole(roles, x, AUTHOR) && HasRole(roles, y, APPROVER)) <==>
      (exists x, y | x in c.operatorRoles && y in c.operatorRoles ::
         x.principal != y.principal && "CONFIGURATION_AUTHOR" in x.roles && "APPROVER" in y.roles)
  {
    hide RoleMap, UniqueBy, HasRole;
    var roles, bindings := RoleMap(c.operatorRoles), c.operatorRoles;
    if p, q :| p in roles && q in roles && p != q && HasRole(roles, p, AUTHOR) && HasRole(roles, q, APPROVER) {
      RoleMapMeans(bindings, p, AUTHOR);
      RoleMapMeans(bindings, q, APPROVER);
    }
    if x, y :| x in bindings && y in bindings && x.principal != y.principal
               && "CONFIGURATION_AUTHOR" in x.roles && "APPROVER" in y.roles {
      RoleMapMeans(bindings, x.principal, AUTHOR);
      RoleMapMeans(bindings, y.principal, APPROVER);
    }
  }

  lemma CoverageMeans(c: Config)
    requires UniqueBy(PrincipalKey, c.operatorRoles)
    ensures Covered(RoleMap(c.operatorRoles)) <==> CoverageRule(c)
  {
    hide RoleMap, UniqueBy, HasRole, SomeoneIs;
    PairMeans(c);
    SomeoneMeans(c, ACTIVATOR);
    SomeoneMeans(c, ROLLBACK_OPERATOR);
    SomeoneMeans(c, KILL_OPERATOR);
    SomeoneMeans(c, VIEWER);
  }

  lemma RolesMean(c: Config)
    ensures ValidRoles(c) <==>
      && (forall i | 0 <= i < |c.operatorRoles| :: BindingRule(c.operatorRoles[i]))
      && (forall i, j | 0 <= i < j < |c.operatorRoles| :: c.operatorRoles[i].principal != c.operatorRoles[j].principal)
      && CoverageRule(c)
  {
    hide ValidIdentifier, RoleMap, Covered, CoverageRule;
    forall i | 0 <= i < |c.operatorRoles|
      ensures ValidBinding(c.operatorRoles[i]) <==> BindingRule(c.operatorRoles[i]) {}
    hide ValidBinding, BindingRule;
    if UniqueBy(PrincipalKey, c.operatorRoles) { CoverageMeans(c); }
  }

  /** The valid configurations are exactly those whose header is in range, whose items follow their rules, whose
      references resolve, whose identities are distinct and whose roles cover every job. */
  lemma ValidExactly(c: Config)
    ensures ValidConfiguration(c) <==> HeaderRule(c) && ItemRules(c) && IdentityRules(c) && CoverageRule(c)
  {
    hide ValidStrategies, ValidVenues, ValidRiskLimits, ValidModels, ValidCaps, ValidSessions, ResolvedStrategies,
         ValidCalendar, ValidKills, ValidRoles, StrategyRule, VenueRule, AccountRule, ModelRule, CapRule, SessionRule,
         EventRule, KillRule, BindingRule, CoverageRule, ValidIdentifier, Hex64;
    StrategiesMean(c);
    VenuesMean(c);
    RiskLimitsMean(c);
    ModelsMean(c);
    CapsMean(c);
    SessionsMean(c);
    CalendarMeans(c);
    KillsMean(c);
    RolesMean(c);
  }
}
