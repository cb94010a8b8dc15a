/** The validator: loops that fill seen-sets and a failure list. It reports no failure exactly when the
    configuration is valid, although models are keyed and looked up by "model@version" strings. */
module Validation {
  import opened Text
  import opened DeploymentTypes
  import opened Configuration

  datatype Failure =
    | BadHeader | BadCounts | LiveMode
    | InvalidItem(key: string) | DuplicateItem(key: string) | UnknownReference(key: string)
    | RolesUncovered

  // ----- One more item ---------------------------------------------------------------------------

  lemma OneMoreKey<T, K>(key: T -> K, items: seq<T>, i: nat)
    requires i < |items|
    ensures Keys(key, items[..i + 1]) == Keys(key, items[..i]) + {key(items[i])}
    ensures UniqueBy(key, items[..i + 1]) <==> UniqueBy(key, items[..i]) && key(items[i]) !in Keys(key, items[..i])
  {
    var shorter, longer := items[..i], items[..i + 1];
    forall j | 0 <= j < i ensures longer[j] == shorter[j] {}
    assert longer[i] == items[i];
    forall k | k in Keys(key, shorter) ensures k in Keys(key, longer) {
      var j :| 0 <= j < |shorter| && key(shorter[j]) == k;
      assert key(longer[j]) == k;
    }
    if key(items[i]) in Keys(key, shorter) {
      var j :| 0 <= j < |shorter| && key(shorter[j]) == key(items[i]);
      assert key(longer[j]) == key(longer[i]);
    }
    if !UniqueBy(key, shorter) {
      var j, k :| 0 <= j < k < |shorter| && key(shorter[j]) == key(shorter[k]);
      assert key(longer[j]) == key(longer[k]);
    }
  }

  lemma OneMoreItem<T(!new)>(ok: T -> bool, items: seq<T>, i: nat)
    requires i < |items|
    ensures All(ok, items[..i + 1]) <==> All(ok, items[..i]) && ok(items[i])
  {
    var shorter, longer := items[..i], items[..i + 1];
    assert longer == shorter + [items[i]];
    if All(ok, longer) {
      assert longer[i] == items[i];
      forall j | 0 <= j < i ensures ok(shorter[j]) { assert longer[j] == shorter[j]; }
    }
  }

  // One step of a section loop: item i is checked, then its key.
  ghost predicate Checked<T(!new), K>(ok: T -> bool, key: T -> K, items: seq<T>, i: nat)
    requires i <= |items|
  {
    All(ok, items[..i]) && UniqueBy(key, items[..i])
  }

  lemma OneMoreChecked<T(!new), K>(ok: T -> bool, key: T -> K, items: seq<T>, i: nat)
    requires i < |items|
    ensures Keys(key, items[..i + 1]) == Keys(key, items[..i]) + {key(items[i])}
    ensures Checked(ok, key, items, i + 1) <==>
      Checked(ok, key, items, i) && ok(items[i]) && key(items[i]) !in Keys(key, items[..i])
  {
    hide Keys, UniqueBy, All;
    OneMoreKey(key, items, i);
    OneMoreItem(ok, items, i);
  }

  lemma NothingChecked<T(!new), K>(ok: T -> bool, key: T -> K, items: seq<T>)
    ensures Checked(ok, key, items, 0) && Keys(key, items[..0]) == {}
    ensures Checked(ok, key, items, |items|) <==> All(ok, items) && UniqueBy(key, items)
    ensures Keys(key, items[..|items|]) == Keys(key, items)
  {
    assert items[..|items|] == items;
  }

  // ----- Lists of identifiers -----------------------------------------------------------------------

  method HasUniqueIdentifiers(values: seq<string>) returns (ok: bool)
    ensures ok <==> UniqueIdentifiers(values)
  {
    hide Checked, Keys, UniqueBy, ValidIdentifier;
    var seen := {};
    NothingChecked(ValidIdentifier, Itself, values);
    for i := 0 to |values|
      invariant seen == Keys(Itself, values[..i]) && Checked(ValidIdentifier, Itself, values, i)
    {
      OneMoreChecked(ValidIdentifier, Itself, values, i);
      if !ValidIdentifier(values[i]) || values[i] in seen {
        NotUnique(values, i);
        return false;
      }
      seen := seen + {values[i]};
    }
    ok := true;
  }

  lemma NotUnique(values: seq<string>, i: nat)
    requires i < |values| && !Checked(ValidIdentifier, Itself, values, i + 1)
    ensures !UniqueIdentifiers(values)
  {
    hide ValidIdentifier;
    var front := values[..i + 1];
    if UniqueIdentifiers(values) {
      forall j | 0 <= j < |front| ensures ValidIdentifier(front[j]) { assert front[j] == values[j]; }
      forall j, k | 0 <= j < k < |front| ensures Itself(front[j]) != Itself(front[k]) {
        assert Itself(values[j]) != Itself(values[k]);
      }
    }
  }

  // Every value is a key already seen.
  method AllKnown(values: seq<string>, known: set<string>) returns (ok: bool)
    ensures ok <==> Keys(Itself, values) <= known
  {
    ok := true;
    for i := 0 to |values|
      invariant ok <==> Keys(Itself, values[..i]) <= known
    {
      OneMoreKey(Itself, values, i);
      ok := ok && values[i] in known;
    }
    assert values[..|values|] == values;
  }

  // ----- Sections without references -------------------------------------------------------------------

  method CheckStrategies(c: Config) returns (failures: seq<Failure>, seen: set<string>)
    ensures seen == Keys(StrategyKey, c.strategies) && (failures == [] <==> ValidStrategies(c))
  {
    hide Checked, Keys, UniqueBy, All, ValidIdentifier, UniqueIdentifiers;
    failures, seen := [], {};
    NothingChecked(ValidStrategy, StrategyKey, c.strategies);
    for i := 0 to |c.strategies|
      invariant seen == Keys(StrategyKey, c.strategies[..i])
      invariant failures == [] <==> Checked(ValidStrategy, StrategyKey, c.strategies, i)
    {
      OneMoreChecked(ValidStrategy, StrategyKey, c.strategies, i);
      var s := c.strategies[i];
      var models := HasUniqueIdentifiers(s.allowedModelIDs);
      var sessions := HasUniqueIdentifiers(s.tradingSessionIDs);
      var valid := ValidIdentifier(s.strategyID) && models && sessions;
      if s.enabled {
        valid := valid && s.maximumOrderQuantity > 0 && s.maximumPositionQuantity > 0
                 && |s.allowedModelIDs| > 0 && |s.tradingSessionIDs| > 0;
      }
      if !valid { failures := failures + [InvalidItem(s.strategyID)]; }
      if s.strategyID in seen { failures := failures + [DuplicateItem(s.strategyID)]; }
      seen := seen + {s.strategyID};
    }
  }

  method CheckVenues(c: Config) returns (failures: seq<Failure>, seen: set<string>)
    ensures seen == Keys(VenueKey, c.venues) && (failures == [] <==> ValidVenues(c))
  {
    hide Checked, Keys, UniqueBy, All, ValidIdentifier;
    failures, seen := [], {};
    NothingChecked(ValidVenue, VenueKey, c.venues);
    for i := 0 to |c.venues|
      invariant seen == Keys(VenueKey, c.venues[..i])
      invariant failures == [] <==> Checked(ValidVenue, VenueKey, c.venues, i)
    {
      OneMoreChecked(ValidVenue, VenueKey, c.venues, i);
      var v := c.venues[i];
      if v.mode == LIVE { failures := failures + [LiveMode]; }
      if !ValidVenue(v) { failures := failures + [InvalidItem(v.venueID)]; }
      if v.venueID in seen { failures := failures + [DuplicateItem(v.venueID)]; }
      seen := seen + {v.venueID};
    }
  }

  method CheckSymbols(symbols: seq<SymbolLimit>) returns (failures: seq<Failure>, seen: set<string>)
    ensures seen == Keys(InstrumentKey, symbols) && (failures == [] <==> ValidSymbols(symbols))
  {
    hide Checked, Keys, UniqueBy, ValidIdentifier;
    failures, seen := [], {};
    NothingChecked(ValidSymbol, InstrumentKey, symbols);
    for i := 0 to |symbols|
      invariant seen == Keys(InstrumentKey, symbols[..i])
      invariant failures == [] <==> Checked(ValidSymbol, InstrumentKey, symbols, i)
    {
      OneMoreChecked(ValidSymbol, InstrumentKey, symbols, i);
      var s := symbols[i];
      if !ValidSymbol(s) { failures := failures + [InvalidItem(s.instrumentID)]; }
      if s.instrumentID in seen { failures := failures + [DuplicateItem(s.instrumentID)]; }
      seen := seen + {s.instrumentID};
    }
  }

  lemma OneMoreInstrument(limits: seq<RiskLimits>, i: nat)
    requires i < |limits|
    ensures Instruments(limits[..i + 1]) == Instruments(limits[..i]) + Keys(InstrumentKey, limits[i].symbolLimits)
  {
    var shorter, longer := limits[..i], limits[..i + 1];
    forall id | id in Instruments(shorter) ensures id in Instruments(longer) {
      var j, k :| 0 <= j < |shorter| && 0 <= k < |shorter[j].symbolLimits|
        && shorter[j].symbolLimits[k].instrumentID == id;
      assert longer[j] == shorter[j];
    }
    forall id | id in Keys(InstrumentKey, limits[i].symbolLimits) ensures id in Instruments(longer) {
      var k :| 0 <= k < |limits[i].symbolLimits| && InstrumentKey(limits[i].symbolLimits[k]) == id;
      assert longer[i] == limits[i] && longer[i].symbolLimits[k].instrumentID == id;
    }
    forall id | id in Instruments(longer)
      ensures id in Instruments(shorter) + Keys(InstrumentKey, limits[i].symbolLimits) {
      var j, k :| 0 <= j < |longer| && 0 <= k < |longer[j].symbolLimits|
        && longer[j].symbolLimits[k].instrumentID == id;
      if j < i { assert shorter[j] == longer[j]; } else { assert InstrumentKey(limits[i].symbolLimits[k]) == id; }
    }
  }

  method CheckRiskLimits(c: Config) returns (failures: seq<Failure>, accounts: set<string>, instruments: set<string>)
    ensures accounts == Keys(AccountKey, c.riskLimits) && instruments == Instruments(c.riskLimits)
    ensures failures == [] <==> ValidRiskLimits(c)
  {
    hide Checked, Keys, UniqueBy, All, Instruments, ValidLimits, ValidSymbols;
    failures, accounts, instruments := [], {}, {};
    NothingChecked(ValidAccount, AccountKey, c.riskLimits);
    NoInstruments(c.riskLimits);
    for i := 0 to |c.riskLimits|
      invariant accounts == Keys(AccountKey, c.riskLimits[..i]) && instruments == Instruments(c.riskLimits[..i])
      invariant failures == [] <==> Checked(ValidAccount, AccountKey, c.riskLimits, i)
    {
      OneMoreChecked(ValidAccount, AccountKey, c.riskLimits, i);
      OneMoreInstrument(c.riskLimits, i);
      var r := c.riskLimits[i];
      if !ValidLimits(r) { failures := failures + [InvalidItem(r.accountID)]; }
      if r.accountID in accounts { failures := failures + [DuplicateItem(r.accountID)]; }
      accounts := accounts + {r.accountID};
      var more, symbols := CheckSymbols(r.symbolLimits);
      failures, instruments := failures + more, instruments + symbols;
    }
  }

  lemma NoInstruments(limits: seq<RiskLimits>)
    ensures Instruments(limits[..0]) == {} && Instruments(limits[..|limits|]) == Instruments(limits)
  {
    assert limits[..|limits|] == limits;
  }

  method CheckCalendar(c: Config) returns (failures: seq<Failure>)
    ensures failures == [] <==> ValidCalendar(c)
  {
    hide Checked, Keys, UniqueBy, All, ValidIdentifier;
    var seen := {};
    failures := [];
    NothingChecked(ValidEvent, EventKey, c.eventCalendar);
    for i := 0 to |c.eventCalendar|
      invariant seen == Keys(EventKey, c.eventCalendar[..i])
      invariant failures == [] <==> Checked(ValidEvent, EventKey, c.eventCalendar, i)
    {
      OneMoreChecked(ValidEvent, EventKey, c.eventCalendar, i);
      var e := c.eventCalendar[i];
      if !ValidEvent(e) { failures := failures + [InvalidItem(e.eventID)]; }
      if e.eventID in seen { failures := failures + [DuplicateItem(e.eventID)]; }
      seen := seen + {e.eventID};
    }
  }

  // ----- Models are keyed by "model@version" -----------------------------------------------------------

  function JoinedModelKey(m: Model): string { m.modelID + "@" + m.semanticVersion }

  function JoinedCapKey(p: EnsembleCap): string { p.ensembleID + "@" + p.modelID }

  predicate HasPrefix(s: string, prefix: string) { prefix <= s }

  lemma NoAt(id: string)
    requires ValidIdentifier(id)
    ensures '@' !in id
  {
  }

  /** The "@" separator makes joined keys unambiguous. */
  lemma JoinedKeyIsExact(a: string, x: string, b: string, y: string)
    requires ValidIdentifier(a) && ValidIdentifier(b)
    ensures a + "@" + x == b + "@" + y <==> a == b && x == y
    ensures HasPrefix(b + "@" + y, a + "@") <==> a == b
  {
    hide ValidIdentifier;
    NoAt(a);
    NoAt(b);
    JoinIsExact('@', a, x, b, y);
  }

  ghost predicate IdentifiedModels(models: seq<Model>) {
    forall i | 0 <= i < |models| :: ValidIdentifier(models[i].modelID)
  }

  lemma JoinedModelKeysAreUnique(models: seq<Model>)
    requires IdentifiedModels(models)
    ensures UniqueBy(JoinedModelKey, models) <==> UniqueBy(ModelKey, models)
  {
    hide ValidIdentifier;
    forall i, j | 0 <= i < j < |models|
      ensures JoinedModelKey(models[i]) == JoinedModelKey(models[j]) <==> ModelKey(models[i]) == ModelKey(models[j]) {
      JoinedKeyIsExact(models[i].modelID, models[i].semanticVersion, models[j].modelID, models[j].semanticVersion);
    }
  }

  lemma JoinedCapKeysAreUnique(modelIDs: set<string>, caps: seq<EnsembleCap>)
    requires All(p => ValidCap(modelIDs, p), caps)
    ensures UniqueBy(JoinedCapKey, caps) <==> UniqueBy(CapKey, caps)
  {
    hide ValidIdentifier;
    forall i, j | 0 <= i < j < |caps|
      ensures JoinedCapKey(caps[i]) == JoinedCapKey(caps[j]) <==> CapKey(caps[i]) == CapKey(caps[j]) {
      assert ValidCap(modelIDs, caps[i]) && ValidCap(modelIDs, caps[j]);
      JoinedKeyIsExact(caps[i].ensembleID, caps[i].modelID, caps[j].ensembleID, caps[j].modelID);
    }
  }

  /** The prefix lookup finds a model exactly when the configuration has one with that identifier. */
  lemma PrefixLookupIsExact(models: seq<Model>, id: string)
    requires IdentifiedModels(models) && ValidIdentifier(id)
    ensures (exists key | key in Keys(JoinedModelKey, models) :: HasPrefix(key, id + "@")) <==>
      id in Keys(ModelIDOf, models)
  {
    hide ValidIdentifier, HasPrefix;
    forall i | 0 <= i < |models| ensures HasPrefix(JoinedModelKey(models[i]), id + "@") <==> models[i].modelID == id {
      JoinedKeyIsExact(id, "", models[i].modelID, models[i].semanticVersion);
    }
    if id in Keys(ModelIDOf, models) {
      var i :| 0 <= i < |models| && ModelIDOf(models[i]) == id;
      assert JoinedModelKey(models[i]) in Keys(JoinedModelKey, models);
    }
  }

  // Whether some model key starts with the identifier and the separator, in any order of the key set.
  method FindModel(keys: set<string>, id: string) returns (found: bool)
    ensures found <==> exists key | key in keys :: HasPrefix(key, id + "@")
  {
    var rest := keys;
    while rest != {}
      invariant rest <= keys && forall key | key in keys && key !in rest :: !HasPrefix(key, id + "@")
      decreases |rest|
    {
      var key :| key in rest;
      if HasPrefix(key, id + "@") { return true; }
      rest := rest - {key};
    }
    found := false;
  }

  method CheckModels(c: Config, strategyIDs: set<string>) returns (failures: seq<Failure>, seen: set<string>)
    requires strategyIDs == Keys(StrategyKey, c.strategies)
    ensures seen == Keys(JoinedModelKey, c.models)
    ensures failures == [] <==> ValidModels(c)
  {
    hide Checked, Keys, UniqueBy, All, ValidIdentifier, ValidSemantic, UniqueIdentifiers;
    failures, seen := [], {};
    ghost var ok := m => ValidModel(strategyIDs, m);
    NothingChecked(ok, JoinedModelKey, c.models);
    for i := 0 to |c.models|
      invariant seen == Keys(JoinedModelKey, c.models[..i])
      invariant failures == [] <==> Checked(ok, JoinedModelKey, c.models, i)
    {
      OneMoreChecked(ok, JoinedModelKey, c.models, i);
      var m := c.models[i];
      var key := m.modelID + "@" + m.semanticVersion;
      var unique := HasUniqueIdentifiers(m.allowedStrategyIDs);
      var valid := ValidIdentifier(m.modelID) && ValidSemantic(m.semanticVersion)
        && m.maximumOODScorePPM <= PARTS_PER_MILLION && unique;
      if m.eligible { valid := valid && |m.allowedStrategyIDs| > 0; }
      var known := AllKnown(m.allowedStrategyIDs, strategyIDs);
      valid := valid && known;
      if !valid { failures := failures + [InvalidItem(key)]; }
      if key in seen { failures := failures + [DuplicateItem(key)]; }
      seen := seen + {key};
    }
    ModelKeysAgree(c, strategyIDs);
  }

  lemma ModelKeysAgree(c: Config, strategyIDs: set<string>)
    requires strategyIDs == Keys(StrategyKey, c.strategies)
    ensures ValidModels(c) <==> All(m => ValidModel(strategyIDs, m), c.models) && UniqueBy(JoinedModelKey, c.models)
    ensures ValidModels(c) ==> IdentifiedModels(c.models)
  {
    hide ValidIdentifier, ValidSemantic, UniqueIdentifiers, UniqueBy, Keys;
    var ok := m => ValidModel(strategyIDs, m);
    assert ValidModels(c) <==> All(ok, c.models) && UniqueBy(ModelKey, c.models);
    if All(ok, c.models) {
      forall i | 0 <= i < |c.models| ensures ValidIdentifier(c.models[i].modelID) { assert ok(c.models[i]); }
      JoinedModelKeysAreUnique(c.models);
    }
  }

  // ----- Sections with references ----------------------------------------------------------------------

  method CheckCaps(c: Config, modelKeys: set<string>) returns (failures: seq<Failure>)
    requires modelKeys == Keys(JoinedModelKey, c.models)
    ensures IdentifiedModels(c.models) ==> (failures == [] <==> ValidCaps(c))
  {
    hide Checked, Keys, UniqueBy, All, ValidIdentifier, HasPrefix, IdentifiedModels;
    ghost var modelIDs := Keys(ModelIDOf, c.models);
    ghost var ok := p => ValidCap(modelIDs, p);
    var seen := {};
    failures := [];
    NothingChecked(ok, JoinedCapKey, c.ensembleCaps);
    for i := 0 to |c.ensembleCaps|
      invariant seen == Keys(JoinedCapKey, c.ensembleCaps[..i])
      invariant IdentifiedModels(c.models) ==> (failures == [] <==> Checked(ok, JoinedCapKey, c.ensembleCaps, i))
    {
      OneMoreChecked(ok, JoinedCapKey, c.ensembleCaps, i);
      var p := c.ensembleCaps[i];
      var key := p.ensembleID + "@" + p.modelID;
      var present := FindModel(modelKeys, p.modelID);
      if IdentifiedModels(c.models) && ValidIdentifier(p.modelID) { PrefixLookupIsExact(c.models, p.modelID); }
      if !(ValidIdentifier(p.ensembleID) && ValidIdentifier(p.modelID) && 0 < p.maximumWeightPPM <= PARTS_PER_MILLION
           && present) {
        failures := failures + [InvalidItem(key)];
      }
      if key in seen { failures := failures + [DuplicateItem(key)]; }
      seen := seen + {key};
    }
    if All(ok, c.ensembleCaps) { JoinedCapKeysAreUnique(modelIDs, c.ensembleCaps); }
  }

  method CheckSessions(c: Config, venueIDs: set<string>) returns (failures: seq<Failure>, seen: set<string>)
    requires venueIDs == Keys(VenueKey, c.venues)
    ensures seen == Keys(SessionKey, c.tradingSessions) && (failures == [] <==> ValidSessions(c))
  {
    hide Checked, Keys, UniqueBy, All, ValidIdentifier;
    ghost var ok := s => ValidSession(venueIDs, s);
    failures, seen := [], {};
    NothingChecked(ok, SessionKey, c.tradingSessions);
    for i := 0 to |c.tradingSessions|
      invariant seen == Keys(SessionKey, c.tradingSessions[..i])
      invariant failures == [] <==> Checked(ok, SessionKey, c.tradingSessions, i)
    {
      OneMoreChecked(ok, SessionKey, c.tradingSessions, i);
      var s := c.tradingSessions[i];
      if !ValidSession(venueIDs, s) { failures := failures + [InvalidItem(s.sessionID)]; }
      if s.sessionID in seen { failures := failures + [DuplicateItem(s.sessionID)]; }
      seen := seen + {s.sessionID};
    }
  }

  ghost predicate IdentifiedReferences(s: Strategy) {
    forall i | 0 <= i < |s.allowedModelIDs| :: ValidIdentifier(s.allowedModelIDs[i])
  }

  method CheckReferences(models: seq<Model>, modelKeys: set<string>, sessionIDs: set<string>,
                         s: Strategy) returns (failures: seq<Failure>)
    requires modelKeys == Keys(JoinedModelKey, models)
    ensures IdentifiedModels(models) && IdentifiedReferences(s) ==>
      (failures == [] <==> ResolvedStrategy(sessionIDs, Keys(ModelIDOf, models), s))
  {
    hide ValidIdentifier, HasPrefix, IdentifiedModels;
    ghost var modelIDs := Keys(ModelIDOf, models);
    failures := [];
    for i := 0 to |s.tradingSessionIDs|
      invariant failures == [] <==> Keys(Itself, s.tradingSessionIDs[..i]) <= sessionIDs
    {
      OneMoreKey(Itself, s.tradingSessionIDs, i);
      if s.tradingSessionIDs[i] !in sessionIDs { failures := failures + [UnknownReference(s.tradingSessionIDs[i])]; }
    }
    assert s.tradingSessionIDs[..|s.tradingSessionIDs|] == s.tradingSessionIDs;
    for i := 0 to |s.allowedModelIDs|
      invariant IdentifiedModels(models) && IdentifiedReferences(s) ==>
        (failures == [] <==>
         Keys(Itself, s.tradingSessionIDs) <= sessionIDs && Keys(Itself, s.allowedModelIDs[..i]) <= modelIDs)
    {
      OneMoreKey(Itself, s.allowedModelIDs, i);
      var found := FindModel(modelKeys, s.allowedModelIDs[i]);
      if IdentifiedModels(models) && IdentifiedReferences(s) { PrefixLookupIsExact(models, s.allowedModelIDs[i]); }
      if !found { failures := failures + [UnknownReference(s.allowedModelIDs[i])]; }
    }
    assert s.allowedModelIDs[..|s.allowedModelIDs|] == s.allowedModelIDs;
  }

  method CheckStrategyReferences(c: Config, modelKeys: set<string>,
                                 sessionIDs: set<string>) returns (failures: seq<Failure>)
    requires modelKeys == Keys(JoinedModelKey, c.models) && sessionIDs == Keys(SessionKey, c.tradingSessions)
    ensures IdentifiedModels(c.models) && ValidStrategies(c) ==> (failures == [] <==> ResolvedStrategies(c))
  {
    hide Keys, UniqueBy, All, IdentifiedModels, IdentifiedReferences, ValidStrategy, ResolvedStrategy;
    ghost var modelIDs := Keys(ModelIDOf, c.models);
    ghost var ok := s => ResolvedStrategy(sessionIDs, modelIDs, s);
    failures := [];
    NothingChecked(ok, StrategyKey, c.strategies);
    NoneResolved(ok, c.strategies);
    for i := 0 to |c.strategies|
      invariant IdentifiedModels(c.models) && ValidStrategies(c) ==> (failures == [] <==> All(ok, c.strategies[..i]))
    {
      OneMoreItem(ok, c.strategies, i);
      if ValidStrategies(c) { StrategyIsIdentified(c, i); }
      var more := CheckReferences(c.models, modelKeys, sessionIDs, c.strategies[i]);
      failures := failures + more;
    }
  }

  lemma NoneResolved(ok: Strategy -> bool, items: seq<Strategy>)
    ensures All(ok, items[..0]) && (All(ok, items[..|items|]) <==> All(ok, items))
  {
    assert items[..|items|] == items;
  }

  lemma StrategyIsIdentified(c: Config, i: nat)
    requires ValidStrategies(c) && i < |c.strategies|
    ensures IdentifiedReferences(c.strategies[i])
  {
    hide ValidIdentifier, UniqueBy;
    assert ValidStrategy(c.strategies[i]);
  }

  method CheckKills(c: Config, targets: Targets) returns (failures: seq<Failure>)
    requires targets == TargetsOf(c)
    ensures failures == [] <==> ValidKills(c)
  {
    hide Checked, Keys, UniqueBy, All, ValidIdentifier, TargetsOf;
    ghost var ok := k => ValidKill(targets, k);
    var seen := {};
    failures := [];
    NothingChecked(ok, KillKey, c.killSwitches);
    for i := 0 to |c.killSwitches|
      invariant seen == Keys(KillKey, c.killSwitches[..i])
      invariant failures == [] <==> Checked(ok, KillKey, c.killSwitches, i)
    {
      OneMoreChecked(ok, KillKey, c.killSwitches, i);
      var k := c.killSwitches[i];
      var targetExists := true;
      if k.scope == ACCOUNT_SCOPE { targetExists := k.targetID in targets.accounts; }
      else if k.scope == VENUE_SCOPE { targetExists := k.targetID in targets.venues; }
      else if k.scope == STRATEGY_SCOPE { targetExists := k.targetID in targets.strategies; }
      else if k.scope == SYMBOL_SCOPE { targetExists := k.targetID in targets.instruments; }
      if !(ValidIdentifier(k.killID) && ValidKillTarget(k.scope, k.targetID) && ValidIdentifier(k.reasonCode)
           && targetExists) {
        failures := failures + [InvalidItem(k.killID)];
      }
      if k.killID in seen { failures := failures + [DuplicateItem(k.killID)]; }
      seen := seen + {k.killID};
    }
  }

  // ----- Roles ------------------------------------------------------------------------------------------

  method CheckRoles(b: RoleBinding) returns (ok: bool, roles: set<string>)
    ensures roles == Keys(Itself, b.roles) && (ok <==> ValidBinding(b))
  {
    hide Checked, Keys, UniqueBy, ValidIdentifier, ValidRole;
    ok := ValidIdentifier(b.principal) && 0 < |b.roles| <= 8;
    ghost var shaped := ok;
    roles := {};
    NothingChecked(ValidRole, Itself, b.roles);
    for i := 0 to |b.roles|
      invariant roles == Keys(Itself, b.roles[..i])
      invariant ok <==> shaped && Checked(ValidRole, Itself, b.roles, i)
    {
      OneMoreChecked(ValidRole, Itself, b.roles, i);
      ok := ok && ValidRole(b.roles[i]);
      ok := ok && b.roles[i] !in roles;
      roles := roles + {b.roles[i]};
    }
  }

  method CheckBindings(c: Config) returns (failures: seq<Failure>, roleSets: map<string, set<string>>)
    ensures roleSets == RoleMap(c.operatorRoles)
    ensures failures == [] <==> All(ValidBinding, c.operatorRoles) && UniqueBy(PrincipalKey, c.operatorRoles)
  {
    hide Checked, Keys, UniqueBy, All, ValidBinding;
    failures, roleSets := [], map[];
    NothingChecked(ValidBinding, PrincipalKey, c.operatorRoles);
    for i := 0 to |c.operatorRoles|
      invariant roleSets == RoleMap(c.operatorRoles[..i]) && roleSets.Keys == Keys(PrincipalKey, c.operatorRoles[..i])
      invariant failures == [] <==> Checked(ValidBinding, PrincipalKey, c.operatorRoles, i)
    {
      OneMoreChecked(ValidBinding, PrincipalKey, c.operatorRoles, i);
      assert c.operatorRoles[..i + 1][..i] == c.operatorRoles[..i];
      var b := c.operatorRoles[i];
      var valid, roles := CheckRoles(b);
      if !valid || b.principal in roleSets { failures := failures + [InvalidItem(b.principal)]; }
      roleSets := roleSets[b.principal := roles];
    }
    assert c.operatorRoles[..|c.operatorRoles|] == c.operatorRoles;
  }

  // Some of the principals has the role.
  ghost predicate Held(roles: map<string, set<string>>, who: set<string>, role: string) {
    exists p | p in who :: HasRole(roles, p, role)
  }

  lemma OneMoreHolder(roles: map<string, set<string>>, who: set<string>, p: string, role: string)
    ensures Held(roles, who + {p}, role) <==> Held(roles, who, role) || HasRole(roles, p, role)
  {
    hide HasRole;
    if HasRole(roles, p, role) { assert p in who + {p}; }
    if Held(roles, who, role) {
      var q :| q in who && HasRole(roles, q, role);
      assert q in who + {p};
    }
  }

  // The list holds exactly those of the principals that have the role.
  ghost predicate Lists(roles: map<string, set<string>>, who: set<string>, role: string, list: seq<string>) {
    forall p :: p in list <==> p in who && HasRole(roles, p, role)
  }

  lemma OneMoreListed(roles: map<string, set<string>>, who: set<string>, p: string, role: string, list: seq<string>)
    requires Lists(roles, who, role, list)
    ensures Lists(roles, who + {p}, role, if HasRole(roles, p, role) then list + [p] else list)
  {
    hide HasRole;
  }

  lemma NobodyListed(roles: map<string, set<string>>, role: string)
    ensures Lists(roles, {}, role, [])
  {
  }

  method HasOperationalRoleCoverage(roles: map<string, set<string>>) returns (covered: bool)
    ensures covered <==> Covered(roles)
  {
    hide HasRole, Held, Lists, Covered;
    var authors, approvers: seq<string> := [], [];
    var activator, rollback, kill, viewer := false, false, false, false;
    var rest := roles.Keys;
    ghost var done: set<string> := {};
    NobodyHolds(roles);
    NobodyListed(roles, AUTHOR);
    NobodyListed(roles, APPROVER);
    while rest != {}
      invariant done + rest == roles.Keys && done !! rest
      invariant Lists(roles, done, AUTHOR, authors) && Lists(roles, done, APPROVER, approvers)
      invariant activator == Held(roles, done, ACTIVATOR) && rollback == Held(roles, done, ROLLBACK_OPERATOR)
      invariant kill == Held(roles, done, KILL_OPERATOR) && viewer == Held(roles, done, VIEWER)
      decreases |rest|
    {
      var p :| p in rest;
      OneMoreListed(roles, done, p, AUTHOR, authors);
      OneMoreListed(roles, done, p, APPROVER, approvers);
      OneMoreHolder(roles, done, p, ACTIVATOR);
      OneMoreHolder(roles, done, p, ROLLBACK_OPERATOR);
      OneMoreHolder(roles, done, p, KILL_OPERATOR);
      OneMoreHolder(roles, done, p, VIEWER);
      authors := if HasRole(roles, p, AUTHOR) then authors + [p] else authors;
      approvers := if HasRole(roles, p, APPROVER) then approvers + [p] else approvers;
      activator := activator || HasRole(roles, p, ACTIVATOR);
      rollback := rollback || HasRole(roles, p, ROLLBACK_OPERATOR);
      kill := kill || HasRole(roles, p, KILL_OPERATOR);
      viewer := viewer || HasRole(roles, p, VIEWER);
      rest, done := rest - {p}, done + {p};
    }
    assert done == roles.Keys;
    var pair := HasDistinctPair(authors, approvers);
    CoverageIs(roles, authors, approvers, pair);
    covered := pair && activator && rollback && kill && viewer;
  }

  lemma NobodyHolds(roles: map<string, set<string>>)
    ensures forall role :: !Held(roles, {}, role)
  {
  }

  lemma CoverageIs(roles: map<string, set<string>>, authors: seq<string>, approvers: seq<string>, pair: bool)
    requires Lists(roles, roles.Keys, AUTHOR, authors) && Lists(roles, roles.Keys, APPROVER, approvers)
    requires pair <==> exists a, b | a in authors && b in approvers :: a != b
    ensures Covered(roles) <==>
      && pair && Held(roles, roles.Keys, ACTIVATOR) && Held(roles, roles.Keys, ROLLBACK_OPERATOR)
      && Held(roles, roles.Keys, KILL_OPERATOR) && Held(roles, roles.Keys, VIEWER)
  {
    hide HasRole;
    if pair {
      var a, b :| a in authors && b in approvers && a != b;
      assert a in roles && b in roles && HasRole(roles, a, AUTHOR) && HasRole(roles, b, APPROVER);
    }
  }

  method HasDistinctPair(authors: seq<string>, approvers: seq<string>) returns (found: bool)
    ensures found <==> exists a, b | a in authors && b in approvers :: a != b
  {
    found := false;
    for i := 0 to |authors|
      invariant found <==> exists x, y | 0 <= x < i && 0 <= y < |approvers| :: authors[x] != approvers[y]
    {
      ghost var earlier := found;
      for j := 0 to |approvers|
        invariant found <==> earlier || exists y | 0 <= y < j :: authors[i] != approvers[y]
      {
        found := found || authors[i] != approvers[j];
      }
    }
    if found {
      ghost var x, y :| 0 <= x < |authors| && 0 <= y < |approvers| && authors[x] != approvers[y];
      assert authors[x] in authors && approvers[y] in approvers;
    }
  }

  // ----- The whole validator --------------------------------------------------------------------------------

  /** No failure is reported exactly for valid configurations. */
  method Validate(c: Config) returns (failures: seq<Failure>)
    ensures failures == [] <==> ValidConfiguration(c)
  {
    hide ValidHeader, ValidCounts, ValidStrategies, ValidVenues, ValidRiskLimits, ValidModels, ValidCaps, ValidSessions,
         ResolvedStrategies, ValidCalendar, ValidKills, Covered, IdentifiedModels, All, UniqueBy, Keys, Instruments;
    var head := (if ValidHeader(c) then [] else [BadHeader]) + (if ValidCounts(c) then [] else [BadCounts]);
    var strategies, strategyIDs := CheckStrategies(c);
    var venues, venueIDs := CheckVenues(c);
    var limits, accounts, instruments := CheckRiskLimits(c);
    var models, modelKeys := CheckModels(c, strategyIDs);
    ModelKeysAgree(c, strategyIDs);
    var caps := CheckCaps(c, modelKeys);
    var sessions, sessionIDs := CheckSessions(c, venueIDs);
    var references := CheckStrategyReferences(c, modelKeys, sessionIDs);
    var events := CheckCalendar(c);
    var kills := CheckKills(c, Targets(accounts, venueIDs, strategyIDs, instruments));
    var bindings, roleSets := CheckBindings(c);
    var covered := HasOperationalRoleCoverage(roleSets);
    var roles := bindings + if covered then [] else [RolesUncovered];
    failures := head + strategies + venues + limits + models + caps + sessions + references + events + kills + roles;
  }
}
