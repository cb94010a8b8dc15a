/** What finalizing does to a configuration: it succeeds exactly for the valid ones, in whatever order their lists are
    given, and keeps all their contents, in one order. */
module Finalizing {
  import opened Text
  import opened Sorting
  import opened Configuration
  import opened ConfigurationMeaning
  import opened Order = Canonical

  // ----- Reordered lists -------------------------------------------------------------------------------------------

  lemma TwiceCounts<T>(s: seq<T>, i: nat, j: nat)
    requires i < j < |s| && s[i] == s[j]
    ensures multiset(s)[s[i]] >= 2
  {
    assert s == s[..j] + [s[j]] + s[j + 1..];
    assert s[i] in multiset(s[..j]) by { assert s[..j][i] == s[i]; }
  }

  lemma {:induction false} CountsTwice<T>(s: seq<T>, x: T) returns (i: nat, j: nat)
    requires multiset(s)[x] >= 2
    ensures i < j < |s| && s[i] == s[j] == x
  {
    assert s == [s[0]] + s[1..];
    if s[0] == x {
      assert x in multiset(s[1..]);
      i := 0;
      j :| 1 <= j < |s| && s[j] == x;
    } else {
      i, j := CountsTwice(s[1..], x);
      i, j := i + 1, j + 1;
    }
  }

  // Two places of a list are two places of the other.
  lemma TwoPlaces<T>(a: seq<T>, b: seq<T>, i: nat, j: nat) returns (k: nat, l: nat)
    requires Reordering(a, b) && i < j < |b|
    ensures k < |a| && l < |a| && k != l && a[k] == b[i] && a[l] == b[j]
  {
    if b[i] == b[j] {
      TwiceCounts(b, i, j);
      k, l := CountsTwice(a, b[i]);
    } else {
      MembersStay(b, a, b[i]);
      MembersStay(b, a, b[j]);
      k :| 0 <= k < |a| && a[k] == b[i];
      l :| 0 <= l < |a| && a[l] == b[j];
    }
  }

  lemma UniqueIgnoresOrder<T, K>(key: T -> K, a: seq<T>, b: seq<T>)
    requires Reordering(a, b) && UniqueBy(key, a)
    ensures UniqueBy(key, b)
  {
    hide Reordering;
    forall i, j | 0 <= i < j < |b| ensures key(b[i]) != key(b[j]) {
      var k, l := TwoPlaces(a, b, i, j);
      assert key(a[k]) != key(a[l]);
    }
  }

  lemma MembersAgree<T>(a: seq<T>, b: seq<T>, x: T)
    requires Reordering(a, b)
    ensures x in a <==> x in b
  {
    if x in a { MembersStay(a, b, x); }
    if x in b { MembersStay(b, a, x); }
  }

  lemma ListIgnoresOrder<T(!new), K>(ok: T -> bool, key: T -> K, a: seq<T>, b: seq<T>)
    requires Reordering(a, b)
    ensures All(ok, a) <==> All(ok, b)
    ensures UniqueBy(key, a) <==> UniqueBy(key, b)
    ensures |a| == |b|
  {
    hide Reordering, UniqueBy;
    ReorderingFacts(a, b);
    ReorderingIsSymmetric(a, b);
    if UniqueBy(key, a) { UniqueIgnoresOrder(key, a, b); }
    if UniqueBy(key, b) { UniqueIgnoresOrder(key, b, a); }
    AllStays(ok, a, b);
    AllStays(ok, b, a);
  }

  lemma AllStays<T(!new)>(ok: T -> bool, a: seq<T>, b: seq<T>)
    requires Reordering(a, b)
    ensures All(ok, a) ==> All(ok, b)
  {
    hide Reordering;
    if All(ok, a) {
      forall i | 0 <= i < |b| ensures ok(b[i]) {
        MembersAgree(a, b, b[i]);
        var j :| 0 <= j < |a| && a[j] == b[i];
      }
    }
  }

  lemma KeysStay<T, K>(key: T -> K, a: seq<T>, b: seq<T>)
    requires Reordering(a, b)
    ensures Keys(key, a) <= Keys(key, b)
  {
    hide Reordering;
    forall i | 0 <= i < |a| ensures key(a[i]) in Keys(key, b) {
      MembersStay(a, b, a[i]);
      var j :| 0 <= j < |b| && b[j] == a[i];
      assert key(b[j]) in Keys(key, b);
    }
  }

  lemma KeysIgnoreOrder<T, K>(key: T -> K, a: seq<T>, b: seq<T>)
    requires Reordering(a, b)
    ensures Keys(key, a) == Keys(key, b)
  {
    hide Reordering;
    KeysStay(key, a, b);
    ReorderingIsSymmetric(a, b);
    KeysStay(key, b, a);
  }

  // The same for lists whose items may be reordered inside: alike items have the same key and are as good.
  lemma AlikeListsAgree<T(!new), K>(alike: (T, T) -> bool, ok: T -> bool, also: T -> bool, key: T -> K, a: seq<T>,
                                    b: seq<T>)
    requires UpToOrder(alike, a, b)
    requires forall x, y | alike(x, y) :: key(x) == key(y) && (ok(x) <==> also(y))
    ensures All(ok, a) <==> All(also, b)
    ensures UniqueBy(key, a) <==> UniqueBy(key, b)
    ensures Keys(key, a) == Keys(key, b) && |a| == |b|
  {
    hide Reordering;
    var inside: seq<T> :| ItemsAlike(alike, a, inside) && Reordering(inside, b);
    assert forall i | 0 <= i < |a| :: key(a[i]) == key(inside[i]) && (ok(a[i]) <==> also(inside[i]));
    assert All(ok, a) <==> All(also, inside);
    assert UniqueBy(key, a) <==> UniqueBy(key, inside);
    assert Keys(key, a) == Keys(key, inside);
    hide All, UniqueBy, Keys;
    ListIgnoresOrder(also, key, inside, b);
    KeysIgnoreOrder(key, inside, b);
  }

  lemma AlikeMember<T(!new)>(alike: (T, T) -> bool, a: seq<T>, b: seq<T>, x: T) returns (y: T)
    requires UpToOrder(alike, a, b) && x in a
    ensures y in b && alike(x, y)
  {
    hide Reordering;
    var inside: seq<T> :| ItemsAlike(alike, a, inside) && Reordering(inside, b);
    var i :| 0 <= i < |a| && a[i] == x;
    y := inside[i];
    MembersAgree(inside, b, y);
  }

  lemma AlikeOrigin<T(!new)>(alike: (T, T) -> bool, a: seq<T>, b: seq<T>, y: T) returns (x: T)
    requires UpToOrder(alike, a, b) && y in b
    ensures x in a && alike(x, y)
  {
    hide Reordering;
    var inside: seq<T> :| ItemsAlike(alike, a, inside) && Reordering(inside, b);
    MembersAgree(inside, b, y);
    var i :| 0 <= i < |inside| && inside[i] == y;
    x := a[i];
  }

  // ----- Alike items are as valid ----------------------------------------------------------------------------

  lemma IdentifiersIgnoreOrder(a: seq<string>, b: seq<string>)
    requires Reordering(a, b)
    ensures UniqueIdentifiers(a) <==> UniqueIdentifiers(b)
    ensures Keys(Itself, a) == Keys(Itself, b) && (a == [] <==> b == [])
  {
    hide Reordering, ValidIdentifier, Keys;
    ListIgnoresOrder(ValidIdentifier, Itself, a, b);
    KeysIgnoreOrder(Itself, a, b);
  }

  lemma AlikeStrategiesAgree(sessionIDs: set<string>, modelIDs: set<string>, x: Strategy, y: Strategy)
    requires AlikeStrategies(x, y)
    ensures ValidStrategy(x) <==> ValidStrategy(y)
    ensures ResolvedStrategy(sessionIDs, modelIDs, x) <==> ResolvedStrategy(sessionIDs, modelIDs, y)
  {
    hide Reordering, ValidIdentifier, Keys, UniqueIdentifiers;
    IdentifiersIgnoreOrder(x.allowedModelIDs, y.allowedModelIDs);
    IdentifiersIgnoreOrder(x.tradingSessionIDs, y.tradingSessionIDs);
  }

  lemma AlikeModelsAgree(strategyIDs: set<string>, x: Model, y: Model)
    requires AlikeModels(x, y)
    ensures ValidModel(strategyIDs, x) <==> ValidModel(strategyIDs, y)
  {
    hide Reordering, ValidIdentifier, ValidSemantic, Keys, UniqueIdentifiers;
    IdentifiersIgnoreOrder(x.allowedStrategyIDs, y.allowedStrategyIDs);
  }

  lemma AlikeLimitsAgree(x: RiskLimits, y: RiskLimits)
    requires AlikeLimits(x, y)
    ensures ValidAccount(x) <==> ValidAccount(y)
  {
    hide Reordering, ValidIdentifier, ValidSymbol, UniqueBy;
    ListIgnoresOrder(ValidSymbol, InstrumentKey, x.symbolLimits, y.symbolLimits);
  }

  lemma AlikeBindingsAgree(x: RoleBinding, y: RoleBinding)
    requires AlikeBindings(x, y)
    ensures ValidBinding(x) <==> ValidBinding(y)
  {
    hide Reordering, ValidIdentifier, ValidRole, UniqueBy;
    ListIgnoresOrder(ValidRole, Itself, x.roles, y.roles);
  }

  // ----- Reordered configurations are as valid ---------------------------------------------------------------

  lemma StrategiesAgree(c: Config, d: Config)
    requires UpToOrder(AlikeStrategies, c.strategies, d.strategies)
    ensures ValidStrategies(c) <==> ValidStrategies(d)
    ensures Keys(StrategyKey, c.strategies) == Keys(StrategyKey, d.strategies) && |c.strategies| == |d.strategies|
  {
    hide UpToOrder, All, UniqueBy, Keys, ValidStrategy, Reordering;
    forall x, y | AlikeStrategies(x, y)
      ensures StrategyKey(x) == StrategyKey(y) && (ValidStrategy(x) <==> ValidStrategy(y)) {
      AlikeStrategiesAgree({}, {}, x, y);
    }
    AlikeListsAgree(AlikeStrategies, ValidStrategy, ValidStrategy, StrategyKey, c.strategies, d.strategies);
  }

  lemma ResolutionAgrees(c: Config, d: Config)
    requires UpToOrder(AlikeStrategies, c.strategies, d.strategies)
    requires Keys(SessionKey, c.tradingSessions) == Keys(SessionKey, d.tradingSessions)
    requires Keys(ModelIDOf, c.models) == Keys(ModelIDOf, d.models)
    ensures ResolvedStrategies(c) <==> ResolvedStrategies(d)
  {
    hide UpToOrder, All, UniqueBy, Keys, ResolvedStrategy, Reordering;
    var sessionIDs, modelIDs := Keys(SessionKey, c.tradingSessions), Keys(ModelIDOf, c.models);
    var ok := s => ResolvedStrategy(sessionIDs, modelIDs, s);
    forall x, y | AlikeStrategies(x, y) ensures StrategyKey(x) == StrategyKey(y) && (ok(x) <==> ok(y)) {
      AlikeStrategiesAgree(sessionIDs, modelIDs, x, y);
    }
    AlikeListsAgree(AlikeStrategies, ok, ok, StrategyKey, c.strategies, d.strategies);
    SameAll(s => ResolvedStrategy(sessionIDs, modelIDs, s), ok, c.strategies);
    SameAll(s => ResolvedStrategy(Keys(SessionKey, d.tradingSessions), Keys(ModelIDOf, d.models), s), ok, d.strategies);
  }

  lemma SameAll<T(!new)>(ok: T -> bool, also: T -> bool, items: seq<T>)
    requires forall x :: ok(x) <==> also(x)
    ensures All(ok, items) <==> All(also, items)
  {
  }

  lemma VenuesAgree(c: Config, d: Config)
    requires Reordering(c.venues, d.venues)
    ensures ValidVenues(c) <==> ValidVenues(d)
    ensures Keys(VenueKey, c.venues) == Keys(VenueKey, d.venues) && |c.venues| == |d.venues|
  {
    hide All, UniqueBy, Keys, ValidVenue, Reordering;
    ListIgnoresOrder(ValidVenue, VenueKey, c.venues, d.venues);
    KeysIgnoreOrder(VenueKey, c.venues, d.venues);
  }

  lemma RiskLimitsAgree(c: Config, d: Config)
    requires UpToOrder(AlikeLimits, c.riskLimits, d.riskLimits)
    ensures ValidRiskLimits(c) <==> ValidRiskLimits(d)
    ensures Keys(AccountKey, c.riskLimits) == Keys(AccountKey, d.riskLimits) && |c.riskLimits| == |d.riskLimits|
  {
    hide UpToOrder, All, UniqueBy, Keys, ValidAccount, Reordering;
    forall x, y | AlikeLimits(x, y) ensures AccountKey(x) == AccountKey(y) && (ValidAccount(x) <==> ValidAccount(y)) {
      AlikeLimitsAgree(x, y);
    }
    AlikeListsAgree(AlikeLimits, ValidAccount, ValidAccount, AccountKey, c.riskLimits, d.riskLimits);
  }

  lemma InstrumentsAgree(c: Config, d: Config, id: string)
    requires UpToOrder(AlikeLimits, c.riskLimits, d.riskLimits)
    ensures id in Instruments(c.riskLimits) <==> id in Instruments(d.riskLimits)
  {
    hide Reordering, UpToOrder, Instruments;
    InstrumentsMean(c, id);
    InstrumentsMean(d, id);
    if HasInstrument(c, id) {
      var r, s :| r in c.riskLimits && s in r.symbolLimits && s.instrumentID == id;
      var q := AlikeMember(AlikeLimits, c.riskLimits, d.riskLimits, r);
      MembersAgree(r.symbolLimits, q.symbolLimits, s);
    }
    if HasInstrument(d, id) {
      var r, s :| r in d.riskLimits && s in r.symbolLimits && s.instrumentID == id;
      var q := AlikeOrigin(AlikeLimits, c.riskLimits, d.riskLimits, r);
      MembersAgree(q.symbolLimits, r.symbolLimits, s);
    }
  }

  lemma ModelsListAgree(c: Config, d: Config)
    requires UpToOrder(AlikeModels, c.models, d.models)
      && Keys(StrategyKey, c.strategies) == Keys(StrategyKey, d.strategies)
    ensures ValidModels(c) <==> ValidModels(d)
    ensures Keys(ModelIDOf, c.models) == Keys(ModelIDOf, d.models) && |c.models| == |d.models|
  {
    hide UpToOrder, All, UniqueBy, Keys, ValidModel, Reordering;
    var strategyIDs := Keys(StrategyKey, c.strategies);
    var ok := m => ValidModel(strategyIDs, m);
    forall x, y | AlikeModels(x, y)
      ensures ModelKey(x) == ModelKey(y) && ModelIDOf(x) == ModelIDOf(y) && (ok(x) <==> ok(y))
    {
      AlikeModelsAgree(strategyIDs, x, y);
    }
    AlikeListsAgree(AlikeModels, ok, ok, ModelKey, c.models, d.models);
    AlikeListsAgree(AlikeModels, ok, ok, ModelIDOf, c.models, d.models);
    SameAll(m => ValidModel(strategyIDs, m), ok, c.models);
    SameAll(m => ValidModel(Keys(StrategyKey, d.strategies), m), ok, d.models);
  }

  lemma CapsListAgree(c: Config, d: Config)
    requires Reordering(c.ensembleCaps, d.ensembleCaps) && Keys(ModelIDOf, c.models) == Keys(ModelIDOf, d.models)
    ensures ValidCaps(c) <==> ValidCaps(d)
    ensures |c.ensembleCaps| == |d.ensembleCaps|
  {
    hide All, UniqueBy, Keys, ValidCap, Reordering;
    var modelIDs := Keys(ModelIDOf, c.models);
    var ok := p => ValidCap(modelIDs, p);
    ListIgnoresOrder(ok, CapKey, c.ensembleCaps, d.ensembleCaps);
    SameAll(p => ValidCap(modelIDs, p), ok, c.ensembleCaps);
    SameAll(p => ValidCap(Keys(ModelIDOf, d.models), p), ok, d.ensembleCaps);
  }

  lemma SessionsAgree(c: Config, d: Config)
    requires Reordering(c.tradingSessions, d.tradingSessions) && Keys(VenueKey, c.venues) == Keys(VenueKey, d.venues)
    ensures ValidSessions(c) <==> ValidSessions(d)
    ensures Keys(SessionKey, c.tradingSessions) == Keys(SessionKey, d.tradingSessions)
    ensures |c.tradingSessions| == |d.tradingSessions|
  {
    hide All, UniqueBy, Keys, ValidSession, Reordering;
    var venueIDs := Keys(VenueKey, c.venues);
    var ok := s => ValidSession(venueIDs, s);
    ListIgnoresOrder(ok, SessionKey, c.tradingSessions, d.tradingSessions);
    KeysIgnoreOrder(SessionKey, c.tradingSessions, d.tradingSessions);
    SameAll(s => ValidSession(venueIDs, s), ok, c.tradingSessions);
    SameAll(s => ValidSession(Keys(VenueKey, d.venues), s), ok, d.tradingSessions);
  }

  lemma CalendarAgrees(c: Config, d: Config)
    requires Reordering(c.eventCalendar, d.eventCalendar)
    ensures ValidCalendar(c) <==> ValidCalendar(d)
    ensures |c.eventCalendar| == |d.eventCalendar|
  {
    hide All, UniqueBy, ValidEvent, Reordering;
    ListIgnoresOrder(ValidEvent, EventKey, c.eventCalendar, d.eventCalendar);
  }

  lemma KillsAgree(c: Config, d: Config)
    requires Reordering(c.killSwitches, d.killSwitches) && TargetsOf(c) == TargetsOf(d)
    ensures ValidKills(c) <==> ValidKills(d)
    ensures |c.killSwitches| == |d.killSwitches|
  {
    hide All, UniqueBy, ValidKill, Reordering, TargetsOf;
    var targets := TargetsOf(c);
    var ok := k => ValidKill(targets, k);
    ListIgnoresOrder(ok, KillKey, c.killSwitches, d.killSwitches);
    SameAll(k => ValidKill(targets, k), ok, c.killSwitches);
    SameAll(k => ValidKill(TargetsOf(d), k), ok, d.killSwitches);
  }

  lemma SameRoles(x: RoleBinding, y: RoleBinding, role: string)
    requires AlikeBindings(x, y)
    ensures x.principal == y.principal && (role in x.roles <==> role in y.roles)
  {
    hide Reordering;
    MembersAgree(x.roles, y.roles, role);
  }

  lemma SomeoneAgrees(c: Config, d: Config, role: string)
    requires UpToOrder(AlikeBindings, c.operatorRoles, d.operatorRoles)
    ensures SomeoneIs(c, role) <==> SomeoneIs(d, role)
  {
    hide UpToOrder, AlikeBindings;
    if SomeoneIs(c, role) {
      var x :| x in c.operatorRoles && role in x.roles;
      var y := AlikeMember(AlikeBindings, c.operatorRoles, d.operatorRoles, x);
      SameRoles(x, y, role);
    }
    if SomeoneIs(d, role) {
      var y :| y in d.operatorRoles && role in y.roles;
      var x := AlikeOrigin(AlikeBindings, c.operatorRoles, d.operatorRoles, y);
      SameRoles(x, y, role);
    }
  }

  ghost predicate PairOf(bindings: seq<RoleBinding>, x: RoleBinding, y: RoleBinding) {
    && x in bindings && y in bindings && x.principal != y.principal
    && "CONFIGURATION_AUTHOR" in x.roles && "APPROVER" in y.roles
  }

  lemma PairAgrees(c: Config, d: Config)
    requires UpToOrder(AlikeBindings, c.operatorRoles, d.operatorRoles)
    ensures (exists x, y :: PairOf(c.operatorRoles, x, y)) <==> (exists x, y :: PairOf(d.operatorRoles, x, y))
  {
    hide UpToOrder, AlikeBindings;
    if x, y :| PairOf(c.operatorRoles, x, y) {
      var v := AlikeMember(AlikeBindings, c.operatorRoles, d.operatorRoles, x);
      var w := AlikeMember(AlikeBindings, c.operatorRoles, d.operatorRoles, y);
      SameRoles(x, v, "CONFIGURATION_AUTHOR");
      SameRoles(y, w, "APPROVER");
      assert PairOf(d.operatorRoles, v, w);
    }
    if v, w :| PairOf(d.operatorRoles, v, w) {
      var x := AlikeOrigin(AlikeBindings, c.operatorRoles, d.operatorRoles, v);
      var y := AlikeOrigin(AlikeBindings, c.operatorRoles, d.operatorRoles, w);
      SameRoles(x, v, "CONFIGURATION_AUTHOR");
      SameRoles(y, w, "APPROVER");
      assert PairOf(c.operatorRoles, x, y);
    }
  }

  lemma CoverageAgrees(c: Config, d: Config)
    requires UpToOrder(AlikeBindings, c.operatorRoles, d.operatorRoles)
    ensures CoverageRule(c) <==> CoverageRule(d)
  {
    hide UpToOrder, SomeoneIs;
    PairAgrees(c, d);
    assert forall x, y | x in c.operatorRoles && y in c.operatorRoles && x.principal != y.principal
                         && "CONFIGURATION_AUTHOR" in x.roles && "APPROVER" in y.roles :: PairOf(c.operatorRoles, x, y);
    assert forall x, y | x in d.operatorRoles && y in d.operatorRoles && x.principal != y.principal
                         && "CONFIGURATION_AUTHOR" in x.roles && "APPROVER" in y.roles :: PairOf(d.operatorRoles, x, y);
    SomeoneAgrees(c, d, "ACTIVATOR");
    SomeoneAgrees(c, d, "ROLLBACK_OPERATOR");
    SomeoneAgrees(c, d, "KILL_OPERATOR");
    SomeoneAgrees(c, d, "VIEWER");
  }

  lemma RolesAgree(c: Config, d: Config)
    requires UpToOrder(AlikeBindings, c.operatorRoles, d.operatorRoles)
    ensures ValidRoles(c) <==> ValidRoles(d)
    ensures |c.operatorRoles| == |d.operatorRoles|
  {
    hide UpToOrder, All, UniqueBy, ValidBinding, Reordering, Covered, RoleMap, CoverageRule, Keys;
    forall x, y | AlikeBindings(x, y)
      ensures PrincipalKey(x) == PrincipalKey(y) && (ValidBinding(x) <==> ValidBinding(y)) {
      AlikeBindingsAgree(x, y);
    }
    AlikeListsAgree(AlikeBindings, ValidBinding, ValidBinding, PrincipalKey, c.operatorRoles, d.operatorRoles);
    if UniqueBy(PrincipalKey, c.operatorRoles) {
      CoverageMeans(c);
      CoverageMeans(d);
      CoverageAgrees(c, d);
    }
  }

  lemma TargetsAgree(c: Config, d: Config)
    requires UpToOrder(AlikeLimits, c.riskLimits, d.riskLimits) && Keys(VenueKey, c.venues) == Keys(VenueKey, d.venues)
    requires Keys(AccountKey, c.riskLimits) == Keys(AccountKey, d.riskLimits)
    requires Keys(StrategyKey, c.strategies) == Keys(StrategyKey, d.strategies)
    ensures TargetsOf(c) == TargetsOf(d)
  {
    hide UpToOrder, Keys, Instruments;
    forall id ensures id in Instruments(c.riskLimits) <==> id in Instruments(d.riskLimits) {
      InstrumentsAgree(c, d, id);
    }
  }

  /** Validity does not depend on the order of any list, at any level. */
  lemma ValidityIgnoresOrder(c: Config, d: Config)
    requires Reordered(c, d)
    ensures ValidConfiguration(c) <==> ValidConfiguration(d)
  {
    hide UpToOrder, Reordering, Keys, ValidStrategies, ValidVenues, ValidRiskLimits, ValidModels, ValidCaps,
         ValidSessions,
         ResolvedStrategies, ValidCalendar, ValidKills, ValidRoles, ValidIdentifier, Hex64, TargetsOf;
    StrategiesAgree(c, d);
    VenuesAgree(c, d);
    RiskLimitsAgree(c, d);
    ModelsListAgree(c, d);
    CapsListAgree(c, d);
    SessionsAgree(c, d);
    ResolutionAgrees(c, d);
    CalendarAgrees(c, d);
    TargetsAgree(c, d);
    KillsAgree(c, d);
    RolesAgree(c, d);
  }

  // ----- Canonicalizing only reorders ------------------------------------------------------------------------

  lemma SortReorders<T(!new)>(key: T -> string, items: seq<T>)
    ensures Reordering(items, Sort(By(key), items)) && Sorted(By(key), Sort(By(key), items))
  {
    hide Reordering, Sort, StrictWeakOrder, Sorted;
    KeyOrder(key);
    SortSorts(By(key), items);
    ReorderingIsSymmetric(Sort(By(key), items), items);
  }

  lemma MappedIsAlike<T(!new)>(alike: (T, T) -> bool, canonical: T -> T, items: seq<T>, sorted: seq<T>)
    requires (forall x :: alike(x, canonical(x))) && Reordering(Map(canonical, items), sorted)
    ensures UpToOrder(alike, items, sorted)
  {
    hide Reordering;
    assert ItemsAlike(alike, items, Map(canonical, items));
  }

  lemma CanonicalIsAlike()
    ensures forall s :: AlikeStrategies(s, CanonicalStrategy(s))
    ensures forall r :: AlikeLimits(r, CanonicalLimits(r))
    ensures forall m :: AlikeModels(m, CanonicalModel(m))
    ensures forall b :: AlikeBindings(b, CanonicalBinding(b))
  {
    hide Reordering, Sort, Sorted;
    forall s ensures AlikeStrategies(s, CanonicalStrategy(s)) {
      SortReorders(Itself, s.allowedModelIDs);
      SortReorders(Itself, s.tradingSessionIDs);
    }
    forall r ensures AlikeLimits(r, CanonicalLimits(r)) { SortReorders(InstrumentKey, r.symbolLimits); }
    forall m ensures AlikeModels(m, CanonicalModel(m)) { SortReorders(Itself, m.allowedStrategyIDs); }
    forall b ensures AlikeBindings(b, CanonicalBinding(b)) { SortReorders(Itself, b.roles); }
  }

  lemma ModelsReorder(items: seq<Model>)
    ensures Reordering(items, Sort(ModelBefore, items)) && Sorted(ModelBefore, Sort(ModelBefore, items))
  {
    hide Reordering, Sort, StrictWeakOrder, Sorted;
    ModelOrder();
    SortSorts(ModelBefore, items);
    ReorderingIsSymmetric(Sort(ModelBefore, items), items);
  }

  lemma CanonicalReorders(c: Config)
    ensures Reordered(c, Canonical(c.(sha256 := "")))
  {
    hide Reordering, Sort, Sorted, UpToOrder, Map, AlikeStrategies, AlikeLimits, AlikeModels, AlikeBindings;
    CanonicalIsAlike();
    SortReorders(StrategyKey, Map(CanonicalStrategy, c.strategies));
    MappedIsAlike(AlikeStrategies, CanonicalStrategy, c.strategies,
                  Sort(By(StrategyKey), Map(CanonicalStrategy, c.strategies)));
    SortReorders(VenueKey, c.venues);
    SortReorders(AccountKey, Map(CanonicalLimits, c.riskLimits));
    MappedIsAlike(AlikeLimits, CanonicalLimits, c.riskLimits, Sort(By(AccountKey), Map(CanonicalLimits, c.riskLimits)));
    ModelsReorder(Map(CanonicalModel, c.models));
    MappedIsAlike(AlikeModels, CanonicalModel, c.models, Sort(ModelBefore, Map(CanonicalModel, c.models)));
    SortReorders(CapOrderKey, c.ensembleCaps);
    SortReorders(SessionKey, c.tradingSessions);
    SortReorders(EventKey, c.eventCalendar);
    SortReorders(KillKey, c.killSwitches);
    SortReorders(PrincipalKey, Map(CanonicalBinding, c.operatorRoles));
    MappedIsAlike(AlikeBindings, CanonicalBinding, c.operatorRoles,
                  Sort(By(PrincipalKey), Map(CanonicalBinding, c.operatorRoles)));
  }

  // ----- In one order ----------------------------------------------------------------------------------------

  // The first place where the two differ decides; a proper prefix comes first.
  ghost predicate Precedes(a: string, b: string) {
    exists k | 0 <= k <= |a| && k < |b| :: a[..k] == b[..k] && (k == |a| || a[k] < b[k])
  }

  lemma {:induction false} LessIsLexicographic(a: string, b: string)
    ensures Less(a, b) <==> Precedes(a, b)
  {
    if a != "" && b != "" && a[0] == b[0] {
      LessIsLexicographic(a[1..], b[1..]);
      if Less(a[1..], b[1..]) {
        var k :| 0 <= k <= |a[1..]| && k < |b[1..]| && a[1..][..k] == b[1..][..k]
                 && (k == |a[1..]| || a[1..][k] < b[1..][k]);
        assert a[..k + 1] == [a[0]] + a[1..][..k] && b[..k + 1] == [b[0]] + b[1..][..k];
      }
      if Precedes(a, b) {
        var k :| 0 <= k <= |a| && k < |b| && a[..k] == b[..k] && (k == |a| || a[k] < b[k]);
        assert a[1..][..k - 1] == a[..k][1..] && b[1..][..k - 1] == b[..k][1..];
      }
    } else if a == "" || b == "" {
      assert b != "" ==> a[..0] == b[..0];
    } else {
      assert a[..0] == b[..0];
      forall k | 0 < k <= |a| && k < |b| ensures a[..k] != b[..k] {
        assert a[..k][0] == a[0] && b[..k][0] == b[0];
      }
    }
  }

  ghost predicate Ascends<T(!new)>(key: T -> string, items: seq<T>) {
    forall i, j | 0 <= i < j < |items| :: Precedes(key(items[i]), key(items[j]))
  }

  lemma SortedAscends<T(!new)>(key: T -> string, items: seq<T>)
    requires Sorted(By(key), items) && UniqueBy(key, items)
    ensures Ascends(key, items)
  {
    hide Less, Precedes;
    forall i, j | 0 <= i < j < |items| ensures Precedes(key(items[i]), key(items[j])) {
      assert !By(key)(items[j], items[i]);
      LessIsTotal(key(items[i]), key(items[j]));
      LessIsLexicographic(key(items[i]), key(items[j]));
    }
  }

  lemma SortAscends<T(!new)>(key: T -> string, items: seq<T>)
    requires UniqueBy(key, Sort(By(key), items))
    ensures Ascends(key, Sort(By(key), items))
  {
    hide Reordering, Sort, Sorted, Ascends, UniqueBy;
    SortReorders(key, items);
    SortedAscends(key, Sort(By(key), items));
  }

  ghost predicate ModelsAscend(models: seq<Model>) {
    forall i, j | 0 <= i < j < |models| ::
      if models[i].modelID == models[j].modelID then Precedes(models[i].semanticVersion, models[j].semanticVersion)
      else Precedes(models[i].modelID, models[j].modelID)
  }

  lemma SortedModelsAscend(models: seq<Model>)
    requires Sorted(ModelBefore, models) && UniqueBy(ModelKey, models)
    ensures ModelsAscend(models)
  {
    hide Less, Precedes;
    forall i, j | 0 <= i < j < |models|
      ensures if models[i].modelID == models[j].modelID then
        Precedes(models[i].semanticVersion, models[j].semanticVersion)
        else Precedes(models[i].modelID, models[j].modelID)
    {
      assert !ModelBefore(models[j], models[i]) && ModelKey(models[i]) != ModelKey(models[j]);
      LessIsTotal(models[i].modelID, models[j].modelID);
      LessIsTotal(models[i].semanticVersion, models[j].semanticVersion);
      LessIsLexicographic(models[i].modelID, models[j].modelID);
      LessIsLexicographic(models[i].semanticVersion, models[j].semanticVersion);
    }
  }

  // Every list is in ascending order of its items' identities, at every level.
  ghost predicate InOrder(c: Config) {
    && Ascends(StrategyKey, c.strategies) && Ascends(VenueKey, c.venues) && Ascends(AccountKey, c.riskLimits)
    && ModelsAscend(c.models) && Ascends(CapOrderKey, c.ensembleCaps) && Ascends(SessionKey, c.tradingSessions)
    && Ascends(EventKey, c.eventCalendar) && Ascends(KillKey, c.killSwitches) && Ascends(PrincipalKey, c.operatorRoles)
    && (forall i | 0 <= i < |c.strategies| ::
          Ascends(Itself, c.strategies[i].allowedModelIDs) && Ascends(Itself, c.strategies[i].tradingSessionIDs))
    && (forall i | 0 <= i < |c.riskLimits| :: Ascends(InstrumentKey, c.riskLimits[i].symbolLimits))
    && (forall i | 0 <= i < |c.models| :: Ascends(Itself, c.models[i].allowedStrategyIDs))
    && (forall i | 0 <= i < |c.operatorRoles| :: Ascends(Itself, c.operatorRoles[i].roles))
  }

  // Each item of a canonicalized list is a canonicalized item.
  lemma CanonicalItem<T(!new)>(before: (T, T) -> bool, canonical: T -> T, items: seq<T>, i: nat) returns (x: T)
    requires StrictWeakOrder(before) && i < |Sort(before, Map(canonical, items))|
    ensures Sort(before, Map(canonical, items))[i] == canonical(x)
  {
    hide Sort, Reordering, StrictWeakOrder;
    var mapped := Map(canonical, items);
    SortSorts(before, mapped);
    MembersAgree(Sort(before, mapped), mapped, Sort(before, mapped)[i]);
    var j :| 0 <= j < |mapped| && mapped[j] == Sort(before, mapped)[i];
    x := items[j];
  }

  lemma StrategiesInOrder(c: Config, i: nat)
    requires ValidStrategies(Canonical(c)) && i < |Canonical(c).strategies|
    ensures var s := Canonical(c).strategies[i];
      Ascends(Itself, s.allowedModelIDs) && Ascends(Itself, s.tradingSessionIDs)
  {
    hide Sort, Map, StrictWeakOrder, Ascends, UniqueBy, ValidIdentifier;
    KeyOrder(StrategyKey);
    var x := CanonicalItem(By(StrategyKey), CanonicalStrategy, c.strategies, i);
    assert ValidStrategy(Canonical(c).strategies[i]);
    SortAscends(Itself, x.allowedModelIDs);
    SortAscends(Itself, x.tradingSessionIDs);
  }

  lemma LimitsInOrder(c: Config, i: nat)
    requires ValidRiskLimits(Canonical(c)) && i < |Canonical(c).riskLimits|
    ensures Ascends(InstrumentKey, Canonical(c).riskLimits[i].symbolLimits)
  {
    hide Sort, Map, StrictWeakOrder, Ascends, UniqueBy, ValidIdentifier, ValidSymbol, ValidLimits;
    KeyOrder(AccountKey);
    var x := CanonicalItem(By(AccountKey), CanonicalLimits, c.riskLimits, i);
    assert ValidAccount(Canonical(c).riskLimits[i]);
    SortAscends(InstrumentKey, x.symbolLimits);
  }

  lemma ModelsInOrder(c: Config, i: nat)
    requires ValidModels(Canonical(c)) && i < |Canonical(c).models|
    ensures Ascends(Itself, Canonical(c).models[i].allowedStrategyIDs)
  {
    hide Sort, Map, StrictWeakOrder, Ascends, UniqueBy, ValidIdentifier, ValidSemantic, Keys;
    ModelOrder();
    var x := CanonicalItem(ModelBefore, CanonicalModel, c.models, i);
    assert ValidModel(Keys(StrategyKey, Canonical(c).strategies), Canonical(c).models[i]);
    SortAscends(Itself, x.allowedStrategyIDs);
  }

  lemma RolesInOrder(c: Config, i: nat)
    requires ValidRoles(Canonical(c)) && i < |Canonical(c).operatorRoles|
    ensures Ascends(Itself, Canonical(c).operatorRoles[i].roles)
  {
    hide Sort, Map, StrictWeakOrder, Ascends, UniqueBy, ValidIdentifier, ValidRole, Covered, RoleMap;
    KeyOrder(PrincipalKey);
    var x := CanonicalItem(By(PrincipalKey), CanonicalBinding, c.operatorRoles, i);
    assert ValidBinding(Canonical(c).operatorRoles[i]);
    SortAscends(Itself, x.roles);
  }

  lemma CapsInOrder(c: Config)
    requires ValidCaps(Canonical(c))
    ensures Ascends(CapOrderKey, Canonical(c).ensembleCaps)
  {
    hide Sort, Map, Ascends, UniqueBy, ValidCap, Keys, Separated;
    var caps := Canonical(c).ensembleCaps;
    UniqueCapsAreSeparated(Keys(ModelIDOf, Canonical(c).models), caps);
    UniqueCapOrder(caps);
    SortAscends(CapOrderKey, c.ensembleCaps);
  }

  // Different caps are never tied, so no two share the joined key.
  lemma UniqueCapOrder(caps: seq<EnsembleCap>)
    requires Separated(By(CapOrderKey), caps) && UniqueBy(CapKey, caps)
    ensures UniqueBy(CapOrderKey, caps)
  {
    hide Less;
    forall i, j | 0 <= i < j < |caps| ensures CapOrderKey(caps[i]) != CapOrderKey(caps[j]) {
      assert CapKey(caps[i]) != CapKey(caps[j]);
      assert caps[i] in caps && caps[j] in caps && caps[i] != caps[j];
      LessIsTotal(CapOrderKey(caps[i]), CapOrderKey(caps[j]));
    }
  }

  lemma CanonicalIsInOrder(c: Config)
    requires ValidConfiguration(Canonical(c))
    ensures InOrder(Canonical(c))
  {
    hide Sort, Map, Ascends, UniqueBy, ModelsAscend, All, Keys, Covered, RoleMap, ValidHeader, ValidCounts,
         ResolvedStrategies, Sorted;
    SortAscends(StrategyKey, Map(CanonicalStrategy, c.strategies));
    SortAscends(VenueKey, c.venues);
    SortAscends(AccountKey, Map(CanonicalLimits, c.riskLimits));
    ModelsReorder(Map(CanonicalModel, c.models));
    SortedModelsAscend(Canonical(c).models);
    CapsInOrder(c);
    SortAscends(SessionKey, c.tradingSessions);
    SortAscends(EventKey, c.eventCalendar);
    SortAscends(KillKey, c.killSwitches);
    SortAscends(PrincipalKey, Map(CanonicalBinding, c.operatorRoles));
    ItemsInOrder(c);
  }

  lemma ItemsInOrder(c: Config)
    requires ValidStrategies(Canonical(c)) && ValidRiskLimits(Canonical(c)) && ValidModels(Canonical(c))
    requires ValidRoles(Canonical(c))
    ensures var f := Canonical(c);
      && (forall i | 0 <= i < |f.strategies| ::
            Ascends(Itself, f.strategies[i].allowedModelIDs) && Ascends(Itself, f.strategies[i].tradingSessionIDs))
      && (forall i | 0 <= i < |f.riskLimits| :: Ascends(InstrumentKey, f.riskLimits[i].symbolLimits))
      && (forall i | 0 <= i < |f.models| :: Ascends(Itself, f.models[i].allowedStrategyIDs))
      && (forall i | 0 <= i < |f.operatorRoles| :: Ascends(Itself, f.operatorRoles[i].roles))
  {
    hide Canonical, Ascends, ValidStrategies, ValidRiskLimits, ValidModels, ValidRoles;
    var f := Canonical(c);
    forall i | 0 <= i < |f.strategies|
      ensures Ascends(Itself, f.strategies[i].allowedModelIDs) && Ascends(Itself, f.strategies[i].tradingSessionIDs)
    {
      StrategiesInOrder(c, i);
    }
    forall i | 0 <= i < |f.riskLimits| ensures Ascends(InstrumentKey, f.riskLimits[i].symbolLimits) {
      LimitsInOrder(c, i);
    }
    forall i | 0 <= i < |f.models| ensures Ascends(Itself, f.models[i].allowedStrategyIDs) { ModelsInOrder(c, i); }
    forall i | 0 <= i < |f.operatorRoles| ensures Ascends(Itself, f.operatorRoles[i].roles) { RolesInOrder(c, i); }
  }

  // ----- Finalizing ------------------------------------------------------------------------------------------

  lemma LiveIsInvalid(venues: seq<Venue>)
    ensures HasLiveVenue(venues) <==> exists v | v in venues :: v.mode == "LIVE"
    ensures HasLiveVenue(venues) ==> !All(ValidVenue, venues)
  {
    hide ValidIdentifier;
    if v :| v in venues && v.mode == "LIVE" {
      var i :| 0 <= i < |venues| && venues[i] == v;
      assert Live(venues[i]);
    }
  }

  lemma VenuesKeepMode(a: seq<Venue>, b: seq<Venue>)
    requires Reordering(a, b)
    ensures (exists v | v in a :: v.mode == "LIVE") <==> (exists v | v in b :: v.mode == "LIVE")
  {
    hide Reordering;
    forall v ensures v in a <==> v in b { MembersAgree(a, b, v); }
  }

  /** Finalizing succeeds exactly for the valid configurations, whatever the order of their lists,
  and refuses one with a
      live venue as such. The finalized configuration has the same contents, every list in ascending order, and the
      digest of itself without one. */
  lemma FinalizesExactly(digest: Digest, c: Config)
    ensures Finalize(digest, c).Ok? <==> HeaderRule(c) && ItemRules(c) && IdentityRules(c) && CoverageRule(c)
    ensures Finalize(digest, c).Ok? ==>
      var f := Finalize(digest, c).value;
      Reordered(c, f) && InOrder(f) && f.sha256 == digest(f.(sha256 := ""))
    ensures Finalize(digest, c).Err? ==>
      Finalize(digest, c).error ==
      if exists v | v in c.venues :: v.mode == "LIVE" then LiveModeUnavailable else ConfigurationInvalid
  {
    hide Canonical, ValidConfiguration, Reordering, UpToOrder, HasLiveVenue, HeaderRule, ItemRules, IdentityRules,
         CoverageRule, InOrder;
    var bare := c.(sha256 := "");
    var canonical := Canonical(bare);
    CanonicalReorders(c);
    ValidityIgnoresOrder(c, canonical);
    ValidExactly(c);
    LiveIsInvalid(canonical.venues);
    VenuesKeepMode(c.venues, canonical.venues);
    LiveMeansInvalid(canonical);
    CanonicalIgnoresDigest(bare, "");
    if ValidConfiguration(canonical) {
      CanonicalIsInOrder(bare);
      DigestIsFree(canonical, digest(canonical));
      assert canonical.sha256 == "" by { CanonicalKeepsDigest(bare); }
      assert canonical.(sha256 := digest(canonical)).(sha256 := "") == canonical;
    }
  }

  lemma CanonicalKeepsDigest(c: Config)
    ensures Canonical(c).sha256 == c.sha256
  {
    hide Sort, Map;
  }

  lemma LiveMeansInvalid(c: Config)
    requires HasLiveVenue(c.venues) ==> !All(ValidVenue, c.venues)
    ensures HasLiveVenue(c.venues) ==> !ValidConfiguration(c)
  {
    hide HasLiveVenue, All, UniqueBy, ValidHeader, ValidCounts, ValidRoles, ValidKills, ValidModels, ValidCaps,
         ValidSessions, ResolvedStrategies;
  }

  lemma DigestIsFree(c: Config, sha: string)
    ensures InOrder(c) ==> InOrder(c.(sha256 := sha))
  {
    hide Ascends, ModelsAscend;
  }
}
