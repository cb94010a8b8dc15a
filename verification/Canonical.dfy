/** Canonical order of the set-like fields, and the digest that finalizes a configuration. */
module Canonical {
  import opened Results
  import opened Text
  import opened Sorting
  import opened Configuration

  function By<T>(key: T -> string): (T, T) -> bool { (x: T, y: T) => Less(key(x), key(y)) }

  predicate ModelBefore(x: Model, y: Model) {
    if x.modelID == y.modelID then Less(x.semanticVersion, y.semanticVersion) else Less(x.modelID, y.modelID)
  }

  function CapOrderKey(p: EnsembleCap): string { p.ensembleID + "\0" + p.modelID }

  function SortedStrings(values: seq<string>): seq<string> { Sort(By(Itself), values) }

  function CanonicalStrategy(s: Strategy): Strategy {
    s.(allowedModelIDs := SortedStrings(s.allowedModelIDs), tradingSessionIDs := SortedStrings(s.tradingSessionIDs))
  }

  function CanonicalLimits(r: RiskLimits): RiskLimits { r.(symbolLimits := Sort(By(InstrumentKey), r.symbolLimits)) }

  function CanonicalModel(m: Model): Model { m.(allowedStrategyIDs := SortedStrings(m.allowedStrategyIDs)) }

  function CanonicalBinding(b: RoleBinding): RoleBinding { b.(roles := SortedStrings(b.roles)) }

  // canonicalizeConfiguration
  function Canonical(c: Config): Config {
    c.(strategies := Sort(By(StrategyKey), Map(CanonicalStrategy, c.strategies)),
       venues := Sort(By(VenueKey), c.venues),
       riskLimits := Sort(By(AccountKey), Map(CanonicalLimits, c.riskLimits)),
       models := Sort(ModelBefore, Map(CanonicalModel, c.models)),
       ensembleCaps := Sort(By(CapOrderKey), c.ensembleCaps),
       tradingSessions := Sort(By(SessionKey), c.tradingSessions),
       eventCalendar := Sort(By(EventKey), c.eventCalendar),
       killSwitches := Sort(By(KillKey), c.killSwitches),
       operatorRoles := Sort(By(PrincipalKey), Map(CanonicalBinding, c.operatorRoles)))
  }

  // ----- Finalizing ---------------------------------------------------------------------------------

  type Digest = Config -> string

  ghost predicate HexDigest(digest: Digest) { forall c :: Hex64(digest(c)) }

  datatype Rejection = LiveModeUnavailable | ConfigurationInvalid | HashMismatch

  predicate Live(v: Venue) { v.mode == LIVE }

  predicate HasLiveVenue(venues: seq<Venue>) { exists i | 0 <= i < |venues| :: Live(venues[i]) }

  // FinalizeConfiguration
  function Finalize(digest: Digest, c: Config): Result<Config, Rejection> {
    var canonical := Canonical(c.(sha256 := ""));
    if HasLiveVenue(canonical.venues) then Err(LiveModeUnavailable)
    else if !ValidConfiguration(canonical) then Err(ConfigurationInvalid)
    else Ok(canonical.(sha256 := digest(canonical)))
  }

  // validateFinalConfiguration: the error, or None when the configuration is accepted.
  function RejectFinal(digest: Digest, c: Config): Option<Rejection> {
    if !Hex64(c.sha256) then Some(HashMismatch)
    else
      var canonical := Canonical(c.(sha256 := ""));
      if HasLiveVenue(canonical.venues) then Some(LiveModeUnavailable)
      else if !ValidConfiguration(canonical) then Some(ConfigurationInvalid)
      else if c.(sha256 := "") != canonical then Some(ConfigurationInvalid)
      else if digest(canonical) != c.sha256 then Some(HashMismatch)
      else None
  }

  // ----- The orders ---------------------------------------------------------------------------------

  lemma StringOrder(a: string, b: string, c: string)
    ensures !Less(a, a)
    ensures Less(a, b) && Less(b, c) ==> Less(a, c)
    ensures Less(a, c) ==> Less(a, b) || Less(b, c)
  {
    LessIsTotal(a, a);
    LessIsTotal(a, b);
    LessIsTotal(b, c);
    if Less(a, b) && Less(b, c) { LessIsTransitive(a, b, c); }
    if Less(a, c) && Less(b, a) { LessIsTransitive(b, a, c); }
  }

  lemma KeyOrder<T(!new)>(key: T -> string)
    ensures StrictWeakOrder(By(key))
  {
    hide Less;
    forall x, y, z
      ensures !By(key)(x, x) && (By(key)(x, y) && By(key)(y, z) ==> By(key)(x, z))
      ensures By(key)(x, z) ==> By(key)(x, y) || By(key)(y, z)
    {
      StringOrder(key(x), key(y), key(z));
    }
  }

  lemma ModelOrder()
    ensures StrictWeakOrder(ModelBefore)
  {
    hide Less;
    forall x, y, z
      ensures !ModelBefore(x, x) && (ModelBefore(x, y) && ModelBefore(y, z) ==> ModelBefore(x, z))
      ensures ModelBefore(x, z) ==> ModelBefore(x, y) || ModelBefore(y, z)
    {
      StringOrder(x.semanticVersion, y.semanticVersion, z.semanticVersion);
      StringOrder(x.modelID, y.modelID, z.modelID);
      LessIsTotal(x.modelID, y.modelID);
      LessIsTotal(y.modelID, z.modelID);
    }
  }

  lemma UniqueIsSeparated<T(!new)>(key: T -> string, s: seq<T>)
    requires UniqueBy(key, s)
    ensures Separated(By(key), s)
  {
    hide Less;
    forall x, y | x in s && y in s && x != y ensures By(key)(x, y) || By(key)(y, x) {
      var i :| 0 <= i < |s| && s[i] == x;
      var j :| 0 <= j < |s| && s[j] == y;
      assert key(s[i]) != key(s[j]);
      LessIsTotal(key(x), key(y));
    }
  }

  lemma UniqueModelsAreSeparated(s: seq<Model>)
    requires UniqueBy(ModelKey, s)
    ensures Separated(ModelBefore, s)
  {
    hide Less;
    forall x, y | x in s && y in s && x != y ensures ModelBefore(x, y) || ModelBefore(y, x) {
      var i :| 0 <= i < |s| && s[i] == x;
      var j :| 0 <= j < |s| && s[j] == y;
      assert ModelKey(s[i]) != ModelKey(s[j]);
      LessIsTotal(x.modelID, y.modelID);
      LessIsTotal(x.semanticVersion, y.semanticVersion);
    }
  }

  lemma UniqueCapsAreSeparated(modelIDs: set<string>, s: seq<EnsembleCap>)
    requires All(p => ValidCap(modelIDs, p), s) && UniqueBy(CapKey, s)
    ensures Separated(By(CapOrderKey), s)
  {
    hide ValidIdentifier;
    forall i, j | 0 <= i < j < |s| ensures CapOrderKey(s[i]) != CapOrderKey(s[j]) {
      assert ValidCap(modelIDs, s[i]) && ValidCap(modelIDs, s[j]) && CapKey(s[i]) != CapKey(s[j]);
      NoNul(s[i].ensembleID);
      NoNul(s[j].ensembleID);
      JoinIsExact('\0', s[i].ensembleID, s[i].modelID, s[j].ensembleID, s[j].modelID);
    }
    UniqueIsSeparated(CapOrderKey, s);
  }

  lemma NoNul(id: string)
    requires ValidIdentifier(id)
    ensures '\0' !in id
  {
  }

  lemma StringsAreSeparated(s: seq<string>)
    ensures Separated(By(Itself), s)
  {
    hide Less;
    forall x, y | x in s && y in s && x != y ensures By(Itself)(x, y) || By(Itself)(y, x) {
      LessIsTotal(Itself(x), Itself(y));
    }
  }

  lemma SortedStringsIgnoreOrder(a: seq<string>, b: seq<string>)
    requires Reordering(a, b)
    ensures SortedStrings(a) == SortedStrings(b)
  {
    hide StrictWeakOrder, Separated, Reordering, Sort;
    KeyOrder(Itself);
    StringsAreSeparated(SortedStrings(a));
    SortIgnoresOrder(By(Itself), a, b);
  }

  // ----- Canonical form is a fixed point ----------------------------------------------------------------

  lemma SortTwice<T(!new)>(before: (T, T) -> bool, s: seq<T>)
    requires StrictWeakOrder(before)
    ensures Sort(before, Sort(before, s)) == Sort(before, s)
  {
    hide Sort, StrictWeakOrder;
    SortSorts(before, s);
    SortOfSorted(before, Sort(before, s));
  }

  // Items that are canonical stay as they are when the sorted list is canonicalized again.
  lemma NestedSortTwice<T(!new)>(before: (T, T) -> bool, canonical: T -> T, s: seq<T>)
    requires StrictWeakOrder(before) && forall x :: canonical(canonical(x)) == canonical(x)
    ensures var once := Sort(before, Map(canonical, s)); Sort(before, Map(canonical, once)) == once
  {
    hide Sort, StrictWeakOrder;
    var mapped := Map(canonical, s);
    var once := Sort(before, mapped);
    SortSorts(before, mapped);
    forall i | 0 <= i < |once| ensures canonical(once[i]) == once[i] {
      assert once[i] in multiset(mapped) by { assert once[i] in multiset(once); }
      var j :| 0 <= j < |mapped| && mapped[j] == once[i];
    }
    assert Map(canonical, once) == once;
    SortTwice(before, s);
    SortOfSorted(before, once);
  }

  lemma ItemsAreFixed()
    ensures forall s :: CanonicalStrategy(CanonicalStrategy(s)) == CanonicalStrategy(s)
    ensures forall r :: CanonicalLimits(CanonicalLimits(r)) == CanonicalLimits(r)
    ensures forall m :: CanonicalModel(CanonicalModel(m)) == CanonicalModel(m)
    ensures forall b :: CanonicalBinding(CanonicalBinding(b)) == CanonicalBinding(b)
  {
    hide Sort, StrictWeakOrder;
    KeyOrder(Itself);
    KeyOrder(InstrumentKey);
    forall s ensures CanonicalStrategy(CanonicalStrategy(s)) == CanonicalStrategy(s) {
      SortTwice(By(Itself), s.allowedModelIDs);
      SortTwice(By(Itself), s.tradingSessionIDs);
    }
    forall r ensures CanonicalLimits(CanonicalLimits(r)) == CanonicalLimits(r) {
      SortTwice(By(InstrumentKey), r.symbolLimits);
    }
    forall m ensures CanonicalModel(CanonicalModel(m)) == CanonicalModel(m) {
      SortTwice(By(Itself), m.allowedStrategyIDs);
    }
    forall b ensures CanonicalBinding(CanonicalBinding(b)) == CanonicalBinding(b) { SortTwice(By(Itself), b.roles); }
  }

  lemma CanonicalTwice(c: Config)
    ensures Canonical(Canonical(c)) == Canonical(c)
  {
    hide Sort, StrictWeakOrder, Map, CanonicalStrategy, CanonicalLimits, CanonicalModel, CanonicalBinding;
    ItemsAreFixed();
    ModelOrder();
    KeyOrder(StrategyKey);
    NestedSortTwice(By(StrategyKey), CanonicalStrategy, c.strategies);
    KeyOrder(VenueKey);
    SortTwice(By(VenueKey), c.venues);
    KeyOrder(AccountKey);
    NestedSortTwice(By(AccountKey), CanonicalLimits, c.riskLimits);
    NestedSortTwice(ModelBefore, CanonicalModel, c.models);
    KeyOrder(CapOrderKey);
    SortTwice(By(CapOrderKey), c.ensembleCaps);
    KeyOrder(SessionKey);
    SortTwice(By(SessionKey), c.tradingSessions);
    KeyOrder(EventKey);
    SortTwice(By(EventKey), c.eventCalendar);
    KeyOrder(KillKey);
    SortTwice(By(KillKey), c.killSwitches);
    KeyOrder(PrincipalKey);
    NestedSortTwice(By(PrincipalKey), CanonicalBinding, c.operatorRoles);
  }

  lemma CanonicalIgnoresDigest(c: Config, sha: string)
    ensures Canonical(c.(sha256 := sha)) == Canonical(c).(sha256 := sha)
  {
    hide Sort, Map;
  }

  /** Finalizing a finalized configuration changes nothing. */
  lemma FinalizeIsIdempotent(digest: Digest, c: Config)
    requires Finalize(digest, c).Ok?
    ensures Finalize(digest, Finalize(digest, c).value) == Finalize(digest, c)
  {
    hide Canonical, ValidConfiguration, HasLiveVenue;
    var bare := c.(sha256 := "");
    var canonical := Canonical(bare);
    CanonicalTwice(bare);
    CanonicalIgnoresDigest(bare, "");
    assert canonical.(sha256 := digest(canonical)).(sha256 := "") == canonical;
  }

  /** The validator of finalized configurations accepts exactly what finalizing yields: a configuration is
      accepted if and only if it is the result of finalizing something, and then finalizing returns it. */
  lemma AcceptsExactlyFinalized(digest: Digest, c: Config)
    requires HexDigest(digest)
    ensures RejectFinal(digest, c) == None <==> Finalize(digest, c) == Ok(c)
    ensures RejectFinal(digest, c) == None <==> exists d :: Finalize(digest, d) == Ok(c)
  {
    hide Canonical, ValidConfiguration, HasLiveVenue, Hex64;
    var bare := c.(sha256 := "");
    CanonicalIgnoresDigest(bare, "");
    if RejectFinal(digest, c) == None {
      assert Finalize(digest, c) == Ok(c);
    }
    if d :| Finalize(digest, d) == Ok(c) {
      FinalizeIsIdempotent(digest, d);
      CanonicalIgnoresDigest(d.(sha256 := ""), "");
      CanonicalTwice(d.(sha256 := ""));
    }
  }

  // ----- Reordering the set-like fields changes nothing ----------------------------------------------------

  // b holds the items of a in another order, each item itself reordered inside.
  ghost predicate UpToOrder<T(!new)>(alike: (T, T) -> bool, a: seq<T>, b: seq<T>) {
    exists inside: seq<T> :: ItemsAlike(alike, a, inside) && Reordering(inside, b)
  }

  ghost predicate ItemsAlike<T(!new)>(alike: (T, T) -> bool, a: seq<T>, b: seq<T>) {
    |a| == |b| && forall i | 0 <= i < |a| :: alike(a[i], b[i])
  }

  ghost predicate AlikeStrategies(x: Strategy, y: Strategy) {
    && y == x.(allowedModelIDs := y.allowedModelIDs, tradingSessionIDs := y.tradingSessionIDs)
    && Reordering(x.allowedModelIDs, y.allowedModelIDs) && Reordering(x.tradingSessionIDs, y.tradingSessionIDs)
  }

  ghost predicate AlikeLimits(x: RiskLimits, y: RiskLimits) {
    y == x.(symbolLimits := y.symbolLimits) && Reordering(x.symbolLimits, y.symbolLimits)
  }

  ghost predicate AlikeModels(x: Model, y: Model) {
    y == x.(allowedStrategyIDs := y.allowedStrategyIDs) && Reordering(x.allowedStrategyIDs, y.allowedStrategyIDs)
  }

  ghost predicate AlikeBindings(x: RoleBinding, y: RoleBinding) {
    y == x.(roles := y.roles) && Reordering(x.roles, y.roles)
  }

  // d is c with any of its set-like fields in another order, at every level; the digest field is free.
  ghost predicate Reordered(c: Config, d: Config) {
    && d == c.(strategies := d.strategies, venues := d.venues, riskLimits := d.riskLimits, models := d.models,
               ensembleCaps := d.ensembleCaps, tradingSessions := d.tradingSessions, eventCalendar := d.eventCalendar,
               killSwitches := d.killSwitches, operatorRoles := d.operatorRoles, sha256 := d.sha256)
    && UpToOrder(AlikeStrategies, c.strategies, d.strategies) && Reordering(c.venues, d.venues)
    && UpToOrder(AlikeLimits, c.riskLimits, d.riskLimits) && UpToOrder(AlikeModels, c.models, d.models)
    && Reordering(c.ensembleCaps, d.ensembleCaps) && Reordering(c.tradingSessions, d.tradingSessions)
    && Reordering(c.eventCalendar, d.eventCalendar) && Reordering(c.killSwitches, d.killSwitches)
    && UpToOrder(AlikeBindings, c.operatorRoles, d.operatorRoles)
  }

  // A reordered list sorts to the same list when either result has no ties.
  lemma SortsAgree<T(!new)>(before: (T, T) -> bool, a: seq<T>, b: seq<T>)
    requires StrictWeakOrder(before) && Reordering(a, b)
    requires Separated(before, Sort(before, a)) || Separated(before, Sort(before, b))
    ensures Sort(before, a) == Sort(before, b)
  {
    hide StrictWeakOrder, Separated, Sort;
    if Separated(before, Sort(before, a)) { SortIgnoresOrder(before, a, b); } else { SortIgnoresOrder(before, b, a); }
  }

  lemma UniqueSortsAgree<T(!new)>(key: T -> string, a: seq<T>, b: seq<T>)
    requires Reordering(a, b) && (UniqueBy(key, Sort(By(key), a)) || UniqueBy(key, Sort(By(key), b)))
    ensures Sort(By(key), a) == Sort(By(key), b)
  {
    hide StrictWeakOrder, Separated, Sort, UniqueBy;
    KeyOrder(key);
    if UniqueBy(key, Sort(By(key), a)) {
      UniqueIsSeparated(key, Sort(By(key), a));
    } else {
      UniqueIsSeparated(key, Sort(By(key), b));
    }
    SortsAgree(By(key), a, b);
  }

  // When alike items have the same canonical form, canonicalized lists are reorderings of each other.
  lemma CanonicalItemsReorder<T(!new)>(alike: (T, T) -> bool, canonical: T -> T, a: seq<T>, b: seq<T>)
    requires UpToOrder(alike, a, b) && forall x, y | alike(x, y) :: canonical(x) == canonical(y)
    ensures Reordering(Map(canonical, a), Map(canonical, b))
  {
    hide Reordering;
    var inside: seq<T> :| ItemsAlike(alike, a, inside) && Reordering(inside, b);
    MapKeepsReordering(canonical, inside, b);
    assert Map(canonical, a) == Map(canonical, inside);
  }

  lemma AlikeItems()
    ensures forall x, y | AlikeStrategies(x, y) :: CanonicalStrategy(x) == CanonicalStrategy(y)
    ensures forall x, y | AlikeModels(x, y) :: CanonicalModel(x) == CanonicalModel(y)
    ensures forall x, y | AlikeBindings(x, y) :: CanonicalBinding(x) == CanonicalBinding(y)
  {
    hide Sort, Reordering, SortedStrings;
    forall x, y | AlikeStrategies(x, y) ensures CanonicalStrategy(x) == CanonicalStrategy(y) {
      SortedStringsIgnoreOrder(x.allowedModelIDs, y.allowedModelIDs);
      SortedStringsIgnoreOrder(x.tradingSessionIDs, y.tradingSessionIDs);
    }
    forall x, y | AlikeModels(x, y) ensures CanonicalModel(x) == CanonicalModel(y) {
      SortedStringsIgnoreOrder(x.allowedStrategyIDs, y.allowedStrategyIDs);
    }
    forall x, y | AlikeBindings(x, y) ensures CanonicalBinding(x) == CanonicalBinding(y) {
      SortedStringsIgnoreOrder(x.roles, y.roles);
    }
  }

  lemma MembersStay<T>(a: seq<T>, b: seq<T>, x: T)
    requires Reordering(a, b) && x in a
    ensures x in b
  {
    assert x in multiset(b) by { assert x in multiset(a); }
  }

  lemma CanonicalSymbolsAreUnique(limits: seq<RiskLimits>, r: RiskLimits)
    requires r in limits && All(ValidAccount, Sort(By(AccountKey), Map(CanonicalLimits, limits)))
    ensures UniqueBy(InstrumentKey, CanonicalLimits(r).symbolLimits)
  {
    hide Sort, UniqueBy, Reordering, ValidLimits, StrictWeakOrder;
    var mapped := Map(CanonicalLimits, limits);
    KeyOrder(AccountKey);
    SortSorts(By(AccountKey), mapped);
    var i :| 0 <= i < |limits| && limits[i] == r;
    assert mapped[i] == CanonicalLimits(r) && mapped[i] in mapped;
    var sorted := Sort(By(AccountKey), mapped);
    ReorderingIsSymmetric(sorted, mapped);
    MembersStay(mapped, sorted, CanonicalLimits(r));
    var j :| 0 <= j < |sorted| && sorted[j] == CanonicalLimits(r);
    assert ValidAccount(sorted[j]);
  }

  lemma ReorderingIsSymmetric<T>(a: seq<T>, b: seq<T>)
    requires Reordering(a, b)
    ensures Reordering(b, a)
  {
  }

  lemma LimitsReorder(a: seq<RiskLimits>, b: seq<RiskLimits>)
    requires UpToOrder(AlikeLimits, a, b)
    requires All(ValidAccount, Sort(By(AccountKey), Map(CanonicalLimits, a)))
      || All(ValidAccount, Sort(By(AccountKey), Map(CanonicalLimits, b)))
    ensures Reordering(Map(CanonicalLimits, a), Map(CanonicalLimits, b))
  {
    hide Reordering, Sort, UniqueBy, All;
    var inside: seq<RiskLimits> :| ItemsAlike(AlikeLimits, a, inside) && Reordering(inside, b);
    forall i | 0 <= i < |a| ensures CanonicalLimits(a[i]) == CanonicalLimits(inside[i]) {
      assert AlikeLimits(a[i], inside[i]);
      if All(ValidAccount, Sort(By(AccountKey), Map(CanonicalLimits, a))) {
        CanonicalSymbolsAreUnique(a, a[i]);
      } else {
        MembersStay(inside, b, inside[i]);
        CanonicalSymbolsAreUnique(b, inside[i]);
      }
      UniqueSortsAgree(InstrumentKey, a[i].symbolLimits, inside[i].symbolLimits);
    }
    MapKeepsReordering(CanonicalLimits, inside, b);
    assert Map(CanonicalLimits, a) == Map(CanonicalLimits, inside);
  }

  lemma ModelsAgree(a: seq<Model>, b: seq<Model>)
    requires Reordering(a, b) && (UniqueBy(ModelKey, Sort(ModelBefore, a)) || UniqueBy(ModelKey, Sort(ModelBefore, b)))
    ensures Sort(ModelBefore, a) == Sort(ModelBefore, b)
  {
    hide Sort, Reordering, Separated, StrictWeakOrder, UniqueBy;
    ModelOrder();
    if UniqueBy(ModelKey, Sort(ModelBefore, a)) { UniqueModelsAreSeparated(Sort(ModelBefore, a)); }
    else { UniqueModelsAreSeparated(Sort(ModelBefore, b)); }
    SortsAgree(ModelBefore, a, b);
  }

  lemma CapsAgree(c: Config, d: Config)
    requires Reordering(c.ensembleCaps, d.ensembleCaps) && (ValidCaps(Canonical(c)) || ValidCaps(Canonical(d)))
    ensures Canonical(c).ensembleCaps == Canonical(d).ensembleCaps
  {
    hide Sort, Reordering, Separated, StrictWeakOrder, UniqueBy, All, ValidCap, Keys, Map;
    KeyOrder(CapOrderKey);
    if ValidCaps(Canonical(c)) {
      UniqueCapsAreSeparated(Keys(ModelIDOf, Canonical(c).models), Canonical(c).ensembleCaps);
    }
    else { UniqueCapsAreSeparated(Keys(ModelIDOf, Canonical(d).models), Canonical(d).ensembleCaps); }
    SortsAgree(By(CapOrderKey), c.ensembleCaps, d.ensembleCaps);
  }

  // The key uniqueness a valid configuration guarantees.
  ghost predicate Keyed(c: Config) {
    && UniqueBy(StrategyKey, c.strategies) && UniqueBy(VenueKey, c.venues)
    && All(ValidAccount, c.riskLimits) && UniqueBy(AccountKey, c.riskLimits)
    && UniqueBy(ModelKey, c.models) && ValidCaps(c) && UniqueBy(SessionKey, c.tradingSessions)
    && UniqueBy(EventKey, c.eventCalendar) && UniqueBy(KillKey, c.killSwitches)
    && UniqueBy(PrincipalKey, c.operatorRoles)
  }

  lemma ValidIsKeyed(c: Config)
    requires ValidConfiguration(c)
    ensures Keyed(c)
  {
    hide All, UniqueBy, Covered, RoleMap, ValidHeader, ValidCounts, Keys;
  }

  lemma CanonicalsAgree(c: Config, d: Config)
    requires Reordered(c, d) && c.sha256 == d.sha256 && (Keyed(Canonical(c)) || Keyed(Canonical(d)))
    ensures Canonical(c) == Canonical(d)
  {
    hide Sort, Reordering, UniqueBy, All, UpToOrder, ValidCaps, Map;
    AlikeItems();
    CanonicalItemsReorder(AlikeStrategies, CanonicalStrategy, c.strategies, d.strategies);
    UniqueSortsAgree(StrategyKey, Map(CanonicalStrategy, c.strategies), Map(CanonicalStrategy, d.strategies));
    UniqueSortsAgree(VenueKey, c.venues, d.venues);
    LimitsReorder(c.riskLimits, d.riskLimits);
    UniqueSortsAgree(AccountKey, Map(CanonicalLimits, c.riskLimits), Map(CanonicalLimits, d.riskLimits));
    CanonicalItemsReorder(AlikeModels, CanonicalModel, c.models, d.models);
    ModelsAgree(Map(CanonicalModel, c.models), Map(CanonicalModel, d.models));
    CapsAgree(c, d);
    UniqueSortsAgree(SessionKey, c.tradingSessions, d.tradingSessions);
    UniqueSortsAgree(EventKey, c.eventCalendar, d.eventCalendar);
    UniqueSortsAgree(KillKey, c.killSwitches, d.killSwitches);
    CanonicalItemsReorder(AlikeBindings, CanonicalBinding, c.operatorRoles, d.operatorRoles);
    UniqueSortsAgree(PrincipalKey, Map(CanonicalBinding, c.operatorRoles), Map(CanonicalBinding, d.operatorRoles));
  }

  lemma LiveIgnoresOrder(a: seq<Venue>, b: seq<Venue>)
    requires Reordering(a, b) && HasLiveVenue(a)
    ensures HasLiveVenue(b)
  {
    hide Reordering;
    var i :| 0 <= i < |a| && Live(a[i]);
    MembersStay(a, b, a[i]);
    var j :| 0 <= j < |b| && b[j] == a[i];
  }

  lemma SortedVenuesReorder(a: seq<Venue>, b: seq<Venue>)
    requires Reordering(a, b)
    ensures Reordering(Sort(By(VenueKey), a), Sort(By(VenueKey), b))
      && Reordering(Sort(By(VenueKey), b), Sort(By(VenueKey), a))
  {
    hide Sort, StrictWeakOrder;
    KeyOrder(VenueKey);
    SortSorts(By(VenueKey), a);
    SortSorts(By(VenueKey), b);
  }

  /** Finalizing ignores the order of every set-like field, at every level, for every configuration: the
      finalized configuration is the same, and so is the refusal. */
  lemma FinalizeIgnoresOrder(digest: Digest, c: Config, d: Config)
    requires Reordered(c, d)
    ensures Finalize(digest, c) == Finalize(digest, d)
  {
    hide Reordering, UpToOrder, Sort, Map, ValidConfiguration, Keyed, HasLiveVenue;
    var x, y := c.(sha256 := ""), d.(sha256 := "");
    SortedVenuesReorder(c.venues, d.venues);
    var a, b := Canonical(x).venues, Canonical(y).venues;
    if HasLiveVenue(a) { LiveIgnoresOrder(a, b); }
    if HasLiveVenue(b) { LiveIgnoresOrder(b, a); }
    if ValidConfiguration(Canonical(x)) { ValidIsKeyed(Canonical(x)); }
    if ValidConfiguration(Canonical(y)) { ValidIsKeyed(Canonical(y)); }
    if ValidConfiguration(Canonical(x)) || ValidConfiguration(Canonical(y)) { CanonicalsAgree(x, y); }
  }

  // ----- Canonicalizing step by step ---------------------------------------------------------------------

  method CanonicalizeStrategies(items: seq<Strategy>) returns (sorted: seq<Strategy>)
    ensures sorted == Sort(By(StrategyKey), Map(CanonicalStrategy, items))
  {
    hide Sort;
    var copy := [];
    for i := 0 to |items|
      invariant copy == Map(CanonicalStrategy, items[..i])
    {
      var models := SortedCopy(By(Itself), items[i].allowedModelIDs);
      var sessions := SortedCopy(By(Itself), items[i].tradingSessionIDs);
      copy := copy + [items[i].(allowedModelIDs := models, tradingSessionIDs := sessions)];
    }
    assert items[..|items|] == items;
    sorted := SortedCopy(By(StrategyKey), copy);
  }

  method CanonicalizeLimits(items: seq<RiskLimits>) returns (sorted: seq<RiskLimits>)
    ensures sorted == Sort(By(AccountKey), Map(CanonicalLimits, items))
  {
    hide Sort;
    var copy := [];
    for i := 0 to |items|
      invariant copy == Map(CanonicalLimits, items[..i])
    {
      var symbols := SortedCopy(By(InstrumentKey), items[i].symbolLimits);
      copy := copy + [items[i].(symbolLimits := symbols)];
    }
    assert items[..|items|] == items;
    sorted := SortedCopy(By(AccountKey), copy);
  }

  method CanonicalizeModels(items: seq<Model>) returns (sorted: seq<Model>)
    ensures sorted == Sort(ModelBefore, Map(CanonicalModel, items))
  {
    hide Sort;
    var copy := [];
    for i := 0 to |items|
      invariant copy == Map(CanonicalModel, items[..i])
    {
      var strategies := SortedCopy(By(Itself), items[i].allowedStrategyIDs);
      copy := copy + [items[i].(allowedStrategyIDs := strategies)];
    }
    assert items[..|items|] == items;
    sorted := SortedCopy(ModelBefore, copy);
  }

  method CanonicalizeRoles(items: seq<RoleBinding>) returns (sorted: seq<RoleBinding>)
    ensures sorted == Sort(By(PrincipalKey), Map(CanonicalBinding, items))
  {
    hide Sort;
    var copy := [];
    for i := 0 to |items|
      invariant copy == Map(CanonicalBinding, items[..i])
    {
      var roles := SortedCopy(By(Itself), items[i].roles);
      copy := copy + [items[i].(roles := roles)];
    }
    assert items[..|items|] == items;
    sorted := SortedCopy(By(PrincipalKey), copy);
  }

  method CanonicalizeConfiguration(c: Config) returns (canonical: Config)
    ensures canonical == Canonical(c)
  {
    hide Sort, Map;
    var strategies := CanonicalizeStrategies(c.strategies);
    var venues := SortedCopy(By(VenueKey), c.venues);
    var limits := CanonicalizeLimits(c.riskLimits);
    var models := CanonicalizeModels(c.models);
    var caps := SortedCopy(By(CapOrderKey), c.ensembleCaps);
    var sessions := SortedCopy(By(SessionKey), c.tradingSessions);
    var events := SortedCopy(By(EventKey), c.eventCalendar);
    var kills := SortedCopy(By(KillKey), c.killSwitches);
    var roles := CanonicalizeRoles(c.operatorRoles);
    canonical := c.(strategies := strategies, venues := venues, riskLimits := limits, models := models,
                    ensembleCaps := caps, tradingSessions := sessions, eventCalendar := events, killSwitches := kills,
                    operatorRoles := roles);
  }
}
