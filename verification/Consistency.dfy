/** The assumptions made about digests, and the notion of a valid configuration, are not empty: there is a
    digest that meets them and a configuration that is valid and canonical. */
module Consistency {
  import opened Text
  import opened DeploymentTypes
  import opened Configuration
  import opened Results
  import Canonical
  import Lifecycle
  import RegistryHistory
  import Sorting

  // ----- A digest that separates revisions --------------------------------------------------------------

  function HexDigit(n: nat): char
    requires n < 16
  {
    if n < 10 then '0' + n as char else 'a' + (n - 10) as char
  }

  function Digits(n: nat, width: nat): (s: string)
    ensures |s| == width && forall i | 0 <= i < width :: HexChar(s[i])
  {
    if width == 0 then "" else [HexDigit(n % 16)] + Digits(n / 16, width - 1)
  }

  function Power16(n: nat): nat { if n == 0 then 1 else 16 * Power16(n - 1) }

  lemma {:induction false} DigitsSeparate(m: nat, n: nat, width: nat)
    requires m < Power16(width) && n < Power16(width) && Digits(m, width) == Digits(n, width)
    ensures m == n
  {
    if width > 0 {
      var a, b := Digits(m, width), Digits(n, width);
      assert a[0] == HexDigit(m % 16) && b[0] == HexDigit(n % 16);
      assert a[1..] == Digits(m / 16, width - 1) && b[1..] == Digits(n / 16, width - 1);
      DigitsSeparate(m / 16, n / 16, width - 1);
    }
  }

  lemma {:induction false} PowerGrows(m: nat, n: nat)
    requires m <= n
    ensures Power16(m) <= Power16(n)
  {
    if m < n { PowerGrows(m, n - 1); }
  }

  lemma RevisionFits(revision: uint64)
    ensures revision < Power16(64)
  {
    assert Power16(4) == 65536 by { assert Power16(2) == 256; }
    assert Power16(8) == 0x1_0000_0000 by { assert Power16(6) == 256 * Power16(4); }
    assert Power16(12) == 0x1_0000_0000_0000 by { assert Power16(10) == 256 * Power16(8); }
    assert Power16(16) == UINT64_LIMIT by { assert Power16(14) == 256 * Power16(12); }
    PowerGrows(16, 64);
  }

  /** The digest assumption of the registry can be met. */
  lemma SomeDigest() returns (sha: Lifecycle.EventBody -> string)
    ensures Lifecycle.Digest(sha)
  {
    sha := (b: Lifecycle.EventBody) => Digits(b.revision, 64);
    hide Power16, Digits;
    forall a, b | sha(a) == sha(b) ensures a.revision == b.revision {
      RevisionFits(a.revision);
      RevisionFits(b.revision);
      DigitsSeparate(a.revision, b.revision, 64);
    }
  }

  // ----- Valid configurations ------------------------------------------------------------------------------

  const PRINCIPALS: seq<string> := ["a", "b", "c", "d", "e", "f"]

  const JOBS: seq<string> := [AUTHOR, APPROVER, ACTIVATOR, ROLLBACK_OPERATOR, KILL_OPERATOR, VIEWER]

  // One principal for each job.
  function SampleRoles(): (r: seq<RoleBinding>)
    ensures |r| == 6 && forall i | 0 <= i < 6 :: r[i] == RoleBinding(PRINCIPALS[i], [JOBS[i]])
  {
    seq(6, i requires 0 <= i < 6 => RoleBinding(PRINCIPALS[i], [JOBS[i]]))
  }

  // A small configuration of any revision and offline age, valid from time 1 until time 100.
  function Sample(revision: uint64, parent: string, age: uint64): Config {
    Config(1, "a", revision, parent, "a", 1, 1, 100, age,
           [Strategy("a", true, 1, 1, ["a"], ["a"])],
           [Venue("a", true, PAPER, 1, 1, true)],
           [RiskLimits("a", 1, 1, 1, 1, 1, 1, [SymbolLimit("a", true, false, 1, 1, 1)])],
           [Model("a", "1.0.0", true, 0, ["a"])],
           [EnsembleCap("a", "a", 1)],
           [TradingSession("a", "a", 1, 2)],
           [], [], SampleRoles(), "")
  }

  lemma OneKey<T, K>(key: T -> K, x: T)
    ensures Keys(key, [x]) == {key(x)} && UniqueBy(key, [x])
  {
    assert key([x][0]) in Keys(key, [x]);
  }

  lemma IdentifiersOf(id: string)
    requires ValidIdentifier(id)
    ensures UniqueIdentifiers([id]) && Keys(Itself, [id]) == {id}
  {
    hide ValidIdentifier;
    OneKey(Itself, id);
  }

  lemma SampleListsAreValid(revision: uint64, parent: string, age: uint64)
    ensures var c := Sample(revision, parent, age);
      ValidStrategies(c) && ValidVenues(c) && ValidRiskLimits(c) && ValidModels(c)
    ensures var c := Sample(revision, parent, age);
      ValidCaps(c) && ValidSessions(c) && ResolvedStrategies(c) && ValidCalendar(c) && ValidKills(c)
  {
    hide ValidIdentifier, ValidSemantic, UniqueBy, Keys, UniqueIdentifiers;
    RegistryHistory.SampleVersionIsSemantic();
    var c := Sample(revision, parent, age);
    IdentifiersOf("a");
    OneKey(StrategyKey, c.strategies[0]);
    OneKey(VenueKey, c.venues[0]);
    OneKey(AccountKey, c.riskLimits[0]);
    OneKey(InstrumentKey, c.riskLimits[0].symbolLimits[0]);
    OneKey(ModelKey, c.models[0]);
    OneKey(ModelIDOf, c.models[0]);
    OneKey(CapKey, c.ensembleCaps[0]);
    OneKey(SessionKey, c.tradingSessions[0]);
    NoKeys(EventKey);
    NoKeys(KillKey);
  }

  lemma NoKeys<T, K>(key: T -> K)
    ensures UniqueBy(key, [])
  {
  }

  // With unique principals each binding's roles are its principal's.
  lemma {:induction false} RoleMapHas(bindings: seq<RoleBinding>, i: nat)
    requires UniqueBy(PrincipalKey, bindings) && i < |bindings|
    ensures bindings[i].principal in RoleMap(bindings)
    ensures RoleMap(bindings)[bindings[i].principal] == Keys(Itself, bindings[i].roles)
  {
    hide Keys;
    var front := bindings[..|bindings| - 1];
    if i < |front| {
      forall j, k | 0 <= j < k < |front| ensures PrincipalKey(front[j]) != PrincipalKey(front[k]) {
        assert PrincipalKey(bindings[j]) != PrincipalKey(bindings[k]);
      }
      RoleMapHas(front, i);
      assert PrincipalKey(bindings[i]) != PrincipalKey(bindings[|bindings| - 1]);
    }
  }

  lemma SamplePrincipalsDiffer()
    ensures UniqueBy(PrincipalKey, SampleRoles())
  {
    forall i, j | 0 <= i < j < 6 ensures PrincipalKey(SampleRoles()[i]) != PrincipalKey(SampleRoles()[j]) {
      assert PRINCIPALS[i][0] != PRINCIPALS[j][0];
    }
  }

  /** In the sample everybody has exactly the job at their place in the list. */
  lemma SampleJob(i: nat)
    requires i < 6
    ensures HasRole(RoleMap(SampleRoles()), PRINCIPALS[i], JOBS[i])
  {
    hide RoleMap;
    SamplePrincipalsDiffer();
    RoleMapHas(SampleRoles(), i);
    OneKey(Itself, JOBS[i]);
  }

  lemma SampleIsCovered()
    ensures Covered(RoleMap(SampleRoles()))
  {
    hide RoleMap;
    SampleJob(0);
    SampleJob(1);
    SampleJob(2);
    SampleJob(3);
    SampleJob(4);
    SampleJob(5);
    assert PRINCIPALS[0] != PRINCIPALS[1];
  }

  lemma SampleBinding(i: nat)
    requires i < 6
    ensures ValidBinding(SampleRoles()[i])
  {
    assert ValidIdentifier(PRINCIPALS[i]) && ValidRole(JOBS[i]);
  }

  lemma SampleRolesAreValid(revision: uint64, parent: string, age: uint64)
    ensures ValidRoles(Sample(revision, parent, age))
  {
    hide RoleMap, Covered, ValidBinding, UniqueBy;
    SamplePrincipalsDiffer();
    SampleIsCovered();
    forall i | 0 <= i < 6 ensures ValidBinding(SampleRoles()[i]) { SampleBinding(i); }
  }

  /** Valid configurations exist, of every revision with a parent to match and every supported offline age. */
  lemma SamplesAreValid(revision: uint64, parent: string, age: uint64)
    requires revision != 0 && (if revision == 1 then parent == "" else Hex64(parent))
      && 0 < age <= MAXIMUM_EDGE_OFFLINE_AGE_NS
    ensures ValidConfiguration(Sample(revision, parent, age))
  {
    hide ValidStrategies, ValidVenues, ValidRiskLimits, ValidModels, ValidCaps, ValidSessions, ResolvedStrategies,
         ValidCalendar,
         ValidKills, ValidRoles, ValidIdentifier, ValidSemantic, Hex64;
    RegistryHistory.SampleVersionIsSemantic();
    SampleListsAreValid(revision, parent, age);
    SampleRolesAreValid(revision, parent, age);
  }

  // ----- and canonical ones ----------------------------------------------------------------------------------

  lemma OneIsSorted<T(!new)>(before: (T, T) -> bool, x: T)
    ensures Sorting.Sort(before, [x]) == [x]
  {
    assert [x][1..] == [];
  }

  lemma OneIsMapped<S, T>(f: S -> T, x: S)
    ensures Sorting.Map(f, [x]) == [f(x)]
  {
  }

  lemma SampleBindingsAreCanonical()
    ensures Sorting.Map(Canonical.CanonicalBinding, SampleRoles()) == SampleRoles()
  {
    hide Sorting.Sort;
    var roles := SampleRoles();
    forall i | 0 <= i < 6 ensures Canonical.CanonicalBinding(roles[i]) == roles[i] {
      OneIsSorted(Canonical.By(Itself), JOBS[i]);
    }
  }

  lemma EarlierIsNotAfter(i: nat, j: nat)
    requires i < j < 6
    ensures !Sorting.Less(PRINCIPALS[j], PRINCIPALS[i])
  {
    assert PRINCIPALS[i][0] < PRINCIPALS[j][0];
  }

  lemma SampleRolesAreSorted()
    ensures Sorting.Sort(Canonical.By(PrincipalKey), Sorting.Map(Canonical.CanonicalBinding, SampleRoles())) ==
      SampleRoles()
  {
    hide Sorting.Sort, Sorting.Map, Sorting.Less;
    var roles := SampleRoles();
    SampleBindingsAreCanonical();
    forall i, j | 0 <= i < j < 6 ensures !Canonical.By(PrincipalKey)(roles[j], roles[i]) {
      EarlierIsNotAfter(i, j);
      assert PrincipalKey(roles[j]) == PRINCIPALS[j] && PrincipalKey(roles[i]) == PRINCIPALS[i];
    }
    Sorting.SortOfSorted(Canonical.By(PrincipalKey), roles);
  }

  lemma SampleIsCanonical(revision: uint64, parent: string, age: uint64)
    ensures Canonical.Canonical(Sample(revision, parent, age)) == Sample(revision, parent, age)
  {
    hide Sorting.Sort, Sorting.Map;
    var c := Sample(revision, parent, age);
    OneIsSorted(Canonical.By(Itself), "a");
    OneIsMapped(Canonical.CanonicalStrategy, c.strategies[0]);
    OneIsSorted(Canonical.By(StrategyKey), c.strategies[0]);
    OneIsSorted(Canonical.By(VenueKey), c.venues[0]);
    OneIsSorted(Canonical.By(InstrumentKey), c.riskLimits[0].symbolLimits[0]);
    OneIsMapped(Canonical.CanonicalLimits, c.riskLimits[0]);
    OneIsSorted(Canonical.By(AccountKey), c.riskLimits[0]);
    OneIsMapped(Canonical.CanonicalModel, c.models[0]);
    OneIsSorted(Canonical.ModelBefore, c.models[0]);
    OneIsSorted(Canonical.By(Canonical.CapOrderKey), c.ensembleCaps[0]);
    OneIsSorted(Canonical.By(SessionKey), c.tradingSessions[0]);
    NothingIsSorted(Canonical.By(EventKey));
    NothingIsSorted(Canonical.By(KillKey));
    SampleRolesAreSorted();
  }

  lemma NothingIsSorted<T>(before: (T, T) -> bool)
    ensures Sorting.Sort(before, []) == []
  {
  }

  // The sample with its digest.
  function Sealed(digest: Config -> string, revision: uint64, parent: string, age: uint64): Config {
    var c := Sample(revision, parent, age);
    c.(sha256 := digest(c))
  }

  /** Finalized configurations exist: a sample with its digest is accepted. */
  lemma SealedIsFinal(digest: Config -> string, revision: uint64, parent: string, age: uint64)
    requires Canonical.HexDigest(digest)
    requires revision != 0 && (if revision == 1 then parent == "" else Hex64(parent))
      && 0 < age <= MAXIMUM_EDGE_OFFLINE_AGE_NS
    ensures Canonical.RejectFinal(digest, Sealed(digest, revision, parent, age)) == None
  {
    hide Canonical.Canonical, ValidConfiguration, Hex64;
    SamplesAreValid(revision, parent, age);
    SampleIsCanonical(revision, parent, age);
    var c := Sample(revision, parent, age);
    assert c.(sha256 := digest(c)).(sha256 := "") == c;
    assert !Canonical.HasLiveVenue(c.venues);
  }
}
