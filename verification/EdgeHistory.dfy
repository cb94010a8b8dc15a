/** Edge histories that are reachable from empty files: a kill log that no edge can open again, and an
    installed revision that the file loses. */
module EdgeHistory {
  import opened Results
  import opened Text
  import opened DeploymentTypes
  import opened Configuration
  import opened AuditLog
  import opened Authority
  import opened EdgeRuntime
  import opened EdgeCache
  import opened Consistency

  const NEW_EDGE := Closed(EdgeDisk([], None))

  function Edge1(): Identity { Identity(map["k" := 0], 1, "a", "a") }

  function Start(): Step { Restart(Edge1(), Startup(1, 0)) }

  // A trusted configuration of any revision; a parent is any digest.
  function Revision(d: Digests, revision: uint64): SignedConfig {
    SignedConfig(Sealed(d.config, revision, if revision == 1 then "" else d.config(Sample(1, "", 1)), 1), "k", 0)
  }

  function Install1(d: Digests, revision: uint64, fate: Fate): Step { Installing(Revision(d, revision), 1, 0, fate) }

  lemma RevisionIsVerified(d: Digests, revision: uint64)
    requires Canonical.HexDigest(d.config) && revision > 0
    ensures VerifiedConfig(d, Edge1().trust, Revision(d, revision))
      && ForIdentity(Edge1(), Revision(d, revision).configuration)
  {
    hide Canonical.RejectFinal, Hex64;
    SealedIsFinal(d.config, revision, if revision == 1 then "" else d.config(Sample(1, "", 1)), 1);
  }

  lemma Starts(d: Digests)
    ensures Next(d, NEW_EDGE, Start()) == Opened(Edge1(), Cache(EdgeDisk([], None), None), [])
  {
    assert "k" in Edge1().trust && ValidIdentifier("k") && ValidIdentifier("a");
  }

  // Revision 1 is published.
  lemma FirstInstalled(d: Digests)
    requires Canonical.HexDigest(d.config)
    ensures Run(d, NEW_EDGE, [Start(), Install1(d, 1, Written)]) ==
      Opened(Edge1(),
             Cache(EdgeDisk([], Some(Cached(Revision(d, 1), 1))),
                   Some(Build(Revision(d, 1).configuration, 1, 0, map[]))), [])
  {
    hide VerifiedConfig, Build, Sealed, Sample;
    RevisionIsVerified(d, 1);
    Starts(d);
    TwoSteps(d, NEW_EDGE, Start(), Install1(d, 1, Written));
    RevisionFields(d, 1);
  }

  lemma RevisionFields(d: Digests, revision: uint64)
    ensures var c := Revision(d, revision).configuration;
      && c.revision == revision && c.validFromWallUTCNS == 1 && c.validUntilWallUTCNS == 100
      && c.configurationID == "a" && c.environment == "a" && c.sha256 == d.config(c.(sha256 := ""))
  {
    var c := Revision(d, revision).configuration;
    assert c.(sha256 := "") == Sample(revision, if revision == 1 then "" else d.config(Sample(1, "", 1)), 1);
  }

  lemma TwoSteps(d: Digests, e: Edge, x: Step, y: Step)
    ensures Run(d, e, [x, y]) == Next(d, Next(d, e, x), y)
  {
    hide Next;
    assert [x, y][..1] == [x] && [x][..0] == [];
    assert Run(d, e, [x]) == Next(d, e, x);
  }

  // ----- A kill log that locks -------------------------------------------------------------------------------

  function Stop(d: Digests): SignedKill {
    SignedKill(KillCommand(1, "c", Revision(d, 1).configuration.sha256, FIRM_SCOPE, "", 1, 1, 1, "r", true), "k", 0)
  }

  lemma StopIsValid(d: Digests)
    requires Canonical.HexDigest(d.config)
    ensures VerifiedKill(Edge1().trust, Stop(d))
  {
    hide Hex64;
  }

  /** An edge that installed a configuration, whose kill command was written although it got an error, and
      that retried the command: whatever happens next, no restart opens again. */
  lemma LockedLogIsReachable(d: Digests, steps: seq<Step>, id: Identity, at: Startup)
    requires Canonical.HexDigest(d.config)
    ensures var installed := Run(d, NEW_EDGE, [Start(), Install1(d, 1, Written)]);
      var retried := Next(d, Next(d, installed, Killing(Stop(d), Stray)), Killing(Stop(d), Written));
      Next(d, Run(d, retried, steps), Restart(id, at)).Closed?
  {
    hide Next, VerifiedKill, Build, Canonical.RejectFinal, Sealed, Sample, WellKept;
    FirstInstalled(d);
    var installed := Run(d, NEW_EDGE, [Start(), Install1(d, 1, Written)]);
    RevisionIsVerified(d, 1);
    StopIsValid(d);
    BuiltConfiguration(d, Revision(d, 1).configuration, 1, 0, map[]);
    assert WellKept(d, NEW_EDGE) by { ClosedIsWellKept(d); }
    EveryRunIsWellKept(d, NEW_EDGE, [Start(), Install1(d, 1, Written)]);
    assert LiveAccepts(Edge1(), installed.cache, Stop(d)) by { NothingIsMaximum(); }
    RetryLocksLog(d, installed, Stop(d), id, at, steps);
  }

  lemma ClosedIsWellKept(d: Digests)
    ensures WellKept(d, NEW_EDGE)
  {
  }

  lemma NothingIsMaximum()
    ensures MaximumSequence(map[]) == 0
  {
  }

  // ----- A file that falls back ------------------------------------------------------------------------------------

  /** After a stray install of revision 3 an edge accepts revision 2, and the file falls back to it. */
  lemma FileFallsBack(d: Digests)
    requires Canonical.HexDigest(d.config)
    requires Revision(d, 1).configuration.sha256 != Revision(d, 2).configuration.sha256
    requires Revision(d, 1).configuration.sha256 != Revision(d, 3).configuration.sha256
    ensures var installed := Run(d, NEW_EDGE, [Start(), Install1(d, 1, Written)]);
      var stray := Next(d, installed, Install1(d, 3, Stray));
      var replaced := Next(d, stray, Install1(d, 2, Written));
      && OnDisk(DiskOf(stray)) == Some(Standing(Revision(d, 3).configuration, 1))
      && OnDisk(DiskOf(replaced)) == Some(Standing(Revision(d, 2).configuration, 1)) == Published(replaced)
      && !Advances(OnDisk(DiskOf(stray)), OnDisk(DiskOf(replaced)))
  {
    hide VerifiedConfig, Build, Sealed, Sample, Canonical.RejectFinal, Run;
    FirstInstalled(d);
    RevisionIsVerified(d, 1);
    RevisionIsVerified(d, 2);
    RevisionIsVerified(d, 3);
    RevisionFields(d, 1);
    RevisionFields(d, 2);
    RevisionFields(d, 3);
    BuiltRevision(d, 1);
    BuiltRevision(d, 2);
  }

  // Such digests exist.
  function ByRevision(c: Config): string { Digits(c.revision, 64) }

  lemma RevisionsDiffer(audit: AuditBody -> string)
    ensures var d := Digests(ByRevision, audit);
      && Canonical.HexDigest(d.config)
      && Revision(d, 1).configuration.sha256 != Revision(d, 2).configuration.sha256
      && Revision(d, 1).configuration.sha256 != Revision(d, 3).configuration.sha256
  {
    hide Digits, Power16;
    RevisionFits(1);
    RevisionFits(2);
    RevisionFits(3);
    if Digits(1, 64) == Digits(2, 64) { DigitsSeparate(1, 2, 64); }
    if Digits(1, 64) == Digits(3, 64) { DigitsSeparate(1, 3, 64); }
  }

  lemma BuiltRevision(d: Digests, revision: uint64)
    requires Canonical.HexDigest(d.config) && revision > 0
    ensures var r := Build(Revision(d, revision).configuration, 1, 0, map[]);
      r.configuration == Revision(d, revision).configuration && r.installedWallUTCNS == 1 && r.emergencyKills == map[]
  {
    hide Canonical.RejectFinal, Build, Sealed, Sample;
    RevisionIsVerified(d, revision);
    BuiltConfiguration(d, Revision(d, revision).configuration, 1, 0, map[]);
  }
}
