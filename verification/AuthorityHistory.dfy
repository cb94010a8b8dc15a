/** What holds over every history of configuration operations by any instances on one root. */
module AuthorityHistory {
  import opened Results
  import opened Text
  import opened DeploymentTypes
  import opened Configuration
  import opened AuditLog
  import opened Authority

  // ----- The disks any history can reach ---------------------------------------------------------------------

  type Configurations = map<string, SignedConfig>

  // Revision 1 has no parent; any other revision's parent is stored, one revision older, of the same identity.
  ghost predicate HasParent(stored: Configurations, c: Config) {
    if c.revision == 1 then c.parentSHA256 == ""
    else
      && c.parentSHA256 in stored
      && var parent := stored[c.parentSHA256].configuration;
         && parent.revision + 1 == c.revision
         && parent.configurationID == c.configurationID && parent.environment == c.environment
  }

  ghost predicate SoundConfiguration(d: Digests, stored: Configurations, sha: string)
    requires sha in stored
  {
    var c := stored[sha].configuration;
    c.sha256 == sha && Canonical.RejectFinal(d.config, c) == None && HasParent(stored, c)
  }

  ghost predicate SoundStore(d: Digests, stored: Configurations) {
    forall sha | sha in stored :: SoundConfiguration(d, stored, sha)
  }

  // What the state refers to is stored.
  ghost predicate Resolved(s: State, stored: Configurations) {
    && (s.activeHash == "" || s.activeHash in stored)
    && forall id | id in s.proposals :: s.proposals[id].configurationSHA256 in stored
  }

  ghost predicate Sound(d: Digests, disk: Disk) {
    && SoundStore(d, disk.configurations)
    && Folded(d.audit, disk.log).Some? && Resolved(Folded(d.audit, disk.log).value, disk.configurations)
  }

  // ----- One operation -------------------------------------------------------------------------------------------

  lemma ReplayOfSound(d: Digests, who: Instance, disk: Disk)
    requires Folded(d.audit, disk.log).Some?
    ensures Replay(d.audit, who, disk.log) == if BelievesAll(who, disk.log) then Folded(d.audit, disk.log) else None
    ensures WellKeptState(Folded(d.audit, disk.log).value)
  {
    hide Replay, Folded, WellKeptState;
    ReplayIsFolded(d.audit, who, disk.log);
    FoldedIsWellKept(d.audit, disk.log);
  }

  /** Replay never rejects what the services wrote, except for trust: an instance reads a reachable log if
      and only if it trusts every signer in it and every kill command in it is of its own epoch. */
  lemma ReadableExactly(d: Digests, who: Instance, disk: Disk)
    requires Sound(d, disk)
    ensures Replay(d.audit, who, disk.log).Some? <==> BelievesAll(who, disk.log)
  {
    hide Replay, Folded, SoundStore, Resolved;
    ReplayOfSound(d, who, disk);
  }

  /** After every operation that learned the fate of its write, and so after every successful one, the
      instance's memory is the replay of the log. */
  lemma MemoryIsReplay(d: Digests, who: Instance, disk: Disk, memory: State, q: Request, now: int, io: Durability)
    requires ValidInstance(who) && Sound(d, disk) && Replay(d.audit, who, disk.log).Some?
    requires var after := Perform(d, who, disk, memory, q, now, io); after.result.Ok? || !io.Unacknowledged?
    ensures var after := Perform(d, who, disk, memory, q, now, io);
      Replay(d.audit, who, after.disk.log) == Some(after.memory)
  {
    hide Folded, SoundStore, Resolved, ValidInstance, Plan, NewRecord, Committed, After, Accepts, Believes,
         WellKeptState, BelievesAll;
    ReplayOfSound(d, who, disk);
    var s := Replay(d.audit, who, disk.log).value;
    if Plan(d, who, disk, s, q, now).Ok? {
      EffectReplays(d, who, disk, s, q, now);
      var record := NewRecord(d, who, s, Plan(d, who, disk, s, q, now).value, now);
      assert (disk.log + [record])[..|disk.log|] == disk.log;
    }
  }

  lemma StoreGrows(d: Digests, stored: Configurations, signed: SignedConfig)
    requires SoundStore(d, stored) && Canonical.RejectFinal(d.config, signed.configuration) == None
    requires var sha := signed.configuration.sha256; sha in stored ==> stored[sha] == signed
    requires HasParent(stored, signed.configuration)
    ensures SoundStore(d, stored[signed.configuration.sha256 := signed])
  {
    hide Canonical.RejectFinal;
    var next := stored[signed.configuration.sha256 := signed];
    forall sha | sha in next ensures SoundConfiguration(d, next, sha) {
      if sha in stored { assert SoundConfiguration(d, stored, sha); }
    }
  }

  lemma FinalIsValid(d: Digests, c: Config)
    requires Canonical.RejectFinal(d.config, c) == None
    ensures c.revision != 0 && Hex64(c.sha256)
  {
    hide Canonical.Canonical, Hex64, ValidCounts, ValidStrategies, ValidVenues, ValidRiskLimits, ValidModels, ValidCaps,
         ValidSessions, ResolvedStrategies, ValidCalendar, ValidKills, ValidRoles, Canonical.HasLiveVenue;
    assert ValidHeader(Canonical.Canonical(c.(sha256 := "")));
  }

  lemma LineageGivesParent(d: Digests, who: Instance, disk: Disk, s: State, c: Config)
    requires SoundStore(d, disk.configurations) && Canonical.RejectFinal(d.config, c) == None
    requires CheckLineage(d, who, disk, s, c) == None
    ensures HasParent(disk.configurations, c)
    ensures s.activeHash != "" ==>
      s.activeHash in disk.configurations && FollowsActive(disk.configurations[s.activeHash].configuration, c)
  {
    hide Canonical.RejectFinal, SoundStore, CheckLineage, HasParent;
    FinalIsValid(d, c);
    if s.activeHash == "" {
      FirstHasNoParent(d, who, disk, s, c);
    } else {
      FollowsLoaded(d, who, disk, s, c);
      SoundAt(d, disk.configurations, s.activeHash);
      FinalIsValid(d, disk.configurations[s.activeHash].configuration);
      FollowerHasParent(disk.configurations, s.activeHash, c);
    }
  }

  lemma FirstHasNoParent(d: Digests, who: Instance, disk: Disk, s: State, c: Config)
    requires s.activeHash == "" && CheckLineage(d, who, disk, s, c) == None
    ensures HasParent(disk.configurations, c)
  {
  }

  lemma FollowsLoaded(d: Digests, who: Instance, disk: Disk, s: State, c: Config)
    requires s.activeHash != "" && CheckLineage(d, who, disk, s, c) == None
    ensures s.activeHash in disk.configurations
    ensures FollowsActive(disk.configurations[s.activeHash].configuration, c)
  {
    hide VerifiedConfig, Hex64, FollowsActive;
  }

  lemma FollowerHasParent(stored: Configurations, active: string, c: Config)
    requires active in stored && stored[active].configuration.sha256 == active && c.revision != 0
    requires FollowsActive(stored[active].configuration, c) && stored[active].configuration.revision != 0
    ensures HasParent(stored, c)
  {
  }

  lemma ProposeStores(d: Digests, who: Instance, disk: Disk, s: State, q: Request, now: int)
    requires SoundStore(d, disk.configurations) && q.Propose? && PlanPropose(d, who, disk, s, q, now).Ok?
    ensures SoundStore(d, Stored(disk, q).configurations)
    ensures disk.configurations.Keys <= Stored(disk, q).configurations.Keys
    ensures forall sha | sha in disk.configurations :: Stored(disk, q).configurations[sha] == disk.configurations[sha]
  {
    hide Canonical.RejectFinal, CheckLineage, Authorize, Blank, SoundStore, HasParent;
    var c := q.signed.configuration;
    LineageGivesParent(d, who, disk, s, c);
    StoreGrows(d, disk.configurations, q.signed);
  }

  // Every effect refers only to stored configurations.
  lemma EffectResolves(d: Digests, who: Instance, disk: Disk, s: State, q: Request, now: int)
    requires Resolved(s, disk.configurations) && WellKeptState(s) && Plan(d, who, disk, s, q, now).Ok?
    ensures Resolved(Plan(d, who, disk, s, q, now).value.memory, Stored(disk, q).configurations)
  {
    hide VerifiedConfig, Authorize, Blank, CheckLineage, Hex64, ValidIdentifier, ValidKillCommand;
  }

  lemma Unaffected(s: State, stored: Configurations, t: State, more: Configurations)
    requires Resolved(s, stored) && stored.Keys <= more.Keys && t.activeHash == s.activeHash
      && t.proposals == s.proposals
    ensures Resolved(t, more)
  {
  }

  /** Every operation, whatever becomes of its writes, keeps the disk sound and changes no stored
      configuration. */
  lemma PerformKeepsSound(d: Digests, who: Instance, disk: Disk, memory: State, q: Request, now: int, io: Durability)
    requires ValidInstance(who) && Sound(d, disk)
    ensures var next := Perform(d, who, disk, memory, q, now, io).disk;
      && Sound(d, next)
      && disk.configurations.Keys <= next.configurations.Keys
      && forall sha | sha in disk.configurations :: next.configurations[sha] == disk.configurations[sha]
  {
    hide Folded, Replay, SoundStore, Resolved, ValidInstance, Plan, PlanPropose, NewRecord, Committed, After, Accepts,
         Believes, WellKeptState, BelievesAll;
    ReplayOfSound(d, who, disk);
    if Replay(d.audit, who, disk.log).Some? {
      var s := Replay(d.audit, who, disk.log).value;
      if Plan(d, who, disk, s, q, now).Ok? {
        var e := Plan(d, who, disk, s, q, now).value;
        EffectReplays(d, who, disk, s, q, now);
        EffectResolves(d, who, disk, s, q, now);
        var record := NewRecord(d, who, s, e, now);
        FoldedExtends(d.audit, disk.log, record);
        CommittedRefers(e, record, Stored(disk, q).configurations);
        if q.Propose? { PlannedPropose(d, who, disk, s, q, now); ProposeStores(d, who, disk, s, q, now); }
        Unaffected(s, disk.configurations, s, Stored(disk, q).configurations);
      }
    }
  }

  lemma PlannedPropose(d: Digests, who: Instance, disk: Disk, s: State, q: Request, now: int)
    requires q.Propose?
    ensures Plan(d, who, disk, s, q, now) == PlanPropose(d, who, disk, s, q, now)
  {
    hide PlanPropose;
  }

  lemma CommittedRefers(e: Effect, r: AuditRecord, stored: Configurations)
    requires Resolved(e.memory, stored)
    ensures Resolved(Committed(e, r), stored)
  {
  }

  // ----- Histories ----------------------------------------------------------------------------------------------

  datatype Step = Step(who: Instance, memory: State, request: Request, now: int, io: Durability)

  const EMPTY_DISK := Disk(map[], [])

  function Run(d: Digests, disk: Disk, steps: seq<Step>): Disk {
    if steps == [] then disk
    else
      var last := steps[|steps| - 1];
      Perform(d, last.who, Run(d, disk, steps[..|steps| - 1]), last.memory, last.request, last.now, last.io).disk
  }

  ghost predicate ValidSteps(steps: seq<Step>) { forall i | 0 <= i < |steps| :: ValidInstance(steps[i].who) }

  lemma {:induction false} EveryDiskIsSound(d: Digests, steps: seq<Step>)
    requires ValidSteps(steps)
    ensures Sound(d, Run(d, EMPTY_DISK, steps))
  {
    hide Perform, Sound, ValidInstance;
    if steps == [] {
      EmptyIsSound(d);
    } else {
      var front, last := steps[..|steps| - 1], steps[|steps| - 1];
      EveryDiskIsSound(d, front);
      PerformKeepsSound(d, last.who, Run(d, EMPTY_DISK, front), last.memory, last.request, last.now, last.io);
    }
  }

  lemma EmptyIsSound(d: Digests)
    ensures Sound(d, EMPTY_DISK)
  {
    assert Folded(d.audit, []) == Some(EMPTY_STATE);
  }

  // The reader trusts the writer's signatures and has its epoch.
  predicate Recognizes(reader: Instance, writer: Instance) {
    Trusted(reader.trust, writer.keyID, writer.signer) && writer.epoch == reader.epoch
  }

  /** Instances that recognize every writer never find the log unreadable, in any history. */
  lemma {:induction false} RecognizedHistoriesAreReadable(d: Digests, reader: Instance, steps: seq<Step>)
    requires ValidSteps(steps) && forall i | 0 <= i < |steps| :: Recognizes(reader, steps[i].who)
    ensures Replay(d.audit, reader, Run(d, EMPTY_DISK, steps).log).Some?
  {
    hide Perform, Sound, ValidInstance, Replay, Recognizes, Believes;
    EveryDiskIsSound(d, steps);
    ReadableExactly(d, reader, Run(d, EMPTY_DISK, steps));
    if steps != [] {
      var front, last := steps[..|steps| - 1], steps[|steps| - 1];
      RecognizedHistoriesAreReadable(d, reader, front);
      EveryDiskIsSound(d, front);
      var disk := Run(d, EMPTY_DISK, front);
      ReadableExactly(d, reader, disk);
      WriterIsBelieved(d, reader, last, disk);
    }
  }

  lemma WriterIsBelieved(d: Digests, reader: Instance, step: Step, disk: Disk)
    requires Recognizes(reader, step.who) && BelievesAll(reader, disk.log)
    ensures BelievesAll(reader, Perform(d, step.who, disk, step.memory, step.request, step.now, step.io).disk.log)
  {
    hide Replay, Authorize, VerifiedConfig, LoadConfiguration, CheckLineage, ValidKillCommand, Committed, Blank, Hex64;
  }

  // All kill commands in the log carry one epoch.
  ghost predicate OneEpoch(log: seq<AuditRecord>) {
    forall i, j | 0 <= i < |log| && 0 <= j < |log| && log[i].body.event.KillEngaged?
      && log[j].body.event.KillEngaged? ::
      log[i].body.event.kill.command.authorityEpoch == log[j].body.event.kill.command.authorityEpoch
  }

  lemma EpochKept(d: Digests, who: Instance, disk: Disk, memory: State, q: Request, now: int, io: Durability)
    requires ValidInstance(who) && Sound(d, disk) && OneEpoch(disk.log)
    ensures OneEpoch(Perform(d, who, disk, memory, q, now, io).disk.log)
  {
    hide Sound, ValidInstance, Accepts, After, Replay, Plan, NewRecord, WellKeptState, Committed, Folded;
    ReadableExactly(d, who, disk);
    assert Folded(d.audit, disk.log).Some? by { SoundIsFolded(d, disk); }
    ReplayOfSound(d, who, disk);
    if Replay(d.audit, who, disk.log).Some? {
      var s := Replay(d.audit, who, disk.log).value;
      if Plan(d, who, disk, s, q, now).Ok? {
        EffectReplays(d, who, disk, s, q, now);
        var record := NewRecord(d, who, s, Plan(d, who, disk, s, q, now).value, now);
        var longer := disk.log + [record];
        forall i | 0 <= i < |longer| ensures Believes(who, longer[i]) {
          if i < |disk.log| { assert longer[i] == disk.log[i]; }
        }
      }
    }
  }

  lemma SoundIsFolded(d: Digests, disk: Disk)
    requires Sound(d, disk)
    ensures Folded(d.audit, disk.log).Some? && Resolved(Folded(d.audit, disk.log).value, disk.configurations)
    ensures SoundStore(d, disk.configurations)
  {
    hide SoundStore, Resolved, Folded;
  }

  /** A log never mixes epochs: once a kill command is logged, only instances of its epoch can write. */
  lemma {:induction false} EveryLogHasOneEpoch(d: Digests, steps: seq<Step>)
    requires ValidSteps(steps)
    ensures OneEpoch(Run(d, EMPTY_DISK, steps).log)
  {
    hide Perform, Sound, ValidInstance, OneEpoch;
    if steps == [] {
      assert OneEpoch([]) by { NoEpochs(); }
    } else {
      var front, last := steps[..|steps| - 1], steps[|steps| - 1];
      EveryLogHasOneEpoch(d, front);
      EveryDiskIsSound(d, front);
      EpochKept(d, last.who, Run(d, EMPTY_DISK, front), last.memory, last.request, last.now, last.io);
    }
  }

  lemma NoEpochs()
    ensures OneEpoch([])
  {
  }

  // ----- Lineage ---------------------------------------------------------------------------------------------------

  // A chain from a configuration down to revision 1 through parents.
  ghost predicate Lineage(stored: Configurations, sha: string, chain: seq<string>) {
    && chain != [] && chain[0] == sha
    && (forall i | 0 <= i < |chain| :: InLineage(stored, sha, chain, i))
  }

  ghost predicate InLineage(stored: Configurations, sha: string, chain: seq<string>, i: nat)
    requires i < |chain|
  {
    && sha in stored && chain[i] in stored
    && var c := stored[chain[i]].configuration;
       && c.revision == |chain| - i
       && c.configurationID == stored[sha].configuration.configurationID
       && c.environment == stored[sha].configuration.environment
       && c.parentSHA256 == if i + 1 == |chain| then "" else chain[i + 1]
  }

  lemma Parent(d: Digests, stored: Configurations, sha: string)
    requires SoundStore(d, stored) && sha in stored
    ensures stored[sha].configuration.revision != 0 && HasParent(stored, stored[sha].configuration)
  {
    hide Canonical.RejectFinal, HasParent;
    assert SoundConfiguration(d, stored, sha);
    FinalIsValid(d, stored[sha].configuration);
  }

  lemma ExtendLineage(stored: Configurations, sha: string, rest: seq<string>)
    requires sha in stored && stored[sha].configuration.revision > 1 && HasParent(stored, stored[sha].configuration)
    requires Lineage(stored, stored[sha].configuration.parentSHA256, rest)
    requires |rest| == stored[sha].configuration.revision - 1
    ensures Lineage(stored, sha, [sha] + rest)
  {
    var chain, parent := [sha] + rest, stored[sha].configuration.parentSHA256;
    forall i | 0 <= i < |chain| ensures InLineage(stored, sha, chain, i) {
      if i > 0 { assert InLineage(stored, parent, rest, i - 1) && chain[i] == rest[i - 1]; }
    }
  }

  /** Every stored configuration heads a complete parent chain: as long as its revision number, ending at
      revision 1, of one identity and environment throughout. */
  lemma {:induction false} LineageIsComplete(d: Digests, stored: Configurations,
                                             sha: string) returns (chain: seq<string>)
    requires SoundStore(d, stored) && sha in stored
    ensures Lineage(stored, sha, chain) && |chain| == stored[sha].configuration.revision
    decreases stored[sha].configuration.revision
  {
    hide SoundStore;
    Parent(d, stored, sha);
    if stored[sha].configuration.revision == 1 {
      chain := [sha];
    } else {
      hide Lineage;
      var rest := LineageIsComplete(d, stored, stored[sha].configuration.parentSHA256);
      chain := [sha] + rest;
      ExtendLineage(stored, sha, rest);
    }
  }

  // From an active configuration to its direct child, or to an older revision, of the same identity.
  ghost predicate AlongLineage(stored: Configurations, before: string, after: string) {
    && before in stored && after in stored
    && var x, y := stored[before].configuration, stored[after].configuration;
       && y.configurationID == x.configurationID && y.environment == x.environment
       && (y.revision < x.revision || (y.revision == x.revision + 1 && y.parentSHA256 == before))
  }

  lemma ActivatePlan(d: Digests, who: Instance, disk: Disk, s: State, q: Request, now: int) returns (c: Config)
    requires q.Activate? && PlanActivate(d, who, disk, s, q, now).Ok?
    ensures c.sha256 in disk.configurations && disk.configurations[c.sha256].configuration == c
    ensures Canonical.RejectFinal(d.config, c) == None && CheckLineage(d, who, disk, s, c) == None
    ensures PlanActivate(d, who, disk, s, q, now).value.memory.activeHash == c.sha256
  {
    hide Authorize, CheckLineage, Blank, Hex64, Canonical.RejectFinal, ValidNow;
    c := disk.configurations[s.proposals[q.proposalID].configurationSHA256].configuration;
  }

  lemma ActivateMoves(d: Digests, who: Instance, disk: Disk, s: State, q: Request, now: int)
    requires SoundStore(d, disk.configurations) && q.Activate? && s.activeHash != ""
    requires PlanActivate(d, who, disk, s, q, now).Ok?
    ensures AlongLineage(disk.configurations, s.activeHash,
                         PlanActivate(d, who, disk, s, q, now).value.memory.activeHash)
  {
    hide PlanActivate, CheckLineage, Hex64, SoundStore, HasParent, Canonical.RejectFinal;
    var c := ActivatePlan(d, who, disk, s, q, now);
    LineageGivesParent(d, who, disk, s, c);
    SoundAt(d, disk.configurations, s.activeHash);
    FinalIsValid(d, c);
  }

  lemma RollbackMoves(d: Digests, who: Instance, disk: Disk, s: State, q: Request, now: int)
    requires q.Rollback? && PlanRollback(d, who, disk, s, q, now).Ok?
    ensures AlongLineage(disk.configurations, s.activeHash,
                         PlanRollback(d, who, disk, s, q, now).value.memory.activeHash)
  {
    hide Authorize, VerifiedConfig, Blank, Hex64;
  }

  lemma OthersStay(d: Digests, who: Instance, disk: Disk, s: State, q: Request, now: int)
    requires !q.Activate? && !q.Rollback? && Plan(d, who, disk, s, q, now).Ok?
    ensures Plan(d, who, disk, s, q, now).value.memory.activeHash == s.activeHash
  {
    hide Authorize, VerifiedConfig, CheckLineage, Blank, ValidKillCommand, PlanActivate, PlanRollback;
  }

  /** The active configuration moves only along the lineage: a successful change from an active
      configuration goes to its direct child or to an older revision, never to another identity. */
  lemma ActiveMoves(d: Digests, who: Instance, disk: Disk, memory: State, q: Request, now: int)
    requires ValidInstance(who) && Sound(d, disk) && Replay(d.audit, who, disk.log).Some?
    requires Perform(d, who, disk, memory, q, now, Durable).result.Ok?
    requires Replay(d.audit, who, disk.log).value.activeHash != ""
    ensures var before := Replay(d.audit, who, disk.log).value.activeHash;
      var after := Perform(d, who, disk, memory, q, now, Durable).memory.activeHash;
      after == before || AlongLineage(disk.configurations, before, after)
  {
    hide Replay, PlanPropose, PlanApprove, PlanActivate, PlanRollback, PlanKill, SoundStore, Resolved, Folded,
         AlongLineage;
    var s := Replay(d.audit, who, disk.log).value;
    match q
    case Activate(_, _, _) => ActivateMoves(d, who, disk, s, q, now);
    case Rollback(_, _, _, _, _) => RollbackMoves(d, who, disk, s, q, now);
    case _ => OthersStay(d, who, disk, s, q, now);
  }

  lemma SoundAt(d: Digests, stored: Configurations, sha: string)
    requires SoundStore(d, stored) && sha in stored
    ensures stored[sha].configuration.sha256 == sha
      && Canonical.RejectFinal(d.config, stored[sha].configuration) == None
  {
    hide Canonical.RejectFinal, HasParent;
    assert SoundConfiguration(d, stored, sha);
  }

  // ----- Rollback targets --------------------------------------------------------------------------------------------

  // Stored on a reachable disk and signed by a key the instance trusts.
  predicate Available(who: Instance, disk: Disk, sha: string) {
    sha in disk.configurations && Trusted(who.trust, disk.configurations[sha].keyID, disk.configurations[sha].signer)
  }

  lemma LoadsExactly(d: Digests, who: Instance, disk: Disk, sha: string)
    requires SoundStore(d, disk.configurations)
    ensures LoadConfiguration(d, who, disk, sha).Ok? <==> Available(who, disk, sha)
  {
    hide Hex64, Canonical.RejectFinal, SoundStore;
    if sha in disk.configurations {
      SoundAt(d, disk.configurations, sha);
      FinalIsHex(d, disk.configurations[sha].configuration);
    }
  }

  // Two authorized principals with distinct requests and a reason ask to leave the active configuration.
  predicate DualRequest(d: Digests, who: Instance, disk: Disk, s: State, q: Request, now: int)
    requires q.Rollback?
  {
    && who.mutable && Authorize(d, who, disk, s, q.initiator, ROLLBACK_OPERATOR, now) == None
    && Authorize(d, who, disk, s, q.approver, APPROVER, now) == None
    && q.initiator.principal != q.approver.principal && q.initiator.requestID != q.approver.requestID
    && BoundedText(q.reason, 512) && q.expectedActiveSHA256 == s.activeHash
  }

  lemma PlanRollbackExactly(d: Digests, who: Instance, disk: Disk, s: State, q: Request, now: int)
    requires q.Rollback? && SoundStore(d, disk.configurations)
    ensures PlanRollback(d, who, disk, s, q, now).Ok? <==>
      && DualRequest(d, who, disk, s, q, now) && Available(who, disk, s.activeHash)
      && Available(who, disk, q.targetSHA256)
      && OlderSibling(disk.configurations[q.targetSHA256].configuration,
                      disk.configurations[s.activeHash].configuration)
      && ValidNow(disk.configurations[q.targetSHA256].configuration, now)
  {
    hide Authorize, VerifiedConfig, Blank, Hex64, SoundStore, Available;
    LoadsExactly(d, who, disk, s.activeHash);
    LoadsExactly(d, who, disk, q.targetSHA256);
  }

  lemma RollbackActivates(d: Digests, who: Instance, disk: Disk, s: State, q: Request, now: int)
    requires q.Rollback? && PlanRollback(d, who, disk, s, q, now).Ok?
    ensures PlanRollback(d, who, disk, s, q, now).value.memory.activeHash == q.targetSHA256
    ensures PlanRollback(d, who, disk, s, q, now).value.event == RolledBackTo(q.targetSHA256)
  {
    hide Authorize, LoadConfiguration, Blank, Hex64, OlderSibling, ValidNow;
  }

  // ----- What was ever active --------------------------------------------------------------------------------

  function Activates(event: AuditEvent): set<string> {
    match event
    case Activated(p) => {p.configurationSHA256}
    case RolledBackTo(sha) => {sha}
    case _ => {}
  }

  // The configurations a log ever made active.
  function EverActive(log: seq<AuditRecord>): set<string> {
    if log == [] then {} else EverActive(log[..|log| - 1]) + Activates(log[|log| - 1].body.event)
  }
}
