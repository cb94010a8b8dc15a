/** Two reachable histories. In one a rollback activates a configuration that nobody approved and that was
    never active: propose A and its sibling B, activate A, activate A's child C, roll back to B. In the other
    an instance of another epoch writes to the log, and after a kill command can no longer read it. */
module RollbackHistory {
  import opened Results
  import opened Text
  import opened DeploymentTypes
  import opened Configuration
  import opened AuditLog
  import opened Authority
  import opened AuthorityHistory
  import opened Consistency

  // ----- One instance, one key, one principal for each job ------------------------------------------------

  function Operator(epoch: uint64): Instance { Instance(map["k" := 0], "k", 0, epoch, RoleMap(SampleRoles()), true) }

  function Signed(c: Config): SignedConfig { SignedConfig(c, "k", 0) }

  const REQUEST_IDS: seq<string> := ["1", "2", "3", "4", "5", "6", "7", "8", "9"]

  function By(epoch: uint64, job: nat, n: nat): Auth
    requires job < 6 && n < 9
  {
    Auth(true, PRINCIPALS[job], REQUEST_IDS[n], epoch, 1, 100)
  }

  ghost predicate Ours(signed: SignedConfig) {
    && signed.keyID == "k" && signed.signer == 0 && signed.configuration.operatorRoles == SampleRoles()
    && signed.configuration.validFromWallUTCNS == 1 && signed.configuration.validUntilWallUTCNS == 100
  }

  predicate NoKills(log: seq<AuditRecord>) { forall i | 0 <= i < |log| :: !log[i].body.event.KillEngaged? }

  // The steps lead from the empty root to this disk, which replays to this state; everything stored is
  // signed by the one key, there is no kill command yet, and the request identifiers from the n-th on are
  // unused.
  ghost predicate At(d: Digests, steps: seq<Step>, disk: Disk, s: State, n: nat) {
    && ValidSteps(steps) && Run(d, EMPTY_DISK, steps) == disk && Replay(d.audit, Operator(1), disk.log) == Some(s)
    && NoKills(disk.log) && s.killSequence == 0 && s.commandIDs == {}
    && (forall sha | sha in disk.configurations :: Ours(disk.configurations[sha]))
    && (forall m | n <= m < 9 :: REQUEST_IDS[m] !in s.requestIDs)
  }

  lemma StartsEmpty(d: Digests)
    ensures At(d, [], EMPTY_DISK, EMPTY_STATE, 0)
  {
  }

  lemma OperatorIsValid(epoch: uint64)
    requires epoch > 0
    ensures ValidInstance(Operator(epoch))
  {
    hide RoleMap;
  }

  lemma SoundState(d: Digests, steps: seq<Step>, disk: Disk, s: State, n: nat)
    requires At(d, steps, disk, s, n)
    ensures SoundStore(d, disk.configurations) && Resolved(s, disk.configurations) && Sound(d, disk)
  {
    hide Replay, Folded, SoundStore, Resolved, Ours, Run, ValidSteps;
    EveryDiskIsSound(d, steps);
    SoundIsFolded(d, disk);
    ReplayOfSound(d, Operator(1), disk);
  }

  // Without kill commands every epoch reads the same.
  lemma EveryEpochReads(d: Digests, disk: Disk, s: State, epoch: uint64, other: uint64)
    requires Sound(d, disk) && NoKills(disk.log) && Replay(d.audit, Operator(epoch), disk.log) == Some(s)
    ensures Replay(d.audit, Operator(other), disk.log) == Some(s)
  {
    hide Replay, Folded, SoundStore, Resolved, RoleMap;
    SoundIsFolded(d, disk);
    ReplayOfSound(d, Operator(epoch), disk);
    ReplayOfSound(d, Operator(other), disk);
    forall i | 0 <= i < |disk.log| ensures Believes(Operator(other), disk.log[i]) {
      assert Believes(Operator(epoch), disk.log[i]);
    }
  }

  /** One more successful operation, by an instance of any epoch. */
  lemma Advance(d: Digests, steps: seq<Step>, disk: Disk, s: State, n: nat, epoch: uint64, q: Request, now: int)
    returns (more: seq<Step>, next: Disk, t: State)
    requires At(d, steps, disk, s, n) && epoch > 0 && Plan(d, Operator(epoch), disk, s, q, now).Ok?
    ensures var e := Plan(d, Operator(epoch), disk, s, q, now).value;
      && more == steps + [Step(Operator(epoch), s, q, now, Durable)]
      && ValidSteps(more) && Run(d, EMPTY_DISK, more) == next && Sound(d, next)
      && Replay(d.audit, Operator(epoch), next.log) == Some(t)
      && next.configurations == Stored(disk, q).configurations && next.log != []
      && next.log[|next.log| - 1].body.event == e.event
      && EverActive(next.log) == EverActive(disk.log) + Activates(e.event)
      && (!e.event.KillEngaged? ==> NoKills(next.log))
      && t.activeHash == e.memory.activeHash && t.proposals == e.memory.proposals && t.requestIDs == e.memory.requestIDs
      && t.killSequence == e.memory.killSequence && t.commandIDs == e.memory.commandIDs
  {
    hide Replay, Folded, SoundStore, Resolved, Ours, Plan, Sound, ValidInstance, Activates;
    var step := Step(Operator(epoch), s, q, now, Durable);
    more := steps + [step];
    assert more[..|steps|] == steps;
    SoundState(d, steps, disk, s, n);
    OperatorIsValid(epoch);
    EveryEpochReads(d, disk, s, 1, epoch);
    MemoryIsReplay(d, Operator(epoch), disk, s, q, now, Durable);
    PerformKeepsSound(d, Operator(epoch), disk, s, q, now, Durable);
    var after := Perform(d, Operator(epoch), disk, s, q, now, Durable);
    next, t := after.disk, after.memory;
    assert next.log[..|disk.log|] == disk.log;
  }

  // ----- Each kind of step -----------------------------------------------------------------------------------

  lemma MayAct(d: Digests, steps: seq<Step>, disk: Disk, s: State, n: nat, epoch: uint64, job: nat, m: nat, now: int)
    requires At(d, steps, disk, s, n) && job < 6 && n <= m < 9 && 0 < now < 100
    ensures Authorize(d, Operator(epoch), disk, s, By(epoch, job, m), JOBS[job], now) == None
  {
    hide Replay, RoleMap, SoundStore, Run, ValidSteps, HasRole, Hex64, Canonical.RejectFinal, LoadConfiguration;
    SoundState(d, steps, disk, s, n);
    SampleJob(job);
    if s.activeHash != "" {
      LoadsExactly(d, Operator(epoch), disk, s.activeHash);
      LoadsStored(d, disk, s.activeHash, epoch);
    }
    assert ValidIdentifier(PRINCIPALS[job]) && ValidIdentifier(REQUEST_IDS[m]);
  }

  lemma LoadsStored(d: Digests, disk: Disk, sha: string, epoch: uint64)
    requires LoadConfiguration(d, Operator(epoch), disk, sha).Ok?
    ensures sha in disk.configurations
      && LoadConfiguration(d, Operator(epoch), disk, sha).value == disk.configurations[sha].configuration
  {
    hide VerifiedConfig, Hex64;
  }

  lemma UsesOne(s: State, t: State, n: nat)
    requires n < 9 && t.requestIDs == s.requestIDs + {REQUEST_IDS[n]} && forall m | n <= m < 9 ::
      REQUEST_IDS[m] !in s.requestIDs
    ensures forall m | n + 1 <= m < 9 :: REQUEST_IDS[m] !in t.requestIDs
  {
    forall m | n + 1 <= m < 9 ensures REQUEST_IDS[m] != REQUEST_IDS[n] {
      assert REQUEST_IDS[m][0] != REQUEST_IDS[n][0];
    }
  }

  lemma Reason()
    ensures BoundedText("a", 512)
  {
    assert !Space("a"[0]);
  }

  function ProposalOf(c: Config, now: int): Proposal
    requires |c.sha256| >= 24
  {
    Proposal(NewProposalID(c.sha256), c.sha256, PRINCIPALS[0], "", now + 1, PendingApproval)
  }

  lemma ThenPropose(d: Digests, steps: seq<Step>, disk: Disk, s: State, n: nat, epoch: uint64, c: Config, now: int)
    returns (more: seq<Step>, next: Disk, t: State)
    requires At(d, steps, disk, s, n) && n < 9 && epoch > 0 && 0 < now < 99
    requires Ours(Signed(c)) && Canonical.RejectFinal(d.config, c) == None
    requires |c.sha256| >= 24 && NewProposalID(c.sha256) !in s.proposals && c.sha256 !in disk.configurations
    requires CheckLineage(d, Operator(epoch), disk, s, c) == None
    ensures At(d, more, next, t, n + 1) && t.activeHash == s.activeHash && EverActive(next.log) == EverActive(disk.log)
    ensures |more| == |steps| + 1 && more[|steps|].who == Operator(epoch)
    ensures t.proposals == s.proposals[NewProposalID(c.sha256) := ProposalOf(c, now)]
    ensures next.configurations == disk.configurations[c.sha256 := Signed(c)]
  {
    hide Authorize, Canonical.RejectFinal, CheckLineage, Replay, Run, ValidSteps, Ours, Blank, EverActive, Sound,
         NoKills;
    MayAct(d, steps, disk, s, n, epoch, 0, n, now);
    Reason();
    assert c.validFromWallUTCNS == 1 && c.validUntilWallUTCNS == 100 by { OursIsValid(Signed(c)); }
    more, next, t := Advance(d, steps, disk, s, n, epoch, Propose(By(epoch, 0, n), Signed(c), now + 1, "a"), now);
    EveryEpochReads(d, next, t, epoch, 1);
    UsesOne(s, t, n);
  }

  lemma OursIsValid(signed: SignedConfig)
    requires Ours(signed)
    ensures signed.configuration.validFromWallUTCNS == 1 && signed.configuration.validUntilWallUTCNS == 100
  {
  }

  lemma ThenApprove(d: Digests, steps: seq<Step>, disk: Disk, s: State, n: nat, c: Config, proposed: int, now: int)
    returns (more: seq<Step>, next: Disk, t: State)
    requires At(d, steps, disk, s, n) && n < 9 && 0 < now < 99 && |c.sha256| >= 24
    requires var id := NewProposalID(c.sha256); id in s.proposals && s.proposals[id] == ProposalOf(c, proposed)
    ensures At(d, more, next, t, n + 1) && t.activeHash == s.activeHash && EverActive(next.log) == EverActive(disk.log)
    ensures t.proposals == s.proposals[NewProposalID(c.sha256) :=
                                         ProposalOf(c, proposed).(approver := PRINCIPALS[1], state := ApprovedProposal)]
    ensures next.configurations == disk.configurations
  {
    hide Authorize, Replay, Run, ValidSteps, Ours, Blank, EverActive, Sound, NoKills;
    MayAct(d, steps, disk, s, n, 1, 1, n, now);
    Reason();
    assert PRINCIPALS[0] != PRINCIPALS[1];
    more, next, t := Advance(d, steps, disk, s, n, 1, Approve(By(1, 1, n), NewProposalID(c.sha256), "a"), now);
    UsesOne(s, t, n);
  }

  lemma ThenActivate(d: Digests, steps: seq<Step>, disk: Disk, s: State, n: nat, c: Config, proposed: int, now: int)
    returns (more: seq<Step>, next: Disk, t: State)
    requires At(d, steps, disk, s, n) && n < 9 && 0 < proposed < now < 99 && |c.sha256| >= 24
    requires c.sha256 in disk.configurations && disk.configurations[c.sha256] == Signed(c)
    requires var id := NewProposalID(c.sha256);
      id in s.proposals
        && s.proposals[id] == ProposalOf(c, proposed).(approver := PRINCIPALS[1], state := ApprovedProposal)
    requires CheckLineage(d, Operator(1), disk, s, c) == None
    ensures At(d, more, next, t, n + 1) && t.activeHash == c.sha256
      && EverActive(next.log) == EverActive(disk.log) + {c.sha256}
    ensures t.proposals.Keys == s.proposals.Keys && next.configurations == disk.configurations
    ensures forall id | id in s.proposals && id != NewProposalID(c.sha256) :: t.proposals[id] == s.proposals[id]
  {
    hide Authorize, CheckLineage, Replay, Run, ValidSteps, Ours, Blank, EverActive, LoadConfiguration, SoundStore,
         Resolved, Sound;
    MayAct(d, steps, disk, s, n, 1, 2, n, now);
    Reason();
    assert PRINCIPALS[0] != PRINCIPALS[1];
    SoundState(d, steps, disk, s, n);
    OursIsValid(Signed(c));
    assert Available(Operator(1), disk, c.sha256);
    LoadsExactly(d, Operator(1), disk, c.sha256);
    LoadsStored(d, disk, c.sha256, 1);
    more, next, t := Advance(d, steps, disk, s, n, 1, Activate(By(1, 2, n), NewProposalID(c.sha256), "a"), now);
    UsesOne(s, t, n);
  }

  lemma ThenRollback(d: Digests, steps: seq<Step>, disk: Disk, s: State, n: nat, active: Config, target: Config,
                     now: int)
    returns (more: seq<Step>, next: Disk, t: State)
    requires At(d, steps, disk, s, n) && n < 8 && 0 < now < 99 && s.activeHash == active.sha256
    requires active.sha256 in disk.configurations && disk.configurations[active.sha256] == Signed(active)
    requires target.sha256 in disk.configurations && disk.configurations[target.sha256] == Signed(target)
    requires OlderSibling(target, active)
    ensures ValidSteps(more) && Run(d, EMPTY_DISK, more) == next && Replay(d.audit, Operator(1), next.log) == Some(t)
    ensures t.activeHash == target.sha256 && t.proposals == s.proposals
    ensures |more| == |steps| + 1 && more[..|steps|] == steps && more[|steps|].request.Rollback?
  {
    hide Authorize, Replay, Run, ValidSteps, Ours, Blank, EverActive, SoundStore, Resolved, Sound, OlderSibling,
         PlanRollback;
    MayAct(d, steps, disk, s, n, 1, 3, n, now);
    MayAct(d, steps, disk, s, n, 1, 1, n + 1, now);
    Reason();
    assert PRINCIPALS[3][0] != PRINCIPALS[1][0] && REQUEST_IDS[n][0] != REQUEST_IDS[n + 1][0];
    SoundState(d, steps, disk, s, n);
    OursIsValid(Signed(target));
    var q := Rollback(By(1, 3, n), By(1, 1, n + 1), active.sha256, target.sha256, "a");
    PlanRollbackExactly(d, Operator(1), disk, s, q, now);
    RollbackActivates(d, Operator(1), disk, s, q, now);
    RollbackLeavesProposals(d, Operator(1), disk, s, q, now);
    more, next, t := Advance(d, steps, disk, s, n, 1, q, now);
  }

  lemma RollbackLeavesProposals(d: Digests, who: Instance, disk: Disk, s: State, q: Request, now: int)
    requires q.Rollback? && PlanRollback(d, who, disk, s, q, now).Ok?
    ensures PlanRollback(d, who, disk, s, q, now).value.memory.proposals == s.proposals
  {
    hide Authorize, LoadConfiguration, Blank, Hex64, OlderSibling, ValidNow;
  }

  // ----- The history -------------------------------------------------------------------------------------------

  // A first configuration, its sibling and its child.
  function First(d: Digests): Config { Sealed(d.config, 1, "", 1) }

  function Sibling(d: Digests): Config { Sealed(d.config, 1, "", 2) }

  function Child(d: Digests): Config { Sealed(d.config, 2, First(d).sha256, 1) }

  // The digests of the three differ early enough for their proposals to be told apart.
  ghost predicate Separates(d: Digests) {
    && Canonical.HexDigest(d.config)
    && var a, b, c := First(d).sha256, Sibling(d).sha256, Child(d).sha256;
       a[..24] != b[..24] && a[..24] != c[..24] && b[..24] != c[..24]
  }

  lemma ThreeConfigurations(d: Digests)
    requires Separates(d)
    ensures forall c | c in {First(d), Sibling(d), Child(d)} ::
      Canonical.RejectFinal(d.config, c) == None && Ours(Signed(c)) && |c.sha256| == 64
    ensures First(d).sha256 != Sibling(d).sha256 && First(d).sha256 != Child(d).sha256
      && Sibling(d).sha256 != Child(d).sha256
    ensures var a, b, c := NewProposalID(First(d).sha256), NewProposalID(Sibling(d).sha256),
      NewProposalID(Child(d).sha256);
      a != b && a != c && b != c
  {
    hide Canonical.RejectFinal, ValidConfiguration;
    SealedIsFinal(d.config, 1, "", 1);
    SealedIsFinal(d.config, 1, "", 2);
    SealedIsFinal(d.config, 2, First(d).sha256, 1);
    PrefixesDiffer(First(d).sha256, Sibling(d).sha256);
    PrefixesDiffer(First(d).sha256, Child(d).sha256);
    PrefixesDiffer(Sibling(d).sha256, Child(d).sha256);
  }

  lemma PrefixesDiffer(x: string, y: string)
    requires |x| >= 24 && |y| >= 24 && x[..24] != y[..24]
    ensures NewProposalID(x) != NewProposalID(y)
  {
    assert NewProposalID(x)[9..] == x[..24] && NewProposalID(y)[9..] == y[..24];
  }

  // A first configuration may be proposed or activated while nothing is active.
  lemma FirstLineage(d: Digests, disk: Disk, s: State, c: Config)
    requires s.activeHash == "" && c.revision == 1 && c.parentSHA256 == ""
    ensures CheckLineage(d, Operator(1), disk, s, c) == None
  {
  }

  lemma ChildLineage(d: Digests, steps: seq<Step>, disk: Disk, s: State, n: nat, epoch: uint64)
    requires At(d, steps, disk, s, n) && Separates(d) && s.activeHash == First(d).sha256 && s.activeHash != ""
    requires s.activeHash in disk.configurations && disk.configurations[s.activeHash] == Signed(First(d))
    ensures CheckLineage(d, Operator(epoch), disk, s, Child(d)) == None
  {
    hide Replay, Run, ValidSteps, SoundStore, Resolved, Sound, LoadConfiguration, Separates;
    SoundState(d, steps, disk, s, n);
    LoadsExactly(d, Operator(epoch), disk, s.activeHash);
    LoadsStored(d, disk, s.activeHash, epoch);
  }

  // The sibling's proposal is still the pending one.
  ghost predicate SiblingPends(d: Digests, s: State) {
    && |Sibling(d).sha256| == 64
    && var id := NewProposalID(Sibling(d).sha256); id in s.proposals && s.proposals[id] == ProposalOf(Sibling(d), 1)
  }

  // A and B are proposed.
  lemma TwoProposed(d: Digests) returns (steps: seq<Step>, disk: Disk, s: State)
    requires Separates(d)
    ensures At(d, steps, disk, s, 2) && s.activeHash == "" && EverActive(disk.log) == {}
    ensures disk.configurations == map[First(d).sha256 := Signed(First(d)), Sibling(d).sha256 := Signed(Sibling(d))]
    ensures |First(d).sha256| == 64 == |Sibling(d).sha256|
    ensures s.proposals == map[NewProposalID(First(d).sha256) := ProposalOf(First(d), 1),
                               NewProposalID(Sibling(d).sha256) := ProposalOf(Sibling(d), 1)]
  {
    hide At, Canonical.RejectFinal, CheckLineage, Ours, Separates;
    var a, b := First(d), Sibling(d);
    ThreeConfigurations(d);
    StartsEmpty(d);
    FirstLineage(d, EMPTY_DISK, EMPTY_STATE, a);
    steps, disk, s := ThenPropose(d, [], EMPTY_DISK, EMPTY_STATE, 0, 1, a, 1);
    FirstLineage(d, disk, s, b);
    steps, disk, s := ThenPropose(d, steps, disk, s, 1, 1, b, 1);
  }

  // A is active; B is stored and pending.
  lemma FirstActive(d: Digests) returns (steps: seq<Step>, disk: Disk, s: State)
    requires Separates(d)
    ensures At(d, steps, disk, s, 4) && s.activeHash == First(d).sha256 && EverActive(disk.log) == {First(d).sha256}
    ensures disk.configurations == map[First(d).sha256 := Signed(First(d)), Sibling(d).sha256 := Signed(Sibling(d))]
    ensures |First(d).sha256| == 64 == |Sibling(d).sha256| && SiblingPends(d, s)
    ensures s.proposals.Keys == {NewProposalID(First(d).sha256), NewProposalID(Sibling(d).sha256)}
  {
    hide At, Canonical.RejectFinal, CheckLineage, Ours, Separates;
    var a := First(d);
    ThreeConfigurations(d);
    steps, disk, s := TwoProposed(d);
    steps, disk, s := ThenApprove(d, steps, disk, s, 2, a, 1, 1);
    FirstLineage(d, disk, s, a);
    steps, disk, s := ThenActivate(d, steps, disk, s, 3, a, 1, 2);
  }

  // Then its child C is approved.
  lemma ChildApproved(d: Digests) returns (steps: seq<Step>, disk: Disk, s: State)
    requires Separates(d)
    ensures At(d, steps, disk, s, 6) && s.activeHash == First(d).sha256 && SiblingPends(d, s)
    ensures EverActive(disk.log) == {First(d).sha256} && |Child(d).sha256| == 64
    ensures disk.configurations == map[First(d).sha256 := Signed(First(d)), Sibling(d).sha256 := Signed(Sibling(d)),
                                       Child(d).sha256 := Signed(Child(d))]
    ensures var id := NewProposalID(Child(d).sha256);
      && id in s.proposals && id != NewProposalID(Sibling(d).sha256)
      && s.proposals[id] == ProposalOf(Child(d), 2).(approver := PRINCIPALS[1], state := ApprovedProposal)
  {
    hide At, Canonical.RejectFinal, CheckLineage, Ours, Separates, EverActive, ProposalOf;
    var c := Child(d);
    ThreeConfigurations(d);
    steps, disk, s := FirstActive(d);
    ChildLineage(d, steps, disk, s, 4, 1);
    steps, disk, s := ThenPropose(d, steps, disk, s, 4, 1, c, 2);
    steps, disk, s := ThenApprove(d, steps, disk, s, 5, c, 2, 2);
  }

  // Then its child C is active.
  lemma ChildActive(d: Digests) returns (steps: seq<Step>, disk: Disk, s: State)
    requires Separates(d)
    ensures At(d, steps, disk, s, 7) && s.activeHash == Child(d).sha256 && SiblingPends(d, s)
    ensures EverActive(disk.log) == {First(d).sha256, Child(d).sha256}
    ensures Sibling(d).sha256 in disk.configurations && disk.configurations[Sibling(d).sha256] == Signed(Sibling(d))
    ensures Child(d).sha256 in disk.configurations && disk.configurations[Child(d).sha256] == Signed(Child(d))
  {
    hide At, Canonical.RejectFinal, CheckLineage, Ours, Separates, EverActive, ProposalOf;
    ThreeConfigurations(d);
    steps, disk, s := ChildApproved(d);
    ChildLineage(d, steps, disk, s, 6, 1);
    steps, disk, s := ThenActivate(d, steps, disk, s, 6, Child(d), 2, 3);
  }

  /** Whenever the digests tell three sample configurations apart, a history reaches a state from which a
      rollback activates a configuration that was proposed but never approved and never active: its proposal
      is pending before the rollback and still pending while it is active. */
  lemma RollbackActivatesTheNeverActive(d: Digests)
    returns (before: seq<Step>, disk: Disk, t: State, after: seq<Step>, s: State)
    requires Separates(d)
    ensures ValidSteps(before) && Run(d, EMPTY_DISK, before) == disk && Sibling(d).sha256 !in EverActive(disk.log)
    ensures Replay(d.audit, Operator(1), disk.log) == Some(t) && SiblingPends(d, t)
    ensures ValidSteps(after) && Replay(d.audit, Operator(1), Run(d, EMPTY_DISK, after).log) == Some(s)
    ensures |after| == |before| + 1 && after[..|before|] == before && after[|before|].request.Rollback?
    ensures s.activeHash == Sibling(d).sha256 && SiblingPends(d, s)
  {
    hide Canonical.RejectFinal, Ours, Separates, Replay;
    ThreeConfigurations(d);
    before, disk, t := ChildActive(d);
    var next: Disk;
    after, next, s := ThenRollback(d, before, disk, t, 7, Child(d), Sibling(d), 4);
  }

  // ----- Another epoch --------------------------------------------------------------------------------------------

  function KillRequest(n: nat): Request
    requires n < 9
  {
    EmergencyKill(By(1, 4, n), "c", FIRM_SCOPE, "", 1, "r")
  }

  lemma KillPlans(d: Digests, steps: seq<Step>, disk: Disk, s: State, n: nat, now: int)
    requires At(d, steps, disk, s, n) && n < 9 && 0 < now < 99 && Hex64(s.activeHash)
    ensures Plan(d, Operator(1), disk, s, KillRequest(n), now).Ok?
    ensures var e := Plan(d, Operator(1), disk, s, KillRequest(n), now).value.event;
      e.KillEngaged? && e.kill.command.authorityEpoch == 1
  {
    hide Authorize, Replay, Run, ValidSteps, Ours, Hex64;
    MayAct(d, steps, disk, s, n, 1, 4, n, now);
    assert ValidIdentifier("c") && ValidIdentifier("r") && s.activeHash != "" by { HexIsNotEmpty(s.activeHash); }
  }

  lemma HexIsNotEmpty(sha: string)
    requires Hex64(sha)
    ensures sha != ""
  {
  }

  /** An instance of another epoch writes to the log until a kill command is logged: its proposal is accepted.
      After the command it cannot read the log any more, while the instance that wrote the command can. */
  lemma ForeignEpochIsLockedOut(d: Digests)
    returns (before: seq<Step>, t: State, after: seq<Step>)
    requires Separates(d)
    ensures ValidSteps(before) && before != [] && before[|before| - 1].who == Operator(2)
    ensures |Child(d).sha256| == 64
    ensures Replay(d.audit, Operator(2), Run(d, EMPTY_DISK, before).log) == Some(t)
      && NewProposalID(Child(d).sha256) in t.proposals
    ensures ValidSteps(after) && |after| == |before| + 1 && after[..|before|] == before
    ensures Replay(d.audit, Operator(1), Run(d, EMPTY_DISK, after).log).Some?
    ensures Replay(d.audit, Operator(2), Run(d, EMPTY_DISK, after).log) == None
  {
    hide Canonical.RejectFinal, CheckLineage, Ours, Separates, Replay, Run, ValidSteps, Sound, EverActive, Hex64, Plan;
    ThreeConfigurations(d);
    var disk, s;
    before, disk, s := FirstActive(d);
    ChildLineage(d, before, disk, s, 4, 2);
    before, disk, t := ThenPropose(d, before, disk, s, 4, 2, Child(d), 2);
    SoundState(d, before, disk, t, 5);
    EveryEpochReads(d, disk, t, 1, 2);
    assert Hex64(t.activeHash) by { FinalIsHex(d, First(d)); }
    KillPlans(d, before, disk, t, 5, 3);
    var next, u;
    after, next, u := Advance(d, before, disk, t, 5, 1, KillRequest(5), 3);
    ReadableExactly(d, Operator(2), next);
    assert !Believes(Operator(2), next.log[|next.log| - 1]);
  }

  // ----- Such digests exist ---------------------------------------------------------------------------------------

  function AgeAndRevision(c: Config): string { Digits(c.maximumEdgeOfflineAgeNS + 16 * c.revision, 64) }

  lemma FirstDigits(n: nat)
    ensures Digits(n, 64)[0] == HexDigit(n % 16) && Digits(n, 64)[1] == HexDigit(n / 16 % 16)
  {
    assert Digits(n, 64)[1..] == Digits(n / 16, 63);
    assert Digits(n / 16, 63)[0] == HexDigit(n / 16 % 16);
  }

  lemma SeparatingDigest(audit: AuditBody -> string)
    ensures Separates(Digests(AgeAndRevision, audit))
  {
    hide Digits, Sample;
    var d := Digests(AgeAndRevision, audit);
    SealedDigits(1, "", 1);
    SealedDigits(1, "", 2);
    SealedDigits(2, First(d).sha256, 1);
    DigitsDiffer();
  }

  lemma SealedDigits(revision: uint64, parent: string, age: uint64)
    ensures Sealed(AgeAndRevision, revision, parent, age).sha256 == Digits(age + 16 * revision, 64)
  {
    hide Digits;
  }

  lemma DigitsDiffer()
    ensures var a, b, c := Digits(17, 64), Digits(18, 64), Digits(33, 64);
      a[..24] != b[..24] && a[..24] != c[..24] && b[..24] != c[..24]
  {
    hide Digits;
    var a, b, c := Digits(17, 64), Digits(18, 64), Digits(33, 64);
    FirstDigits(17);
    FirstDigits(18);
    FirstDigits(33);
    assert a[..24][0] != b[..24][0] && a[..24][1] != c[..24][1] && b[..24][0] != c[..24][0];
  }

  /** So the authority does not promise that what is active was once approved: there are digests, a history
      and a configuration that shows it. */
  lemma NeverApprovedBecomesActive()
    returns (d: Digests, before: seq<Step>, disk: Disk, t: State, after: seq<Step>, s: State)
    ensures ValidSteps(before) && Run(d, EMPTY_DISK, before) == disk && Sibling(d).sha256 !in EverActive(disk.log)
    ensures Replay(d.audit, Operator(1), disk.log) == Some(t) && SiblingPends(d, t)
    ensures ValidSteps(after) && Replay(d.audit, Operator(1), Run(d, EMPTY_DISK, after).log) == Some(s)
    ensures |after| == |before| + 1 && after[..|before|] == before && after[|before|].request.Rollback?
    ensures s.activeHash == Sibling(d).sha256 && SiblingPends(d, s)
  {
    hide Separates, Replay, Run, ValidSteps, EverActive, SiblingPends;
    d := Digests(AgeAndRevision, (b: AuditBody) => "");
    SeparatingDigest(d.audit);
    before, disk, t, after, s := RollbackActivatesTheNeverActive(d);
  }
}
