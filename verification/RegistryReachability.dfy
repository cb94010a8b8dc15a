/** Registry histories from the empty disk: versions that run, a retired version left running, and a version
    that no call can read any more. */
module RegistryReachability {
  import opened Text
  import opened DeploymentTypes
  import opened Lifecycle
  import opened Registry
  import opened RegistryHistory

  // Every call is made at time 1 and completes; environments are listed by name.
  const CALM := Io(1, 2, [])

  // A version stands at a stage after n events that can all be read back.
  ghost predicate Stands(disk: Disk, version: string, stage: Stage, approval: Approval, n: nat) {
    && version in disk.events && |disk.events[version]| == n > 0 && ReferencesFit(disk.events[version])
    && var last := Last(disk.events[version]).body; last.to == stage && last.approval == approval
  }

  // Other versions and other environments are as they were.
  ghost predicate OthersKept(before: Disk, after: Disk, version: string, environment: string) {
    && (forall v | v != version :: v in after.events <==> v in before.events)
    && (forall v | v != version && v in before.events :: after.events[v] == before.events[v])
    && (forall env | env != environment :: env in after.pointers <==> env in before.pointers)
    && (forall env | env != environment && env in before.pointers :: after.pointers[env] == before.pointers[env])
  }

  lemma CalmReason()
    ensures ValidActorReason("a", "a") && BoundedText("a", 256)
  {
    assert !Space("a"[0]);
  }

  lemma LastRevision(site: Site, disk: Disk, version: string)
    requires ValidSite(site) && Kept(site, disk) && version in disk.events && disk.events[version] != []
    ensures Last(disk.events[version]).body.revision == |disk.events[version]| && ValidSemantic(version)
  {
    hide ValidSemantic, PointersKept, WellFormedMove, CarriesApproval;
    KeptParts(site, disk);
    var log := disk.events[version];
    assert WrittenEvent(site, version, Before(log, |log| - 1), log[|log| - 1], |log| - 1);
  }

  // ----- One call --------------------------------------------------------------------------------------

  // The guards of a transition, on a version that stands.
  ghost predicate MayTransit(disk: Disk, t: Transition, stage: Stage, approval: Approval, n: nat) {
    && Stands(disk, t.version, stage, approval, n) && n < 100 && stage in t.from && !t.requireTwoPerson
    && ValidActorReason(t.actor, t.reason) && t.verified && !t.revoke
    && (t.approve ==> approval.Pending?) && (!t.approve && Deployed(t.to) ==> approval.Approved?)
    && (t.updatePointer ==> ValidIdentifier(t.environment) && t.environment !in disk.pointers)
  }

  lemma TransitPlans(site: Site, disk: Disk, t: Transition, stage: Stage, approval: Approval, n: nat)
    requires ValidSite(site) && Kept(site, disk) && MayTransit(disk, t, stage, approval, n)
    ensures PlanTransition(site, disk, t, 1).Ok?
    ensures var e := PlanTransition(site, disk, t, 1).value;
      && e.body.to == t.to && e.body.authorizationReference == t.authorizationReference
      && e.body.approval == if t.approve then Approved else approval
  {
    hide Kept, ValidSite, LoadEvents, ReferencesFit, ValidActorReason, ValidIdentifier, ValidSemantic;
    ReadableExactly(site, disk, t.version);
    LastRevision(site, disk, t.version);
  }

  // The calls made so far lead from the empty disk to this one.
  ghost predicate At(site: Site, steps: seq<Step>, disk: Disk) {
    ValidSite(site) && Run(site, EMPTY_DISK, steps) == disk && Kept(site, disk)
  }

  lemma StartsEmpty(site: Site)
    requires ValidSite(site)
    ensures At(site, [], EMPTY_DISK)
  {
    hide ValidSite;
  }

  lemma ThenCall(site: Site, steps: seq<Step>, disk: Disk, op: Operation, io: Io) returns (more: seq<Step>, next: Disk)
    requires At(site, steps, disk)
    ensures more == steps + [Step(op, io)] && next == Perform(site, disk, op, io).disk && At(site, more, next)
  {
    hide Perform, Kept, ValidSite;
    more, next := steps + [Step(op, io)], Perform(site, disk, op, io).disk;
    assert more[..|steps|] == steps;
    OperationKeeps(site, disk, op, io);
  }

  // A transition call that the version's state allows.
  lemma ThenTransit(site: Site, steps: seq<Step>, disk: Disk, op: Operation, stage: Stage, approval: Approval, n: nat,
                    environment: string)
    returns (more: seq<Step>, next: Disk)
    requires At(site, steps, disk) && !op.Register? && !op.Rollback? && !op.Disable?
    requires AsTransition(op).Ok? && MayTransit(disk, AsTransition(op).value, stage, approval, n)
    requires var t := AsTransition(op).value;
      && |t.authorizationReference| <= 256 && t.version == op.version
      && (t.updatePointer ==> t.environment == environment)
    ensures At(site, more, next) && OthersKept(disk, next, op.version, environment)
    ensures var t := AsTransition(op).value;
      && Stands(next, op.version, t.to, if t.approve then Approved else approval, n + 1)
      && (if t.updatePointer then
            environment in next.pointers && next.pointers[environment].activeVersion == op.version
          else next.pointers == disk.pointers)
  {
    hide Kept, ValidSite, LoadEvents, PlanTransition, AsTransition, ReferencesFit, Run, Stands, ValidPointer;
    var t := AsTransition(op).value;
    TransitPlans(site, disk, t, stage, approval, n);
    more, next := ThenCall(site, steps, disk, op, CALM);
    var e := PlanTransition(site, disk, t, 1).value;
    AppendStands(disk, op.version, stage, approval, n, e);
    hide MayTransit;
    SameEventsStand(AppendEvent(disk, op.version, e), next, op.version, e.body.to, e.body.approval, n + 1);
  }

  lemma AppendStands(disk: Disk, version: string, stage: Stage, approval: Approval, n: nat, e: Event)
    requires Stands(disk, version, stage, approval, n) && |e.body.authorizationReference| <= 256
    ensures Stands(AppendEvent(disk, version, e), version, e.body.to, e.body.approval, n + 1)
  {
    hide ReferencesFit;
    var log := disk.events[version];
    BoundedReferenceFits(log, e);
    assert Last(log + [e]) == e;
  }

  lemma SameEventsStand(disk: Disk, next: Disk, version: string, stage: Stage, approval: Approval, n: nat)
    requires Stands(disk, version, stage, approval, n) && next.events == disk.events
    ensures Stands(next, version, stage, approval, n)
  {
  }

  lemma ThenRegister(site: Site, steps: seq<Step>, disk: Disk, version: string, environment: string)
    returns (more: seq<Step>, next: Disk)
    requires At(site, steps, disk) && ValidSemantic(version) && version !in disk.events
    ensures At(site, more, next) && OthersKept(disk, next, version, environment) && next.pointers == disk.pointers
    ensures Stands(next, version, Draft, Pending, 1)
  {
    hide Kept, ValidSite, LoadEvents, ValidSemantic, Run, ValidActorReason;
    CalmReason();
    var op := Register(version, "a", "a", true, false);
    more, next := ThenCall(site, steps, disk, op, CALM);
    assert Last([] + [FirstEvent(site, op, 1)]) == FirstEvent(site, op, 1);
  }

  lemma OthersKeptTwice(a: Disk, b: Disk, c: Disk, version: string, environment: string)
    requires OthersKept(a, b, version, environment) && OthersKept(b, c, version, environment)
    ensures OthersKept(a, c, version, environment)
  {
  }

  // ----- A version that runs -----------------------------------------------------------------------------

  lemma ThenValidated(site: Site, steps: seq<Step>, disk: Disk, version: string, environment: string)
    returns (more: seq<Step>, next: Disk)
    requires At(site, steps, disk) && ValidSemantic(version) && version !in disk.events
    ensures At(site, more, next) && OthersKept(disk, next, version, environment) && next.pointers == disk.pointers
    ensures Stands(next, version, ReplayValidated, Pending, 4)
  {
    hide At, Stands, OthersKept, ValidSemantic, ValidActorReason;
    CalmReason();
    var mid;
    more, next := ThenRegister(site, steps, disk, version, environment);
    mid := next;
    more, next :=
      ThenTransit(site, more, mid, Validate(version, Trained, "a", "a", true), Draft, Pending, 1, environment);
    OthersKeptTwice(disk, mid, next, version, environment);
    mid := next;
    more, next := ThenTransit(site, more, mid, Validate(version, OfflineValidated, "a", "a", true), Trained, Pending, 2,
                              environment);
    OthersKeptTwice(disk, mid, next, version, environment);
    mid := next;
    more, next :=
      ThenTransit(site, more, mid, Validate(version, ReplayValidated, "a", "a", true), OfflineValidated, Pending,
                              3, environment);
    OthersKeptTwice(disk, mid, next, version, environment);
  }

  /** From any reachable disk a new version can be brought to SHADOW in a new environment. */
  lemma ThenRuns(site: Site, steps: seq<Step>, disk: Disk, version: string, environment: string)
    returns (more: seq<Step>, next: Disk)
    requires At(site, steps, disk) && ValidSemantic(version) && version !in disk.events
    requires ValidIdentifier(environment) && environment !in disk.pointers
    ensures At(site, more, next) && OthersKept(disk, next, version, environment)
    ensures Stands(next, version, ShadowStage, Approved, 6)
    ensures environment in next.pointers && next.pointers[environment].activeVersion == version
  {
    hide At, Stands, OthersKept, ValidSemantic, ValidActorReason, ValidIdentifier;
    CalmReason();
    var mid;
    more, next := ThenValidated(site, steps, disk, version, environment);
    mid := next;
    more, next :=
      ThenTransit(site, more, mid, Approve(version, "a", "a", "a", true), ReplayValidated, Pending, 4, environment);
    OthersKeptTwice(disk, mid, next, version, environment);
    mid := next;
    more, next :=
      ThenTransit(site, more, mid, DeployShadow(version, environment, "a", "a", true), ReplayValidated, Approved,
                              5, environment);
    OthersKeptTwice(disk, mid, next, version, environment);
  }

  /** Two versions run in two environments. */
  lemma TwoRun(site: Site, version: string, other: string, environment: string, elsewhere: string)
    returns (steps: seq<Step>, disk: Disk)
    requires ValidSite(site) && ValidSemantic(version) && ValidSemantic(other) && version != other
    requires ValidIdentifier(environment) && ValidIdentifier(elsewhere) && environment != elsewhere
    ensures At(site, steps, disk)
    ensures Stands(disk, version, ShadowStage, Approved, 6) && Stands(disk, other, ShadowStage, Approved, 6)
    ensures environment in disk.pointers && disk.pointers[environment].activeVersion == version
  {
    hide At, ValidSemantic, ValidIdentifier, ValidSite;
    StartsEmpty(site);
    var one;
    steps, one := ThenRuns(site, [], EMPTY_DISK, version, environment);
    steps, disk := ThenRuns(site, steps, one, other, elsewhere);
  }

  // ----- A retired version left running -------------------------------------------------------------------

  lemma RollbackPlans(site: Site, steps: seq<Step>, disk: Disk, op: Operation)
    requires At(site, steps, disk) && op.Rollback? && op.verified && op.targetVerified && op.version != op.targetVersion
    requires ValidActorReason(op.actor, op.reason) && ValidIdentifier(op.environment) && BoundedText(op.reference, 256)
    requires Stands(disk, op.version, ShadowStage, Approved, 6)
      && Stands(disk, op.targetVersion, ShadowStage, Approved, 6)
    requires op.environment in disk.pointers && disk.pointers[op.environment].activeVersion == op.version
    ensures PlanRollback(site, disk, op, 1).Ok?
  {
    hide Kept, ValidSite, LoadEvents, ReferencesFit, ValidActorReason, ValidIdentifier, ValidSemantic, Run, BoundedText,
         NextBody, Sign;
    ReadableExactly(site, disk, op.version);
    ReadableExactly(site, disk, op.targetVersion);
    LastRevision(site, disk, op.version);
  }

  /** For every two versions and two environments some history from the empty disk, with one call cut short,
      ends with a retired version that is still active. */
  lemma StrandedVersionIsReachable(site: Site, version: string, other: string, environment: string, elsewhere: string)
    returns (steps: seq<Step>, disk: Disk)
    requires ValidSite(site) && ValidSemantic(version) && ValidSemantic(other) && version != other
    requires ValidIdentifier(environment) && ValidIdentifier(elsewhere) && environment != elsewhere
    ensures Run(site, EMPTY_DISK, steps) == disk
    ensures LastOf(disk.events, version).Some? && LastOf(disk.events, version).value.body.to.Retired?
    ensures ActiveIn(disk, version, environment)
  {
    hide ValidSemantic, ValidIdentifier, ValidSite, Kept, Run, Perform, ValidActorReason, PlanRollback, ReferencesFit,
         ActiveIn, BoundedText;
    CalmReason();
    var before;
    steps, before := TwoRun(site, version, other, environment, elsewhere);
    var rollback := Rollback(version, other, environment, "a", "a", "a", true, true);
    var retire := Retire(version, "a", "a", true);
    RollbackPlans(site, steps, before, rollback);
    InterruptedRollbackThenRetireStrands(site, before, rollback, Io(1, 1, []), retire, CALM);
    steps, disk := ThenCall(site, steps, before, rollback, Io(1, 1, []));
    steps, disk := ThenCall(site, steps, disk, retire, CALM);
  }

  // ----- A version that cannot be read -----------------------------------------------------------------------

  function LongReference(): string { seq(257, _ => 'a') }

  /** For every version and two environments some history from the empty disk ends with a version whose log
      holds an overlong reference, after which every call on it is refused. */
  lemma LockedVersionIsReachable(site: Site, version: string, environment: string, elsewhere: string)
    returns (steps: seq<Step>, disk: Disk)
    requires ValidSite(site) && ValidSemantic(version) && environment != elsewhere
    requires ValidIdentifier(environment) && ValidIdentifier(elsewhere)
    ensures Run(site, EMPTY_DISK, steps) == disk && Kept(site, disk)
    ensures version in disk.events && !ReferencesFit(disk.events[version])
  {
    hide ValidSemantic, ValidIdentifier, ValidSite, Kept, Run, Perform, ValidActorReason, PlanTransition, ReferencesFit,
         BoundedText, Stands;
    CalmReason();
    StartsEmpty(site);
    var before;
    steps, before := ThenRuns(site, [], EMPTY_DISK, version, environment);
    var promote := PromoteCanary(version, elsewhere, "a", "a", LongReference(), true);
    TransitPlans(site, before, AsTransition(promote).value, ShadowStage, Approved, 6);
    LongReferencePromotionLocks(site, before, promote, CALM);
    steps, disk := ThenCall(site, steps, before, promote, CALM);
  }
}
