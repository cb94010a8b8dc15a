/** The registry of one model: a lifecycle log per version and a deployment pointer per environment.
    Every operation writes the log first and pointers after it, and may be cut short between any two
    of its writes. */
module Registry {
  import opened Results
  import opened Text
  import opened DeploymentTypes
  import opened Lifecycle

  datatype Pointer = Pointer(
    activeVersion: string, stage: Stage, generation: uint64, sourceEvent: string, changeEvent: string,
    changedAtUTCNS: int, actor: string)

  // What is durable: events/<version>.jsonl and deployments/<environment>.json.
  datatype Disk = Disk(events: map<string, seq<Event>>, pointers: map<string, Pointer>)

  datatype Site = Site(modelID: string, sha: EventBody -> string)

  ghost predicate ValidSite(site: Site) { ValidIdentifier(site.modelID) && Digest(site.sha) }

  // What surrounds one call: the clock, how many writes become durable before it is cut short, and the
  // directory listing of deployment environments.
  datatype Io = Io(now: int, writes: nat, listing: seq<string>)

  datatype Error =
    | NotFound | IntegrityFailure | InvalidTransition | TwoPersonControl | AuthorizationRequired
    | MalformedRequest | AlreadyRegistered | VerificationFailed | Interrupted

  // ----- Reading --------------------------------------------------------------------------------

  // loadDeploymentPointer's checks on a stored pointer.
  predicate ValidPointer(p: Pointer) {
    && p.generation != 0 && ValidSemantic(p.activeVersion) && Hex64(p.sourceEvent) && Hex64(p.changeEvent)
    && (Deployed(p.stage) || p.stage.Disabled? || p.stage.RolledBackStage?)
    && BoundedText(p.actor, 128) && p.changedAtUTCNS > 0
  }

  // eventsByHash[digest]: the last event of the log with that digest.
  function EventByHash(log: seq<Event>, digest: string): Option<Event> {
    if log == [] then None
    else if log[|log| - 1].sha256 == digest then Some(log[|log| - 1])
    else EventByHash(log[..|log| - 1], digest)
  }

  // A deployment pointer's source event is in the log and put the version into the stage shown.
  predicate Attached(log: seq<Event>, p: Pointer) {
    EventByHash(log, p.sourceEvent).Some? && EventByHash(log, p.sourceEvent).value.body.to == p.stage
  }

  predicate ActiveIn(disk: Disk, version: string, environment: string) {
    && environment in disk.pointers
    && disk.pointers[environment].activeVersion == version
    && Deployed(disk.pointers[environment].stage)
  }

  // activeEnvironments refuses a version if a pointer at it is malformed or detached from its log.
  predicate PointersReadable(disk: Disk, version: string, log: seq<Event>) {
    forall env | env in disk.pointers ::
      && ValidPointer(disk.pointers[env])
      && (disk.pointers[env].activeVersion == version ==> Attached(log, disk.pointers[env]))
  }

  // loadEvents: the verified log of a version.
  function LoadEvents(site: Site, disk: Disk, version: string): Result<seq<Event>, Error> {
    if !ValidSemantic(version) || version !in disk.events then Err(NotFound)
    else
      var log := disk.events[version];
      if !AcceptedLog(site.sha, site.modelID, version, log) || !PointersReadable(disk, version, log) then
        Err(IntegrityFailure)
      else Ok(log)
  }

  // ----- Writing ----------------------------------------------------------------------------------

  function AppendEvent(disk: Disk, version: string, e: Event): Disk {
    disk.(events := disk.events[version := (if version in disk.events then disk.events[version] else []) + [e]])
  }

  // writeDeploymentPointer: the next generation of an environment's pointer.
  function WritePointer(disk: Disk, environment: string, version: string, stage: Stage, source: string,
                        change: string, actor: string, now: int): Result<Disk, Error>
  {
    if environment in disk.pointers && !ValidPointer(disk.pointers[environment]) then Err(IntegrityFailure)
    else if environment in disk.pointers && disk.pointers[environment].generation == UINT64_LIMIT - 1 then
      Err(IntegrityFailure)
    else if now <= 0 then Err(MalformedRequest)
    else
      var generation := if environment in disk.pointers then disk.pointers[environment].generation + 1 else 1;
      var p := Pointer(version, stage, generation, source, change, now, actor);
      Ok(disk.(pointers := disk.pointers[environment := p]))
  }

  datatype Progress = Progress(disk: Disk, writes: nat, done: bool)

  predicate Retarget(p: Pointer, version: string, e: Event) {
    p.activeVersion == version && !(p.stage == e.body.to && p.sourceEvent == e.sha256)
  }

  // disableDeploymentPointers: every pointer at the version, in listing order, until a read or write fails.
  function DisablePointers(disk: Disk, version: string, e: Event, actor: string, now: int, envs: seq<string>,
                           writes: nat): Progress
    decreases |envs|
  {
    if envs == [] then Progress(disk, writes, true)
    else
      var env := envs[0];
      if env !in disk.pointers then DisablePointers(disk, version, e, actor, now, envs[1..], writes)
      else if !ValidPointer(disk.pointers[env]) then Progress(disk, writes, false)
      else if !Retarget(disk.pointers[env], version, e) then
        DisablePointers(disk, version, e, actor, now, envs[1..], writes)
      else if writes == 0 then Progress(disk, 0, false)
      else
        match WritePointer(disk, env, version, e.body.to, e.sha256, e.sha256, actor, now)
        case Err(_) => Progress(disk, writes, false)
        case Ok(next) => DisablePointers(next, version, e, actor, now, envs[1..], writes - 1)
  }

  // ----- Operations ---------------------------------------------------------------------------------

  datatype Transition = Transition(
    version: string, verified: bool, from: set<Stage>, to: Stage, environment: string, actor: string,
    reason: string, authorizationReference: string, approve: bool, revoke: bool, requireTwoPerson: bool,
    updatePointer: bool)

  datatype Operation =
    | Register(version: string, actor: string, reason: string, verified: bool, sameManifest: bool)
    | Validate(version: string, stage: Stage, actor: string, reason: string, verified: bool)
    | Approve(version: string, actor: string, reason: string, reference: string, verified: bool)
    | DeployShadow(version: string, environment: string, actor: string, reason: string, verified: bool)
    | PromoteCanary(version: string, environment: string, actor: string, reason: string, reference: string,
                    verified: bool)
    | Promote(version: string, target: Stage, environment: string, actor: string, reason: string,
              explicit: bool, reference: string, verified: bool)
    | Rollback(version: string, targetVersion: string, environment: string, actor: string, reason: string,
               reference: string, verified: bool, targetVerified: bool)
    | Disable(version: string, actor: string, reason: string)
    | Retire(version: string, actor: string, reason: string, verified: bool)

  // A call's effect on the disk and what it answers: the log after it, or an error.
  datatype Outcome = Outcome(disk: Disk, result: Result<seq<Event>, Error>)

  function Sign(site: Site, body: EventBody): Event { Event(body, site.sha(body)) }

  function NextBody(site: Site, log: seq<Event>, to: Stage, approval: Approval, approvalActor: string,
                    environment: string,
                    actor: string, reason: string, reference: string, target: string, now: int): EventBody
    requires log != [] && Last(log).body.revision < UINT64_LIMIT - 1
  {
    EventBody(site.modelID, Last(log).body.version, Last(log).body.revision + 1, Last(log).body.to, to, approval,
              DeploymentFor(to), environment, actor, reason, reference, approvalActor, target, now, Last(log).sha256)
  }

  // transition's checks, up to the signed event.
  function PlanTransition(site: Site, disk: Disk, t: Transition, now: int): Result<Event, Error> {
    if !ValidActorReason(t.actor, t.reason) then Err(MalformedRequest)
    else if t.updatePointer && !ValidIdentifier(t.environment) then Err(MalformedRequest)
    else if !t.verified then Err(VerificationFailed)
    else
      match LoadEvents(site, disk, t.version)
      case Err(e) => Err(e)
      case Ok(log) =>
        if log == [] then Err(IntegrityFailure)
        else
          var last := Last(log).body;
          if last.to !in t.from then Err(InvalidTransition)
          else if t.approve && !last.approval.Pending? then Err(InvalidTransition)
          else if !t.approve && Deployed(t.to) && !last.approval.Approved? then Err(InvalidTransition)
          else if t.requireTwoPerson && last.approvalActor == t.actor then Err(TwoPersonControl)
          else if last.revision == UINT64_LIMIT - 1 then Err(InvalidTransition)
          else if now <= 0 then Err(MalformedRequest)
          else
            var approval := if t.revoke then Revoked else if t.approve then Approved else last.approval;
            var approver := if t.approve then t.actor else last.approvalActor;
            Ok(Sign(site, NextBody(site, log, t.to, approval, approver, t.environment, t.actor, t.reason,
                                   t.authorizationReference, "", now)))
  }

  function PerformTransition(site: Site, disk: Disk, t: Transition, io: Io): Outcome {
    match PlanTransition(site, disk, t, io.now)
    case Err(e) => Outcome(disk, Err(e))
    case Ok(event) =>
      if io.writes == 0 then Outcome(disk, Err(Interrupted))
      else
        var appended := AppendEvent(disk, t.version, event);
        if !t.updatePointer then Outcome(appended, LoadEvents(site, appended, t.version))
        else if io.writes == 1 then Outcome(appended, Err(Interrupted))
        else
          match WritePointer(appended, t.environment, t.version, t.to, event.sha256, event.sha256, t.actor, io.now)
          case Err(e) => Outcome(appended, Err(e))
          case Ok(pointed) => Outcome(pointed, LoadEvents(site, pointed, t.version))
  }

  // The transition each lifecycle call asks for, or its refusal.
  function AsTransition(op: Operation): Result<Transition, Error>
    requires !op.Register? && !op.Rollback? && !op.Disable?
  {
    match op
    case Validate(v, stage, actor, reason, verified) =>
      if stage.Trained? then
        Ok(Transition(v, verified, {Draft}, Trained, "", actor, reason, "", false, false, false, false))
      else if stage.OfflineValidated? then
        Ok(Transition(v, verified, {Trained}, OfflineValidated, "", actor, reason, "", false, false, false, false))
      else if stage.ReplayValidated? then
        Ok(Transition(v, verified, {OfflineValidated}, ReplayValidated, "", actor, reason, "", false, false, false,
                      false))
      else Err(MalformedRequest)
    case Approve(v, actor, reason, reference, verified) =>
      if !BoundedText(reference, 256) then Err(MalformedRequest)
      else Ok(Transition(v, verified, {ReplayValidated}, ReplayValidated, "", actor, reason, reference, true, false,
                         false, false))
    case DeployShadow(v, env, actor, reason, verified) =>
      Ok(Transition(v, verified, {ReplayValidated}, ShadowStage, env, actor, reason, "", false, false, false, true))
    case PromoteCanary(v, env, actor, reason, reference, verified) =>
      Ok(Transition(v, verified, {ShadowStage}, CanaryStage, env, actor, reason, reference, false, false, false, true))
    case Promote(v, target, env, actor, reason, explicit, reference, verified) =>
      if target.Production? then
        if !explicit || !BoundedText(reference, 256) then Err(AuthorizationRequired)
        else Ok(Transition(v, verified, {LimitedRisk}, Production, env, actor, reason, reference, false, false, true,
                           true))
      else if target.LimitedRisk? then
        Ok(Transition(v, verified, {CanaryStage}, LimitedRisk, env, actor, reason, reference, false, false, false,
                      true))
      else Err(MalformedRequest)
    case Retire(v, actor, reason, verified) =>
      Ok(Transition(v, verified, {Disabled, RolledBackStage}, Retired, "", actor, reason, "", false, true, false,
                    false))
  }

  // Registering a version again answers its status if the manifest is the same; only a new one is written.
  function PerformRegister(site: Site, disk: Disk, op: Operation, io: Io): Outcome
    requires op.Register?
  {
    if !ValidActorReason(op.actor, op.reason) || !ValidSemantic(op.version) then Outcome(disk, Err(MalformedRequest))
    else if !op.verified then Outcome(disk, Err(VerificationFailed))
    else if op.version in disk.events then
      Outcome(disk, if op.sameManifest then LoadEvents(site, disk, op.version) else Err(AlreadyRegistered))
    else if io.now <= 0 then Outcome(disk, Err(MalformedRequest))
    else if io.writes == 0 then Outcome(disk, Err(Interrupted))
    else
      var appended := AppendEvent(disk, op.version, FirstEvent(site, op, io.now));
      Outcome(appended, LoadEvents(site, appended, op.version))
  }

  function FirstEvent(site: Site, op: Operation, now: int): Event
    requires op.Register?
  {
    Sign(site, EventBody(site.modelID, op.version, 1, Unset, Draft, Pending, NotDeployed, "", op.actor, op.reason,
                         "", "", "", now, ""))
  }

  // Rollback's checks: the rollback event and the target's last event.
  datatype RollbackPlan = RollbackPlan(event: Event, target: Event)

  function PlanRollback(site: Site, disk: Disk, op: Operation, now: int): Result<RollbackPlan, Error>
    requires op.Rollback?
  {
    if !ValidActorReason(op.actor, op.reason) || !ValidIdentifier(op.environment)
       || !BoundedText(op.reference, 256) then
      Err(MalformedRequest)
    else if op.version == op.targetVersion then Err(MalformedRequest)
    else if !op.verified || !op.targetVerified then Err(VerificationFailed)
    else
      match (LoadEvents(site, disk, op.version), LoadEvents(site, disk, op.targetVersion))
      case (Ok(source), Ok(target)) =>
        if source == [] || target == [] then Err(IntegrityFailure)
        else if !Deployed(Last(source).body.to) then Err(InvalidTransition)
        else if !Last(target).body.approval.Approved? || !Deployed(Last(target).body.to) then Err(InvalidTransition)
        else if op.environment !in disk.pointers then Err(NotFound)
        else if disk.pointers[op.environment].activeVersion != op.version then Err(InvalidTransition)
        else if Last(source).body.revision == UINT64_LIMIT - 1 then Err(InvalidTransition)
        else if now <= 0 then Err(MalformedRequest)
        else
          var body := NextBody(site, source, RolledBackStage, Revoked, Last(source).body.approvalActor, op.environment,
                               op.actor, op.reason, op.reference, op.targetVersion, now);
          Ok(RollbackPlan(Sign(site, body), Last(target)))
      case (Err(e), _) => Err(e)
      case (_, Err(e)) => Err(e)
  }

  function PerformRollback(site: Site, disk: Disk, op: Operation, io: Io): Outcome
    requires op.Rollback?
  {
    match PlanRollback(site, disk, op, io.now)
    case Err(e) => Outcome(disk, Err(e))
    case Ok(RollbackPlan(event, target)) =>
      if io.writes == 0 then Outcome(disk, Err(Interrupted))
      else
        var appended := AppendEvent(disk, op.version, event);
        var progress := DisablePointers(appended, op.version, event, op.actor, io.now, io.listing, io.writes - 1);
        if !progress.done || progress.writes == 0 then Outcome(progress.disk, Err(Interrupted))
        else
          match WritePointer(progress.disk, op.environment, op.targetVersion, target.body.to, target.sha256,
                             event.sha256, op.actor, io.now)
          case Err(e) => Outcome(progress.disk, Err(e))
          case Ok(pointed) => Outcome(pointed, LoadEvents(site, pointed, op.version))
  }

  // Disable's checks: the event that disables the version, and whether it still has to be appended.
  datatype DisablePlan = DisablePlan(event: Event, append: bool)

  function PlanDisable(site: Site, disk: Disk, op: Operation, now: int): Result<DisablePlan, Error>
    requires op.Disable?
  {
    if !ValidActorReason(op.actor, op.reason) then Err(MalformedRequest)
    else
      match LoadEvents(site, disk, op.version)
      case Err(e) => Err(e)
      case Ok(log) =>
        if log == [] then Err(IntegrityFailure)
        else if Last(log).body.to.Disabled? then Ok(DisablePlan(Last(log), false))
        else if Last(log).body.to.Retired? then Err(InvalidTransition)
        else if Last(log).body.revision == UINT64_LIMIT - 1 then Err(InvalidTransition)
        else if now <= 0 then Err(MalformedRequest)
        else
          var body :=
            NextBody(site, log, Disabled, Revoked, Last(log).body.approvalActor, "", op.actor, op.reason, "", "", now);
          Ok(DisablePlan(Sign(site, body), true))
  }

  function PerformDisable(site: Site, disk: Disk, op: Operation, io: Io): Outcome
    requires op.Disable?
  {
    match PlanDisable(site, disk, op, io.now)
    case Err(e) => Outcome(disk, Err(e))
    case Ok(DisablePlan(event, append)) =>
      if append && io.writes == 0 then Outcome(disk, Err(Interrupted))
      else
        var appended := if append then AppendEvent(disk, op.version, event) else disk;
        var progress := DisablePointers(appended, op.version, event, op.actor, io.now, io.listing,
                                        if append then io.writes - 1 else io.writes);
        if !progress.done then Outcome(progress.disk, Err(Interrupted))
        else Outcome(progress.disk, LoadEvents(site, progress.disk, op.version))
  }

  function Perform(site: Site, disk: Disk, op: Operation, io: Io): Outcome {
    if op.Register? then PerformRegister(site, disk, op, io)
    else if op.Rollback? then PerformRollback(site, disk, op, io)
    else if op.Disable? then PerformDisable(site, disk, op, io)
    else
      match AsTransition(op)
      case Err(e) => Outcome(disk, Err(e))
      case Ok(t) => PerformTransition(site, disk, t, io)
  }

  // ----- What every operation keeps, wherever it is cut short -------------------------------------------

  // Every log any operation wrote: chained, numbered from one, signed, and made of well-formed moves.
  ghost predicate WrittenLog(site: Site, version: string, log: seq<Event>) {
    log != [] && forall i | 0 <= i < |log| :: WrittenEvent(site, version, Before(log, i), log[i], i)
  }

  ghost predicate WrittenEvent(site: Site, version: string, previous: Option<Event>, e: Event, i: nat) {
    && e.sha256 == site.sha(e.body)
    && e.body.modelID == site.modelID && e.body.version == version
    && e.body.revision == i + 1
    && WellFormedMove(previous, e)
    && CarriesApproval(previous, e.body)
  }

  ghost predicate LogsKept(site: Site, disk: Disk) {
    forall v | v in disk.events :: ValidSemantic(v) && WrittenLog(site, v, disk.events[v])
  }

  // Every pointer is readable and names an event of its active version's log with the same stage.
  ghost predicate PointersKept(disk: Disk) {
    forall env | env in disk.pointers ::
      && ValidPointer(disk.pointers[env])
      && disk.pointers[env].activeVersion in disk.events
      && Attached(disk.events[disk.pointers[env].activeVersion], disk.pointers[env])
  }

  ghost predicate Kept(site: Site, disk: Disk) { LogsKept(site, disk) && PointersKept(disk) }

  lemma {:induction false} EventByHashFinds(log: seq<Event>, digest: string)
    ensures match EventByHash(log, digest)
            case None => forall i | 0 <= i < |log| :: log[i].sha256 != digest
            case Some(e) => e.sha256 == digest && exists i :: 0 <= i < |log| && log[i] == e
  {
    if log != [] { EventByHashFinds(log[..|log| - 1], digest); }
  }

  lemma SignedOnce(site: Site, version: string, log: seq<Event>, e: Event, i: nat)
    requires ValidSite(site) && WrittenLog(site, version, log) && i < |log|
    requires e.sha256 == site.sha(e.body) && e.body.revision == |log| + 1
    ensures log[i].sha256 != e.sha256
  {
    hide Hex64, WellFormedMove;
    assert log[i].body.revision == i + 1;
  }

  lemma AttachedExtends(site: Site, version: string, log: seq<Event>, e: Event, p: Pointer)
    requires ValidSite(site) && WrittenLog(site, version, log) && Attached(log, p)
    requires e.sha256 == site.sha(e.body) && e.body.revision == |log| + 1
    ensures Attached(log + [e], p)
  {
    hide WrittenLog, ValidSite;
    EventByHashFinds(log, p.sourceEvent);
    var found := EventByHash(log, p.sourceEvent).value;
    var i :| 0 <= i < |log| && log[i] == found;
    SignedOnce(site, version, log, e, i);
    assert (log + [e])[..|log|] == log;
  }

  lemma LogExtends(site: Site, version: string, log: seq<Event>, e: Event)
    requires WrittenLog(site, version, log)
    requires WrittenEvent(site, version, Some(Last(log)), e, |log|)
    ensures WrittenLog(site, version, log + [e])
  {
    hide WrittenEvent;
    var longer := log + [e];
    forall i | 0 <= i < |longer| ensures WrittenEvent(site, version, Before(longer, i), longer[i], i) {
      if i < |log| { assert longer[i] == log[i] && Before(longer, i) == Before(log, i); }
    }
  }

  lemma AppendKeeps(site: Site, disk: Disk, version: string, e: Event)
    requires ValidSite(site) && Kept(site, disk) && version in disk.events
    requires e.sha256 == site.sha(e.body) && e.body.modelID == site.modelID && e.body.version == version
    requires e.body.revision == |disk.events[version]| + 1
    requires WrittenLog(site, version, disk.events[version] + [e])
    ensures Kept(site, AppendEvent(disk, version, e))
  {
    hide ValidSite, ValidPointer, Attached, WrittenLog, ValidSemantic;
    var log, next := disk.events[version], AppendEvent(disk, version, e);
    forall env | env in next.pointers
      ensures ValidPointer(next.pointers[env]) && next.pointers[env].activeVersion in next.events
      ensures Attached(next.events[next.pointers[env].activeVersion], next.pointers[env])
    {
      if next.pointers[env].activeVersion == version { AttachedExtends(site, version, log, e, next.pointers[env]); }
    }
  }

  lemma PointKeeps(site: Site, disk: Disk, env: string, p: Pointer)
    requires Kept(site, disk) && ValidPointer(p) && p.activeVersion in disk.events
    requires Attached(disk.events[p.activeVersion], p)
    ensures Kept(site, disk.(pointers := disk.pointers[env := p]))
  {
    hide WrittenLog, ValidPointer, Attached;
  }

  // ----- The writer satisfies the verifier ----------------------------------------------------------------

  lemma LastIsWritten(site: Site, version: string, log: seq<Event>)
    requires WrittenLog(site, version, log)
    ensures Last(log).body.revision == |log| && ValidFields(Last(log).body)
    ensures Last(log).body.version == version && Last(log).body.modelID == site.modelID
    ensures Last(log).sha256 == site.sha(Last(log).body)
  {
    assert WrittenEvent(site, version, Before(log, |log| - 1), log[|log| - 1], |log| - 1);
    hide ValidFields, Before;
  }

  /** Every event a lifecycle call plans is a well-formed move from the log's last event. */
  lemma TransitionIsWritten(site: Site, disk: Disk, op: Operation, now: int)
    requires ValidSite(site) && LogsKept(site, disk) && !op.Register? && !op.Rollback? && !op.Disable?
    requires AsTransition(op).Ok? && PlanTransition(site, disk, AsTransition(op).value, now).Ok?
    ensures var t := AsTransition(op).value;
      var e := PlanTransition(site, disk, t, now).value;
      && t.version == op.version && op.version in disk.events && disk.events[op.version] != []
      && var log := disk.events[op.version];
         && LoadEvents(site, disk, op.version) == Ok(log)
         && WrittenEvent(site, op.version, Some(Last(log)), e, |log|)
         && e.body.to == t.to && e.body.actor == t.actor && Last(log).body.to in t.from
         && e.body.authorizationReference == t.authorizationReference
  {
    hide AcceptedLog, PointersReadable, WrittenLog, WrittenEvent, ValidSemantic, ValidIdentifier;
    var t := AsTransition(op).value;
    var e, log := PlanTransition(site, disk, t, now).value, disk.events[op.version];
    assert t.version == op.version;
    LastIsWritten(site, op.version, log);
    PlannedMoveIsWellFormed(site, log, op, t, e, now);
  }

  lemma PlannedMoveIsWellFormed(site: Site, log: seq<Event>, op: Operation, t: Transition, e: Event, now: int)
    requires ValidIdentifier(site.modelID) && ValidSemantic(op.version) && log != []
    requires Last(log).body.revision == |log| < UINT64_LIMIT - 1 && ValidFields(Last(log).body)
    requires Last(log).body.version == op.version && Last(log).body.modelID == site.modelID
    requires !op.Register? && !op.Rollback? && !op.Disable? && AsTransition(op) == Ok(t)
    requires ValidActorReason(t.actor, t.reason) && (t.updatePointer ==> ValidIdentifier(t.environment)) && now > 0
    requires Last(log).body.to in t.from && (t.approve ==> Last(log).body.approval.Pending?)
    requires !t.approve && Deployed(t.to) ==> Last(log).body.approval.Approved?
    requires t.requireTwoPerson ==> Last(log).body.approvalActor != t.actor
    requires var last := Last(log).body;
      var approval := if t.revoke then Revoked else if t.approve then Approved else last.approval;
      var approver := if t.approve then t.actor else last.approvalActor;
      e == Sign(site,
                NextBody(site, log, t.to, approval, approver, t.environment, t.actor, t.reason,
                         t.authorizationReference, "", now))
    ensures WrittenEvent(site, op.version, Some(Last(log)), e, |log|)
  {
    hide ValidSemantic, ValidIdentifier, Blank;
    TransitionIsAllowed(op, t, Last(log).body, e.body);
    TransitionShape(op, t);
    hide AsTransition;
    assert ValidFields(e.body);
    assert Follows(Last(log), e.body);
  }

  // Every transition a call asks for is one the verifier allows.
  lemma TransitionIsAllowed(op: Operation, t: Transition, last: EventBody, b: EventBody)
    requires !op.Register? && !op.Rollback? && !op.Disable? && AsTransition(op) == Ok(t)
    requires last.to in t.from && b.to == t.to && b.from == last.to && b.actor == t.actor
    requires b.approval == (if t.revoke then Revoked else if t.approve then Approved else last.approval)
    requires b.approvalActor == (if t.approve then t.actor else last.approvalActor)
    requires b.authorizationReference == t.authorizationReference && b.environment == t.environment
    requires t.approve ==> last.approval.Pending?
    requires t.requireTwoPerson ==> last.approvalActor != t.actor
    ensures AllowedMove(last, b)
  {
    hide ValidSemantic, ValidIdentifier, Blank;
    match op
    case Validate(_, _, _, _, _) =>
    case Approve(_, _, _, _, _) => ReferenceIsGiven(op.reference);
    case DeployShadow(_, _, _, _, _) =>
    case PromoteCanary(_, _, _, _, _, _) =>
    case Promote(_, _, _, _, _, _, _, _) => if t.to.Production? { ReferenceIsGiven(op.reference); }
    case Retire(_, _, _, _) =>
  }

  lemma TransitionShape(op: Operation, t: Transition)
    requires !op.Register? && !op.Rollback? && !op.Disable? && AsTransition(op) == Ok(t)
    ensures Deployed(t.to) ==> t.updatePointer && !t.revoke
    ensures t.approve ==> t.to.ReplayValidated? && t.from == {ReplayValidated}
    ensures t.revoke ==> t.to.Retired? && !t.approve
    ensures t.to.ReplayValidated? && ReplayValidated in t.from ==> t.approve
  {
    hide Blank;
  }

  lemma ReferenceIsGiven(reference: string)
    requires !Blank(reference)
    ensures reference != ""
  {
  }

  lemma RevocationIsWritten(site: Site, version: string, log: seq<Event>, b: EventBody)
    requires ValidIdentifier(site.modelID) && ValidSemantic(version) && log != []
    requires Last(log).body.revision == |log| < UINT64_LIMIT - 1 && ValidFields(Last(log).body)
    requires Last(log).body.version == version && Last(log).body.modelID == site.modelID
    requires ValidActorReason(b.actor, b.reason) && b.occurredAtUTCNS > 0
    requires b == NextBody(site, log, b.to, Revoked, Last(log).body.approvalActor, b.environment, b.actor, b.reason,
                           b.authorizationReference, b.rollbackTarget, b.occurredAtUTCNS)
    requires
      || (b.to.Disabled? && !Last(log).body.to.Retired? && b.rollbackTarget == "")
      || (b.to.RolledBackStage? && Deployed(Last(log).body.to) && b.authorizationReference != ""
          && b.rollbackTarget != "" && ValidSemantic(b.rollbackTarget))
    ensures WrittenEvent(site, version, Some(Last(log)), Sign(site, b), |log|)
  {
    hide ValidSemantic, ValidIdentifier;
    assert ValidFields(b);
    assert Follows(Last(log), b);
    assert AllowedMove(Last(log).body, b);
  }

  lemma NonemptySemantic(s: string)
    requires ValidSemantic(s)
    ensures s != ""
  {
    var plus := IndexOf(s, '+');
    var head := s[..plus];
    assert VersionCore(head[..IndexOf(head, '-')]);
  }

  lemma RollbackIsWritten(site: Site, disk: Disk, op: Operation, now: int)
    requires ValidSite(site) && LogsKept(site, disk) && op.Rollback? && PlanRollback(site, disk, op, now).Ok?
    ensures var RollbackPlan(e, target) := PlanRollback(site, disk, op, now).value;
      && op.version in disk.events && disk.events[op.version] != []
      && op.targetVersion in disk.events && disk.events[op.targetVersion] != [] && op.version != op.targetVersion
      && target == Last(disk.events[op.targetVersion]) && Deployed(target.body.to)
      && var log := disk.events[op.version];
         && LoadEvents(site, disk, op.version) == Ok(log) && Deployed(Last(log).body.to)
         && WrittenEvent(site, op.version, Some(Last(log)), e, |log|)
         && e.body.to.RolledBackStage? && e.body.actor == op.actor && |e.body.authorizationReference| <= 256
         && BoundedText(op.actor, 128) && now > 0 && op.environment in disk.pointers && ValidIdentifier(op.environment)
  {
    hide AcceptedLog, PointersReadable, WrittenLog, ValidSemantic, ValidIdentifier;
    var plan, log := PlanRollback(site, disk, op, now).value, disk.events[op.version];
    NonemptySemantic(op.targetVersion);
    LastIsWritten(site, op.version, log);
    RevocationIsWritten(site, op.version, log, plan.event.body);
  }

  lemma DisableIsWritten(site: Site, disk: Disk, op: Operation, now: int)
    requires ValidSite(site) && LogsKept(site, disk) && op.Disable? && PlanDisable(site, disk, op, now).Ok?
    ensures var DisablePlan(e, append) := PlanDisable(site, disk, op, now).value;
      && op.version in disk.events && disk.events[op.version] != [] && BoundedText(op.actor, 128)
      && e.body.to.Disabled?
      && var log := disk.events[op.version];
         && LoadEvents(site, disk, op.version) == Ok(log)
         && (append ==>
             now > 0 && e.body.authorizationReference == ""
             && WrittenEvent(site, op.version, Some(Last(log)), e, |log|))
         && (!append ==> e == Last(log))
  {
    hide AcceptedLog, PointersReadable, WrittenLog, ValidSemantic, ValidIdentifier;
    var plan, log := PlanDisable(site, disk, op, now).value, disk.events[op.version];
    LastIsWritten(site, op.version, log);
    if plan.append { RevocationIsWritten(site, op.version, log, plan.event.body); }
  }

  // ----- Crash points ----------------------------------------------------------------------------------------

  lemma LastIsAttached(log: seq<Event>, p: Pointer)
    requires log != [] && p.sourceEvent == Last(log).sha256 && p.stage == Last(log).body.to
    ensures Attached(log, p)
  {
  }

  lemma KeptDigest(site: Site, disk: Disk, version: string)
    requires ValidSite(site) && Kept(site, disk) && version in disk.events
    ensures disk.events[version] != [] && Hex64(Last(disk.events[version]).sha256)
  {
    LastIsWritten(site, version, disk.events[version]);
    hide WrittenLog, Hex64;
  }

  lemma WritePointerKeeps(site: Site, disk: Disk, env: string, version: string, stage: Stage, source: string,
                          change: string, actor: string, now: int)
    requires ValidSite(site) && Kept(site, disk) && version in disk.events && disk.events[version] != []
    requires source == Last(disk.events[version]).sha256 && stage == Last(disk.events[version]).body.to
    requires Hex64(change) && BoundedText(actor, 128)
    requires Deployed(stage) || stage.Disabled? || stage.RolledBackStage?
    ensures WritePointer(disk, env, version, stage, source, change, actor, now).Ok? ==>
      Kept(site, WritePointer(disk, env, version, stage, source, change, actor, now).value)
  {
    hide WrittenLog, ValidSemantic, Attached, Digest, Hex64, Blank, PointersKept;
    KeptDigest(site, disk, version);
    if WritePointer(disk, env, version, stage, source, change, actor, now).Ok? {
      var p := WritePointer(disk, env, version, stage, source, change, actor, now).value.pointers[env];
      LastIsAttached(disk.events[version], p);
      PointKeeps(site, disk, env, p);
    }
  }

  lemma {:induction false} DisablePointersKeeps(site: Site, disk: Disk, version: string, e: Event, actor: string,
                                                now: int,
                                                envs: seq<string>, writes: nat)
    requires ValidSite(site) && Kept(site, disk) && version in disk.events && disk.events[version] != []
    requires e == Last(disk.events[version]) && (e.body.to.Disabled? || e.body.to.RolledBackStage?)
    requires BoundedText(actor, 128)
    ensures Kept(site, DisablePointers(disk, version, e, actor, now, envs, writes).disk)
    ensures DisablePointers(disk, version, e, actor, now, envs, writes).disk.events == disk.events
    decreases |envs|
  {
    hide Kept, ValidSite, Attached, ValidPointer;
    if envs != [] {
      var env := envs[0];
      if env !in disk.pointers || (ValidPointer(disk.pointers[env]) && !Retarget(disk.pointers[env], version, e)) {
        DisablePointersKeeps(site, disk, version, e, actor, now, envs[1..], writes);
      } else if ValidPointer(disk.pointers[env]) && writes > 0 {
        KeptDigest(site, disk, version);
        WritePointerKeeps(site, disk, env, version, e.body.to, e.sha256, e.sha256, actor, now);
        var written := WritePointer(disk, env, version, e.body.to, e.sha256, e.sha256, actor, now);
        if written.Ok? { DisablePointersKeeps(site, written.value, version, e, actor, now, envs[1..], writes - 1); }
      }
    }
  }

  lemma TransitionKeeps(site: Site, disk: Disk, op: Operation, io: Io)
    requires ValidSite(site) && Kept(site, disk) && !op.Register? && !op.Rollback? && !op.Disable?
    ensures Kept(site, Perform(site, disk, op, io).disk)
  {
    hide Kept, ValidSite, PlanTransition, WrittenLog, LoadEvents, WrittenEvent, ValidSemantic, WritePointer;
    KeptParts(site, disk);
    if AsTransition(op).Ok? && PlanTransition(site, disk, AsTransition(op).value, io.now).Ok? && io.writes > 0 {
      var t := AsTransition(op).value;
      TransitionIsWritten(site, disk, op, io.now);
      var e, log := PlanTransition(site, disk, t, io.now).value, disk.events[op.version];
      LogExtends(site, op.version, log, e);
      EventFacts(site, op.version, Last(log), e, |log|);
      AppendKeeps(site, disk, op.version, e);
      var appended := AppendEvent(disk, op.version, e);
      assert Last(appended.events[op.version]) == e;
      if t.updatePointer {
        KeptDigest(site, appended, op.version);
        WritePointerKeeps(site, appended, t.environment, op.version, t.to, e.sha256, e.sha256, t.actor, io.now);
      }
    }
  }

  lemma KeptParts(site: Site, disk: Disk)
    requires Kept(site, disk)
    ensures LogsKept(site, disk) && PointersKept(disk)
    ensures forall v | v in disk.events :: WrittenLog(site, v, disk.events[v])
  {
  }

  lemma EventFacts(site: Site, version: string, prior: Event, e: Event, i: nat)
    requires WrittenEvent(site, version, Some(prior), e, i)
    ensures e.sha256 == site.sha(e.body) && e.body.modelID == site.modelID && e.body.version == version
    ensures e.body.revision == i + 1 && BoundedText(e.body.actor, 128)
    ensures AllowedMove(prior.body, e.body) && ApprovalKept(prior.body, e.body) && DeploymentApproved(e.body)
  {
    hide ValidSemantic, ValidIdentifier;
  }

  lemma RollbackKeeps(site: Site, disk: Disk, op: Operation, io: Io)
    requires ValidSite(site) && Kept(site, disk) && op.Rollback?
    ensures Kept(site, Perform(site, disk, op, io).disk)
  {
    hide Kept, ValidSite, PlanRollback, LoadEvents, WritePointer, DisablePointers;
    if PlanRollback(site, disk, op, io.now).Ok? && io.writes > 0 {
      var RollbackPlan(e, target) := PlanRollback(site, disk, op, io.now).value;
      RollbackAppends(site, disk, op, io.now);
      RollbackPointersKeep(site, disk, op, io);
    }
  }

  // The rollback event is in place, and the target's log is as it was.
  lemma RollbackAppends(site: Site, disk: Disk, op: Operation, now: int)
    requires ValidSite(site) && Kept(site, disk) && op.Rollback? && PlanRollback(site, disk, op, now).Ok?
    ensures var RollbackPlan(e, target) := PlanRollback(site, disk, op, now).value;
      var appended := AppendEvent(disk, op.version, e);
      && Kept(site, appended) && e.body.to.RolledBackStage? && BoundedText(op.actor, 128) && now > 0
      && op.version in appended.events && appended.events[op.version] != [] && Last(appended.events[op.version]) == e
      && op.targetVersion in appended.events && appended.events[op.targetVersion] != []
      && target == Last(appended.events[op.targetVersion]) && Deployed(target.body.to)
      && Hex64(e.sha256) && op.targetVersion != op.version
  {
    hide Kept, ValidSite, PlanRollback, WrittenLog, LoadEvents, WrittenEvent, ValidSemantic, ValidIdentifier, Hex64,
         LogsKept, PointersKept;
    KeptParts(site, disk);
    RollbackIsWritten(site, disk, op, now);
    var RollbackPlan(e, target) := PlanRollback(site, disk, op, now).value;
    var log := disk.events[op.version];
    LogExtends(site, op.version, log, e);
    EventFacts(site, op.version, Last(log), e, |log|);
    AppendKeeps(site, disk, op.version, e);
    assert Last(log + [e]) == e;
    KeptDigest(site, AppendEvent(disk, op.version, e), op.version);
  }

  lemma RollbackPointersKeep(site: Site, disk: Disk, op: Operation, io: Io)
    requires ValidSite(site) && Kept(site, disk) && op.Rollback? && PlanRollback(site, disk, op, io.now).Ok?
    requires io.writes > 0
    ensures var RollbackPlan(e, target) := PlanRollback(site, disk, op, io.now).value;
      var appended := AppendEvent(disk, op.version, e);
      var p := DisablePointers(appended, op.version, e, op.actor, io.now, io.listing, io.writes - 1);
      var written := WritePointer(p.disk, op.environment, op.targetVersion, target.body.to, target.sha256, e.sha256,
                                  op.actor, io.now);
      Kept(site, p.disk) && (written.Ok? ==> Kept(site, written.value))
  {
    hide Kept, ValidSite, PlanRollback, DisablePointers, WritePointer, LoadEvents, Hex64, AppendEvent;
    RollbackAppends(site, disk, op, io.now);
    var RollbackPlan(e, target) := PlanRollback(site, disk, op, io.now).value;
    var appended := AppendEvent(disk, op.version, e);
    DisablePointersKeeps(site, appended, op.version, e, op.actor, io.now, io.listing, io.writes - 1);
    var progress := DisablePointers(appended, op.version, e, op.actor, io.now, io.listing, io.writes - 1);
    KeptDigest(site, progress.disk, op.targetVersion);
    WritePointerKeeps(site, progress.disk, op.environment, op.targetVersion, target.body.to, target.sha256, e.sha256,
                      op.actor, io.now);
  }

  lemma DisableKeeps(site: Site, disk: Disk, op: Operation, io: Io)
    requires ValidSite(site) && Kept(site, disk) && op.Disable?
    ensures Kept(site, Perform(site, disk, op, io).disk)
  {
    hide Kept, ValidSite, PlanDisable, WrittenLog, LoadEvents, WrittenEvent, ValidSemantic, DisablePointers;
    KeptParts(site, disk);
    if PlanDisable(site, disk, op, io.now).Ok? {
      var DisablePlan(e, append) := PlanDisable(site, disk, op, io.now).value;
      DisableIsWritten(site, disk, op, io.now);
      var log := disk.events[op.version];
      if !append {
        DisablePointersKeeps(site, disk, op.version, e, op.actor, io.now, io.listing, io.writes);
      } else if io.writes > 0 {
        LogExtends(site, op.version, log, e);
        EventFacts(site, op.version, Last(log), e, |log|);
        AppendKeeps(site, disk, op.version, e);
        var appended := AppendEvent(disk, op.version, e);
        assert Last(appended.events[op.version]) == e;
        DisablePointersKeeps(site, appended, op.version, e, op.actor, io.now, io.listing, io.writes - 1);
      }
    }
  }

  lemma RegisterKeeps(site: Site, disk: Disk, op: Operation, io: Io)
    requires ValidSite(site) && Kept(site, disk) && op.Register?
    ensures Kept(site, Perform(site, disk, op, io).disk)
  {
    hide ValidPointer, ValidSemantic, LoadEvents, Attached, Digest;
    var next := Perform(site, disk, op, io).disk;
    if next != disk {
      var e := FirstEvent(site, op, io.now);
      assert next.events[op.version] == [e];
      assert WrittenEvent(site, op.version, None, e, 0);
      assert WrittenLog(site, op.version, [e]) by { assert Before([e], 0) == None; }
      hide WrittenLog;
    }
  }

  /** At every crash point of every operation: logs stay chained and signed, and each deployment pointer
      still names an event of its active version's log with the matching stage. */
  lemma OperationKeeps(site: Site, disk: Disk, op: Operation, io: Io)
    requires ValidSite(site) && Kept(site, disk)
    ensures Kept(site, Perform(site, disk, op, io).disk)
  {
    if op.Register? { RegisterKeeps(site, disk, op, io); }
    else if op.Rollback? { RollbackKeeps(site, disk, op, io); }
    else if op.Disable? { DisableKeeps(site, disk, op, io); }
    else { TransitionKeeps(site, disk, op, io); }
  }
}
