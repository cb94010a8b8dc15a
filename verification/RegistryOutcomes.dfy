/** Exactly when each registry call succeeds once all its writes are durable, and the disk it then leaves. */
module RegistryOutcomes {
  import opened Results
  import opened Text
  import opened DeploymentTypes
  import opened Lifecycle
  import opened LifecycleMeaning
  import opened Registry
  import opened RegistryHistory
  import opened RegistryCalls

  const LAST_GENERATION: int := 0xFFFF_FFFF_FFFF_FFFF

  // One event more on this version's log, written by the call.
  ghost predicate OneMore(before: Logs, after: Logs, op: Operation, e: Event, now: int) {
    && after == before[op.version := LogOf(before, op.version) + [e]]
    && WrittenBy(op, LastOf(before, op.version), e.body, now)
  }

  // ----- Lifecycle calls -------------------------------------------------------------------------------------

  predicate Deploys(op: Operation) { op.DeployShadow? || op.PromoteCanary? || op.Promote? }

  predicate Room(pointers: map<string, Pointer>, env: string) {
    env in pointers ==> pointers[env].generation < LAST_GENERATION
  }

  // The environment shows the version at the event's stage, one generation on.
  ghost predicate Points(before: map<string, Pointer>, after: map<string, Pointer>, env: string, version: string,
                         stage: Stage, source: string, change: string, actor: string, now: int) {
    && env in after && after == before[env := after[env]]
    && var p := after[env];
       && p.activeVersion == version && p.stage == stage && p.sourceEvent == source && p.changeEvent == change
       && p.actor == actor && p.changedAtUTCNS == now
       && p.generation == if env in before then before[env].generation + 1 else 1
  }

  // What the call leaves behind when it succeeds.
  ghost predicate Transited(disk: Disk, next: Disk, op: Operation, now: int) {
    && op.version in next.events && next.events[op.version] != []
    && var e := Last(next.events[op.version]);
       && OneMore(disk.events, next.events, op, e, now)
       && if Deploys(op) then
            Points(disk.pointers, next.pointers, op.environment, op.version, e.body.to, e.sha256, e.sha256, op.actor,
                   now)
          else next.pointers == disk.pointers
  }

  lemma PointersShape(op: Operation, t: Transition)
    requires Transits(op) && AsTransition(op) == Ok(t)
    ensures t.version == op.version && t.actor == op.actor && t.updatePointer == Deploys(op)
    ensures Deploys(op) ==> t.environment == op.environment
    ensures Deploys(op) && !op.DeployShadow? ==> t.authorizationReference == op.reference
    ensures !Deploys(op) || op.DeployShadow? ==> |t.authorizationReference| <= 256
  {
    hide Blank;
  }

  lemma WritesExactly(disk: Disk, env: string, version: string, stage: Stage, source: string, change: string,
                      actor: string, now: int)
    requires env in disk.pointers ==> ValidPointer(disk.pointers[env])
    ensures var written := WritePointer(disk, env, version, stage, source, change, actor, now);
      && (written.Ok? <==> now > 0 && Room(disk.pointers, env))
      && (written.Ok? ==>
            && written.value.events == disk.events
            && Points(disk.pointers, written.value.pointers, env, version, stage, source, change, actor, now))
  {
    hide ValidPointer;
  }

  // The event is in place; what remains is the pointer and reading the log back.
  lemma TransitionAppends(site: Site, disk: Disk, op: Operation, now: int)
    requires ValidSite(site) && Kept(site, disk) && Transits(op) && Planned(site, disk, op, now).Ok?
    ensures var e := Planned(site, disk, op, now).value;
      && op.version in disk.events && disk.events[op.version] != []
      && Kept(site, AppendEvent(disk, op.version, e))
      && OneMore(disk.events, AppendEvent(disk, op.version, e).events, op, e, now)
      && (ReferencesFit(disk.events[op.version]) ==>
            (ReferencesFit(disk.events[op.version] + [e]) <==> |e.body.authorizationReference| <= 256))
  {
    hide Kept, ValidSite, PlanTransition, WrittenLog, WrittenEvent, WrittenBy, LogsKept, PointersKept, AsTransition,
         LoadEvents;
    KeptParts(site, disk);
    PlannedIsWrittenBy(site, disk, op, now);
    TransitionIsWritten(site, disk, op, now);
    var e, log := Planned(site, disk, op, now).value, disk.events[op.version];
    LogExtends(site, op.version, log, e);
    EventFacts(site, op.version, Last(log), e, |log|);
    AppendKeeps(site, disk, op.version, e);
    assert (log + [e])[|log|] == e;
  }

  lemma KeptPointers(site: Site, disk: Disk)
    requires Kept(site, disk)
    ensures forall env | env in disk.pointers :: ValidPointer(disk.pointers[env])
  {
    hide ValidPointer, LogsKept, Attached;
  }

  // Planned, short enough a reference, and room for the pointer.
  ghost predicate Completes(disk: Disk, op: Operation, now: int)
    requires Transits(op)
  {
    && Ready(disk, op, now) && (Deploys(op) ==> Room(disk.pointers, op.environment))
    && (Deploys(op) && !op.DeployShadow? ==> |op.reference| <= 256)
  }

  /** Exactly when validating, approving, deploying, promoting or retiring succeeds: the request is well formed, the
      version readable and at the stage and approval the call asks for, the call authorized, the reference short, the
      environment's generations not used up, and every write durable. The log then ends in the call's event and the
      environment points at it. A call that is not planned, or cut short at once, changes nothing; a deployment cut
      short after its first write leaves the event and no pointer. */
  lemma TransitsExactly(site: Site, disk: Disk, op: Operation, io: Io)
    requires ValidSite(site) && Kept(site, disk) && Transits(op)
    ensures var after := Perform(site, disk, op, io);
      && (after.result.Ok? <==> Completes(disk, op, io.now) && io.writes >= if Deploys(op) then 2 else 1)
      && (after.result.Ok? ==> Transited(disk, after.disk, op, io.now))
      && (after.result.Ok? ==> after.result.value == LogOf(after.disk.events, op.version))
      && (!Ready(disk, op, io.now) || io.writes == 0 ==> after.disk == disk)
      && (Ready(disk, op, io.now) && io.writes == 1 ==> after.disk.pointers == disk.pointers)
      && (Ready(disk, op, io.now) && io.writes >= 1 ==>
            && op.version in after.disk.events && after.disk.events[op.version] != []
            && OneMore(disk.events, after.disk.events, op, Last(after.disk.events[op.version]), io.now))
  {
    hide Kept, ValidSite, PlanTransition, LoadEvents, AsTransition, ReferencesFit, WrittenBy, WritePointer,
         ValidPointer,
         Points, Fits, Given, Deploys, Room;
    PlansExactly(site, disk, op, io.now);
    if Planned(site, disk, op, io.now).Ok? {
      var t := AsTransition(op).value;
      PointersShape(op, t);
      var e := Planned(site, disk, op, io.now).value;
      PlannedBody(site, disk, t, io.now);
      TransitionAppends(site, disk, op, io.now);
      var mid := AppendEvent(disk, op.version, e);
      assert Last(mid.events[op.version]) == e && mid.pointers == disk.pointers;
      KeptPointers(site, mid);
      WritesExactly(mid, t.environment, op.version, t.to, e.sha256, e.sha256, t.actor, io.now);
      OperationKeeps(site, disk, op, io);
      ReadableExactly(site, Perform(site, disk, op, io).disk, op.version);
    }
  }

  // ----- Registering -----------------------------------------------------------------------------------------

  /** Exactly when registering succeeds: a well-formed request for a verified version that is new, or known by the same
      manifest and readable. Only a new version's log is started; a known one is left as it is. */
  lemma RegistersExactly(site: Site, disk: Disk, op: Operation, io: Io)
    requires ValidSite(site) && Kept(site, disk) && op.Register? && io.writes >= 1
    ensures var after, known := Perform(site, disk, op, io), op.version in disk.events;
      && (after.result.Ok? <==>
            && Given(op.actor, 128) && Given(op.reason, 1024) && ValidSemantic(op.version) && op.verified
            && if known then op.sameManifest && ReferencesFit(disk.events[op.version]) else io.now > 0)
      && (after.result.Err? || known ==> after.disk == disk)
      && (after.result.Ok? && !known ==> Transited(disk, after.disk, op, io.now))
      && (after.result.Ok? ==> after.result.value == LogOf(after.disk.events, op.version))
  {
    hide Kept, LoadEvents, ValidSemantic, Given, Blank, ReferencesFit, ValidSite;
    BoundedIsGiven(op.actor, 128);
    BoundedIsGiven(op.reason, 1024);
    ReadableExactly(site, disk, op.version);
    OperationKeeps(site, disk, op, io);
    var after := Perform(site, disk, op, io);
    ReadableExactly(site, after.disk, op.version);
    if after.disk != disk {
      assert after.disk.events[op.version] == [FirstEvent(site, op, io.now)];
      ShortReferenceFits(FirstEvent(site, op, io.now));
    }
  }

  lemma ShortReferenceFits(e: Event)
    requires |e.body.authorizationReference| <= 256
    ensures ReferencesFit([e])
  {
  }

  // ----- Withdrawing pointers --------------------------------------------------------------------------------

  ghost predicate Movable(pointers: map<string, Pointer>, env: string, version: string, e: Event, now: int) {
    env in pointers && Retarget(pointers[env], version, e) ==> now > 0 && pointers[env].generation < LAST_GENERATION
  }

  // Moved to the event, one generation on, if listed and stale; otherwise as it was.
  ghost predicate MovedTo(before: Pointer, after: Pointer, listed: bool, version: string, e: Event, actor: string,
                          now: int) {
    if listed && Retarget(before, version, e) then
      && after.activeVersion == version && after.stage == e.body.to && after.sourceEvent == e.sha256
      && after.changeEvent == e.sha256 && after.actor == actor && after.changedAtUTCNS == now
      && after.generation == before.generation + 1
    else after == before
  }

  ghost predicate AllMoved(before: map<string, Pointer>, after: map<string, Pointer>, envs: seq<string>,
                           version: string,
                           e: Event, actor: string, now: int) {
    && after.Keys == before.Keys
    && forall env | env in before :: MovedTo(before[env], after[env], env in envs, version, e, actor, now)
  }

  // The event can be shown by a pointer.
  ghost predicate Showable(version: string, e: Event, actor: string) {
    && ValidSemantic(version) && Hex64(e.sha256) && BoundedText(actor, 128)
    && (e.body.to.Disabled? || e.body.to.RolledBackStage?)
  }

  lemma {:induction false} DisablesPointersExactly(disk: Disk, version: string, e: Event, actor: string, now: int,
                                                   envs: seq<string>, writes: nat)
    requires forall env | env in disk.pointers :: ValidPointer(disk.pointers[env])
    requires Showable(version, e, actor) && writes >= |envs|
    ensures var p := DisablePointers(disk, version, e, actor, now, envs, writes);
      && p.disk.events == disk.events
      && (p.done <==> forall env | env in envs :: Movable(disk.pointers, env, version, e, now))
      && (p.done ==> AllMoved(disk.pointers, p.disk.pointers, envs, version, e, actor, now))
      && (p.done ==> p.writes + |envs| >= writes)
    decreases |envs|
  {
    hide ValidPointer, Showable, Movable, MovedTo, Retarget;
    if envs == [] {
      NoneMoved(disk.pointers, version, e, actor, now);
    } else {
      var env, rest := envs[0], envs[1..];
      assert forall x :: x in envs <==> x == env || x in rest;
      if env !in disk.pointers || !Retarget(disk.pointers[env], version, e) {
        DisablesPointersExactly(disk, version, e, actor, now, rest, writes);
        StillFirst(disk.pointers, env, version, e, now);
        var p := DisablePointers(disk, version, e, actor, now, rest, writes);
        if p.done { SkipsFirst(disk.pointers, p.disk.pointers, envs, version, e, actor, now); }
      } else {
        WritesExactly(disk, env, version, e.body.to, e.sha256, e.sha256, actor, now);
        MovesFirst(disk.pointers, env, version, e, now);
        var written := WritePointer(disk, env, version, e.body.to, e.sha256, e.sha256, actor, now);
        if written.Ok? {
          StaysValid(disk, written.value, env, version, e, actor, now);
          DisablesPointersExactly(written.value, version, e, actor, now, rest, writes - 1);
          SameRest(disk.pointers, written.value.pointers, envs, version, e, actor, now);
          var p := DisablePointers(written.value, version, e, actor, now, rest, writes - 1);
          if p.done {
            MovedFirst(disk.pointers, written.value.pointers, p.disk.pointers, envs, version, e, actor, now);
          }
        }
      }
    }
  }

  lemma NoneMoved(pointers: map<string, Pointer>, version: string, e: Event, actor: string, now: int)
    ensures AllMoved(pointers, pointers, [], version, e, actor, now)
  {
  }

  lemma StillFirst(pointers: map<string, Pointer>, env: string, version: string, e: Event, now: int)
    requires env !in pointers || !Retarget(pointers[env], version, e)
    ensures Movable(pointers, env, version, e, now)
  {
  }

  lemma MovesFirst(pointers: map<string, Pointer>, env: string, version: string, e: Event, now: int)
    requires env in pointers && Retarget(pointers[env], version, e)
    ensures Movable(pointers, env, version, e, now) <==> now > 0 && Room(pointers, env)
  {
  }

  lemma SkipsFirst(before: map<string, Pointer>, after: map<string, Pointer>, envs: seq<string>, version: string,
                   e: Event, actor: string, now: int)
    requires envs != [] && (envs[0] !in before || !Retarget(before[envs[0]], version, e))
    requires AllMoved(before, after, envs[1..], version, e, actor, now)
    ensures AllMoved(before, after, envs, version, e, actor, now)
  {
    hide Retarget;
    assert forall x :: x in envs <==> x == envs[0] || x in envs[1..];
    forall env | env in before ensures MovedTo(before[env], after[env], env in envs, version, e, actor, now) {
      assert MovedTo(before[env], after[env], env in envs[1..], version, e, actor, now);
    }
  }

  lemma StaysValid(disk: Disk, next: Disk, env: string, version: string, e: Event, actor: string, now: int)
    requires forall x | x in disk.pointers :: ValidPointer(disk.pointers[x])
    requires Showable(version, e, actor) && now > 0
    requires Points(disk.pointers, next.pointers, env, version, e.body.to, e.sha256, e.sha256, actor, now)
    ensures forall x | x in next.pointers :: ValidPointer(next.pointers[x])
  {
    hide ValidSemantic, Hex64, Blank;
  }

  // After the first environment has moved, the others are as they were and the first is not stale.
  lemma SameRest(before: map<string, Pointer>, mid: map<string, Pointer>, envs: seq<string>, version: string, e: Event,
                 actor: string, now: int)
    requires envs != [] && envs[0] in before && Movable(before, envs[0], version, e, now)
    requires Points(before, mid, envs[0], version, e.body.to, e.sha256, e.sha256, actor, now)
    ensures (forall env | env in envs[1..] :: Movable(mid, env, version, e, now)) <==>
      (forall env | env in envs :: Movable(before, env, version, e, now))
  {
    assert forall x :: x in envs <==> x == envs[0] || x in envs[1..];
    forall env ensures env == envs[0] ==> Movable(mid, env, version, e, now)
      ensures env != envs[0] ==> (Movable(mid, env, version, e, now) <==> Movable(before, env, version, e, now)) {}
    hide Movable, Points;
  }

  lemma MovedFirst(before: map<string, Pointer>, mid: map<string, Pointer>, after: map<string, Pointer>,
                   envs: seq<string>, version: string, e: Event, actor: string, now: int)
    requires envs != [] && envs[0] in before && Retarget(before[envs[0]], version, e)
    requires Points(before, mid, envs[0], version, e.body.to, e.sha256, e.sha256, actor, now)
    requires AllMoved(mid, after, envs[1..], version, e, actor, now)
    ensures AllMoved(before, after, envs, version, e, actor, now)
  {
    assert forall x :: x in envs <==> x == envs[0] || x in envs[1..];
    assert mid.Keys == before.Keys;
    forall env | env in before ensures MovedTo(before[env], after[env], env in envs, version, e, actor, now) {
      assert MovedTo(mid[env], after[env], env in envs[1..], version, e, actor, now);
    }
  }

  // No pointer names an event that is only now written, so every pointer at the version is stale.
  lemma NewEventIsUnnamed(site: Site, disk: Disk, version: string, e: Event, env: string)
    requires ValidSite(site) && Kept(site, disk) && version in disk.events && env in disk.pointers
    requires e.sha256 == site.sha(e.body) && e.body.revision == |disk.events[version]| + 1
    ensures Retarget(disk.pointers[env], version, e) <==> disk.pointers[env].activeVersion == version
  {
    hide WrittenLog, ValidPointer, ValidSite, EventByHash;
    var p, log := disk.pointers[env], disk.events[version];
    if p.activeVersion == version {
      EventByHashFinds(log, p.sourceEvent);
      var i :| 0 <= i < |log| && log[i] == EventByHash(log, p.sourceEvent).value;
      SignedOnce(site, version, log, e, i);
    }
  }

  // ----- Rolling back ----------------------------------------------------------------------------------------

  ghost predicate MayRollBack(disk: Disk, op: Operation, now: int)
    requires op.Rollback?
  {
    && Open(disk, op, now) && op.verified && op.targetVerified && ValidIdentifier(op.environment)
    && Given(op.reference, 256) && op.targetVersion != op.version && Deployed(Last(disk.events[op.version]).body.to)
    && op.targetVersion in disk.events && disk.events[op.targetVersion] != []
    && ReferencesFit(disk.events[op.targetVersion])
    && op.environment in disk.pointers && disk.pointers[op.environment].activeVersion == op.version
    && var target := Last(disk.events[op.targetVersion]).body;
       target.approval.Approved? && Deployed(target.to)
  }

  // The generations of the environments to be moved are not used up; a listed one at hand moves twice.
  ghost predicate Numbered(disk: Disk, op: Operation, listing: seq<string>)
    requires op.Rollback? && op.environment in disk.pointers
  {
    && (forall env | env in listing && env in disk.pointers && disk.pointers[env].activeVersion == op.version ::
          disk.pointers[env].generation < LAST_GENERATION)
    && disk.pointers[op.environment].generation + (if op.environment in listing then 1 else 0) < LAST_GENERATION
  }

  // The environment points at the target's last event; every other listed one that ran the version shows it rolled
  // back.
  ghost predicate PointedBack(before: map<string, Pointer>, after: map<string, Pointer>, op: Operation, e: Event,
                              target: Event, listing: seq<string>, now: int)
    requires op.Rollback?
  {
    && after.Keys == before.Keys
    && forall env | env in before ::
         if env == op.environment then
           var p := after[env];
           && p.activeVersion == op.targetVersion && p.stage == target.body.to && p.sourceEvent == target.sha256
           && p.changeEvent == e.sha256 && p.actor == op.actor && p.changedAtUTCNS == now
           && p.generation == before[env].generation + if env in listing then 2 else 1
         else if env in listing && before[env].activeVersion == op.version then
           var p := after[env];
           && p.activeVersion == op.version && p.stage.RolledBackStage? && p.sourceEvent == e.sha256
           && p.changeEvent == e.sha256 && p.actor == op.actor && p.changedAtUTCNS == now
           && p.generation == before[env].generation + 1
         else after[env] == before[env]
  }

  ghost predicate RolledBackTo(disk: Disk, next: Disk, op: Operation, io: Io)
    requires op.Rollback?
  {
    && op.version in next.events && next.events[op.version] != []
    && op.targetVersion in disk.events && disk.events[op.targetVersion] != []
    && var e := Last(next.events[op.version]);
       && OneMore(disk.events, next.events, op, e, io.now)
       && PointedBack(disk.pointers, next.pointers, op, e, Last(disk.events[op.targetVersion]), io.listing, io.now)
  }

  lemma RollbackPlansExactly(site: Site, disk: Disk, op: Operation, now: int)
    requires ValidSite(site) && Kept(site, disk) && op.Rollback?
    ensures PlanRollback(site, disk, op, now).Ok? <==> MayRollBack(disk, op, now)
  {
    hide Kept, ValidSite, LoadEvents, ReferencesFit, ValidIdentifier, Given, BoundedText, Deployed, NextBody, Sign;
    ReadableExactly(site, disk, op.version);
    ReadableExactly(site, disk, op.targetVersion);
    BoundedIsGiven(op.actor, 128);
    BoundedIsGiven(op.reason, 1024);
    BoundedIsGiven(op.reference, 256);
    LogStands(site, disk, op.version);
    LogStands(site, disk, op.targetVersion);
  }

  lemma LogStands(site: Site, disk: Disk, version: string)
    requires Kept(site, disk)
    ensures version in disk.events ==>
      disk.events[version] != [] && Last(disk.events[version]).body.revision == |disk.events[version]|
  {
    hide Kept, WrittenLog;
    KeptParts(site, disk);
    if version in disk.events {
      WrittenIsNotEmpty(site, version, disk.events[version]);
      LastIsWritten(site, version, disk.events[version]);
    }
  }

  // The rollback's event is in place, nothing points at it yet, and it can be shown.
  lemma RollbackStarts(site: Site, disk: Disk, op: Operation, now: int)
    requires ValidSite(site) && Kept(site, disk) && op.Rollback? && PlanRollback(site, disk, op, now).Ok?
    ensures var RollbackPlan(e, target) := PlanRollback(site, disk, op, now).value;
      var mid := AppendEvent(disk, op.version, e);
      && Kept(site, mid) && Showable(op.version, e, op.actor) && e.body.to.RolledBackStage? && now > 0
      && OneMore(disk.events, mid.events, op, e, now)
      && op.version in mid.events && mid.events[op.version] != [] && Last(mid.events[op.version]) == e
      && op.targetVersion in disk.events && disk.events[op.targetVersion] != []
      && target == Last(disk.events[op.targetVersion])
      && ReferencesFit(mid.events[op.version])
      && forall env | env in disk.pointers ::
           Retarget(disk.pointers[env], op.version, e) <==> disk.pointers[env].activeVersion == op.version
  {
    hide Kept, ValidSite, PlanRollback, WrittenLog, LoadEvents, WrittenEvent, ValidSemantic, ValidIdentifier, Hex64,
         LogsKept, PointersKept, Retarget, WrittenBy, MayRollBack, ReferencesFit;
    RollbackAppends(site, disk, op, now);
    RollbackIsWrittenBy(site, disk, op, now);
    KeptParts(site, disk);
    RollbackIsWritten(site, disk, op, now);
    var RollbackPlan(e, _) := PlanRollback(site, disk, op, now).value;
    var log := disk.events[op.version];
    EventFacts(site, op.version, Last(log), e, |log|);
    forall env | env in disk.pointers
      ensures Retarget(disk.pointers[env], op.version, e) <==> disk.pointers[env].activeVersion == op.version
    {
      NewEventIsUnnamed(site, disk, op.version, e, env);
    }
    RollbackPlansExactly(site, disk, op, now);
    MayRollBackFits(disk, op, now);
    BoundedReferenceFits(log, e);
    VersionIsSemantic(site, disk, op.version);
  }

  lemma MayRollBackFits(disk: Disk, op: Operation, now: int)
    requires op.Rollback? && MayRollBack(disk, op, now)
    ensures op.version in disk.events && ReferencesFit(disk.events[op.version])
    ensures op.environment in disk.pointers && disk.pointers[op.environment].activeVersion == op.version
  {
    hide ReferencesFit, Given, ValidIdentifier, Deployed;
  }

  lemma VersionIsSemantic(site: Site, disk: Disk, version: string)
    requires Kept(site, disk) && version in disk.events
    ensures ValidSemantic(version)
  {
    hide ValidSemantic, PointersKept, WrittenLog;
  }

  lemma RollbackOutcome(site: Site, disk: Disk, op: Operation, io: Io)
    requires op.Rollback? && PlanRollback(site, disk, op, io.now).Ok? && io.writes > 0
    ensures var RollbackPlan(e, target) := PlanRollback(site, disk, op, io.now).value;
      var mid := AppendEvent(disk, op.version, e);
      var p := DisablePointers(mid, op.version, e, op.actor, io.now, io.listing, io.writes - 1);
      var written := WritePointer(p.disk, op.environment, op.targetVersion, target.body.to, target.sha256, e.sha256,
                                  op.actor, io.now);
      Perform(site, disk, op, io) ==
      if !p.done || p.writes == 0 then Outcome(p.disk, Err(Interrupted))
      else if written.Err? then Outcome(p.disk, Err(written.error))
      else Outcome(written.value, LoadEvents(site, written.value, op.version))
  {
    hide PlanRollback, DisablePointers, LoadEvents, WritePointer;
  }

  lemma PointedBackExactly(before: map<string, Pointer>, mid: map<string, Pointer>, after: map<string, Pointer>,
                           op: Operation, e: Event, target: Event, listing: seq<string>, now: int)
    requires op.Rollback? && op.environment in before && before[op.environment].activeVersion == op.version
    requires e.body.to.RolledBackStage?
    requires forall env | env in before ::
      Retarget(before[env], op.version, e) <==> before[env].activeVersion == op.version
    requires AllMoved(before, mid, listing, op.version, e, op.actor, now)
    requires Points(mid, after, op.environment, op.targetVersion, target.body.to, target.sha256, e.sha256, op.actor,
                    now)
    ensures PointedBack(before, after, op, e, target, listing, now)
  {
    hide Retarget;
    assert MovedTo(before[op.environment], mid[op.environment], op.environment in listing, op.version, e, op.actor,
                   now);
  }

  lemma NumberedExactly(disk: Disk, op: Operation, e: Event, mid: map<string, Pointer>, io: Io)
    requires op.Rollback? && op.environment in disk.pointers && io.now > 0
    requires disk.pointers[op.environment].activeVersion == op.version
    requires forall env | env in disk.pointers ::
      Retarget(disk.pointers[env], op.version, e) <==> disk.pointers[env].activeVersion == op.version
    ensures (forall env | env in io.listing :: Movable(disk.pointers, env, op.version, e, io.now)) <==>
      forall env | env in io.listing && env in disk.pointers && disk.pointers[env].activeVersion == op.version ::
        disk.pointers[env].generation < LAST_GENERATION
    ensures AllMoved(disk.pointers, mid, io.listing, op.version, e, op.actor, io.now) ==>
      (Room(mid, op.environment) <==>
       disk.pointers[op.environment].generation + (if op.environment in io.listing then 1 else 0) < LAST_GENERATION)
  {
    hide Retarget;
    if AllMoved(disk.pointers, mid, io.listing, op.version, e, op.actor, io.now) {
      var env := op.environment;
      assert MovedTo(disk.pointers[env], mid[env], env in io.listing, op.version, e, op.actor, io.now);
    }
    if forall env | env in io.listing :: Movable(disk.pointers, env, op.version, e, io.now) {
      forall env | env in io.listing && env in disk.pointers && disk.pointers[env].activeVersion == op.version
        ensures disk.pointers[env].generation < LAST_GENERATION
      {
        assert Movable(disk.pointers, env, op.version, e, io.now);
      }
    }
  }

  /** Exactly when a rollback succeeds, once all its writes are durable: the request is well formed and authorized, both
      versions are verified and readable, the version runs, the target is approved and runs, the environment is at the
      version, and no generation is used up. The version then shows rolled back everywhere, and the environment the
      target's own last event. */
  lemma RollsBackExactly(site: Site, disk: Disk, op: Operation, io: Io)
    requires ValidSite(site) && Kept(site, disk) && op.Rollback? && io.writes >= |io.listing| + 2
    ensures var after := Perform(site, disk, op, io);
      && (after.result.Ok? <==> MayRollBack(disk, op, io.now) && Numbered(disk, op, io.listing))
      && (after.result.Ok? ==> RolledBackTo(disk, after.disk, op, io))
      && (after.result.Ok? ==> after.result.value == LogOf(after.disk.events, op.version))
      && (!MayRollBack(disk, op, io.now) ==> after.disk == disk)
  {
    hide Kept, ValidSite, PlanRollback, LoadEvents, MayRollBack, Perform, DisablePointers, WritePointer, OneMore,
         AllMoved, Points, PointedBack, Retarget, ValidPointer, ReferencesFit, Showable, Room;
    RollbackPlansExactly(site, disk, op, io.now);
    if PlanRollback(site, disk, op, io.now).Ok? {
      var RollbackPlan(e, target) := PlanRollback(site, disk, op, io.now).value;
      MayRollBackFits(disk, op, io.now);
      RollbackStarts(site, disk, op, io.now);
      var mid := AppendEvent(disk, op.version, e);
      KeptPointers(site, mid);
      DisablesPointersExactly(mid, op.version, e, op.actor, io.now, io.listing, io.writes - 1);
      var p := DisablePointers(mid, op.version, e, op.actor, io.now, io.listing, io.writes - 1);
      NumberedExactly(disk, op, e, p.disk.pointers, io);
      RollbackOutcome(site, disk, op, io);
      if p.done {
        DisablingKeepsKept(site, mid, op, e, io);
        KeptPointers(site, p.disk);
        WritesExactly(p.disk, op.environment, op.targetVersion, target.body.to, target.sha256, e.sha256, op.actor,
                      io.now);
        OperationKeeps(site, disk, op, io);
        var after := Perform(site, disk, op, io);
        ReadableExactly(site, after.disk, op.version);
        if Room(p.disk.pointers, op.environment) {
          PointedBackExactly(disk.pointers, p.disk.pointers, after.disk.pointers, op, e, target, io.listing, io.now);
        }
      }
    } else {
      RefusedRollback(site, disk, op, io);
    }
  }

  lemma RefusedRollback(site: Site, disk: Disk, op: Operation, io: Io)
    requires op.Rollback? && PlanRollback(site, disk, op, io.now).Err?
    ensures Perform(site, disk, op, io) == Outcome(disk, Err(PlanRollback(site, disk, op, io.now).error))
  {
    hide PlanRollback;
  }

  lemma DisablingKeepsKept(site: Site, mid: Disk, op: Operation, e: Event, io: Io)
    requires ValidSite(site) && Kept(site, mid) && op.Rollback? && io.writes > 0
    requires op.version in mid.events && mid.events[op.version] != [] && Last(mid.events[op.version]) == e
    requires Showable(op.version, e, op.actor)
    ensures Kept(site, DisablePointers(mid, op.version, e, op.actor, io.now, io.listing, io.writes - 1).disk)
  {
    hide Kept, ValidSite, DisablePointers, ValidSemantic, Hex64, BoundedText;
    DisablePointersKeeps(site, mid, op.version, e, op.actor, io.now, io.listing, io.writes - 1);
  }

  // ----- Disabling -------------------------------------------------------------------------------------------

  ghost predicate MayDisable(disk: Disk, op: Operation, now: int)
    requires op.Disable?
  {
    && op.version in disk.events && disk.events[op.version] != [] && ReferencesFit(disk.events[op.version])
    && Given(op.actor, 128) && Given(op.reason, 1024)
    && var last := Last(disk.events[op.version]).body.to;
       && !last.Retired?
       && (last.Disabled? || (|disk.events[op.version]| < 0xFFFF_FFFF_FFFF_FFFF && now > 0))
  }

  // At the version, and not yet showing the event that disabled it.
  ghost predicate Stale(p: Pointer, version: string, last: Event) {
    && p.activeVersion == version
    && !(last.body.to.Disabled? && p.stage.Disabled? && p.sourceEvent == last.sha256)
  }

  ghost predicate CanMove(disk: Disk, op: Operation, io: Io)
    requires op.version in disk.events && disk.events[op.version] != []
  {
    forall env | env in io.listing && env in disk.pointers
                 && Stale(disk.pointers[env], op.version, Last(disk.events[op.version])) ::
      io.now > 0 && disk.pointers[env].generation < LAST_GENERATION
  }

  // Every listed stale pointer shows the disabling event; nothing else changes.
  ghost predicate AllDisabled(disk: Disk, next: Disk, op: Operation, last: Event, io: Io)
    requires op.version in next.events && next.events[op.version] != []
  {
    && next.pointers.Keys == disk.pointers.Keys
    && var e := Last(next.events[op.version]);
       forall env | env in disk.pointers ::
         if env in io.listing && Stale(disk.pointers[env], op.version, last) then
           var p := next.pointers[env];
           && p.activeVersion == op.version && p.stage.Disabled? && p.sourceEvent == e.sha256
           && p.changeEvent == e.sha256 && p.actor == op.actor && p.changedAtUTCNS == io.now
           && p.generation == disk.pointers[env].generation + 1
         else next.pointers[env] == disk.pointers[env]
  }

  ghost predicate DisabledTo(disk: Disk, next: Disk, op: Operation, io: Io)
    requires op.Disable? && op.version in disk.events && disk.events[op.version] != []
  {
    && op.version in next.events && next.events[op.version] != []
    && var last := Last(disk.events[op.version]);
       && (if last.body.to.Disabled? then next.events == disk.events
           else OneMore(disk.events, next.events, op, Last(next.events[op.version]), io.now))
       && AllDisabled(disk, next, op, last, io)
  }

  lemma DisablePlansExactly(site: Site, disk: Disk, op: Operation, now: int)
    requires ValidSite(site) && Kept(site, disk) && op.Disable?
    ensures PlanDisable(site, disk, op, now).Ok? <==> MayDisable(disk, op, now)
    ensures PlanDisable(site, disk, op, now).Ok? ==>
      (PlanDisable(site, disk, op, now).value.append <==> !Last(disk.events[op.version]).body.to.Disabled?)
  {
    hide Kept, ValidSite, LoadEvents, ReferencesFit, Given, BoundedText, NextBody, Sign;
    ReadableExactly(site, disk, op.version);
    BoundedIsGiven(op.actor, 128);
    BoundedIsGiven(op.reason, 1024);
    LogStands(site, disk, op.version);
  }

  function WithEvent(disk: Disk, version: string, plan: DisablePlan): Disk {
    if plan.append then AppendEvent(disk, version, plan.event) else disk
  }

  // The disabling event is in place and can be shown; a pointer must move exactly if it is stale.
  lemma DisableStarts(site: Site, disk: Disk, op: Operation, now: int)
    requires ValidSite(site) && Kept(site, disk) && op.Disable? && PlanDisable(site, disk, op, now).Ok?
    ensures var plan := PlanDisable(site, disk, op, now).value;
      var e, mid := plan.event, WithEvent(disk, op.version, plan);
      && Kept(site, mid) && Showable(op.version, e, op.actor) && e.body.to.Disabled? && mid.pointers == disk.pointers
      && op.version in disk.events && disk.events[op.version] != []
      && op.version in mid.events && mid.events[op.version] != [] && Last(mid.events[op.version]) == e
      && ReferencesFit(mid.events[op.version])
      && (plan.append ==> OneMore(disk.events, mid.events, op, e, now))
      && forall env | env in disk.pointers ::
           Retarget(disk.pointers[env], op.version, e) <==>
           Stale(disk.pointers[env], op.version, Last(disk.events[op.version]))
  {
    hide Kept, ValidSite, PlanDisable, WrittenLog, LoadEvents, WrittenEvent, ValidSemantic, Hex64, LogsKept,
         PointersKept, WrittenBy, ReferencesFit, Given;
    KeptParts(site, disk);
    DisableIsWritten(site, disk, op, now);
    DisablePlansExactly(site, disk, op, now);
    var DisablePlan(e, append) := PlanDisable(site, disk, op, now).value;
    var log := disk.events[op.version];
    VersionIsSemantic(site, disk, op.version);
    if append {
      DisableAppends(site, disk, op, now);
      ReferencesStillFit(log, e);
      DisableIsWrittenBy(site, disk, op, now);
      EventFacts(site, op.version, Last(log), e, |log|);
      forall env | env in disk.pointers
        ensures Retarget(disk.pointers[env], op.version, e) <==> Stale(disk.pointers[env], op.version, Last(log))
      {
        NewEventIsUnnamed(site, disk, op.version, e, env);
      }
    }
    KeptDigest(site, WithEvent(disk, op.version, DisablePlan(e, append)), op.version);
  }

  lemma DisableEnds(site: Site, disk: Disk, op: Operation, io: Io)
    requires op.Disable? && PlanDisable(site, disk, op, io.now).Ok? && io.writes > 0
    ensures var plan := PlanDisable(site, disk, op, io.now).value;
      var p := DisablePointers(WithEvent(disk, op.version, plan), op.version, plan.event, op.actor, io.now, io.listing,
                               if plan.append then io.writes - 1 else io.writes);
      Perform(site, disk, op, io) ==
      Outcome(p.disk, if p.done then LoadEvents(site, p.disk, op.version) else Err(Interrupted))
  {
    hide PlanDisable, DisablePointers, LoadEvents;
  }

  lemma RefusedDisable(site: Site, disk: Disk, op: Operation, io: Io)
    requires op.Disable? && PlanDisable(site, disk, op, io.now).Err?
    ensures Perform(site, disk, op, io) == Outcome(disk, Err(PlanDisable(site, disk, op, io.now).error))
  {
    hide PlanDisable;
  }

  lemma CanMoveExactly(disk: Disk, op: Operation, e: Event, io: Io)
    requires op.version in disk.events && disk.events[op.version] != []
    requires forall env | env in disk.pointers ::
      Retarget(disk.pointers[env], op.version, e) <==>
      Stale(disk.pointers[env], op.version, Last(disk.events[op.version]))
    ensures (forall env | env in io.listing :: Movable(disk.pointers, env, op.version, e, io.now)) <==>
      CanMove(disk, op, io)
  {
    hide Retarget, Stale;
    if forall env | env in io.listing :: Movable(disk.pointers, env, op.version, e, io.now) {
      forall env | env in io.listing && env in disk.pointers
                   && Stale(disk.pointers[env], op.version, Last(disk.events[op.version]))
        ensures io.now > 0 && disk.pointers[env].generation < LAST_GENERATION
      {
        assert Movable(disk.pointers, env, op.version, e, io.now);
      }
    }
  }

  lemma AllDisabledExactly(disk: Disk, next: Disk, op: Operation, last: Event, e: Event, io: Io)
    requires op.version in next.events && next.events[op.version] != [] && Last(next.events[op.version]) == e
    requires e.body.to.Disabled?
    requires forall env | env in disk.pointers ::
      Retarget(disk.pointers[env], op.version, e) <==> Stale(disk.pointers[env], op.version, last)
    requires AllMoved(disk.pointers, next.pointers, io.listing, op.version, e, op.actor, io.now)
    ensures AllDisabled(disk, next, op, last, io)
  {
    hide Retarget, Stale;
  }

  /** Exactly when disabling succeeds, once all its writes are durable: the request is well formed, the version readable
      and not RETIRED, and the stale environments' generations are not used up. The version's log then ends disabled,
      once only, and every listed environment that was at the version shows it. */
  lemma DisablesExactly(site: Site, disk: Disk, op: Operation, io: Io)
    requires ValidSite(site) && Kept(site, disk) && op.Disable? && io.writes >= |io.listing| + 1
    ensures var after := Perform(site, disk, op, io);
      && (after.result.Ok? <==> MayDisable(disk, op, io.now) && CanMove(disk, op, io))
      && (after.result.Ok? ==> DisabledTo(disk, after.disk, op, io))
      && (after.result.Ok? ==> after.result.value == LogOf(after.disk.events, op.version))
      && (!MayDisable(disk, op, io.now) ==> after.disk == disk)
  {
    hide Kept, ValidSite, PlanDisable, LoadEvents, MayDisable, CanMove, Perform, DisablePointers, OneMore, AllMoved,
         AllDisabled, Retarget, ValidPointer, ReferencesFit, Showable, Stale, WithEvent;
    DisablePlansExactly(site, disk, op, io.now);
    if PlanDisable(site, disk, op, io.now).Ok? {
      var plan := PlanDisable(site, disk, op, io.now).value;
      var e, mid := plan.event, WithEvent(disk, op.version, plan);
      var writes := if plan.append then io.writes - 1 else io.writes;
      DisableStarts(site, disk, op, io.now);
      KeptPointers(site, mid);
      DisablesPointersExactly(mid, op.version, e, op.actor, io.now, io.listing, writes);
      CanMoveExactly(disk, op, e, io);
      DisableEnds(site, disk, op, io);
      var after := Perform(site, disk, op, io);
      OperationKeeps(site, disk, op, io);
      ReadableExactly(site, after.disk, op.version);
      if after.result.Ok? {
        AllDisabledExactly(disk, after.disk, op, Last(disk.events[op.version]), e, io);
        EventsWithout(disk, op.version, plan);
      }
    } else {
      RefusedDisable(site, disk, op, io);
    }
  }

  lemma EventsWithout(disk: Disk, version: string, plan: DisablePlan)
    ensures !plan.append ==> WithEvent(disk, version, plan) == disk
  {
  }
}
