/** Which call writes which event, and exactly when each call succeeds once all its writes are durable. */
module RegistryCalls {
  import opened Results
  import opened Text
  import opened DeploymentTypes
  import opened Lifecycle
  import opened LifecycleMeaning
  import opened Registry
  import opened RegistryHistory

  // ----- The one call that can write an event ---------------------------------------------------------------------

  // The event is in the call's name, with its reason, at the time of the call.
  ghost predicate Asked(op: Operation, b: EventBody, now: int) {
    && b.version == op.version && b.actor == op.actor && b.reason == op.reason && b.occurredAtUTCNS == now > 0
    && Given(op.actor, 128) && Given(op.reason, 1024)
  }

  // The event keeps the approval as it stands.
  ghost predicate Carried(last: EventBody, b: EventBody) {
    b.approval == last.approval && b.approvalActor == last.approvalActor
  }

  ghost predicate RevokedBy(last: EventBody, b: EventBody) {
    b.approval.Revoked? && b.approvalActor == last.approvalActor
  }

  ghost predicate Names(b: EventBody, environment: string, reference: string, target: string) {
    b.environment == environment && b.authorizationReference == reference && b.rollbackTarget == target
  }

  // The call can write the event after this last one.
  ghost predicate WrittenBy(op: Operation, previous: Option<Event>, b: EventBody, now: int) {
    && Asked(op, b, now)
    && match previous
       case None =>
         && b.to.Draft? && op.Register? && op.verified && b.approval.Pending? && b.approvalActor == ""
         && Names(b, "", "", "")
       case Some(Event(last, _)) =>
         match b.to
         case Trained =>
           && op.Validate? && op.stage.Trained? && op.verified && last.to.Draft?
           && Carried(last, b) && Names(b, "", "", "")
         case OfflineValidated =>
           && op.Validate? && op.stage.OfflineValidated? && op.verified && last.to.Trained?
           && Carried(last, b) && Names(b, "", "", "")
         case ReplayValidated =>
           || (&& op.Validate? && op.stage.ReplayValidated? && op.verified && last.to.OfflineValidated?
               && Carried(last, b) && Names(b, "", "", ""))
           || (&& op.Approve? && op.verified && Given(op.reference, 256)
               && last.to.ReplayValidated? && last.approval.Pending?
               && b.approval.Approved? && b.approvalActor == op.actor && Names(b, "", op.reference, ""))
         case ShadowStage =>
           && op.DeployShadow? && op.verified && ValidIdentifier(op.environment)
           && last.to.ReplayValidated? && last.approval.Approved?
           && Carried(last, b) && Names(b, op.environment, "", "")
         case CanaryStage =>
           && op.PromoteCanary? && op.verified && ValidIdentifier(op.environment)
           && last.to.ShadowStage? && last.approval.Approved?
           && Carried(last, b) && Names(b, op.environment, op.reference, "")
         case LimitedRisk =>
           && op.Promote? && op.target.LimitedRisk? && op.verified && ValidIdentifier(op.environment)
           && last.to.CanaryStage? && last.approval.Approved?
           && Carried(last, b) && Names(b, op.environment, op.reference, "")
         case Production =>
           && op.Promote? && op.target.Production? && op.verified && ValidIdentifier(op.environment)
           && op.explicit && Given(op.reference, 256) && op.actor != last.approvalActor
           && last.to.LimitedRisk? && last.approval.Approved?
           && Carried(last, b) && Names(b, op.environment, op.reference, "")
         case Disabled =>
           && op.Disable? && !last.to.Disabled? && !last.to.Retired?
           && RevokedBy(last, b) && Names(b, "", "", "")
         case RolledBackStage =>
           && op.Rollback? && op.verified && op.targetVerified && ValidIdentifier(op.environment)
           && Given(op.reference, 256) && op.targetVersion != op.version && Deployed(last.to)
           && RevokedBy(last, b) && Names(b, op.environment, op.reference, op.targetVersion)
         case Retired =>
           && op.Retire? && op.verified && (last.to.Disabled? || last.to.RolledBackStage?)
           && RevokedBy(last, b) && Names(b, "", "", "")
         case _ => false
  }

  lemma BoundedIsGiven(text: string, maximum: nat)
    ensures BoundedText(text, maximum) <==> Given(text, maximum)
  {
  }

  predicate Transits(op: Operation) { !op.Register? && !op.Rollback? && !op.Disable? }

  // ----- When a lifecycle call is planned ---------------------------------------------------------------------------

  // The version's log can be read and extended, and the request is well formed.
  ghost predicate Open(disk: Disk, op: Operation, now: int) {
    && op.version in disk.events && disk.events[op.version] != [] && ReferencesFit(disk.events[op.version])
    && |disk.events[op.version]| < 0xFFFF_FFFF_FFFF_FFFF
    && Given(op.actor, 128) && Given(op.reason, 1024) && now > 0
  }

  // The stage and approval the call asks for, and its authorization.
  ghost predicate Fits(op: Operation, last: EventBody)
    requires Transits(op)
  {
    match op
    case Validate(_, stage, _, _, _) =>
      || (stage.Trained? && last.to.Draft?) || (stage.OfflineValidated? && last.to.Trained?)
      || (stage.ReplayValidated? && last.to.OfflineValidated?)
    case Approve(_, _, _, reference, _) =>
      last.to.ReplayValidated? && last.approval.Pending? && Given(reference, 256)
    case DeployShadow(_, environment, _, _, _) =>
      last.to.ReplayValidated? && last.approval.Approved? && ValidIdentifier(environment)
    case PromoteCanary(_, environment, _, _, _, _) =>
      last.to.ShadowStage? && last.approval.Approved? && ValidIdentifier(environment)
    case Promote(_, target, environment, actor, _, explicit, reference, _) =>
      && last.approval.Approved? && ValidIdentifier(environment)
      && (|| (target.LimitedRisk? && last.to.CanaryStage?)
          || (&& target.Production? && last.to.LimitedRisk? && explicit && Given(reference, 256)
              && actor != last.approvalActor))
    case Retire(_, _, _, _) => last.to.Disabled? || last.to.RolledBackStage?
  }

  ghost predicate Ready(disk: Disk, op: Operation, now: int)
    requires Transits(op)
  {
    Open(disk, op, now) && op.verified && Fits(op, Last(disk.events[op.version]).body)
  }

  function Planned(site: Site, disk: Disk, op: Operation, now: int): Result<Event, Error>
    requires Transits(op)
  {
    match AsTransition(op)
    case Err(e) => Err(e)
    case Ok(t) => PlanTransition(site, disk, t, now)
  }

  // What a transition asks of the last event.
  predicate Meets(t: Transition, last: EventBody) {
    && last.to in t.from && (t.approve ==> last.approval.Pending?)
    && (!t.approve && Deployed(t.to) ==> last.approval.Approved?)
    && (t.requireTwoPerson ==> last.approvalActor != t.actor)
    && (t.updatePointer ==> ValidIdentifier(t.environment))
  }

  lemma FitsExactly(op: Operation, last: EventBody)
    requires Transits(op)
    ensures AsTransition(op).Ok? && Meets(AsTransition(op).value, last) <==> Fits(op, last)
    ensures AsTransition(op).Ok? ==>
      var t := AsTransition(op).value;
      && t.version == op.version && t.verified == op.verified && t.actor == op.actor && t.reason == op.reason
  {
    hide Blank, ValidIdentifier, Given;
    match op
    case Approve(_, _, _, reference, _) => BoundedIsGiven(reference, 256);
    case Promote(_, _, _, _, _, _, reference, _) => BoundedIsGiven(reference, 256);
    case _ =>
  }

  lemma PlansExactly(site: Site, disk: Disk, op: Operation, now: int)
    requires ValidSite(site) && Kept(site, disk) && Transits(op)
    ensures Planned(site, disk, op, now).Ok? <==> Ready(disk, op, now)
  {
    hide Kept, ValidSite, LoadEvents, ReferencesFit, Meets, Fits, AsTransition, ValidIdentifier, Given, WrittenLog;
    ReadableExactly(site, disk, op.version);
    BoundedIsGiven(op.actor, 128);
    BoundedIsGiven(op.reason, 1024);
    KeptParts(site, disk);
    if op.version in disk.events {
      var log := disk.events[op.version];
      LastIsWritten(site, op.version, log);
      WrittenIsNotEmpty(site, op.version, log);
      FitsExactly(op, Last(log).body);
      if AsTransition(op).Ok? { TransitionPlans(site, disk, AsTransition(op).value, now); }
    } else if AsTransition(op).Ok? {
      SameVersion(op);
    }
  }

  lemma SameVersion(op: Operation)
    requires Transits(op) && AsTransition(op).Ok?
    ensures AsTransition(op).value.version == op.version
  {
    hide Blank;
  }

  lemma WrittenIsNotEmpty(site: Site, version: string, log: seq<Event>)
    requires WrittenLog(site, version, log)
    ensures log != []
  {
    hide WrittenEvent;
  }

  lemma TransitionPlans(site: Site, disk: Disk, t: Transition, now: int)
    requires t.version in disk.events && disk.events[t.version] != []
    requires LoadEvents(site, disk, t.version).Ok? ==> LoadEvents(site, disk, t.version).value == disk.events[t.version]
    ensures PlanTransition(site, disk, t, now).Ok? <==>
      && LoadEvents(site, disk, t.version).Ok? && ValidActorReason(t.actor, t.reason) && t.verified && now > 0
      && Last(disk.events[t.version]).body.revision != UINT64_LIMIT - 1 && Meets(t, Last(disk.events[t.version]).body)
  {
    hide LoadEvents, ValidActorReason, ValidIdentifier, Deployed;
  }

  // What a planned event says.
  lemma PlannedBody(site: Site, disk: Disk, t: Transition, now: int)
    requires PlanTransition(site, disk, t, now).Ok?
    ensures t.version in disk.events && disk.events[t.version] != [] && Meets(t, Last(disk.events[t.version]).body)
    ensures var b, last := PlanTransition(site, disk, t, now).value.body, Last(disk.events[t.version]).body;
      && b.version == last.version && b.to == t.to && b.actor == t.actor && b.reason == t.reason
      && b.occurredAtUTCNS == now > 0 && Names(b, t.environment, t.authorizationReference, "")
      && b.approval == (if t.revoke then Revoked else if t.approve then Approved else last.approval)
      && b.approvalActor == (if t.approve then t.actor else last.approvalActor)
  {
    hide AcceptedLog, PointersReadable, ValidActorReason, ValidIdentifier, Deployed, ValidSemantic;
  }

  lemma TransitionIsWrittenBy(op: Operation, prior: Event, t: Transition, b: EventBody, now: int)
    requires Transits(op) && AsTransition(op) == Ok(t) && Meets(t, prior.body) && Fits(op, prior.body) && op.verified
    requires b.to == t.to && b.version == op.version && b.actor == t.actor && b.reason == t.reason
    requires b.occurredAtUTCNS == now > 0 && Names(b, t.environment, t.authorizationReference, "")
    requires b.approval == (if t.revoke then Revoked else if t.approve then Approved else prior.body.approval)
    requires b.approvalActor == (if t.approve then t.actor else prior.body.approvalActor)
    requires Given(op.actor, 128) && Given(op.reason, 1024)
    ensures WrittenBy(op, Some(prior), b, now)
  {
    hide Blank, ValidIdentifier, Given, Deployed;
  }

  lemma PlannedIsWrittenBy(site: Site, disk: Disk, op: Operation, now: int)
    requires ValidSite(site) && Kept(site, disk) && Transits(op) && Planned(site, disk, op, now).Ok?
    ensures op.version in disk.events && disk.events[op.version] != []
    ensures WrittenBy(op, Some(Last(disk.events[op.version])), Planned(site, disk, op, now).value.body, now)
  {
    hide Kept, ValidSite, PlanTransition, ReferencesFit, Meets, Fits, AsTransition, Given, WrittenLog, WrittenBy, Names;
    PlansExactly(site, disk, op, now);
    SameVersion(op);
    var t := AsTransition(op).value;
    PlannedBody(site, disk, t, now);
    KeptParts(site, disk);
    var prior := Last(disk.events[op.version]);
    LastIsWritten(site, op.version, disk.events[op.version]);
    FitsExactly(op, prior.body);
    TransitionIsWrittenBy(op, prior, t, Planned(site, disk, op, now).value.body, now);
  }

  // ----- Every event of every history --------------------------------------------------------------------------------

  // The logs gain at most one event, at the call's own version, and the call is the one that can write it.
  ghost predicate OnlyCalled(before: Logs, after: Logs, op: Operation, now: int) {
    || after == before
    || (&& op.version in after && after[op.version] != []
        && after == before[op.version := LogOf(before, op.version) + [Last(after[op.version])]]
        && WrittenBy(op, LastOf(before, op.version), Last(after[op.version]).body, now))
  }

  lemma AppendIsCalled(disk: Disk, op: Operation, e: Event, now: int)
    requires WrittenBy(op, LastOf(disk.events, op.version), e.body, now)
    ensures OnlyCalled(disk.events, AppendEvent(disk, op.version, e).events, op, now)
  {
    hide WrittenBy;
  }

  lemma TransitionIsCalled(site: Site, disk: Disk, op: Operation, io: Io)
    requires ValidSite(site) && Kept(site, disk) && Transits(op)
    ensures OnlyCalled(disk.events, Perform(site, disk, op, io).disk.events, op, io.now)
  {
    hide Kept, ValidSite, PlanTransition, LoadEvents, WrittenBy, AsTransition, AppendEvent, OnlyCalled;
    NothingIsCalled(disk.events, op, io.now);
    if Planned(site, disk, op, io.now).Ok? {
      SameVersion(op);
      PlannedIsWrittenBy(site, disk, op, io.now);
      AppendIsCalled(disk, op, Planned(site, disk, op, io.now).value, io.now);
    }
  }

  lemma NothingIsCalled(logs: Logs, op: Operation, now: int)
    ensures OnlyCalled(logs, logs, op, now)
  {
  }

  lemma RollbackIsWrittenBy(site: Site, disk: Disk, op: Operation, now: int)
    requires ValidSite(site) && Kept(site, disk) && op.Rollback? && PlanRollback(site, disk, op, now).Ok?
    ensures WrittenBy(op, LastOf(disk.events, op.version), PlanRollback(site, disk, op, now).value.event.body, now)
  {
    hide AcceptedLog, PointersReadable, WrittenLog, ValidSemantic, ValidIdentifier, Given, ValidSite, PointersKept,
         Blank;
    BoundedIsGiven(op.actor, 128);
    BoundedIsGiven(op.reason, 1024);
    BoundedIsGiven(op.reference, 256);
    LastIsWritten(site, op.version, disk.events[op.version]);
  }

  lemma DisableIsWrittenBy(site: Site, disk: Disk, op: Operation, now: int)
    requires ValidSite(site) && Kept(site, disk) && op.Disable? && PlanDisable(site, disk, op, now).Ok?
    requires PlanDisable(site, disk, op, now).value.append
    ensures WrittenBy(op, LastOf(disk.events, op.version), PlanDisable(site, disk, op, now).value.event.body, now)
  {
    hide AcceptedLog, PointersReadable, WrittenLog, ValidSemantic, Given, ValidSite, PointersKept, Blank;
    BoundedIsGiven(op.actor, 128);
    BoundedIsGiven(op.reason, 1024);
    LastIsWritten(site, op.version, disk.events[op.version]);
  }

  lemma {:induction false} DisablingKeepsEvents(disk: Disk, version: string, e: Event, actor: string, now: int,
                                                envs: seq<string>, writes: nat)
    ensures DisablePointers(disk, version, e, actor, now, envs, writes).disk.events == disk.events
    decreases |envs|
  {
    hide ValidPointer, Retarget;
    if envs != [] {
      DisablingKeepsEvents(disk, version, e, actor, now, envs[1..], writes);
      if envs[0] in disk.pointers && writes > 0 {
        var written := WritePointer(disk, envs[0], version, e.body.to, e.sha256, e.sha256, actor, now);
        if written.Ok? { DisablingKeepsEvents(written.value, version, e, actor, now, envs[1..], writes - 1); }
      }
    }
  }

  lemma RollbackIsCalled(site: Site, disk: Disk, op: Operation, io: Io)
    requires ValidSite(site) && Kept(site, disk) && op.Rollback?
    ensures OnlyCalled(disk.events, Perform(site, disk, op, io).disk.events, op, io.now)
  {
    hide Kept, ValidSite, PlanRollback, LoadEvents, WrittenBy, AppendEvent, OnlyCalled, DisablePointers;
    NothingIsCalled(disk.events, op, io.now);
    if PlanRollback(site, disk, op, io.now).Ok? && io.writes > 0 {
      RollbackIsWrittenBy(site, disk, op, io.now);
      var e := PlanRollback(site, disk, op, io.now).value.event;
      AppendIsCalled(disk, op, e, io.now);
      DisablingKeepsEvents(AppendEvent(disk, op.version, e), op.version, e, op.actor, io.now, io.listing,
                           io.writes - 1);
    }
  }

  lemma DisableIsCalled(site: Site, disk: Disk, op: Operation, io: Io)
    requires ValidSite(site) && Kept(site, disk) && op.Disable?
    ensures OnlyCalled(disk.events, Perform(site, disk, op, io).disk.events, op, io.now)
  {
    hide Kept, ValidSite, PlanDisable, LoadEvents, WrittenBy, AppendEvent, OnlyCalled, DisablePointers;
    NothingIsCalled(disk.events, op, io.now);
    if PlanDisable(site, disk, op, io.now).Ok? {
      var DisablePlan(e, append) := PlanDisable(site, disk, op, io.now).value;
      if append && io.writes > 0 {
        DisableIsWrittenBy(site, disk, op, io.now);
        AppendIsCalled(disk, op, e, io.now);
        DisablingKeepsEvents(AppendEvent(disk, op.version, e), op.version, e, op.actor, io.now, io.listing,
                             io.writes - 1);
      }
      DisablingKeepsEvents(disk, op.version, e, op.actor, io.now, io.listing, io.writes);
    }
  }

  lemma RegisterIsCalled(site: Site, disk: Disk, op: Operation, io: Io)
    requires op.Register?
    ensures OnlyCalled(disk.events, Perform(site, disk, op, io).disk.events, op, io.now)
  {
    hide LoadEvents, OnlyCalled, ValidSemantic, Given, Blank;
    NothingIsCalled(disk.events, op, io.now);
    BoundedIsGiven(op.actor, 128);
    BoundedIsGiven(op.reason, 1024);
    if Perform(site, disk, op, io).disk != disk { AppendIsCalled(disk, op, FirstEvent(site, op, io.now), io.now); }
  }

  /** From every reachable disk, wherever the call is cut short, a call appends at most one event, to its own version,
      and only an event that this call can write: to PRODUCTION, say, only an explicitly authorized promotion of a
      verified version, with a reference, by someone other than its approver. */
  lemma CallsWriteTheirOwnEvents(site: Site, disk: Disk, op: Operation, io: Io)
    requires ValidSite(site) && Kept(site, disk)
    ensures OnlyCalled(disk.events, Perform(site, disk, op, io).disk.events, op, io.now)
  {
    hide Kept, ValidSite, Perform, OnlyCalled;
    if op.Register? { RegisterIsCalled(site, disk, op, io); }
    else if op.Rollback? { RollbackIsCalled(site, disk, op, io); }
    else if op.Disable? { DisableIsCalled(site, disk, op, io); }
    else { TransitionIsCalled(site, disk, op, io); }
  }

  ghost predicate CalledAt(steps: seq<Step>, log: seq<Event>, i: nat)
    requires i < |log|
  {
    exists k | 0 <= k < |steps| :: WrittenBy(steps[k].op, Before(log, i), log[i].body, steps[k].io.now)
  }

  lemma CalledStays(steps: seq<Step>, step: Step, log: seq<Event>, longer: seq<Event>, i: nat)
    requires i < |log| && log <= longer && CalledAt(steps, log, i)
    ensures CalledAt(steps + [step], longer, i)
  {
    hide WrittenBy;
    assert Before(longer, i) == Before(log, i) && longer[i] == log[i];
    var k :| 0 <= k < |steps| && WrittenBy(steps[k].op, Before(log, i), log[i].body, steps[k].io.now);
    assert (steps + [step])[k] == steps[k];
  }

  lemma CalledLast(steps: seq<Step>, log: seq<Event>, e: Event)
    requires steps != []
    requires var step := steps[|steps| - 1];
      WrittenBy(step.op, if log == [] then None else Some(Last(log)), e.body, step.io.now)
    ensures CalledAt(steps, log + [e], |log|)
  {
    hide WrittenBy;
    assert Before(log + [e], |log|) == if log == [] then None else Some(Last(log));
    assert (log + [e])[|log|] == e;
  }

  /** Every event of every version's log, in every history, was written by the one call that can write it after the
      event before it. */
  lemma {:induction false} EveryEventHasItsCall(site: Site, steps: seq<Step>, version: string, i: nat)
    requires ValidSite(site) && i < |LogOf(Run(site, EMPTY_DISK, steps).events, version)|
    ensures CalledAt(steps, LogOf(Run(site, EMPTY_DISK, steps).events, version), i)
    decreases |steps|
  {
    hide ValidSite, Perform, CalledAt, WrittenBy, Kept;
    var front, last := steps[..|steps| - 1], steps[|steps| - 1];
    var disk, next := Run(site, EMPTY_DISK, front), Run(site, EMPTY_DISK, steps);
    EveryHistoryIsKept(site, front);
    CallsWriteTheirOwnEvents(site, disk, last.op, last.io);
    assert steps == front + [last];
    var log, longer := LogOf(disk.events, version), LogOf(next.events, version);
    if i < |log| {
      EveryEventHasItsCall(site, front, version, i);
      CalledStays(front, last, log, longer, i);
    } else {
      CalledLast(steps, log, longer[|log|]);
    }
  }
}
