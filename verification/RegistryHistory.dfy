/** What holds over every history of registry operations, each of which may be cut short anywhere. */
module RegistryHistory {
  import opened Results
  import opened Text
  import opened DeploymentTypes
  import opened Lifecycle
  import opened Registry

  // One call and what surrounded it.
  datatype Step = Step(op: Operation, io: Io)

  const EMPTY_DISK := Disk(map[], map[])

  function Run(site: Site, disk: Disk, steps: seq<Step>): Disk {
    if steps == [] then disk
    else
      var last := steps[|steps| - 1];
      Perform(site, Run(site, disk, steps[..|steps| - 1]), last.op, last.io).disk
  }

  /** Every disk reachable by any operations, cut short anywhere, is readable: logs are chained and
      signed and every pointer is attached to its version's log. */
  lemma {:induction false} EveryDiskIsKept(site: Site, disk: Disk, steps: seq<Step>)
    requires ValidSite(site) && Kept(site, disk)
    ensures Kept(site, Run(site, disk, steps))
  {
    hide Kept, ValidSite, Perform;
    if steps != [] {
      var last := steps[|steps| - 1];
      EveryDiskIsKept(site, disk, steps[..|steps| - 1]);
      OperationKeeps(site, Run(site, disk, steps[..|steps| - 1]), last.op, last.io);
    }
  }

  lemma EveryHistoryIsKept(site: Site, steps: seq<Step>)
    requires ValidSite(site)
    ensures Kept(site, Run(site, EMPTY_DISK, steps))
  {
    hide Run;
    EveryDiskIsKept(site, EMPTY_DISK, steps);
  }

  // ----- When the verifier accepts what the writer wrote -------------------------------------------

  ghost predicate ReferencesFit(log: seq<Event>) {
    forall i | 0 <= i < |log| :: |log[i].body.authorizationReference| <= 256
  }

  /** The writer and the verifier agree exactly up to one length: a written log is accepted if and only
      if no authorization reference in it exceeds 256 bytes. */
  lemma AcceptedExactly(site: Site, version: string, log: seq<Event>)
    requires ValidSite(site) && WrittenLog(site, version, log)
    ensures AcceptedLog(site.sha, site.modelID, version, log) <==> ReferencesFit(log)
  {
    hide WellFormedMove, Hex64;
    forall i | 0 <= i < |log|
      ensures AcceptedEvent(site.sha, site.modelID, version, Before(log, i), log[i])
        <==> |log[i].body.authorizationReference| <= 256
    {
      assert WrittenEvent(site, version, Before(log, i), log[i], i);
    }
  }

  /** So a readable version is exactly one whose references fit; nothing else can make a reachable
      version unreadable. */
  lemma ReadableExactly(site: Site, disk: Disk, version: string)
    requires ValidSite(site) && Kept(site, disk)
    ensures LoadEvents(site, disk, version).Ok? <==> version in disk.events && ReferencesFit(disk.events[version])
    ensures LoadEvents(site, disk, version).Ok? ==> LoadEvents(site, disk, version).value == disk.events[version]
  {
    hide WrittenLog, AcceptedLog, ReferencesFit, ValidPointer, Attached, ValidSemantic, ValidSite;
    if version in disk.events { AcceptedExactly(site, version, disk.events[version]); }
  }

  /** One over-long reference locks its version for good: every later call on it, disabling included,
      is refused and changes nothing. */
  lemma OverlongReferenceLocks(site: Site, disk: Disk, op: Operation, io: Io)
    requires ValidSite(site) && Kept(site, disk) && op.version in disk.events
    requires !ReferencesFit(disk.events[op.version])
    ensures Perform(site, disk, op, io).result.Err? && Perform(site, disk, op, io).disk == disk
  {
    hide Kept, ValidSite, LoadEvents, ValidSemantic, ReferencesFit, ValidActorReason, NextBody, Sign;
    ReadableExactly(site, disk, op.version);
    if op.Rollback? {
      assert PlanRollback(site, disk, op, io.now).Err?;
    } else if op.Disable? {
      assert PlanDisable(site, disk, op, io.now).Err?;
    } else if !op.Register? && AsTransition(op).Ok? {
      assert PlanTransition(site, disk, AsTransition(op).value, io.now).Err?;
    }
  }

  /** Promotion to CANARY and to LIMITED_RISK accept any reference, so they can lock the version they promote. */
  lemma LongReferencePromotionLocks(site: Site, disk: Disk, op: Operation, io: Io)
    requires ValidSite(site) && Kept(site, disk) && io.writes > 0
    requires (op.PromoteCanary? || (op.Promote? && op.target.LimitedRisk?)) && |op.reference| > 256
    requires PlanTransition(site, disk, AsTransition(op).value, io.now).Ok?
    ensures var after := Perform(site, disk, op, io);
      after.result.Err? && op.version in after.disk.events && !ReferencesFit(after.disk.events[op.version])
  {
    hide Kept, ValidSite, LoadEvents, PlanTransition, WrittenEvent, WrittenLog, LogsKept, PointersKept, ValidSemantic,
         ValidIdentifier;
    KeptParts(site, disk);
    TransitionIsWritten(site, disk, op, io.now);
    OperationKeeps(site, disk, op, io);
    var after := Perform(site, disk, op, io);
    var log := after.disk.events[op.version];
    assert |log[|log| - 1].body.authorizationReference| > 256;
    ReadableExactly(site, after.disk, op.version);
  }

  // ----- Effect of disabling pointers ------------------------------------------------------------------

  ghost predicate OnlyRetargets(before: map<string, Pointer>, after: map<string, Pointer>, version: string,
                                stage: Stage) {
    && after.Keys == before.Keys
    && forall env | env in before ::
         || after[env] == before[env]
         || (&& before[env].activeVersion == version && after[env].activeVersion == version
             && after[env].stage == stage && after[env].generation > before[env].generation)
  }

  // Done, every listed pointer at the version shows the stage.
  ghost predicate Retargeted(before: map<string, Pointer>, after: map<string, Pointer>, version: string, stage: Stage,
                             envs: seq<string>) {
    forall env | env in envs && env in before && before[env].activeVersion == version ::
      env in after && after[env].stage == stage
  }

  lemma RetargetedFirst(before: map<string, Pointer>, mid: map<string, Pointer>, after: map<string, Pointer>,
                        version: string, stage: Stage, envs: seq<string>)
    requires envs != [] && OnlyRetargets(before, mid, version, stage) && OnlyRetargets(mid, after, version, stage)
    requires Retargeted(mid, after, version, stage, envs[1..])
    requires Retargeted(before, mid, version, stage, envs[..1])
    ensures Retargeted(before, after, version, stage, envs)
  {
    forall env | env in envs && env in before && before[env].activeVersion == version
      ensures env in after && after[env].stage == stage
    {
      if env == envs[0] { assert env in envs[..1]; } else { assert env in envs[1..]; }
    }
  }

  lemma RetargetsTwice(before: map<string, Pointer>, mid: map<string, Pointer>, after: map<string, Pointer>,
                       version: string, stage: Stage)
    requires OnlyRetargets(before, mid, version, stage) && OnlyRetargets(mid, after, version, stage)
    ensures OnlyRetargets(before, after, version, stage)
  {
  }

  lemma {:induction false} DisablePointersEffect(disk: Disk, version: string, e: Event, actor: string, now: int,
                                                 envs: seq<string>, writes: nat)
    ensures var p := DisablePointers(disk, version, e, actor, now, envs, writes);
      && p.disk.events == disk.events
      && OnlyRetargets(disk.pointers, p.disk.pointers, version, e.body.to)
      && (p.done ==> Retargeted(disk.pointers, p.disk.pointers, version, e.body.to, envs))
    decreases |envs|
  {
    hide ValidPointer;
    if envs != [] {
      hide Retargeted, OnlyRetargets;
      var env := envs[0];
      var p := DisablePointers(disk, version, e, actor, now, envs, writes);
      NothingRetargeted(disk.pointers, version, e.body.to);
      if env !in disk.pointers || (ValidPointer(disk.pointers[env]) && !Retarget(disk.pointers[env], version, e)) {
        DisablePointersEffect(disk, version, e, actor, now, envs[1..], writes);
        FirstIsRetargeted(disk.pointers, disk.pointers, version, e.body.to, envs);
        if p.done { RetargetedFirst(disk.pointers, disk.pointers, p.disk.pointers, version, e.body.to, envs); }
      } else if ValidPointer(disk.pointers[env]) && writes > 0 {
        var written := WritePointer(disk, env, version, e.body.to, e.sha256, e.sha256, actor, now);
        if written.Ok? {
          DisablePointersEffect(written.value, version, e, actor, now, envs[1..], writes - 1);
          OneRetargeted(disk, written.value, env, version, e, actor, now);
          FirstIsRetargeted(disk.pointers, written.value.pointers, version, e.body.to, envs);
          RetargetsTwice(disk.pointers, written.value.pointers, p.disk.pointers, version, e.body.to);
          if p.done {
            RetargetedFirst(disk.pointers, written.value.pointers, p.disk.pointers, version, e.body.to, envs);
          }
        }
      }
    }
  }

  lemma NothingRetargeted(pointers: map<string, Pointer>, version: string, stage: Stage)
    ensures OnlyRetargets(pointers, pointers, version, stage)
  {
  }

  lemma FirstIsRetargeted(before: map<string, Pointer>, after: map<string, Pointer>, version: string, stage: Stage,
                          envs: seq<string>)
    requires envs != [] && (envs[0] in before && before[envs[0]].activeVersion == version ==>
                              envs[0] in after && after[envs[0]].stage == stage)
    ensures Retargeted(before, after, version, stage, envs[..1])
  {
  }

  lemma OneRetargeted(disk: Disk, next: Disk, env: string, version: string, e: Event, actor: string, now: int)
    requires env in disk.pointers && disk.pointers[env].activeVersion == version
    requires WritePointer(disk, env, version, e.body.to, e.sha256, e.sha256, actor, now) == Ok(next)
    ensures next.events == disk.events && OnlyRetargets(disk.pointers, next.pointers, version, e.body.to)
    ensures env in next.pointers && next.pointers[env].stage == e.body.to
  {
    hide ValidPointer;
  }

  // ----- What one operation may change ---------------------------------------------------------------------

  type Logs = map<string, seq<Event>>

  function LogOf(logs: Logs, version: string): seq<Event> { if version in logs then logs[version] else [] }

  function LastOf(logs: Logs, version: string): Option<Event> {
    var log := LogOf(logs, version);
    if log == [] then None else Some(Last(log))
  }

  // At most one well-formed event is appended, and only to the operation's own version.
  ghost predicate LogsMove(site: Site, before: Logs, after: Logs, version: string) {
    || after == before
    || (&& version in after && after[version] != []
        && var e := Last(after[version]);
           && after == before[version := LogOf(before, version) + [e]]
           && WrittenEvent(site, version, LastOf(before, version), e, |LogOf(before, version)|))
  }

  // A changed pointer has a higher generation and shows the last stage of the operation's version, or of
  // the version rolled back to.
  ghost predicate PointerMoves(before: map<string, Pointer>, p: Pointer, logs: Logs, op: Operation, env: string) {
    || (env in before && p == before[env])
    || (&& (env in before ==> p.generation > before[env].generation)
        && (p.activeVersion == op.version || (op.Rollback? && p.activeVersion == op.targetVersion))
        && LastOf(logs, p.activeVersion).Some? && p.stage == LastOf(logs, p.activeVersion).value.body.to)
  }

  ghost predicate Moves(site: Site, disk: Disk, next: Disk, op: Operation) {
    && LogsMove(site, disk.events, next.events, op.version)
    && disk.pointers.Keys <= next.pointers.Keys
    && forall env | env in next.pointers :: PointerMoves(disk.pointers, next.pointers[env], next.events, op, env)
  }

  lemma AppendMoves(site: Site, disk: Disk, op: Operation, e: Event)
    requires op.version in disk.events && disk.events[op.version] != []
    requires WrittenEvent(site, op.version, Some(Last(disk.events[op.version])), e, |disk.events[op.version]|)
    ensures Moves(site, disk, AppendEvent(disk, op.version, e), op)
    ensures LastOf(AppendEvent(disk, op.version, e).events, op.version) == Some(e)
  {
    hide WrittenEvent;
    var log := disk.events[op.version];
    assert Last(log + [e]) == e;
  }

  // One more pointer write keeps the account of the operation so far.
  lemma PointMoves(site: Site, disk: Disk, mid: Disk, op: Operation, env: string, p: Pointer)
    requires Moves(site, disk, mid, op)
    requires env in mid.pointers ==> p.generation > mid.pointers[env].generation
    requires p.activeVersion == op.version || (op.Rollback? && p.activeVersion == op.targetVersion)
    requires LastOf(mid.events, p.activeVersion).Some? && p.stage == LastOf(mid.events, p.activeVersion).value.body.to
    ensures Moves(site, disk, mid.(pointers := mid.pointers[env := p]), op)
  {
    hide WrittenEvent, LogsMove;
    var next := mid.(pointers := mid.pointers[env := p]);
    forall x | x in next.pointers ensures PointerMoves(disk.pointers, next.pointers[x], next.events, op, x) {
      assert x != env ==> PointerMoves(disk.pointers, mid.pointers[x], mid.events, op, x);
      if x == env && env in mid.pointers { assert PointerMoves(disk.pointers, mid.pointers[env], mid.events, op, env); }
    }
  }

  lemma RetargetMoves(site: Site, disk: Disk, mid: Disk, next: Disk, op: Operation)
    requires Moves(site, disk, mid, op) && next.events == mid.events && LastOf(mid.events, op.version).Some?
    requires OnlyRetargets(mid.pointers, next.pointers, op.version, LastOf(mid.events, op.version).value.body.to)
    ensures Moves(site, disk, next, op)
  {
    hide WrittenEvent, LogsMove, LastOf;
    forall x | x in next.pointers ensures PointerMoves(disk.pointers, next.pointers[x], next.events, op, x) {
      assert x in mid.pointers;
      assert PointerMoves(disk.pointers, mid.pointers[x], mid.events, op, x);
    }
  }

  lemma TransitionMoves(site: Site, disk: Disk, op: Operation, io: Io)
    requires ValidSite(site) && Kept(site, disk) && !op.Register? && !op.Rollback? && !op.Disable?
    ensures Moves(site, disk, Perform(site, disk, op, io).disk, op)
  {
    hide Kept, WrittenLog, LogsKept, PointersKept, ValidSite, PlanTransition, AsTransition, LoadEvents, WrittenEvent,
         Moves, Deployed;
    KeptParts(site, disk);
    NothingMoves(site, disk, op);
    if AsTransition(op).Ok? && PlanTransition(site, disk, AsTransition(op).value, io.now).Ok? && io.writes > 0 {
      TransitionIsWritten(site, disk, op, io.now);
      var t := AsTransition(op).value;
      var e := PlanTransition(site, disk, t, io.now).value;
      AppendMoves(site, disk, op, e);
      var appended := AppendEvent(disk, op.version, e);
      var written := WritePointer(appended, t.environment, op.version, t.to, e.sha256, e.sha256, t.actor, io.now);
      if written.Ok? { PointMoves(site, disk, appended, op, t.environment, written.value.pointers[t.environment]); }
    }
  }

  lemma NothingMoves(site: Site, disk: Disk, op: Operation)
    ensures Moves(site, disk, disk, op)
  {
  }

  lemma RollbackMoves(site: Site, disk: Disk, op: Operation, io: Io)
    requires ValidSite(site) && Kept(site, disk) && op.Rollback?
    ensures Moves(site, disk, Perform(site, disk, op, io).disk, op)
  {
    hide Kept, WrittenLog, LogsKept, PointersKept, ValidSite, PlanRollback, LoadEvents, WrittenEvent, DisablePointers,
         Moves, OnlyRetargets, ValidIdentifier;
    KeptParts(site, disk);
    NothingMoves(site, disk, op);
    if PlanRollback(site, disk, op, io.now).Ok? && io.writes > 0 {
      RollbackIsWritten(site, disk, op, io.now);
      var RollbackPlan(e, target) := PlanRollback(site, disk, op, io.now).value;
      AppendMoves(site, disk, op, e);
      var appended := AppendEvent(disk, op.version, e);
      DisablePointersEffect(appended, op.version, e, op.actor, io.now, io.listing, io.writes - 1);
      var mid := DisablePointers(appended, op.version, e, op.actor, io.now, io.listing, io.writes - 1).disk;
      RetargetMoves(site, disk, appended, mid, op);
      var written :=
        WritePointer(mid, op.environment, op.targetVersion, target.body.to, target.sha256, e.sha256, op.actor, io.now);
      assert LastOf(mid.events, op.targetVersion) == Some(target);
      if written.Ok? { PointMoves(site, disk, mid, op, op.environment, written.value.pointers[op.environment]); }
    }
  }

  lemma DisableMoves(site: Site, disk: Disk, op: Operation, io: Io)
    requires ValidSite(site) && Kept(site, disk) && op.Disable?
    ensures Moves(site, disk, Perform(site, disk, op, io).disk, op)
  {
    hide Kept, WrittenLog, LogsKept, PointersKept, ValidSite, PlanDisable, LoadEvents, WrittenEvent, DisablePointers,
         Moves, OnlyRetargets;
    KeptParts(site, disk);
    NothingMoves(site, disk, op);
    if PlanDisable(site, disk, op, io.now).Ok? {
      DisableIsWritten(site, disk, op, io.now);
      var DisablePlan(e, append) := PlanDisable(site, disk, op, io.now).value;
      if append && io.writes == 0 { return; }
      if append { AppendMoves(site, disk, op, e); }
      var mid := if append then AppendEvent(disk, op.version, e) else disk;
      var writes := if append then io.writes - 1 else io.writes;
      DisablePointersEffect(mid, op.version, e, op.actor, io.now, io.listing, writes);
      RetargetMoves(site, disk, mid, DisablePointers(mid, op.version, e, op.actor, io.now, io.listing, writes).disk,
                    op);
    }
  }

  lemma OperationMoves(site: Site, disk: Disk, op: Operation, io: Io)
    requires ValidSite(site) && Kept(site, disk)
    ensures Moves(site, disk, Perform(site, disk, op, io).disk, op)
  {
    hide Kept, LoadEvents, Digest, ValidIdentifier, ValidSemantic;
    if op.Rollback? { RollbackMoves(site, disk, op, io); }
    else if op.Disable? { DisableMoves(site, disk, op, io); }
    else if !op.Register? { TransitionMoves(site, disk, op, io); }
    else if Perform(site, disk, op, io).disk != disk {
      assert [] + [FirstEvent(site, op, io.now)] == [FirstEvent(site, op, io.now)];
    }
  }

  /** Each environment's pointer generation strictly increases with every change of the pointer, and no
      pointer ever disappears. */
  lemma GenerationsIncrease(site: Site, disk: Disk, op: Operation, io: Io, env: string)
    requires ValidSite(site) && Kept(site, disk) && env in disk.pointers
    ensures var next := Perform(site, disk, op, io).disk;
      env in next.pointers &&
      (next.pointers[env] == disk.pointers[env] || next.pointers[env].generation > disk.pointers[env].generation)
  {
    hide Kept, ValidSite, Perform, LogsMove;
    OperationMoves(site, disk, op, io);
    var next := Perform(site, disk, op, io).disk;
    assert PointerMoves(disk.pointers, next.pointers[env], next.events, op, env);
  }

  // ----- Withdrawal is permanent ---------------------------------------------------------------------------------

  predicate Withdrawing(stage: Stage) { stage.Disabled? || stage.RolledBackStage? || stage.Retired? }

  // The version's log ends in a withdrawing stage and no environment runs it.
  ghost predicate Withdrawn(disk: Disk, version: string) {
    && LastOf(disk.events, version).Some? && Withdrawing(LastOf(disk.events, version).value.body.to)
    && forall env :: !ActiveIn(disk, version, env)
  }

  lemma WithdrawingStays(site: Site, disk: Disk, next: Disk, op: Operation, version: string)
    requires Moves(site, disk, next, op)
    requires LastOf(disk.events, version).Some? && Withdrawing(LastOf(disk.events, version).value.body.to)
    ensures LastOf(next.events, version).Some? && Withdrawing(LastOf(next.events, version).value.body.to)
  {
    hide WrittenEvent, PointerMoves;
    if next.events != disk.events && version == op.version {
      var e := Last(next.events[version]);
      EventFacts(site, version, LastOf(disk.events, version).value, e, |LogOf(disk.events, version)|);
      assert LogOf(next.events, version) == LogOf(disk.events, version) + [e];
    }
  }

  lemma OperationKeepsWithdrawn(site: Site, disk: Disk, op: Operation, io: Io, version: string)
    requires ValidSite(site) && Kept(site, disk) && Withdrawn(disk, version)
    ensures Withdrawn(Perform(site, disk, op, io).disk, version)
  {
    hide Kept, ValidSite, Perform, LogsMove;
    OperationMoves(site, disk, op, io);
    var next := Perform(site, disk, op, io).disk;
    WithdrawingStays(site, disk, next, op, version);
    forall env ensures !ActiveIn(next, version, env) {
      if env in next.pointers && next.pointers[env].activeVersion == version {
        assert PointerMoves(disk.pointers, next.pointers[env], next.events, op, env);
        assert !ActiveIn(disk, version, env);
      }
    }
  }

  /** Once a version is withdrawn it stays withdrawn: in every later state of every history, whatever is
      attempted and wherever it is cut short, no environment runs it, not even as a rollback target. */
  lemma {:induction false} WithdrawnForever(site: Site, disk: Disk, steps: seq<Step>, version: string)
    requires ValidSite(site) && Kept(site, disk) && Withdrawn(disk, version)
    ensures Withdrawn(Run(site, disk, steps), version)
  {
    hide Kept, ValidSite, Perform, Withdrawn;
    if steps != [] {
      var earlier, last := steps[..|steps| - 1], steps[|steps| - 1];
      WithdrawnForever(site, disk, earlier, version);
      EveryDiskIsKept(site, disk, earlier);
      OperationKeepsWithdrawn(site, Run(site, disk, earlier), last.op, last.io, version);
    }
  }

  // The listing shows every environment that has a pointer.
  ghost predicate Lists(io: Io, disk: Disk) { forall env | env in disk.pointers :: env in io.listing }

  // A completed rollback disables the version's pointers and then points the environment at the target.
  lemma RollbackSteps(site: Site, disk: Disk, op: Operation, io: Io)
    requires op.Rollback? && Perform(site, disk, op, io).result.Ok?
    ensures PlanRollback(site, disk, op, io.now).Ok? && io.writes > 0
    ensures var RollbackPlan(e, target) := PlanRollback(site, disk, op, io.now).value;
      var appended := AppendEvent(disk, op.version, e);
      var p := DisablePointers(appended, op.version, e, op.actor, io.now, io.listing, io.writes - 1);
      && p.done
      && WritePointer(p.disk, op.environment, op.targetVersion, target.body.to, target.sha256, e.sha256, op.actor,
                      io.now)
         == Ok(Perform(site, disk, op, io).disk)
  {
    hide PlanRollback, DisablePointers, WritePointer, LoadEvents;
  }

  lemma PointedAway(disk: Disk, next: Disk, version: string, target: string, environment: string, stage: Stage,
                    source: string, change: string, actor: string, now: int)
    requires WritePointer(disk, environment, target, stage, source, change, actor, now) == Ok(next)
    requires version != target && Deployed(stage) && forall env :: !ActiveIn(disk, version, env)
    ensures next.events == disk.events && ActiveIn(next, target, environment)
    ensures forall env :: !ActiveIn(next, version, env)
  {
    hide ValidPointer, Deployed;
    forall env ensures !ActiveIn(next, version, env) { assert !ActiveIn(disk, version, env); }
  }

  /** A completed rollback withdraws its version everywhere, not only in the named environment. */
  lemma CompletedRollbackWithdraws(site: Site, disk: Disk, op: Operation, io: Io)
    requires ValidSite(site) && Kept(site, disk) && op.Rollback? && Lists(io, disk)
    requires Perform(site, disk, op, io).result.Ok?
    ensures Withdrawn(Perform(site, disk, op, io).disk, op.version)
    ensures ActiveIn(Perform(site, disk, op, io).disk, op.targetVersion, op.environment)
  {
    hide Kept, ValidSite, PlanRollback, WrittenEvent, DisablePointers, WritePointer, ActiveIn, Perform, Lists,
         ValidIdentifier, WrittenLog, LogsKept, PointersKept, OnlyRetargets, Retargeted, Withdrawn, LoadEvents;
    KeptParts(site, disk);
    RollbackSteps(site, disk, op, io);
    RollbackIsWritten(site, disk, op, io.now);
    var RollbackPlan(e, target) := PlanRollback(site, disk, op, io.now).value;
    var appended := AppendEvent(disk, op.version, e);
    assert Last(disk.events[op.version] + [e]) == e;
    DisablePointersEffect(appended, op.version, e, op.actor, io.now, io.listing, io.writes - 1);
    var mid := DisablePointers(appended, op.version, e, op.actor, io.now, io.listing, io.writes - 1).disk;
    assert Lists(io, appended) by { SamePointersListed(io, disk, appended); }
    NoneActive(appended, mid, op.version, e.body.to, io);
    PointedAway(mid, Perform(site, disk, op, io).disk, op.version, op.targetVersion, op.environment, target.body.to,
                target.sha256, e.sha256, op.actor, io.now);
    LastWithdraws(Perform(site, disk, op, io).disk, op.version, e);
  }

  lemma LastWithdraws(disk: Disk, version: string, e: Event)
    requires version in disk.events && disk.events[version] != [] && Last(disk.events[version]) == e
    requires Withdrawing(e.body.to) && forall env :: !ActiveIn(disk, version, env)
    ensures Withdrawn(disk, version)
  {
  }

  lemma SamePointersListed(io: Io, disk: Disk, next: Disk)
    requires Lists(io, disk) && next.pointers == disk.pointers
    ensures Lists(io, next)
  {
  }

  lemma NoneActive(before: Disk, after: Disk, version: string, stage: Stage, io: Io)
    requires Lists(io, before) && OnlyRetargets(before.pointers, after.pointers, version, stage) && !Deployed(stage)
    requires Retargeted(before.pointers, after.pointers, version, stage, io.listing)
    ensures forall env :: !ActiveIn(after, version, env)
  {
  }

  /** A completed disable withdraws its version everywhere, from any state an interrupted operation left. */
  lemma CompletedDisableWithdraws(site: Site, disk: Disk, op: Operation, io: Io)
    requires ValidSite(site) && Kept(site, disk) && op.Disable? && Lists(io, disk)
    requires Perform(site, disk, op, io).result.Ok?
    ensures Withdrawn(Perform(site, disk, op, io).disk, op.version)
  {
    hide Kept, WrittenLog, LogsKept, PointersKept, ValidSite, PlanDisable, LoadEvents, WrittenEvent, DisablePointers;
    KeptParts(site, disk);
    DisableIsWritten(site, disk, op, io.now);
    var DisablePlan(e, append) := PlanDisable(site, disk, op, io.now).value;
    var log := disk.events[op.version];
    assert Last(log + [e]) == e;
    if append {
      DisablePointersEffect(AppendEvent(disk, op.version, e), op.version, e, op.actor, io.now, io.listing,
                            io.writes - 1);
    } else {
      DisablePointersEffect(disk, op.version, e, op.actor, io.now, io.listing, io.writes);
    }
  }

  lemma {:induction false} DisablePointersCompletes(site: Site, disk: Disk, version: string, e: Event, actor: string,
                                                    now: int, envs: seq<string>, writes: nat)
    requires ValidSite(site) && Kept(site, disk) && version in disk.events && disk.events[version] != []
    requires e == Last(disk.events[version]) && (e.body.to.Disabled? || e.body.to.RolledBackStage?)
    requires BoundedText(actor, 128) && now > 0 && writes >= |envs|
    requires forall env | env in disk.pointers && disk.pointers[env].activeVersion == version ::
      !Retarget(disk.pointers[env], version, e) || disk.pointers[env].generation < UINT64_LIMIT - 1
    ensures DisablePointers(disk, version, e, actor, now, envs, writes).done
    decreases |envs|
  {
    hide Kept, ValidSite, ValidPointer, BoundedText;
    if envs != [] {
      var env := envs[0];
      if env in disk.pointers { KeptPointer(site, disk, env); }
      if env !in disk.pointers || !Retarget(disk.pointers[env], version, e) {
        DisablePointersCompletes(site, disk, version, e, actor, now, envs[1..], writes);
      } else {
        var written := WritePointer(disk, env, version, e.body.to, e.sha256, e.sha256, actor, now);
        assert written.Ok?;
        KeptDigest(site, disk, version);
        WritePointerKeeps(site, disk, env, version, e.body.to, e.sha256, e.sha256, actor, now);
        DisablePointersCompletes(site, written.value, version, e, actor, now, envs[1..], writes - 1);
      }
    }
  }

  lemma KeptPointer(site: Site, disk: Disk, env: string)
    requires Kept(site, disk) && env in disk.pointers
    ensures ValidPointer(disk.pointers[env])
  {
    hide ValidPointer, Attached, LogsKept;
  }

  // A well-formed request with room to number its writes.
  ghost predicate CanDisable(disk: Disk, op: Operation, io: Io)
    requires op.Disable? && op.version in disk.events && disk.events[op.version] != []
  {
    && ValidActorReason(op.actor, op.reason) && io.now > 0 && io.writes > |io.listing|
    && Last(disk.events[op.version]).body.revision < UINT64_LIMIT - 1
    && forall env | env in disk.pointers && disk.pointers[env].activeVersion == op.version ::
         disk.pointers[env].generation < UINT64_LIMIT - 1
  }

  /** Repair always works before retirement: from every reachable disk, wherever earlier operations were
      cut short, a well-formed disable of a readable version that is not RETIRED completes and withdraws
      the version from every environment. */
  lemma DisableRepairs(site: Site, disk: Disk, op: Operation, io: Io)
    requires ValidSite(site) && Kept(site, disk) && op.Disable? && Lists(io, disk)
    requires op.version in disk.events && disk.events[op.version] != [] && ReferencesFit(disk.events[op.version])
    requires CanDisable(disk, op, io) && !Last(disk.events[op.version]).body.to.Retired?
    ensures Perform(site, disk, op, io).result.Ok?
    ensures Withdrawn(Perform(site, disk, op, io).disk, op.version)
  {
    hide Kept, ValidSite, LoadEvents, WrittenEvent, DisablePointers, ReferencesFit, Withdrawn, Lists, CanDisable,
         PlanDisable, Perform;
    DisablePlans(site, disk, op, io);
    KeptParts(site, disk);
    DisableIsWritten(site, disk, op, io.now);
    var DisablePlan(e, append) := PlanDisable(site, disk, op, io.now).value;
    var mid := if append then AppendEvent(disk, op.version, e) else disk;
    if append {
      DisableAppends(site, disk, op, io.now);
      ReferencesStillFit(disk.events[op.version], e);
    }
    DisableFinishes(site, disk, mid, op, e, io, if append then io.writes - 1 else io.writes);
    DisableOutcome(site, disk, op, io);
    OperationKeeps(site, disk, op, io);
    ReadableExactly(site, Perform(site, disk, op, io).disk, op.version);
    CompletedDisableWithdraws(site, disk, op, io);
  }

  lemma DisablePlans(site: Site, disk: Disk, op: Operation, io: Io)
    requires ValidSite(site) && Kept(site, disk) && op.Disable?
    requires op.version in disk.events && disk.events[op.version] != [] && ReferencesFit(disk.events[op.version])
    requires CanDisable(disk, op, io) && !Last(disk.events[op.version]).body.to.Retired?
    ensures PlanDisable(site, disk, op, io.now).Ok? && io.writes > |io.listing|
  {
    hide Kept, ValidSite, LoadEvents, ReferencesFit, ValidActorReason;
    ReadableExactly(site, disk, op.version);
  }

  lemma DisableFinishes(site: Site, disk: Disk, mid: Disk, op: Operation, e: Event, io: Io, writes: nat)
    requires ValidSite(site) && Kept(site, mid) && op.Disable? && mid.pointers == disk.pointers
    requires op.version in disk.events && disk.events[op.version] != [] && CanDisable(disk, op, io)
    requires op.version in mid.events && mid.events[op.version] != [] && e == Last(mid.events[op.version])
    requires e.body.to.Disabled? && BoundedText(op.actor, 128) && writes >= |io.listing|
    ensures var p := DisablePointers(mid, op.version, e, op.actor, io.now, io.listing, writes);
      p.done && p.disk.events == mid.events
  {
    hide Kept, ValidSite, DisablePointers, ValidActorReason, Retarget;
    DisablePointersCompletes(site, mid, op.version, e, op.actor, io.now, io.listing, writes);
    DisablePointersEffect(mid, op.version, e, op.actor, io.now, io.listing, writes);
  }

  lemma DisableOutcome(site: Site, disk: Disk, op: Operation, io: Io)
    requires op.Disable? && PlanDisable(site, disk, op, io.now).Ok? && io.writes > 0
    ensures var DisablePlan(e, append) := PlanDisable(site, disk, op, io.now).value;
      var mid := if append then AppendEvent(disk, op.version, e) else disk;
      var writes := if append then io.writes - 1 else io.writes;
      var p := DisablePointers(mid, op.version, e, op.actor, io.now, io.listing, writes);
      p.done ==> Perform(site, disk, op, io) == Outcome(p.disk, LoadEvents(site, p.disk, op.version))
  {
    hide PlanDisable, DisablePointers, LoadEvents;
  }

  lemma DisableAppends(site: Site, disk: Disk, op: Operation, now: int)
    requires ValidSite(site) && Kept(site, disk) && op.Disable? && PlanDisable(site, disk, op, now).Ok?
    requires PlanDisable(site, disk, op, now).value.append
    ensures var e := PlanDisable(site, disk, op, now).value.event;
      var mid := AppendEvent(disk, op.version, e);
      && op.version in mid.events && mid.events[op.version] != [] && Last(mid.events[op.version]) == e
      && Kept(site, mid)
  {
    hide Kept, ValidSite, PlanDisable, WrittenLog, LoadEvents, WrittenEvent;
    KeptParts(site, disk);
    DisableIsWritten(site, disk, op, now);
    var e, log := PlanDisable(site, disk, op, now).value.event, disk.events[op.version];
    LogExtends(site, op.version, log, e);
    EventFacts(site, op.version, Last(log), e, |log|);
    AppendKeeps(site, disk, op.version, e);
  }

  lemma ReferencesStillFit(log: seq<Event>, e: Event)
    requires ReferencesFit(log) && e.body.authorizationReference == ""
    ensures ReferencesFit(log + [e])
  {
  }

  // ----- Retirement leaves pointers alone ---------------------------------------------------------------------

  /** After retirement nothing is repaired: every further call on a retired version leaves the disk as it
      was, so whichever environments still run it keep running it. */
  lemma RetiredIsFinal(site: Site, disk: Disk, op: Operation, io: Io)
    requires ValidSite(site) && Kept(site, disk) && op.version in disk.events && disk.events[op.version] != []
    requires Last(disk.events[op.version]).body.to.Retired?
    ensures Perform(site, disk, op, io).disk == disk
    ensures !op.Register? ==> Perform(site, disk, op, io).result.Err?
  {
    hide Kept, ValidSite, LoadEvents, ValidSemantic, ValidActorReason, NextBody, Sign, ValidIdentifier;
    ReadableExactly(site, disk, op.version);
    if op.Rollback? {
      assert PlanRollback(site, disk, op, io.now).Err?;
    } else if op.Disable? {
      assert PlanDisable(site, disk, op, io.now).Err?;
    } else if !op.Register? && AsTransition(op).Ok? {
      assert Retired !in AsTransition(op).value.from;
      assert PlanTransition(site, disk, AsTransition(op).value, io.now).Err?;
    }
  }

  lemma RetireLeavesPointers(site: Site, disk: Disk, op: Operation, io: Io)
    requires ValidSite(site) && Kept(site, disk) && op.Retire?
    ensures var after := Perform(site, disk, op, io);
      && after.disk.pointers == disk.pointers
      && (after.result.Ok? ==>
          LastOf(after.disk.events, op.version).Some? && LastOf(after.disk.events, op.version).value.body.to.Retired?)
  {
    hide Kept, ValidSite, PlanTransition, LoadEvents, WrittenEvent, WrittenLog, ValidSemantic, LogsKept, PointersKept;
    KeptParts(site, disk);
    if PlanTransition(site, disk, AsTransition(op).value, io.now).Ok? {
      TransitionIsWritten(site, disk, op, io.now);
      var log, e := disk.events[op.version], PlanTransition(site, disk, AsTransition(op).value, io.now).value;
      assert Last(log + [e]) == e;
    }
  }

  lemma InterruptedRollback(site: Site, disk: Disk, op: Operation, io: Io)
    requires op.Rollback? && PlanRollback(site, disk, op, io.now).Ok? && io.writes == 1
    ensures Perform(site, disk, op, io).disk ==
      AppendEvent(disk, op.version, PlanRollback(site, disk, op, io.now).value.event)
  {
    hide PlanRollback, LoadEvents, DisablePointers;
    var e := PlanRollback(site, disk, op, io.now).value.event;
    NoWritesLeft(AppendEvent(disk, op.version, e), op.version, e, op.actor, io.now, io.listing);
  }

  lemma {:induction false} WithdrawingStaysInLog(site: Site, version: string, log: seq<Event>, i: nat, j: nat)
    requires WrittenLog(site, version, log) && i <= j < |log| && Withdrawing(log[i].body.to)
    ensures Withdrawing(log[j].body.to)
    decreases j
  {
    hide WrittenEvent;
    if i < j {
      WithdrawingStaysInLog(site, version, log, i, j - 1);
      assert WrittenEvent(site, version, Before(log, j), log[j], j);
      EventFacts(site, version, log[j - 1], log[j], j);
    }
  }

  // A pointer at a version whose log ends deployed shows the version deployed.
  lemma PointerAtDeployedIsActive(site: Site, disk: Disk, version: string, env: string)
    requires Kept(site, disk) && version in disk.events && disk.events[version] != []
    requires Deployed(Last(disk.events[version]).body.to)
    requires env in disk.pointers && disk.pointers[env].activeVersion == version
    ensures ActiveIn(disk, version, env)
  {
    hide Kept, WrittenLog, EventByHash, LogsKept, PointersKept, ValidPointer, Attached;
    KeptParts(site, disk);
    var log, p := disk.events[version], disk.pointers[env];
    var i := AttachedEvent(site, disk, env);
    if Withdrawing(log[i].body.to) { WithdrawingStaysInLog(site, version, log, i, |log| - 1); }
  }

  lemma AttachedEvent(site: Site, disk: Disk, env: string) returns (i: nat)
    requires Kept(site, disk) && env in disk.pointers
    ensures var p := disk.pointers[env];
      && p.activeVersion in disk.events && i < |disk.events[p.activeVersion]|
      && disk.events[p.activeVersion][i].body.to == p.stage && (Deployed(p.stage) || Withdrawing(p.stage))
  {
    hide LogsKept, EventByHash, Hex64, ValidSemantic, Blank;
    var p := disk.pointers[env];
    var log := disk.events[p.activeVersion];
    EventByHashFinds(log, p.sourceEvent);
    i :| 0 <= i < |log| && log[i] == EventByHash(log, p.sourceEvent).value;
  }

  // A well-formed retirement of a readable withdrawn version, with room to number it, completes.
  lemma RetireCompletes(site: Site, disk: Disk, op: Operation, io: Io)
    requires ValidSite(site) && Kept(site, disk) && op.Retire? && op.verified && ValidActorReason(op.actor, op.reason)
    requires io.now > 0 && io.writes > 0
    requires op.version in disk.events && disk.events[op.version] != [] && ReferencesFit(disk.events[op.version])
    requires |disk.events[op.version]| < UINT64_LIMIT - 1
    requires var last := Last(disk.events[op.version]).body.to; last.Disabled? || last.RolledBackStage?
    ensures Perform(site, disk, op, io).result.Ok?
  {
    hide Kept, ValidSite, LoadEvents, ReferencesFit, ValidActorReason, WrittenEvent, WrittenLog, NextBody, Sign;
    var log := disk.events[op.version];
    ReadableExactly(site, disk, op.version);
    KeptParts(site, disk);
    LastIsWritten(site, op.version, log);
    TransitionIsWritten(site, disk, op, io.now);
    OperationKeeps(site, disk, op, io);
    ReferencesStillFit(log, PlanTransition(site, disk, AsTransition(op).value, io.now).value);
    ReadableExactly(site, Perform(site, disk, op, io).disk, op.version);
  }

  /** The stranded version: whenever a rollback may proceed but is cut short after its first write, any
      well-formed retirement that follows completes, and leaves a retired version active in the environment
      it was rolled back in. */
  lemma InterruptedRollbackThenRetireStrands(site: Site, disk: Disk, rollback: Operation, io: Io, retire: Operation,
                                             later: Io)
    requires ValidSite(site) && Kept(site, disk) && rollback.Rollback? && io.writes == 1
    requires PlanRollback(site, disk, rollback, io.now).Ok?
    requires retire.Retire? && retire.version == rollback.version && retire.verified
    requires ValidActorReason(retire.actor, retire.reason) && later.now > 0 && later.writes > 0
    requires |LogOf(disk.events, retire.version)| < UINT64_LIMIT - 2
    ensures var after := Perform(site, Perform(site, disk, rollback, io).disk, retire, later);
      && after.result.Ok?
      && LastOf(after.disk.events, retire.version).Some?
      && LastOf(after.disk.events, retire.version).value.body.to.Retired?
      && ActiveIn(after.disk, retire.version, rollback.environment)
  {
    hide Kept, ValidSite, PlanRollback, Perform, WrittenEvent, LoadEvents, ReferencesFit, ValidActorReason, WrittenLog;
    KeptParts(site, disk);
    RollbackIsWritten(site, disk, rollback, io.now);
    InterruptedRollback(site, disk, rollback, io);
    OperationKeeps(site, disk, rollback, io);
    var e, log := PlanRollback(site, disk, rollback, io.now).value.event, disk.events[rollback.version];
    var cut := Perform(site, disk, rollback, io).disk;
    assert cut.events[rollback.version] == log + [e] && Last(log + [e]) == e;
    ReadableExactly(site, disk, rollback.version);
    BoundedReferenceFits(log, e);
    RollbackNamesPointer(site, disk, rollback, io.now);
    PointerAtDeployedIsActive(site, disk, rollback.version, rollback.environment);
    RetireCompletes(site, cut, retire, later);
    RetireLeavesPointers(site, cut, retire, later);
  }

  lemma BoundedReferenceFits(log: seq<Event>, e: Event)
    requires ReferencesFit(log) && |e.body.authorizationReference| <= 256
    ensures ReferencesFit(log + [e])
  {
  }

  lemma RollbackNamesPointer(site: Site, disk: Disk, op: Operation, now: int)
    requires op.Rollback? && PlanRollback(site, disk, op, now).Ok?
    ensures op.environment in disk.pointers && disk.pointers[op.environment].activeVersion == op.version
  {
    hide LoadEvents, ValidIdentifier, ValidActorReason, Blank, NextBody, Sign;
  }

  lemma {:induction false} NoWritesLeft(disk: Disk, version: string, e: Event, actor: string, now: int,
                                        envs: seq<string>)
    ensures DisablePointers(disk, version, e, actor, now, envs, 0).disk == disk
    ensures DisablePointers(disk, version, e, actor, now, envs, 0).writes == 0
    decreases |envs|
  {
    if envs != [] { NoWritesLeft(disk, version, e, actor, now, envs[1..]); }
  }

  // ----- Approval ---------------------------------------------------------------------------------------------------

  // The actors of a log's approval events, in order.
  function Approvers(log: seq<Event>): seq<string> {
    if log == [] then []
    else Approvers(log[..|log| - 1]) + if Approves(Last(log).body) then [Last(log).body.actor] else []
  }

  lemma ApproversGrow(log: seq<Event>)
    requires log != []
    ensures var front := log[..|log| - 1];
      Approvers(log) == if Approves(Last(log).body) then Approvers(front) + [Last(log).body.actor] else Approvers(front)
  {
    hide Approves;
  }

  lemma ApprovalIsCarried(site: Site, version: string, log: seq<Event>)
    requires WrittenLog(site, version, log)
    ensures log != [] && CarriesApproval(Before(log, |log| - 1), Last(log).body)
    ensures |log| == 1 ==> !Approves(log[0].body)
  {
    hide ValidFields, ValidIdentifier;
    assert WrittenEvent(site, version, Before(log, |log| - 1), log[|log| - 1], |log| - 1);
  }

  // What the approval events of a log say about its last event.
  ghost predicate ApprovalFits(last: EventBody, approvers: seq<string>) {
    && (last.approval.Pending? ==> approvers == [])
    && (last.approval.Approved? ==> approvers == [last.approvalActor])
    && |approvers| <= 1
  }

  lemma {:induction false} ApprovalMatchesApprovers(site: Site, version: string, log: seq<Event>)
    requires WrittenLog(site, version, log)
    ensures ApprovalFits(Last(log).body, Approvers(log))
  {
    hide WrittenLog, WrittenEvent, Approvers, Approves;
    ApprovalIsCarried(site, version, log);
    var front := log[..|log| - 1];
    ApproversGrow(log);
    if |log| == 1 {
      assert front == [];
      NoneApproved();
    } else {
      PrefixIsWritten(site, version, log, |log| - 1);
      ApprovalMatchesApprovers(site, version, front);
      assert Before(log, |log| - 1) == Some(Last(front));
    }
  }

  lemma NoneApproved()
    ensures Approvers([]) == []
  {
  }

  lemma PrefixIsWritten(site: Site, version: string, log: seq<Event>, n: nat)
    requires WrittenLog(site, version, log) && 0 < n <= |log|
    ensures WrittenLog(site, version, log[..n])
  {
    hide WrittenEvent;
    var front := log[..n];
    forall i | 0 <= i < |front| ensures WrittenEvent(site, version, Before(front, i), front[i], i) {
      assert front[i] == log[i] && Before(front, i) == Before(log, i);
    }
  }

  /** In every log the operations write, a deployment event is preceded by exactly one approval event, it
      names that event's actor, and whoever promotes to PRODUCTION is somebody else. */
  lemma DeploymentHasOneApproval(site: Site, version: string, log: seq<Event>, i: nat)
    requires WrittenLog(site, version, log) && i < |log| && Deployed(log[i].body.to)
    ensures Approvers(log[..i]) == [log[i].body.approvalActor]
    ensures log[i].body.to.Production? ==> log[i].body.actor != Approvers(log[..i])[0]
  {
    hide WrittenLog, WrittenEvent, Approvers;
    DeployingMove(site, version, log, i);
    var front := log[..i];
    PrefixIsWritten(site, version, log, i);
    ApprovalMatchesApprovers(site, version, front);
    assert Last(front) == log[i - 1];
  }

  lemma DeployingMove(site: Site, version: string, log: seq<Event>, i: nat)
    requires WrittenLog(site, version, log) && i < |log| && Deployed(log[i].body.to)
    ensures i > 0 && log[i - 1].body.approval.Approved? && log[i].body.approvalActor == log[i - 1].body.approvalActor
    ensures log[i].body.to.Production? ==> log[i].body.actor != log[i].body.approvalActor
  {
    hide ValidFields, ValidIdentifier;
    assert WrittenEvent(site, version, Before(log, i), log[i], i);
  }

  // ----- What the verifier alone gives -------------------------------------------------------------------------

  // How an accepted log got where it is: its last body, its length, its number of approval events, and its
  // event 3, the one that entered REPLAY_VALIDATED.
  ghost predicate Trace(b: EventBody, n: nat, approvals: nat, entry: EventBody) {
    match b.to
    case Unset => false
    case Draft => n == 1 && approvals == 0
    case Trained => n == 2 && approvals == 0
    case OfflineValidated => n == 3 && approvals == 0
    case ReplayValidated =>
      && n > 3 && Enters(entry)
      && if n == 4 then approvals == 0 && b == entry
         else approvals == 1 && entry.approval.Pending? && b.approval.Approved?
    case ShadowStage => TracedDeployment(n, approvals, entry)
    case CanaryStage => TracedDeployment(n, approvals, entry)
    case LimitedRisk => TracedDeployment(n, approvals, entry)
    case Production => TracedDeployment(n, approvals, entry)
    case _ => true
  }

  predicate Enters(b: EventBody) { b.from.OfflineValidated? && b.to.ReplayValidated? }

  ghost predicate TracedDeployment(n: nat, approvals: nat, entry: EventBody) {
    n > 4 && Enters(entry) && approvals == (if entry.approval.Pending? then 1 else 0)
  }

  lemma TraceStep(prior: EventBody, b: EventBody, n: nat, approvals: nat, entry: EventBody)
    requires Trace(prior, n, approvals, entry) && b.from == prior.to
    requires AllowedMove(prior, b) && ApprovalKept(prior, b) && DeploymentApproved(b)
    ensures Trace(b, n + 1, if Approves(b) then approvals + 1 else approvals, if n == 3 then b else entry)
  {
    hide ValidIdentifier;
  }

  // Event 3, once there is one, and event 0 until then.
  function EntryOf(log: seq<Event>): EventBody
    requires log != []
  {
    if |log| > 3 then log[3].body else log[0].body
  }

  lemma AcceptedFront(sha: EventBody -> string, modelID: string, version: string, log: seq<Event>, n: nat)
    requires AcceptedLog(sha, modelID, version, log) && 0 < n <= |log|
    ensures AcceptedLog(sha, modelID, version, log[..n])
  {
    hide AcceptedEvent;
    forall i | 0 <= i < n ensures AcceptedEvent(sha, modelID, version, Before(log[..n], i), log[..n][i]) {
      assert Before(log[..n], i) == Before(log, i);
    }
  }

  lemma LastMove(sha: EventBody -> string, modelID: string, version: string, log: seq<Event>)
    requires AcceptedLog(sha, modelID, version, log)
    ensures |log| == 1 ==> Initial(log[0].body)
    ensures |log| > 1 ==>
      var prior, b := log[|log| - 2].body, Last(log).body;
      b.from == prior.to && AllowedMove(prior, b) && ApprovalKept(prior, b) && DeploymentApproved(b)
  {
    hide ValidFields, AllowedMove, ApprovalKept, DeploymentApproved, Hex64;
    assert AcceptedEvent(sha, modelID, version, Before(log, |log| - 1), log[|log| - 1]);
  }

  lemma {:induction false} AcceptedTrace(sha: EventBody -> string, modelID: string, version: string, log: seq<Event>)
    requires AcceptedLog(sha, modelID, version, log)
    ensures Trace(Last(log).body, |log|, |Approvers(log)|, EntryOf(log))
  {
    hide AcceptedLog, AllowedMove, ApprovalKept, DeploymentApproved, Approvers, Trace;
    assert log != [] by { AcceptedIsNotEmpty(sha, modelID, version, log); }
    LastMove(sha, modelID, version, log);
    ApproversGrow(log);
    var front := log[..|log| - 1];
    if |log| == 1 {
      FirstTrace(log[0].body);
      assert front == [] && |Approvers([])| == 0 by { NobodyApproved(); }
    } else {
      AcceptedFront(sha, modelID, version, log, |log| - 1);
      AcceptedTrace(sha, modelID, version, front);
      assert Last(front) == log[|log| - 2];
      TraceStep(Last(front).body, Last(log).body, |front|, |Approvers(front)|, EntryOf(front));
    }
  }

  lemma AcceptedIsNotEmpty(sha: EventBody -> string, modelID: string, version: string, log: seq<Event>)
    requires AcceptedLog(sha, modelID, version, log)
    ensures log != []
  {
  }

  lemma FirstTrace(b: EventBody)
    requires Initial(b)
    ensures Trace(b, 1, 0, b) && !Approves(b)
  {
  }

  lemma NobodyApproved()
    ensures Approvers([]) == []
  {
  }

  /** Exactly when an accepted log has an approval event before a deployment: the verifier lets the event that
      enters REPLAY_VALIDATED, which is event 3 of every log that deploys, carry any approval, and a deployment
      is preceded by one approval event if that event left approval pending and by none otherwise. */
  lemma AcceptedDeploymentApproval(sha: EventBody -> string, modelID: string, version: string, log: seq<Event>, i: nat)
    requires AcceptedLog(sha, modelID, version, log) && i < |log| && Deployed(log[i].body.to)
    ensures 3 < i && Enters(log[3].body)
    ensures |Approvers(log[..i + 1])| == if log[3].body.approval.Pending? then 1 else 0
  {
    hide AcceptedLog, Approvers;
    AcceptedFront(sha, modelID, version, log, i + 1);
    AcceptedTrace(sha, modelID, version, log[..i + 1]);
    assert Last(log[..i + 1]) == log[i];
  }

  /** The verifier alone does not give that: it accepts a log in which approval appears without any
      approval event, so the guarantee rests on the operations being the only writers. */
  lemma VerifierAloneAllowsUnapprovedDeployment(sha: EventBody -> string, modelID: string) returns (log: seq<Event>)
    requires Digest(sha) && ValidIdentifier(modelID)
    ensures AcceptedLog(sha, modelID, "1.0.0", log)
    ensures Deployed(Last(log).body.to) && Approvers(log) == []
  {
    hide AcceptedLog, Approvers, Digest, ValidIdentifier, AllowedMove, ApprovalKept, Follows;
    var e0 := Entry(sha, Body(modelID, 1, Unset, Draft, Pending, ""));
    SampleStart(sha, modelID, e0);
    log := SampleNext(sha, modelID, [e0], Trained, Pending);
    log := SampleNext(sha, modelID, log, OfflineValidated, Pending);
    log := SampleNext(sha, modelID, log, ReplayValidated, Approved);
    log := SampleNext(sha, modelID, log, ShadowStage, Approved);
  }

  // The stages on the way to SHADOW, each reached from the one before.
  predicate Onward(prior: EventBody, to: Stage, approval: Approval) {
    match to
    case Trained => prior.to.Draft? && approval == prior.approval
    case OfflineValidated => prior.to.Trained? && approval == prior.approval
    case ReplayValidated => prior.to.OfflineValidated?
    case ShadowStage => prior.to.ReplayValidated? && approval == prior.approval && approval.Approved?
    case _ => false
  }

  lemma SampleNext(sha: EventBody -> string, modelID: string, log: seq<Event>, to: Stage, approval: Approval)
    returns (longer: seq<Event>)
    requires Digest(sha) && ValidIdentifier(modelID) && log != [] && |log| < 100
    requires AcceptedLog(sha, modelID, "1.0.0", log) && Approvers(log) == [] && Last(log).body.revision == |log|
    requires Last(log).body.modelID == modelID && Last(log).body.version == "1.0.0"
    requires Onward(Last(log).body, to, approval)
    ensures |longer| == |log| + 1 && AcceptedLog(sha, modelID, "1.0.0", longer) && Approvers(longer) == []
    ensures Last(longer).body.revision == |longer| && Last(longer).body.to == to
      && Last(longer).body.approval == approval
    ensures Last(longer).body.modelID == modelID && Last(longer).body.version == "1.0.0"
  {
    hide AcceptedLog, Approvers, Digest, ValidIdentifier;
    var e := Entry(sha, Body(modelID, |log| + 1, Last(log).body.to, to, approval, Last(log).sha256));
    SampleStep(sha, modelID, log, e);
    longer := log + [e];
  }

  lemma SampleStart(sha: EventBody -> string, modelID: string, e: Event)
    requires Digest(sha) && ValidIdentifier(modelID)
    requires e == Entry(sha, Body(modelID, 1, Unset, Draft, Pending, ""))
    ensures AcceptedLog(sha, modelID, "1.0.0", [e]) && Approvers([e]) == []
  {
    hide AcceptedEvent, Hex64, Approvers, ValidIdentifier;
    SampleMove(sha, modelID, None, e);
    NoApprovers([], e);
    assert [] + [e] == [e] && Before([e], 0) == None;
  }

  lemma SampleStep(sha: EventBody -> string, modelID: string, log: seq<Event>, e: Event)
    requires Digest(sha) && ValidIdentifier(modelID)
    requires AcceptedLog(sha, modelID, "1.0.0", log) && Approvers(log) == []
    requires e ==
      Entry(sha, Body(modelID, e.body.revision, e.body.from, e.body.to, e.body.approval, e.body.previousSHA256))
    requires Follows(Last(log), e.body) && AllowedMove(Last(log).body, e.body) && ApprovalKept(Last(log).body, e.body)
    requires (Deployed(e.body.to) ==> e.body.approval.Approved?) && !Approves(e.body)
    ensures AcceptedLog(sha, modelID, "1.0.0", log + [e]) && Approvers(log + [e]) == []
  {
    hide AcceptedEvent, Hex64, Approvers, ValidIdentifier, Follows, AllowedMove, ApprovalKept, Approves;
    SampleMove(sha, modelID, Some(Last(log)), e);
    NoApprovers(log, e);
    var longer := log + [e];
    forall i | 0 <= i < |longer| ensures AcceptedEvent(sha, modelID, "1.0.0", Before(longer, i), longer[i]) {
      if i < |log| { assert longer[i] == log[i] && Before(longer, i) == Before(log, i); }
    }
  }

  lemma NoApprovers(log: seq<Event>, e: Event)
    requires (log == [] || Approvers(log) == []) && !Approves(e.body)
    ensures Approvers(log + [e]) == []
  {
    assert (log + [e])[..|log|] == log;
  }

  lemma SampleMove(sha: EventBody -> string, modelID: string, previous: Option<Event>, e: Event)
    requires Digest(sha) && ValidIdentifier(modelID)
    requires e ==
      Entry(sha, Body(modelID, e.body.revision, e.body.from, e.body.to, e.body.approval, e.body.previousSHA256))
    requires match previous
      case None => Lifecycle.Initial(e.body)
      case Some(prior) => Follows(prior, e.body) && AllowedMove(prior.body, e.body) && ApprovalKept(prior.body, e.body)
    requires Deployed(e.body.to) ==> e.body.approval.Approved?
    ensures AcceptedEvent(sha, modelID, "1.0.0", previous, e)
  {
    hide ValidIdentifier, ValidSemantic, Hex64;
    SampleVersionIsSemantic();
  }

  function Entry(sha: EventBody -> string, b: EventBody): Event { Event(b, sha(b)) }

  function Body(modelID: string, revision: uint64, from: Stage, to: Stage, approval: Approval,
                previous: string): EventBody {
    EventBody(modelID, "1.0.0", revision, from, to, approval, DeploymentFor(to), "a", "a", "a", "", "", "", 1, previous)
  }

  lemma SampleVersionIsSemantic()
    ensures ValidSemantic("1.0.0") && ValidIdentifier("a") && ValidActorReason("a", "a")
  {
    hide DottedSuffix;
    var s := "1.0.0";
    assert s[1..] == ".0.0" && s[1..][1..] == "0.0" && s[2..] == "0.0";
    assert IndexOf(s, '.') == 1;
    assert "0.0"[1..] == ".0" && IndexOf("0.0", '.') == 1;
    assert NumericPart("1") && NumericPart("0");
    assert s[..1] == "1" && "0.0"[..1] == "0" && "0.0"[2..] == "0";
    assert IndexOf(s, '+') == 5 by {
      assert s[2..][1..] == ".0" && ".0"[1..] == "0" && "0"[1..] == "";
      assert IndexOf("0", '+') == 1 && IndexOf(".0", '+') == 2 && IndexOf("0.0", '+') == 3 && IndexOf(".0.0", '+') == 4;
    }
    assert IndexOf(s, '-') == 5 by {
      assert s[2..][1..] == ".0" && ".0"[1..] == "0" && "0"[1..] == "";
      assert IndexOf("0", '-') == 1 && IndexOf(".0", '-') == 2 && IndexOf("0.0", '-') == 3 && IndexOf(".0.0", '-') == 4;
    }
    assert s[..5] == s;
  }
}
