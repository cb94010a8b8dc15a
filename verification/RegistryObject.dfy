/** The registry as an object that changes its logs and pointers step by step. Each method leaves the disk
    and the answer that the corresponding operation on values describes. */
module RegistryObject {
  import opened Results
  import opened Text
  import opened DeploymentTypes
  import opened Lifecycle
  import opened Registry

  class ModelRegistry {
    const site: Site
    var events: map<string, seq<Event>>
    var pointers: map<string, Pointer>

    constructor (site: Site)
      ensures this.site == site && View() == Disk(map[], map[])
    {
      this.site := site;
      events, pointers := map[], map[];
    }

    function View(): Disk
      reads this
    {
      Disk(events, pointers)
    }

    method Append(version: string, e: Event)
      modifies this`events
      ensures View() == AppendEvent(old(View()), version, e)
    {
      var log := if version in events then events[version] else [];
      events := events[version := log + [e]];
    }

    method WriteDeploymentPointer(environment: string, version: string, stage: Stage, source: string, change: string,
                                  actor: string, now: int) returns (refused: Option<Error>)
      modifies this`pointers
      ensures match WritePointer(old(View()), environment, version, stage, source, change, actor, now)
              case Ok(next) => refused == None && View() == next
              case Err(e) => refused == Some(e) && View() == old(View())
    {
      hide ValidPointer;
      var generation: uint64 := 1;
      if environment in pointers {
        if !ValidPointer(pointers[environment]) { return Some(IntegrityFailure); }
        if pointers[environment].generation == UINT64_LIMIT - 1 { return Some(IntegrityFailure); }
        generation := pointers[environment].generation + 1;
      }
      if now <= 0 { return Some(MalformedRequest); }
      pointers := pointers[environment := Pointer(version, stage, generation, source, change, now, actor)];
      refused := None;
    }

    method DisableDeploymentPointers(version: string, e: Event, actor: string, now: int, envs: seq<string>, writes: nat)
      returns (left: nat, done: bool)
      modifies this`pointers
      ensures Progress(View(), left, done) == DisablePointers(old(View()), version, e, actor, now, envs, writes)
    {
      hide ValidPointer;
      left := writes;
      for i := 0 to |envs|
        invariant events == old(events)
        invariant DisablePointers(View(), version, e, actor, now, envs[i..], left)
               == DisablePointers(old(View()), version, e, actor, now, envs, writes)
      {
        assert envs[i..][0] == envs[i] && envs[i..][1..] == envs[i + 1..];
        var env := envs[i];
        if env !in pointers { continue; }
        if !ValidPointer(pointers[env]) { return left, false; }
        if !Retarget(pointers[env], version, e) { continue; }
        if left == 0 { return 0, false; }
        var refused := WriteDeploymentPointer(env, version, e.body.to, e.sha256, e.sha256, actor, now);
        if refused.Some? { return left, false; }
        left := left - 1;
      }
      done := true;
    }

    method Transit(t: Transition, io: Io) returns (result: Result<seq<Event>, Error>)
      modifies this
      ensures Outcome(View(), result) == PerformTransition(site, old(View()), t, io)
    {
      hide PlanTransition, LoadEvents, WritePointer;
      var plan := PlanTransition(site, View(), t, io.now);
      if plan.Err? { return Err(plan.error); }
      if io.writes == 0 { return Err(Interrupted); }
      Append(t.version, plan.value);
      if t.updatePointer {
        if io.writes == 1 { return Err(Interrupted); }
        var refused :=
          WriteDeploymentPointer(t.environment, t.version, t.to, plan.value.sha256, plan.value.sha256, t.actor, io.now);
        if refused.Some? { return Err(refused.value); }
      }
      result := LoadEvents(site, View(), t.version);
    }

    method Rollback(op: Operation, io: Io) returns (result: Result<seq<Event>, Error>)
      requires op.Rollback?
      modifies this
      ensures Outcome(View(), result) == PerformRollback(site, old(View()), op, io)
    {
      hide PlanRollback, LoadEvents, WritePointer, DisablePointers;
      var plan := PlanRollback(site, View(), op, io.now);
      if plan.Err? { return Err(plan.error); }
      var RollbackPlan(e, target) := plan.value;
      if io.writes == 0 { return Err(Interrupted); }
      Append(op.version, e);
      var left, done := DisableDeploymentPointers(op.version, e, op.actor, io.now, io.listing, io.writes - 1);
      if !done || left == 0 { return Err(Interrupted); }
      var refused :=
        WriteDeploymentPointer(op.environment, op.targetVersion, target.body.to, target.sha256, e.sha256, op.actor,
                               io.now);
      if refused.Some? { return Err(refused.value); }
      result := LoadEvents(site, View(), op.version);
    }

    method Disable(op: Operation, io: Io) returns (result: Result<seq<Event>, Error>)
      requires op.Disable?
      modifies this
      ensures Outcome(View(), result) == PerformDisable(site, old(View()), op, io)
    {
      hide PlanDisable, LoadEvents, DisablePointers;
      var plan := PlanDisable(site, View(), op, io.now);
      if plan.Err? { return Err(plan.error); }
      var DisablePlan(e, append) := plan.value;
      var left := io.writes;
      if append {
        if left == 0 { return Err(Interrupted); }
        Append(op.version, e);
        left := left - 1;
      }
      var _, done := DisableDeploymentPointers(op.version, e, op.actor, io.now, io.listing, left);
      if !done { return Err(Interrupted); }
      result := LoadEvents(site, View(), op.version);
    }

    method Register(op: Operation, io: Io) returns (result: Result<seq<Event>, Error>)
      requires op.Register?
      modifies this`events
      ensures Outcome(View(), result) == PerformRegister(site, old(View()), op, io)
    {
      hide ValidActorReason, ValidSemantic, LoadEvents;
      if !ValidActorReason(op.actor, op.reason) || !ValidSemantic(op.version) { return Err(MalformedRequest); }
      if !op.verified { return Err(VerificationFailed); }
      if op.version in events {
        if !op.sameManifest { return Err(AlreadyRegistered); }
        return LoadEvents(site, View(), op.version);
      }
      if io.now <= 0 { return Err(MalformedRequest); }
      if io.writes == 0 { return Err(Interrupted); }
      Append(op.version, FirstEvent(site, op, io.now));
      result := LoadEvents(site, View(), op.version);
    }

    // Any call: the object follows the operation on values.
    method Apply(op: Operation, io: Io) returns (result: Result<seq<Event>, Error>)
      modifies this
      ensures Outcome(View(), result) == Perform(site, old(View()), op, io)
    {
      hide PerformRegister, PerformRollback, PerformDisable, PerformTransition;
      if op.Register? { result := Register(op, io); }
      else if op.Rollback? { result := Rollback(op, io); }
      else if op.Disable? { result := Disable(op, io); }
      else {
        var t := AsTransition(op);
        if t.Err? { return Err(t.error); }
        result := Transit(t.value, io);
      }
    }
  }
}
