/** Exactly which lifecycle logs the verifier accepts: every event's fields, and every move it may make. */
module LifecycleMeaning {
  import opened Text
  import opened DeploymentTypes
  import opened Lifecycle

  // ----- One event by itself -----------------------------------------------------------------------------------------

  // Text of at most so many bytes that is not all white space.
  ghost predicate Given(text: string, maximum: nat) { |text| <= maximum && NotBlank(text) }

  ghost predicate DeploymentRule(stage: Stage, deployment: Deployment) {
    || (stage == ShadowStage && deployment == ShadowDeployed) || (stage == CanaryStage && deployment == CanaryDeployed)
    || (stage == LimitedRisk && deployment == LimitedRiskDeployed)
    || (stage == Production && deployment == ProductionDeployed)
    || (stage == Disabled && deployment == DisabledDeployed)
    || (stage == RolledBackStage && deployment == RolledBackDeployed)
    || (stage == Retired && deployment == RetiredDeployed)
    || (stage in {Unset, Draft, Trained, OfflineValidated, ReplayValidated} && deployment == NotDeployed)
  }

  ghost predicate FieldRule(b: EventBody) {
    && ValidIdentifier(b.modelID) && ValidSemantic(b.version) && b.occurredAtUTCNS > 0
    && Given(b.actor, 128) && Given(b.reason, 1024) && |b.approvalActor| <= 128 && |b.authorizationReference| <= 256
    && (b.rollbackTarget == "" || ValidSemantic(b.rollbackTarget)) && DeploymentRule(b.to, b.deployment)
  }

  lemma FieldsExactly(b: EventBody)
    ensures ValidFields(b) && |b.authorizationReference| <= 256 <==> FieldRule(b)
  {
    hide ValidIdentifier, ValidSemantic;
  }

  // ----- One move --------------------------------------------------------------------------------------------

  // The stages one after the other.
  ghost predicate Forward(from: Stage, to: Stage) {
    || (from == Draft && to == Trained) || (from == Trained && to == OfflineValidated)
    || (from == OfflineValidated && to == ReplayValidated) || (from == ReplayValidated && to == ShadowStage)
    || (from == ShadowStage && to == CanaryStage) || (from == CanaryStage && to == LimitedRisk)
  }

  ghost predicate Running(stage: Stage) { stage in {ShadowStage, CanaryStage, LimitedRisk, Production} }

  // From the last event to this one: forward, approved in place, to PRODUCTION by someone else, or withdrawn.
  ghost predicate MoveRule(last: EventBody, b: EventBody) {
    || Forward(last.to, b.to)
    || (&& last.to == b.to == ReplayValidated && last.approval == Pending && b.approval == Approved
        && b.approvalActor == b.actor && b.authorizationReference != "")
    || (&& last.to == LimitedRisk && b.to == Production && b.authorizationReference != ""
        && b.actor != b.approvalActor)
    || (b.to == Disabled && last.to != Retired && b.approval == Revoked)
    || (&& b.to == RolledBackStage && Running(last.to) && b.approval == Revoked && b.rollbackTarget != ""
        && b.authorizationReference != "")
    || (b.to == Retired && last.to in {Disabled, RolledBackStage} && b.approval == Revoked)
  }

  lemma MovesExactly(last: EventBody, b: EventBody)
    ensures AllowedMove(last, b) <==> MoveRule(last, b)
  {
  }

  // ----- The log ---------------------------------------------------------------------------------------------

  ghost predicate EventRule(sha: EventBody -> string, modelID: string, version: string, log: seq<Event>, i: nat)
    requires i < |log|
  {
    var e, b := log[i], log[i].body;
    && e.sha256 == sha(b) && Hex64(e.sha256) && b.modelID == modelID && b.version == version && FieldRule(b)
    && if i == 0 then
         b.revision == 1 && b.from == Unset && b.to == Draft && b.approval == Pending && b.previousSHA256 == ""
       else
         var last := log[i - 1];
         && b.revision == (last.body.revision + 1) % UINT64_LIMIT && b.previousSHA256 == last.sha256
         && b.from == last.body.to && MoveRule(last.body, b)
         && (b.approval == last.body.approval || b.to in {Disabled, RolledBackStage, Retired, ReplayValidated})
         && (Running(b.to) ==> b.approval == Approved && ValidIdentifier(b.environment))
  }

  lemma EventExactly(sha: EventBody -> string, modelID: string, version: string, log: seq<Event>, i: nat)
    requires i < |log|
    requires i > 0 ==> log[i - 1].body.modelID == modelID && log[i - 1].body.version == version
    ensures AcceptedEvent(sha, modelID, version, Before(log, i), log[i]) <==> EventRule(sha, modelID, version, log, i)
  {
    hide ValidFields, AllowedMove, FieldRule, MoveRule, ValidIdentifier, Hex64;
    FieldsExactly(log[i].body);
    if i > 0 { MovesExactly(log[i - 1].body, log[i].body); }
  }

  /** The verifier accepts a log if and only if it is not empty and every event's fields are in range, it is hashed,
      numbered and linked, and it makes a permitted move from the event before it. */
  lemma AcceptedLogExactly(sha: EventBody -> string, modelID: string, version: string, log: seq<Event>)
    ensures AcceptedLog(sha, modelID, version, log) <==>
      log != [] && forall i | 0 <= i < |log| :: EventRule(sha, modelID, version, log, i)
  {
    hide ValidTransition, FieldRule, MoveRule, ValidIdentifier, Hex64;
    if AcceptedLog(sha, modelID, version, log) {
      forall i | 0 <= i < |log| ensures EventRule(sha, modelID, version, log, i) {
        assert AcceptedEvent(sha, modelID, version, Before(log, i), log[i]);
        assert i > 0 ==> AcceptedEvent(sha, modelID, version, Before(log, i - 1), log[i - 1]);
        EventExactly(sha, modelID, version, log, i);
      }
    }
    if log != [] && forall i | 0 <= i < |log| :: EventRule(sha, modelID, version, log, i) {
      forall i | 0 <= i < |log| ensures AcceptedEvent(sha, modelID, version, Before(log, i), log[i]) {
        assert EventRule(sha, modelID, version, log, i);
        assert i > 0 ==> EventRule(sha, modelID, version, log, i - 1);
        EventExactly(sha, modelID, version, log, i);
      }
    }
  }
}
