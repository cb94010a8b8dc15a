/** One model version's signed lifecycle log, and the verifier that decides whether a log is accepted. */
module Lifecycle {
  import opened Results
  import opened Text
  import opened DeploymentTypes
  import HashChain

  datatype Stage =
    | Unset | Draft | Trained | OfflineValidated | ReplayValidated | ShadowStage | CanaryStage | LimitedRisk
    | Production | Disabled | RolledBackStage | Retired

  datatype Approval = Pending | Approved | Revoked

  datatype Deployment =
    | NotDeployed | ShadowDeployed | CanaryDeployed | LimitedRiskDeployed | ProductionDeployed
    | DisabledDeployed | RolledBackDeployed | RetiredDeployed

  function DeploymentFor(stage: Stage): Deployment {
    match stage
    case ShadowStage => ShadowDeployed
    case CanaryStage => CanaryDeployed
    case LimitedRisk => LimitedRiskDeployed
    case Production => ProductionDeployed
    case Disabled => DisabledDeployed
    case RolledBackStage => RolledBackDeployed
    case Retired => RetiredDeployed
    case _ => NotDeployed
  }

  // The stages in which a version runs somewhere.
  predicate Deployed(stage: Stage) {
    stage.ShadowStage? || stage.CanaryStage? || stage.LimitedRisk? || stage.Production?
  }

  datatype EventBody = EventBody(
    modelID: string, version: string, revision: uint64, from: Stage, to: Stage, approval: Approval,
    deployment: Deployment, environment: string, actor: string, reason: string,
    authorizationReference: string, approvalActor: string, rollbackTarget: string,
    occurredAtUTCNS: int, previousSHA256: string)

  datatype Event = Event(body: EventBody, sha256: string)

  predicate ValidActorReason(actor: string, reason: string) { BoundedText(actor, 128) && BoundedText(reason, 1024) }

  predicate ValidFields(b: EventBody) {
    && ValidIdentifier(b.modelID) && ValidSemantic(b.version) && b.occurredAtUTCNS > 0
    && ValidActorReason(b.actor, b.reason)
    && |b.approvalActor| <= 128
    && (b.rollbackTarget == "" || ValidSemantic(b.rollbackTarget))
    && b.deployment == DeploymentFor(b.to)
  }

  predicate Initial(b: EventBody) {
    b.revision == 1 && b.from.Unset? && b.to.Draft? && b.approval.Pending? && b.previousSHA256 == ""
  }

  predicate Follows(prior: Event, b: EventBody) {
    && b.revision == (prior.body.revision + 1) % UINT64_LIMIT
    && b.previousSHA256 == prior.sha256
    && b.from == prior.body.to
    && b.modelID == prior.body.modelID && b.version == prior.body.version
  }

  // The first matching case decides, as in the source's switch.
  predicate AllowedMove(prior: EventBody, b: EventBody) {
    match (prior.to, b.to)
    case (Draft, Trained) => true
    case (Trained, OfflineValidated) => true
    case (OfflineValidated, ReplayValidated) => true
    case (ReplayValidated, ReplayValidated) =>
      prior.approval.Pending? && b.approval.Approved? && b.approvalActor == b.actor && b.authorizationReference != ""
    case (ReplayValidated, ShadowStage) => true
    case (ShadowStage, CanaryStage) => true
    case (CanaryStage, LimitedRisk) => true
    case (LimitedRisk, Production) => b.authorizationReference != "" && b.actor != b.approvalActor
    case (_, Disabled) => !prior.to.Retired? && b.approval.Revoked?
    case (_, RolledBackStage) =>
      Deployed(prior.to) && b.approval.Revoked? && b.rollbackTarget != "" && b.authorizationReference != ""
    case (_, Retired) => (prior.to.Disabled? || prior.to.RolledBackStage?) && b.approval.Revoked?
    case _ => false
  }

  predicate ApprovalKept(prior: EventBody, b: EventBody) {
    || b.to.Disabled? || b.to.RolledBackStage? || b.to.Retired? || b.to.ReplayValidated?
    || b.approval == prior.approval
  }

  predicate DeploymentApproved(b: EventBody) {
    Deployed(b.to) ==> b.approval.Approved? && ValidIdentifier(b.environment)
  }

  // Everything validateEventTransition checks except the length of the authorization reference.
  predicate WellFormedMove(previous: Option<Event>, e: Event) {
    && ValidFields(e.body)
    && match previous
       case None => Initial(e.body)
       case Some(prior) =>
         && Follows(prior, e.body) && AllowedMove(prior.body, e.body)
         && ApprovalKept(prior.body, e.body) && DeploymentApproved(e.body)
  }

  // A replay-validated version approved in place.
  predicate Approves(b: EventBody) { b.from.ReplayValidated? && b.to.ReplayValidated? }

  // How the operations carry approval along: it starts pending, is granted only by an approval event,
  // is dropped only by a withdrawing event, and its actor is remembered.
  predicate CarriesApproval(previous: Option<Event>, b: EventBody) {
    match previous
    case None => b.approval.Pending? && b.approvalActor == ""
    case Some(prior) =>
      if Approves(b) then prior.body.approval.Pending? && b.approval.Approved? && b.approvalActor == b.actor
      else
        && b.approvalActor == prior.body.approvalActor
        && (b.approval == prior.body.approval
            || (b.approval.Revoked? && (b.to.Disabled? || b.to.RolledBackStage? || b.to.Retired?)))
  }

  // validateEventTransition
  predicate ValidTransition(previous: Option<Event>, e: Event) {
    WellFormedMove(previous, e) && |e.body.authorizationReference| <= 256
  }

  function Before(log: seq<Event>, i: nat): Option<Event>
    requires i < |log|
  {
    if i == 0 then None else Some(log[i - 1])
  }

  predicate AcceptedEvent(sha: EventBody -> string, modelID: string, version: string, previous: Option<Event>,
                          e: Event) {
    && e.sha256 == sha(e.body) && Hex64(e.sha256)
    && e.body.modelID == modelID && e.body.version == version
    && ValidTransition(previous, e)
  }

  // loadEvents and statusFromEvents on one version's file: digests match and every transition is valid.
  predicate AcceptedLog(sha: EventBody -> string, modelID: string, version: string, log: seq<Event>) {
    && log != []
    && forall i | 0 <= i < |log| :: AcceptedEvent(sha, modelID, version, Before(log, i), log[i])
  }

  // A digest is 64 hexadecimal digits, and the digests of two revisions never coincide. That is all the
  // operations rely on; no function into 64 digits is injective on every body there could be.
  ghost predicate Digest(sha: EventBody -> string) {
    && (forall b :: Hex64(sha(b)))
    && (forall a, b | sha(a) == sha(b) :: a.revision == b.revision)
  }

  function Last(log: seq<Event>): Event
    requires log != []
  {
    log[|log| - 1]
  }

  // ----- The head fixes the log -----------------------------------------------------------------

  function HashOf(e: Event): string { e.sha256 }

  function LinkOf(e: Event): string { e.body.previousSHA256 }

  // The digest separates the events of these two logs.
  ghost predicate CollisionFree(sha: EventBody -> string, a: seq<Event>, b: seq<Event>) {
    forall i, j | 0 <= i < |a| && 0 <= j < |b| && sha(a[i].body) == sha(b[j].body) :: a[i].body == b[j].body
  }

  lemma LogIsLinked(sha: EventBody -> string, modelID: string, version: string, log: seq<Event>)
    requires AcceptedLog(sha, modelID, version, log)
    ensures HashChain.Linked(HashOf, LinkOf, log)
  {
    hide ValidFields, AllowedMove, ApprovalKept, DeploymentApproved;
    forall i | 0 <= i < |log| ensures HashChain.LinkedAt(HashOf, LinkOf, log, i) {
      assert AcceptedEvent(sha, modelID, version, Before(log, i), log[i]);
    }
  }

  /** Two accepted logs with the same last digest are the same log, and so of the same model version, unless
      two of their events collide. */
  lemma SameHeadSameHistory(sha: EventBody -> string, modelID: string, version: string, log: seq<Event>,
                            otherModelID: string, otherVersion: string, other: seq<Event>)
    requires AcceptedLog(sha, modelID, version, log) && AcceptedLog(sha, otherModelID, otherVersion, other)
    requires CollisionFree(sha, log, other) && Last(log).sha256 == Last(other).sha256
    ensures log == other && modelID == otherModelID && version == otherVersion
  {
    hide ValidTransition, Hex64;
    var same := (x: Event, y: Event) => x == y;
    LogIsLinked(sha, modelID, version, log);
    LogIsLinked(sha, otherModelID, otherVersion, other);
    forall i, j | 0 <= i < |log| && 0 <= j < |other| && HashOf(log[i]) == HashOf(other[j]) ensures log[i] == other[j] {
      assert AcceptedEvent(sha, modelID, version, Before(log, i), log[i]);
      assert AcceptedEvent(sha, otherModelID, otherVersion, Before(other, j), other[j]);
    }
    HashChain.SameHeadSameLog(HashOf, LinkOf, same, log, other);
    forall i | 0 <= i < |log| ensures log[i] == other[i] { assert same(log[i], other[i]); }
    assert AcceptedEvent(sha, modelID, version, Before(log, 0), log[0]);
    assert AcceptedEvent(sha, otherModelID, otherVersion, Before(other, 0), other[0]);
  }

  // ----- The verifier loop ---------------------------------------------------------------------

  // The switch of validateEventTransition.
  method IsAllowed(prior: EventBody, b: EventBody) returns (allowed: bool)
    ensures allowed <==> AllowedMove(prior, b)
  {
    allowed := false;
    if prior.to.Draft? && b.to.Trained? {
      allowed := true;
    } else if prior.to.Trained? && b.to.OfflineValidated? {
      allowed := true;
    } else if prior.to.OfflineValidated? && b.to.ReplayValidated? {
      allowed := true;
    } else if prior.to.ReplayValidated? && b.to.ReplayValidated? && prior.approval.Pending? && b.approval.Approved? {
      allowed := b.approvalActor == b.actor && b.authorizationReference != "";
    } else if prior.to.ReplayValidated? && b.to.ShadowStage? {
      allowed := true;
    } else if prior.to.ShadowStage? && b.to.CanaryStage? {
      allowed := true;
    } else if prior.to.CanaryStage? && b.to.LimitedRisk? {
      allowed := true;
    } else if prior.to.LimitedRisk? && b.to.Production? {
      allowed := b.authorizationReference != "" && b.actor != b.approvalActor;
    } else if b.to.Disabled? && !prior.to.Retired? {
      allowed := b.approval.Revoked?;
    } else if b.to.RolledBackStage? && Deployed(prior.to) {
      allowed := b.approval.Revoked? && b.rollbackTarget != "" && b.authorizationReference != "";
    } else if b.to.Retired? && (prior.to.Disabled? || prior.to.RolledBackStage?) {
      allowed := b.approval.Revoked?;
    }
  }

  method ValidateTransition(previous: Option<Event>, e: Event) returns (ok: bool)
    ensures ok <==> ValidTransition(previous, e)
  {
    hide ValidIdentifier, AllowedMove, ValidFields;
    var b := e.body;
    if !ValidFields(b) || |b.authorizationReference| > 256 { return false; }
    if previous.None? { return Initial(b); }
    var prior := previous.value;
    if !Follows(prior, b) { return false; }
    var allowed := IsAllowed(prior.body, b);
    if !allowed { return false; }
    if !b.to.Disabled? && !b.to.RolledBackStage? && !b.to.Retired? && b.approval != prior.body.approval
       && !b.to.ReplayValidated? {
      return false;
    }
    if Deployed(b.to) && (!b.approval.Approved? || !ValidIdentifier(b.environment)) { return false; }
    ok := true;
  }

  method VerifyEvent(sha: EventBody -> string, modelID: string, version: string, previous: Option<Event>, e: Event)
    returns (ok: bool)
    ensures ok <==> AcceptedEvent(sha, modelID, version, previous, e)
  {
    hide ValidTransition, Hex64;
    if e.sha256 != sha(e.body) || !Hex64(e.sha256) { return false; }
    if e.body.modelID != modelID || e.body.version != version { return false; }
    ok := ValidateTransition(previous, e);
  }

  method VerifyLog(sha: EventBody -> string, modelID: string, version: string, log: seq<Event>) returns (ok: bool)
    ensures ok <==> AcceptedLog(sha, modelID, version, log)
  {
    hide AcceptedEvent;
    if log == [] { return false; }
    var previous: Option<Event> := None;
    for i := 0 to |log|
      invariant previous == if i == 0 then None else Some(log[i - 1])
      invariant forall j | 0 <= j < i :: AcceptedEvent(sha, modelID, version, Before(log, j), log[j])
    {
      assert Before(log, i) == previous;
      var accepted := VerifyEvent(sha, modelID, version, previous, log[i]);
      if !accepted { return false; }
      previous := Some(log[i]);
    }
    ok := true;
  }
}
