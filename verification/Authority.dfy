/** The configuration authority: propose, approve, activate, roll back and kill, by any number of service
    instances sharing one root. Every operation replays the log, then updates its memory by its own code. */
module Authority {
  import opened Results
  import opened Text
  import opened DeploymentTypes
  import opened Configuration
  import opened AuditLog
  import Canonical

  datatype SignedConfig = SignedConfig(configuration: Config, keyID: string, signer: Key)

  datatype Digests = Digests(config: Config -> string, audit: AuditBody -> string)

  // What is durable under the shared root: configurations/<sha>.json and audit.jsonl.
  datatype Disk = Disk(configurations: map<string, SignedConfig>, log: seq<AuditRecord>)

  datatype Error =
    | NotAuthenticated | NotAuthorized | Replayed | Stopped | Malformed | NotFound | Rejected | HashCollision
    | InvalidTransition | Stale | TwoPersonControl | UnsafeEdgeState | Unreadable | WriteFailed

  datatype Auth = Auth(
    authenticated: bool, principal: string, requestID: string, authorityEpoch: uint64, authenticatedUTCNS: int,
    expiresUTCNS: int)

  datatype Request =
    | Propose(auth: Auth, signed: SignedConfig, activationWallUTCNS: int, reason: string)
    | Approve(auth: Auth, proposalID: string, reason: string)
    | Activate(auth: Auth, proposalID: string, reason: string)
    | Rollback(initiator: Auth, approver: Auth, expectedActiveSHA256: string, targetSHA256: string, reason: string)
    | EmergencyKill(auth: Auth, commandID: string, scope: string, targetID: string, commandSequence: uint64,
                    reasonCode: string)

  const MAXIMUM_AUTHORIZATION_LIFETIME_NS: int := 900_000_000_000

  // ----- Reading -----------------------------------------------------------------------------------------

  // VerifySignedConfiguration
  predicate VerifiedConfig(d: Digests, trust: TrustStore, s: SignedConfig) {
    Canonical.RejectFinal(d.config, s.configuration) == None && Trusted(trust, s.keyID, s.signer)
  }

  function LoadConfiguration(d: Digests, who: Instance, disk: Disk, sha: string): Result<Config, Error> {
    if !Hex64(sha) || sha !in disk.configurations then Err(NotFound)
    else if disk.configurations[sha].configuration.sha256 != sha then Err(HashCollision)
    else if !VerifiedConfig(d, who.trust, disk.configurations[sha]) then Err(Rejected)
    else Ok(disk.configurations[sha].configuration)
  }

  predicate Authentic(who: Instance, auth: Auth, now: int) {
    && auth.authenticated && ValidIdentifier(auth.principal) && ValidIdentifier(auth.requestID)
    && auth.authorityEpoch == who.epoch && 0 < auth.authenticatedUTCNS <= now < auth.expiresUTCNS
    && auth.authenticatedUTCNS < auth.expiresUTCNS
    && auth.expiresUTCNS - auth.authenticatedUTCNS <= MAXIMUM_AUTHORIZATION_LIFETIME_NS
  }

  // Who may do what now: the bootstrap roles, or those of the active configuration.
  function CurrentRoles(d: Digests, who: Instance, disk: Disk, s: State): Result<map<string, set<string>>, Error> {
    if s.activeHash == "" then Ok(who.bootstrapRoles)
    else
      match LoadConfiguration(d, who, disk, s.activeHash)
      case Err(e) => Err(e)
      case Ok(active) => Ok(RoleMap(active.operatorRoles))
  }

  function Authorize(d: Digests, who: Instance, disk: Disk, s: State, auth: Auth, role: string,
                     now: int): Option<Error> {
    if !Authentic(who, auth, now) then Some(NotAuthenticated)
    else if auth.requestID in s.requestIDs then Some(Replayed)
    else
      match CurrentRoles(d, who, disk, s)
      case Err(e) => Some(e)
      case Ok(roles) => if HasRole(roles, auth.principal, role) then None else Some(NotAuthorized)
  }

  // A configuration follows the active one: next revision, same identity, active parent.
  predicate FollowsActive(active: Config, c: Config) {
    && c.configurationID == active.configurationID && c.environment == active.environment
    && c.revision == (active.revision + 1) % UINT64_LIMIT && c.parentSHA256 == active.sha256
  }

  function CheckLineage(d: Digests, who: Instance, disk: Disk, s: State, c: Config): Option<Error> {
    if s.activeHash == "" then
      if c.revision != 1 || c.parentSHA256 != "" then Some(InvalidTransition) else None
    else
      match LoadConfiguration(d, who, disk, s.activeHash)
      case Err(e) => Some(e)
      case Ok(active) => if FollowsActive(active, c) then None else Some(InvalidTransition)
  }

  // ----- Planning an operation -------------------------------------------------------------------------------

  // The audit body an operation writes, short of sequence and link, and the memory it leaves, short of the
  // audit bookkeeping.
  datatype Effect = Effect(
    event: AuditEvent, actor: string, secondActor: string, requestIDs: seq<string>, objectSHA256: string,
    reason: string,
    memory: State)

  function NewProposalID(sha: string): string
    requires |sha| >= 24
  {
    "proposal-" + sha[..24]
  }

  function PlanPropose(d: Digests, who: Instance, disk: Disk, s: State, q: Request, now: int): Result<Effect, Error>
    requires q.Propose?
  {
    if !who.mutable then Err(Stopped)
    else if Authorize(d, who, disk, s, q.auth, AUTHOR, now).Some? then
      Err(Authorize(d, who, disk, s, q.auth, AUTHOR, now).value)
    else if !BoundedText(q.reason, 512) then Err(Malformed)
    else if !VerifiedConfig(d, who.trust, q.signed) then Err(Rejected)
    else
      var c := q.signed.configuration;
      if q.activationWallUTCNS <= now || q.activationWallUTCNS < c.validFromWallUTCNS
         || q.activationWallUTCNS >= c.validUntilWallUTCNS then
        Err(InvalidTransition)
      else if CheckLineage(d, who, disk, s, c).Some? then Err(CheckLineage(d, who, disk, s, c).value)
      else
        var id := NewProposalID(c.sha256);
        if id in s.proposals then Err(Replayed)
        else if c.sha256 in disk.configurations && disk.configurations[c.sha256] != q.signed then Err(HashCollision)
        else
          var p := Proposal(id, c.sha256, q.auth.principal, "", q.activationWallUTCNS, PendingApproval);
          Ok(Effect(Proposed(p), p.author, "", [q.auth.requestID], c.sha256, q.reason,
                    s.(proposals := s.proposals[id := p], requestIDs := s.requestIDs + {q.auth.requestID})))
  }

  function PlanApprove(d: Digests, who: Instance, disk: Disk, s: State, q: Request, now: int): Result<Effect, Error>
    requires q.Approve?
  {
    if !who.mutable then Err(Stopped)
    else if Authorize(d, who, disk, s, q.auth, APPROVER, now).Some? then
      Err(Authorize(d, who, disk, s, q.auth, APPROVER, now).value)
    else if !BoundedText(q.reason, 512) then Err(Malformed)
    else if q.proposalID !in s.proposals then Err(NotFound)
    else
      var stored := s.proposals[q.proposalID];
      if !stored.state.PendingApproval? then Err(InvalidTransition)
      else if stored.author == q.auth.principal then Err(TwoPersonControl)
      else
        var p := stored.(approver := q.auth.principal, state := ApprovedProposal);
        Ok(Effect(Approved(p), p.approver, p.author, [q.auth.requestID], p.configurationSHA256, q.reason,
                  s.(proposals := s.proposals[p.proposalID := p], requestIDs := s.requestIDs + {q.auth.requestID})))
  }

  predicate ValidNow(c: Config, now: int) { c.validFromWallUTCNS <= now < c.validUntilWallUTCNS }

  function PlanActivate(d: Digests, who: Instance, disk: Disk, s: State, q: Request, now: int): Result<Effect, Error>
    requires q.Activate?
  {
    if !who.mutable then Err(Stopped)
    else if Authorize(d, who, disk, s, q.auth, ACTIVATOR, now).Some? then
      Err(Authorize(d, who, disk, s, q.auth, ACTIVATOR, now).value)
    else if !BoundedText(q.reason, 512) then Err(Malformed)
    else if q.proposalID !in s.proposals then Err(NotFound)
    else
      var stored := s.proposals[q.proposalID];
      if !stored.state.ApprovedProposal? || stored.author == stored.approver || now < stored.activationWallUTCNS then
        Err(InvalidTransition)
      else
        match LoadConfiguration(d, who, disk, stored.configurationSHA256)
        case Err(e) => Err(e)
        case Ok(c) =>
          if !ValidNow(c, now) then Err(Stale)
          else if CheckLineage(d, who, disk, s, c).Some? then Err(CheckLineage(d, who, disk, s, c).value)
          else
            var p := stored.(state := ActiveProposal);
            Ok(Effect(Activated(p), q.auth.principal, p.approver, [q.auth.requestID], c.sha256, q.reason,
                      s.(activeHash := c.sha256, proposals := s.proposals[p.proposalID := p],
                         requestIDs := s.requestIDs + {q.auth.requestID})))
  }

  predicate OlderSibling(target: Config, active: Config) {
    && target.configurationID == active.configurationID && target.environment == active.environment
    && target.revision < active.revision
  }

  function PlanRollback(d: Digests, who: Instance, disk: Disk, s: State, q: Request, now: int): Result<Effect, Error>
    requires q.Rollback?
  {
    if !who.mutable then Err(Stopped)
    else if Authorize(d, who, disk, s, q.initiator, ROLLBACK_OPERATOR, now).Some? then
      Err(Authorize(d, who, disk, s, q.initiator, ROLLBACK_OPERATOR, now).value)
    else if Authorize(d, who, disk, s, q.approver, APPROVER, now).Some? then
      Err(Authorize(d, who, disk, s, q.approver, APPROVER, now).value)
    else if q.initiator.principal == q.approver.principal then Err(TwoPersonControl)
    else if q.initiator.requestID == q.approver.requestID then Err(Replayed)
    else if !BoundedText(q.reason, 512) then Err(Malformed)
    else if q.expectedActiveSHA256 != s.activeHash || !Hex64(q.targetSHA256) then Err(InvalidTransition)
    else
      match (LoadConfiguration(d, who, disk, s.activeHash), LoadConfiguration(d, who, disk, q.targetSHA256))
      case (Ok(active), Ok(target)) =>
        if !OlderSibling(target, active) then Err(InvalidTransition)
        else if !ValidNow(target, now) then Err(Stale)
        else
          Ok(Effect(RolledBackTo(q.targetSHA256), q.initiator.principal, q.approver.principal,
                    [q.initiator.requestID, q.approver.requestID], q.targetSHA256, q.reason,
                    s.(activeHash := q.targetSHA256,
                       requestIDs := s.requestIDs + {q.initiator.requestID} + {q.approver.requestID})))
      case (Err(e), _) => Err(e)
      case (_, Err(e)) => Err(e)
  }

  function PlanKill(d: Digests, who: Instance, disk: Disk, s: State, q: Request, now: int): Result<Effect, Error>
    requires q.EmergencyKill?
  {
    if !who.mutable then Err(Stopped)
    else if Authorize(d, who, disk, s, q.auth, KILL_OPERATOR, now).Some? then
      Err(Authorize(d, who, disk, s, q.auth, KILL_OPERATOR, now).value)
    else if s.activeHash == "" then Err(UnsafeEdgeState)
    else if q.commandSequence <= s.killSequence then Err(Replayed)
    else if q.commandID in s.commandIDs then Err(Replayed)
    else
      var command :=
        KillCommand(1, q.commandID, s.activeHash, q.scope, q.targetID, q.commandSequence, who.epoch, now, q.reasonCode,
                    true);
      if !ValidKillCommand(command) then Err(Malformed)
      else
        Ok(Effect(KillEngaged(SignedKill(command, who.keyID, who.signer)), q.auth.principal, "", [q.auth.requestID],
                  s.activeHash, q.reasonCode,
                  s.(killSequence := q.commandSequence, commandIDs := s.commandIDs + {q.commandID},
                     requestIDs := s.requestIDs + {q.auth.requestID})))
  }

  function Plan(d: Digests, who: Instance, disk: Disk, s: State, q: Request, now: int): Result<Effect, Error> {
    match q
    case Propose(_, _, _, _) => PlanPropose(d, who, disk, s, q, now)
    case Approve(_, _, _) => PlanApprove(d, who, disk, s, q, now)
    case Activate(_, _, _) => PlanActivate(d, who, disk, s, q, now)
    case Rollback(_, _, _, _, _) => PlanRollback(d, who, disk, s, q, now)
    case EmergencyKill(_, _, _, _, _, _) => PlanKill(d, who, disk, s, q, now)
  }

  // ----- Performing it ------------------------------------------------------------------------------------------

  // appendAudit: the record written for an effect, and the memory once it is acknowledged.
  function NewRecord(d: Digests, who: Instance, s: State, e: Effect, now: int): AuditRecord {
    var body :=
      AuditBody((s.auditSequence + 1) % UINT64_LIMIT, s.auditHash, e.event, e.actor, e.secondActor, e.requestIDs, now,
                          e.objectSHA256, e.reason);
    AuditRecord(body, d.audit(body), who.keyID, who.signer)
  }

  function Committed(e: Effect, r: AuditRecord): State {
    e.memory.(auditSequence := r.body.sequence, auditHash := r.recordSHA256,
              audit := e.memory.audit + [PublicEntry(r.body, r.recordSHA256)])
  }

  // How far the writes of one operation get: nothing, the proposed configuration only, the record too but
  // without the writer learning of it, or everything.
  datatype Durability = NothingWritten | OnlyStored | Unacknowledged | Durable

  function Stored(disk: Disk, q: Request): Disk {
    if q.Propose? then disk.(configurations := disk.configurations[q.signed.configuration.sha256 := q.signed]) else disk
  }

  datatype Outcome = Outcome(disk: Disk, memory: State, result: Result<Effect, Error>)

  // withExclusiveLock around an operation.
  function Perform(d: Digests, who: Instance, disk: Disk, memory: State, q: Request, now: int,
                   io: Durability): Outcome {
    match Replay(d.audit, who, disk.log)
    case None => Outcome(disk, memory, Err(Unreadable))
    case Some(s) =>
      match Plan(d, who, disk, s, q, now)
      case Err(e) => Outcome(disk, s, Err(e))
      case Ok(effect) =>
        var record := NewRecord(d, who, s, effect, now);
        var stored := Stored(disk, q);
        match io
        case NothingWritten => Outcome(disk, s, Err(WriteFailed))
        case OnlyStored => Outcome(stored, s, Err(WriteFailed))
        case Unacknowledged => Outcome(stored.(log := disk.log + [record]), s, Err(WriteFailed))
        case Durable => Outcome(stored.(log := disk.log + [record]), Committed(effect, record), Ok(effect))
  }

  // ----- Memory and replay agree -----------------------------------------------------------------------------

  ghost predicate ValidInstance(who: Instance) {
    who.epoch != 0 && (who.mutable ==> ValidIdentifier(who.keyID) && Trusted(who.trust, who.keyID, who.signer))
  }

  // The effect's record replays to the effect's memory.
  ghost predicate Replays(d: Digests, who: Instance, s: State, e: Effect, now: int) {
    var r := NewRecord(d, who, s, e, now);
    Believes(who, r) && Accepts(d.audit, s, r) && Committed(e, r) == After(s, r)
  }

  lemma OneRequest(s: State, id: string)
    requires id !in s.requestIDs
    ensures FreshRequests(s.requestIDs, [id]) && Keys(Itself, [id]) == {id}
  {
    assert Itself([id][0]) in Keys(Itself, [id]);
  }

  lemma TwoRequests(s: State, x: string, y: string)
    requires x !in s.requestIDs && y !in s.requestIDs && x != y
    ensures FreshRequests(s.requestIDs, [x, y]) && Keys(Itself, [x, y]) == {x, y}
  {
    assert Itself([x, y][0]) in Keys(Itself, [x, y]) && Itself([x, y][1]) in Keys(Itself, [x, y]);
  }

  lemma ProposalIDIsValid(sha: string)
    requires Hex64(sha)
    ensures ValidIdentifier(NewProposalID(sha))
  {
    var id := NewProposalID(sha);
    forall i | 0 <= i < |id| ensures IdentifierChar(id[i]) {
      if i >= 9 { assert id[i] == sha[i - 9]; }
    }
  }

  lemma FinalIsHex(d: Digests, c: Config)
    requires Canonical.RejectFinal(d.config, c) == None
    ensures Hex64(c.sha256)
  {
    hide Canonical.Canonical, ValidConfiguration, Hex64, Canonical.HasLiveVenue;
  }

  lemma ProposeReplays(d: Digests, who: Instance, disk: Disk, s: State, q: Request, now: int)
    requires ValidInstance(who) && WellKeptState(s) && q.Propose? && PlanPropose(d, who, disk, s, q, now).Ok?
    ensures Replays(d, who, s, PlanPropose(d, who, disk, s, q, now).value, now)
  {
    hide ValidIdentifier, Hex64, CheckLineage, CurrentRoles, Canonical.RejectFinal, FreshRequests, Keys, Blank;
    FinalIsHex(d, q.signed.configuration);
    ProposalIDIsValid(q.signed.configuration.sha256);
    OneRequest(s, q.auth.requestID);
    TextIsNotEmpty(q.reason);
  }

  lemma TextIsNotEmpty(text: string)
    requires BoundedText(text, 512)
    ensures 0 < |text| <= 512
  {
  }

  lemma ApproveReplays(d: Digests, who: Instance, disk: Disk, s: State, q: Request, now: int)
    requires ValidInstance(who) && WellKeptState(s) && q.Approve? && PlanApprove(d, who, disk, s, q, now).Ok?
    ensures Replays(d, who, s, PlanApprove(d, who, disk, s, q, now).value, now)
  {
    hide ValidIdentifier, Hex64, CurrentRoles, FreshRequests, Keys, Blank;
    assert WellKeptProposal(q.proposalID, s.proposals[q.proposalID]);
    OneRequest(s, q.auth.requestID);
    TextIsNotEmpty(q.reason);
  }

  lemma ActivateReplays(d: Digests, who: Instance, disk: Disk, s: State, q: Request, now: int)
    requires ValidInstance(who) && WellKeptState(s) && q.Activate? && PlanActivate(d, who, disk, s, q, now).Ok?
    ensures Replays(d, who, s, PlanActivate(d, who, disk, s, q, now).value, now)
  {
    hide ValidIdentifier, Hex64, CheckLineage, CurrentRoles, VerifiedConfig, FreshRequests, Keys, Blank;
    assert WellKeptProposal(q.proposalID, s.proposals[q.proposalID]);
    OneRequest(s, q.auth.requestID);
    TextIsNotEmpty(q.reason);
  }

  lemma RollbackReplays(d: Digests, who: Instance, disk: Disk, s: State, q: Request, now: int)
    requires ValidInstance(who) && WellKeptState(s) && q.Rollback? && PlanRollback(d, who, disk, s, q, now).Ok?
    ensures Replays(d, who, s, PlanRollback(d, who, disk, s, q, now).value, now)
  {
    hide ValidIdentifier, CurrentRoles, VerifiedConfig, FreshRequests, Keys, Blank;
    TwoRequests(s, q.initiator.requestID, q.approver.requestID);
    TextIsNotEmpty(q.reason);
    assert ValidIdentifier(q.approver.principal) && q.approver.principal != "" by {
      assert |q.approver.principal| >= 1 by { NonemptyIdentifier(q.approver.principal); }
    }
  }

  lemma NonemptyIdentifier(id: string)
    requires ValidIdentifier(id)
    ensures 0 < |id| <= 64
  {
  }

  lemma KillReplays(d: Digests, who: Instance, disk: Disk, s: State, q: Request, now: int)
    requires ValidInstance(who) && WellKeptState(s) && q.EmergencyKill? && PlanKill(d, who, disk, s, q, now).Ok?
    ensures Replays(d, who, s, PlanKill(d, who, disk, s, q, now).value, now)
  {
    hide ValidIdentifier, Hex64, CurrentRoles, FreshRequests, Keys;
    OneRequest(s, q.auth.requestID);
    NonemptyIdentifier(q.reasonCode);
  }

  /** What an operation writes is exactly what it remembers: its record is accepted by its own replay, and
      replaying it gives the memory the operation computed. */
  lemma EffectReplays(d: Digests, who: Instance, disk: Disk, s: State, q: Request, now: int)
    requires ValidInstance(who) && WellKeptState(s) && Plan(d, who, disk, s, q, now).Ok?
    ensures Replays(d, who, s, Plan(d, who, disk, s, q, now).value, now)
  {
    hide Replays, PlanPropose, PlanApprove, PlanActivate, PlanRollback, PlanKill, WellKeptState;
    match q
    case Propose(_, _, _, _) => ProposeReplays(d, who, disk, s, q, now);
    case Approve(_, _, _) => ApproveReplays(d, who, disk, s, q, now);
    case Activate(_, _, _) => ActivateReplays(d, who, disk, s, q, now);
    case Rollback(_, _, _, _, _) => RollbackReplays(d, who, disk, s, q, now);
    case EmergencyKill(_, _, _, _, _, _) => KillReplays(d, who, disk, s, q, now);
  }
}
