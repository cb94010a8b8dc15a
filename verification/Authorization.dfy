/** Who may do what. The exact condition under which each operation of the configuration authority succeeds, in the
    fields of its request, the log and the stored configurations; and that every record of every reachable log was
    written for principals who held the roles its event needs. */
module Authorization {
  import opened Results
  import opened Text
  import opened DeploymentTypes
  import opened Configuration
  import opened AuditLog
  import opened Authority
  import opened AuthorityHistory
  import opened ConfigurationMeaning
  import opened AuditStory

  // ----- Roles --------------------------------------------------------------------------------------------------

  // One of the configuration's role bindings gives the principal the role.
  ghost predicate Binds(c: Config, principal: string, role: string) {
    exists b | b in c.operatorRoles :: b.principal == principal && role in b.roles
  }

  // The principal holds the role: by a binding of the active configuration or, with none active, by the
  // bootstrap roles.
  ghost predicate Holds(bootstrap: map<string, set<string>>, stored: Configurations, active: string, principal: string,
                        role: string) {
    if active == "" then principal in bootstrap && role in bootstrap[principal]
    else active in stored && Binds(stored[active].configuration, principal, role)
  }

  lemma FinalRolesAreUnique(d: Digests, c: Config)
    requires Canonical.RejectFinal(d.config, c) == None
    ensures UniqueBy(PrincipalKey, c.operatorRoles)
  {
    hide Canonical.Canonical, Hex64, ValidHeader, ValidCounts, ValidStrategies, ValidVenues, ValidRiskLimits,
         ValidModels,
         ValidCaps, ValidSessions, ResolvedStrategies, ValidCalendar, ValidKills, Canonical.HasLiveVenue, UniqueBy, All,
         Covered;
    assert ValidRoles(Canonical.Canonical(c.(sha256 := "")));
  }

  // ----- Permission ------------------------------------------------------------------------------------------

  // Authenticated in the instance's epoch for at most fifteen minutes around now, by a request no record names, for
  // a principal who holds the role.
  ghost predicate Permitted(who: Instance, disk: Disk, auth: Auth, role: string, now: int) {
    && auth.authenticated && ValidIdentifier(auth.principal) && ValidIdentifier(auth.requestID)
    && auth.authorityEpoch == who.epoch
    && 0 < auth.authenticatedUTCNS <= now < auth.expiresUTCNS <= auth.authenticatedUTCNS + 900_000_000_000
    && Unused(disk.log, auth.requestID)
    && (ActiveIn(disk.log) == "" || Available(who, disk, ActiveIn(disk.log)))
    && Holds(who.bootstrapRoles, disk.configurations, ActiveIn(disk.log), auth.principal, role)
  }

  lemma ActiveRolesMean(d: Digests, who: Instance, disk: Disk, s: State, principal: string, role: string)
    requires SoundStore(d, disk.configurations)
    ensures CurrentRoles(d, who, disk, s).Ok? <==> s.activeHash == "" || Available(who, disk, s.activeHash)
    ensures CurrentRoles(d, who, disk, s).Ok? ==>
      (HasRole(CurrentRoles(d, who, disk, s).value, principal, role) <==>
       Holds(who.bootstrapRoles, disk.configurations, s.activeHash, principal, role))
  {
    hide Canonical.RejectFinal, Hex64, SoundStore, RoleMap, UniqueBy;
    if s.activeHash != "" {
      LoadsExactly(d, who, disk, s.activeHash);
      if Available(who, disk, s.activeHash) {
        var c := disk.configurations[s.activeHash].configuration;
        SoundAt(d, disk.configurations, s.activeHash);
        FinalRolesAreUnique(d, c);
        RoleMapMeans(c.operatorRoles, principal, role);
      }
    }
  }

  /** An authority authorizes a request exactly when its principal holds the role now and the request is in time and
      was never used. */
  lemma AuthorizesExactly(d: Digests, who: Instance, disk: Disk, s: State, auth: Auth, role: string, now: int)
    requires SoundStore(d, disk.configurations) && Folded(d.audit, disk.log) == Some(s)
    ensures s.activeHash == ActiveIn(disk.log)
    ensures Authorize(d, who, disk, s, auth, role, now) == None <==> Permitted(who, disk, auth, role, now)
  {
    hide Folded, SoundStore, ActiveIn, Unused, CurrentRoles, HasRole, Holds, ValidIdentifier, Available;
    ActiveIsLast(d.audit, disk.log);
    RequestsAreNoted(d.audit, disk.log);
    UnusedExactly(disk.log, auth.requestID);
    ActiveRolesMean(d, who, disk, s, auth.principal, role);
  }

  // ----- Lineage --------------------------------------------------------------------------------------------------

  // The next revision of the active configuration, or a first revision where none is active.
  ghost predicate Succeeds(who: Instance, disk: Disk, c: Config) {
    var active := ActiveIn(disk.log);
    if active == "" then c.revision == 1 && c.parentSHA256 == ""
    else
      && Available(who, disk, active) && c.parentSHA256 == active
      && var parent := disk.configurations[active].configuration;
         && c.revision == parent.revision + 1
         && c.configurationID == parent.configurationID && c.environment == parent.environment
  }

  lemma LineageExactly(d: Digests, who: Instance, disk: Disk, s: State, c: Config)
    requires SoundStore(d, disk.configurations) && s.activeHash == ActiveIn(disk.log)
    requires Canonical.RejectFinal(d.config, c) == None
    ensures CheckLineage(d, who, disk, s, c) == None <==> Succeeds(who, disk, c)
  {
    hide Canonical.RejectFinal, Hex64, SoundStore, ActiveIn, VerifiedConfig;
    FinalIsValid(d, c);
    if s.activeHash != "" {
      LoadsExactly(d, who, disk, s.activeHash);
      if Available(who, disk, s.activeHash) { SoundAt(d, disk.configurations, s.activeHash); }
    }
  }

  // ----- What a successful operation leaves ------------------------------------------------------------------

  // One record more, naming these.
  ghost predicate Appended(before: seq<AuditRecord>, after: seq<AuditRecord>, event: AuditEvent, actor: string,
                           secondActor: string, requestIDs: seq<string>, now: int, objectSHA256: string,
                           reason: string) {
    && |after| == |before| + 1 && after[..|before|] == before
    && var b := after[|before|].body;
       && b.event == event && b.actor == actor && b.secondActor == secondActor && b.requestIDs == requestIDs
       && b.occurredWallUTCNS == now && b.objectSHA256 == objectSHA256 && b.reason == reason
  }

  lemma PerformAppends(d: Digests, who: Instance, disk: Disk, memory: State, q: Request, now: int)
    requires Sound(d, disk) && Replay(d.audit, who, disk.log).Some?
    ensures Folded(d.audit, disk.log) == Replay(d.audit, who, disk.log)
    ensures var s, after := Replay(d.audit, who, disk.log).value, Perform(d, who, disk, memory, q, now, Durable);
      var plan := Plan(d, who, disk, s, q, now);
      && (after.result.Ok? <==> plan.Ok?) && (plan.Err? ==> after.disk == disk && after.memory == s)
      && (plan.Ok? ==>
            && Appended(disk.log, after.disk.log, plan.value.event, plan.value.actor, plan.value.secondActor,
                        plan.value.requestIDs, now, plan.value.objectSHA256, plan.value.reason)
            && after.disk.configurations == Stored(disk, q).configurations
            && after.memory.proposals == plan.value.memory.proposals
            && after.memory.activeHash == plan.value.memory.activeHash
            && after.memory.commandIDs == plan.value.memory.commandIDs
            && after.memory.killSequence == plan.value.memory.killSequence)
  {
    hide Folded, Replay, SoundStore, Resolved, Plan, PublicEntry, WellKeptState;
    ReplayOfSound(d, who, disk);
  }

  /** An operation whose writes are not all acknowledged answers an error and remembers the log as it read it. What it
      leaves on the root is what it would have left, as far as its writes got. An unreadable log is left alone. */
  lemma FailedWritesExactly(d: Digests, who: Instance, disk: Disk, memory: State, q: Request, now: int, io: Durability)
    requires Sound(d, disk) && io != Durable
    ensures var s, after := Replay(d.audit, who, disk.log), Perform(d, who, disk, memory, q, now, io);
      var whole := Perform(d, who, disk, memory, q, now, Durable);
      && after.result.Err? && after.memory == (if s.Some? then s.value else memory)
      && after.disk ==
         if whole.result.Err? || io == NothingWritten then disk
         else if io == OnlyStored then Disk(whole.disk.configurations, disk.log) else whole.disk
  {
    hide Replay, Plan, NewRecord, Committed, Sound;
  }

  // ----- The five operations ---------------------------------------------------------------------------------

  ghost predicate MayPropose(d: Digests, who: Instance, disk: Disk, s: State, q: Request, now: int)
    requires q.Propose?
  {
    var c := q.signed.configuration;
    && who.mutable && Permitted(who, disk, q.auth, "CONFIGURATION_AUTHOR", now) && BoundedText(q.reason, 512)
    && Canonical.RejectFinal(d.config, c) == None && Trusted(who.trust, q.signed.keyID, q.signed.signer)
    && now < q.activationWallUTCNS && c.validFromWallUTCNS <= q.activationWallUTCNS < c.validUntilWallUTCNS
    && Succeeds(who, disk, c)
    && |c.sha256| == 64 && "proposal-" + c.sha256[..24] !in s.proposals
    && (c.sha256 in disk.configurations ==> disk.configurations[c.sha256] == q.signed)
  }

  lemma PlanProposeExactly(d: Digests, who: Instance, disk: Disk, s: State, q: Request, now: int)
    requires q.Propose? && SoundStore(d, disk.configurations) && Folded(d.audit, disk.log) == Some(s)
    ensures PlanPropose(d, who, disk, s, q, now).Ok? <==> MayPropose(d, who, disk, s, q, now)
    ensures PlanPropose(d, who, disk, s, q, now).Ok? ==>
      var e, c := PlanPropose(d, who, disk, s, q, now).value, q.signed.configuration;
      var p := Proposal("proposal-" + c.sha256[..24], c.sha256, q.auth.principal, "", q.activationWallUTCNS,
                        PendingApproval);
      && e.event == Proposed(p) && e.actor == q.auth.principal && e.secondActor == ""
      && e.requestIDs == [q.auth.requestID] && e.objectSHA256 == c.sha256 && e.reason == q.reason
      && e.memory.proposals == s.proposals[p.proposalID := p] && e.memory.activeHash == s.activeHash
      && e.memory.commandIDs == s.commandIDs && e.memory.killSequence == s.killSequence
  {
    hide Folded, SoundStore, Authorize, Permitted, CheckLineage, Succeeds, Canonical.RejectFinal, BoundedText;
    AuthorizesExactly(d, who, disk, s, q.auth, "CONFIGURATION_AUTHOR", now);
    if Canonical.RejectFinal(d.config, q.signed.configuration) == None {
      FinalIsHex(d, q.signed.configuration);
      LineageExactly(d, who, disk, s, q.signed.configuration);
    }
  }

  /** Propose succeeds exactly when an author holding the role, in time and with an unused request, proposes a final,
      trusted next revision for a later moment of its validity under an identity not yet taken. It stores the
      configuration and appends the pending proposal, in the author's name. */
  lemma ProposesExactly(d: Digests, who: Instance, disk: Disk, memory: State, q: Request, now: int)
    requires q.Propose? && Sound(d, disk) && Replay(d.audit, who, disk.log).Some?
    ensures var s, after := Replay(d.audit, who, disk.log).value, Perform(d, who, disk, memory, q, now, Durable);
      var c := q.signed.configuration;
      && (after.result.Ok? <==> MayPropose(d, who, disk, s, q, now))
      && (after.result.Err? ==> after.disk == disk && after.memory == s)
      && (after.result.Ok? ==>
            var p := Proposal("proposal-" + c.sha256[..24], c.sha256, q.auth.principal, "", q.activationWallUTCNS,
                              PendingApproval);
            && Appended(disk.log, after.disk.log, Proposed(p), q.auth.principal, "", [q.auth.requestID], now, c.sha256,
                        q.reason)
            && after.disk.configurations == disk.configurations[c.sha256 := q.signed]
            && after.memory.proposals == s.proposals[p.proposalID := p] && after.memory.activeHash == s.activeHash)
  {
    hide Folded, Replay, SoundStore, Resolved, Perform, PlanPropose, Permitted, Succeeds, Canonical.RejectFinal,
         BoundedText, Appended;
    var s := Replay(d.audit, who, disk.log).value;
    PerformAppends(d, who, disk, memory, q, now);
    PlanProposeExactly(d, who, disk, s, q, now);
  }

  ghost predicate MayApprove(who: Instance, disk: Disk, s: State, q: Request, now: int)
    requires q.Approve?
  {
    && who.mutable && Permitted(who, disk, q.auth, "APPROVER", now) && BoundedText(q.reason, 512)
    && q.proposalID in s.proposals && s.proposals[q.proposalID].state == PendingApproval
    && s.proposals[q.proposalID].author != q.auth.principal
  }

  lemma PlanApproveExactly(d: Digests, who: Instance, disk: Disk, s: State, q: Request, now: int)
    requires q.Approve? && SoundStore(d, disk.configurations) && Folded(d.audit, disk.log) == Some(s)
    ensures PlanApprove(d, who, disk, s, q, now).Ok? <==> MayApprove(who, disk, s, q, now)
    ensures PlanApprove(d, who, disk, s, q, now).Ok? ==>
      var e := PlanApprove(d, who, disk, s, q, now).value;
      var p := s.proposals[q.proposalID].(approver := q.auth.principal, state := ApprovedProposal);
      && e.event == Approved(p) && e.actor == q.auth.principal && e.secondActor == p.author
      && e.requestIDs == [q.auth.requestID] && e.objectSHA256 == p.configurationSHA256 && e.reason == q.reason
      && e.memory.proposals == s.proposals[q.proposalID := p] && e.memory.activeHash == s.activeHash
      && e.memory.commandIDs == s.commandIDs && e.memory.killSequence == s.killSequence
  {
    hide Folded, SoundStore, Authorize, Permitted, BoundedText, WellKeptState;
    AuthorizesExactly(d, who, disk, s, q.auth, "APPROVER", now);
    FoldedIsWellKept(d.audit, disk.log);
    if q.proposalID in s.proposals { KeptUnderItsID(s, q.proposalID); }
  }

  lemma KeptUnderItsID(s: State, id: string)
    requires WellKeptState(s) && id in s.proposals
    ensures s.proposals[id].proposalID == id
    ensures s.proposals[id].state.ApprovedProposal? ==> s.proposals[id].author != s.proposals[id].approver
  {
    hide ValidIdentifier, Hex64;
    assert WellKeptProposal(id, s.proposals[id]);
  }

  /** Approve succeeds exactly when an approver holding the role, in time and with an unused request, who is not the
      author, approves a pending proposal. Only that proposal's approver and state change. */
  lemma ApprovesExactly(d: Digests, who: Instance, disk: Disk, memory: State, q: Request, now: int)
    requires q.Approve? && Sound(d, disk) && Replay(d.audit, who, disk.log).Some?
    ensures var s, after := Replay(d.audit, who, disk.log).value, Perform(d, who, disk, memory, q, now, Durable);
      && (after.result.Ok? <==> MayApprove(who, disk, s, q, now))
      && (after.result.Err? ==> after.disk == disk && after.memory == s)
      && (after.result.Ok? ==>
            var p := s.proposals[q.proposalID].(approver := q.auth.principal, state := ApprovedProposal);
            && Appended(disk.log, after.disk.log, Approved(p), q.auth.principal, p.author, [q.auth.requestID], now,
                        p.configurationSHA256, q.reason)
            && after.disk.configurations == disk.configurations
            && after.memory.proposals == s.proposals[q.proposalID := p] && after.memory.activeHash == s.activeHash)
  {
    hide Folded, Replay, SoundStore, Resolved, Perform, PlanApprove, Permitted, BoundedText, Appended;
    var s := Replay(d.audit, who, disk.log).value;
    PerformAppends(d, who, disk, memory, q, now);
    PlanApproveExactly(d, who, disk, s, q, now);
  }

  ghost predicate MayActivate(who: Instance, disk: Disk, s: State, q: Request, now: int)
    requires q.Activate?
  {
    && who.mutable && Permitted(who, disk, q.auth, "ACTIVATOR", now) && BoundedText(q.reason, 512)
    && q.proposalID in s.proposals
    && var p := s.proposals[q.proposalID];
       && p.state == ApprovedProposal && p.activationWallUTCNS <= now
       && Available(who, disk, p.configurationSHA256)
       && var c := disk.configurations[p.configurationSHA256].configuration;
          && c.validFromWallUTCNS <= now < c.validUntilWallUTCNS && Succeeds(who, disk, c)
  }

  lemma PlanActivateExactly(d: Digests, who: Instance, disk: Disk, s: State, q: Request, now: int)
    requires q.Activate? && SoundStore(d, disk.configurations) && Folded(d.audit, disk.log) == Some(s)
    ensures PlanActivate(d, who, disk, s, q, now).Ok? <==> MayActivate(who, disk, s, q, now)
    ensures PlanActivate(d, who, disk, s, q, now).Ok? ==>
      var e, p := PlanActivate(d, who, disk, s, q, now).value, s.proposals[q.proposalID].(state := ActiveProposal);
      && e.event == Activated(p) && e.actor == q.auth.principal && e.secondActor == p.approver
      && e.requestIDs == [q.auth.requestID] && e.objectSHA256 == p.configurationSHA256 && e.reason == q.reason
      && e.memory.proposals == s.proposals[q.proposalID := p] && e.memory.activeHash == p.configurationSHA256
      && e.memory.commandIDs == s.commandIDs && e.memory.killSequence == s.killSequence
  {
    hide Folded, SoundStore, Authorize, Permitted, BoundedText, WellKeptState, CheckLineage, Succeeds, Available,
         VerifiedConfig, Hex64;
    AuthorizesExactly(d, who, disk, s, q.auth, "ACTIVATOR", now);
    FoldedIsWellKept(d.audit, disk.log);
    if q.proposalID in s.proposals {
      KeptUnderItsID(s, q.proposalID);
      var sha := s.proposals[q.proposalID].configurationSHA256;
      LoadsExactly(d, who, disk, sha);
      if sha in disk.configurations {
        SoundAt(d, disk.configurations, sha);
        LineageExactly(d, who, disk, s, disk.configurations[sha].configuration);
      }
      if LoadConfiguration(d, who, disk, sha).Err? { NotAvailable(who, disk, sha); }
    }
  }

  lemma NotAvailable(who: Instance, disk: Disk, sha: string)
    ensures Available(who, disk, sha) ==> sha in disk.configurations
  {
  }

  /** Activate succeeds exactly when an activator holding the role, in time and with an unused request, activates an
      approved proposal at or after its moment, whose stored and trusted configuration is valid now and still the next
      revision of the active one. That configuration is then active. */
  lemma ActivatesExactly(d: Digests, who: Instance, disk: Disk, memory: State, q: Request, now: int)
    requires q.Activate? && Sound(d, disk) && Replay(d.audit, who, disk.log).Some?
    ensures var s, after := Replay(d.audit, who, disk.log).value, Perform(d, who, disk, memory, q, now, Durable);
      && (after.result.Ok? <==> MayActivate(who, disk, s, q, now))
      && (after.result.Err? ==> after.disk == disk && after.memory == s)
      && (after.result.Ok? ==>
            var p := s.proposals[q.proposalID].(state := ActiveProposal);
            && Appended(disk.log, after.disk.log, Activated(p), q.auth.principal, p.approver, [q.auth.requestID], now,
                        p.configurationSHA256, q.reason)
            && after.disk.configurations == disk.configurations
            && after.memory.proposals == s.proposals[q.proposalID := p]
            && after.memory.activeHash == p.configurationSHA256)
  {
    hide Folded, Replay, SoundStore, Resolved, Perform, PlanActivate, Permitted, BoundedText, Appended, Succeeds,
         Available;
    var s := Replay(d.audit, who, disk.log).value;
    PerformAppends(d, who, disk, memory, q, now);
    PlanActivateExactly(d, who, disk, s, q, now);
  }

  ghost predicate MayRollBack(who: Instance, disk: Disk, q: Request, now: int)
    requires q.Rollback?
  {
    && who.mutable
    && Permitted(who, disk, q.initiator, "ROLLBACK_OPERATOR", now) && Permitted(who, disk, q.approver, "APPROVER", now)
    && q.initiator.principal != q.approver.principal && q.initiator.requestID != q.approver.requestID
    && BoundedText(q.reason, 512) && q.expectedActiveSHA256 == ActiveIn(disk.log)
    && Available(who, disk, ActiveIn(disk.log)) && Available(who, disk, q.targetSHA256)
    && var active, target := disk.configurations[ActiveIn(disk.log)].configuration,
                             disk.configurations[q.targetSHA256].configuration;
       && target.revision < active.revision && target.configurationID == active.configurationID
       && target.environment == active.environment && target.validFromWallUTCNS <= now < target.validUntilWallUTCNS
  }

  lemma RollbackIsPlanned(d: Digests, who: Instance, disk: Disk, s: State, q: Request, now: int)
    requires q.Rollback? && SoundStore(d, disk.configurations) && Folded(d.audit, disk.log) == Some(s)
    ensures PlanRollback(d, who, disk, s, q, now).Ok? <==> MayRollBack(who, disk, q, now)
  {
    hide Folded, SoundStore, Authorize, Permitted, BoundedText, Available, PlanRollback;
    AuthorizesExactly(d, who, disk, s, q.initiator, "ROLLBACK_OPERATOR", now);
    AuthorizesExactly(d, who, disk, s, q.approver, "APPROVER", now);
    PlanRollbackExactly(d, who, disk, s, q, now);
    NotAvailable(who, disk, s.activeHash);
    NotAvailable(who, disk, q.targetSHA256);
  }

  lemma RollbackEffect(d: Digests, who: Instance, disk: Disk, s: State, q: Request, now: int)
    requires q.Rollback? && PlanRollback(d, who, disk, s, q, now).Ok?
    ensures var e := PlanRollback(d, who, disk, s, q, now).value;
      && e.event == RolledBackTo(q.targetSHA256) && e.actor == q.initiator.principal
      && e.secondActor == q.approver.principal && e.requestIDs == [q.initiator.requestID, q.approver.requestID]
      && e.objectSHA256 == q.targetSHA256 && e.reason == q.reason
      && e.memory.proposals == s.proposals && e.memory.activeHash == q.targetSHA256
      && e.memory.commandIDs == s.commandIDs && e.memory.killSequence == s.killSequence
  {
    hide Authorize, LoadConfiguration, BoundedText, Hex64, OlderSibling, ValidNow;
  }

  /** A rollback target need not ever have been active. On every reachable disk that the instance can read, a rollback
      succeeds, and makes the target active, exactly when a rollback operator and a different approver, each in time
      and with unused, different requests, ask to leave the active configuration for a stored, trusted, older revision
      of the same identity that is valid now. Proposals and earlier activations play no part. */
  lemma RollbackTargetExactly(d: Digests, who: Instance, disk: Disk, memory: State, q: Request, now: int)
    requires q.Rollback? && Sound(d, disk) && Replay(d.audit, who, disk.log).Some?
    ensures var s, after := Replay(d.audit, who, disk.log).value, Perform(d, who, disk, memory, q, now, Durable);
      && (after.result.Ok? <==> MayRollBack(who, disk, q, now))
      && (after.result.Err? ==> after.disk == disk && after.memory == s)
      && (after.result.Ok? ==>
            && Appended(disk.log, after.disk.log, RolledBackTo(q.targetSHA256), q.initiator.principal,
                        q.approver.principal, [q.initiator.requestID, q.approver.requestID], now, q.targetSHA256,
                        q.reason)
            && after.disk.configurations == disk.configurations
            && after.memory.proposals == s.proposals && after.memory.activeHash == q.targetSHA256)
  {
    hide Folded, Replay, SoundStore, Resolved, Perform, PlanRollback, Appended, MayRollBack;
    var s := Replay(d.audit, who, disk.log).value;
    PerformAppends(d, who, disk, memory, q, now);
    RollbackIsPlanned(d, who, disk, s, q, now);
    if PlanRollback(d, who, disk, s, q, now).Ok? { RollbackEffect(d, who, disk, s, q, now); }
  }

  ghost predicate MayKill(who: Instance, disk: Disk, s: State, q: Request, now: int)
    requires q.EmergencyKill?
  {
    && who.mutable && Permitted(who, disk, q.auth, "KILL_OPERATOR", now) && ActiveIn(disk.log) != ""
    && q.commandSequence > s.killSequence && q.commandID !in s.commandIDs
    && ValidIdentifier(q.commandID) && ValidIdentifier(q.reasonCode)
    && (|| (q.scope == "FIRM" && q.targetID == "")
        || (q.scope in {"ACCOUNT", "VENUE", "STRATEGY", "SYMBOL"} && ValidIdentifier(q.targetID)))
  }

  lemma PlanKillExactly(d: Digests, who: Instance, disk: Disk, s: State, q: Request, now: int)
    requires q.EmergencyKill? && ValidInstance(who)
    requires SoundStore(d, disk.configurations) && Folded(d.audit, disk.log) == Some(s)
    ensures PlanKill(d, who, disk, s, q, now).Ok? <==> MayKill(who, disk, s, q, now)
    ensures PlanKill(d, who, disk, s, q, now).Ok? ==>
      var e := PlanKill(d, who, disk, s, q, now).value;
      var command := KillCommand(1, q.commandID, s.activeHash, q.scope, q.targetID, q.commandSequence, who.epoch, now,
                                 q.reasonCode, true);
      && e.event == KillEngaged(SignedKill(command, who.keyID, who.signer)) && e.actor == q.auth.principal
      && e.secondActor == "" && e.requestIDs == [q.auth.requestID] && e.objectSHA256 == s.activeHash
      && e.reason == q.reasonCode
      && e.memory.proposals == s.proposals && e.memory.activeHash == s.activeHash
      && e.memory.commandIDs == s.commandIDs + {q.commandID} && e.memory.killSequence == q.commandSequence
  {
    hide Folded, SoundStore, Authorize, Permitted, Hex64, ValidIdentifier, WellKeptProposal;
    AuthorizesExactly(d, who, disk, s, q.auth, "KILL_OPERATOR", now);
    FoldedIsWellKept(d.audit, disk.log);
    if Permitted(who, disk, q.auth, "KILL_OPERATOR", now) { PermittedLater(who, disk, q.auth, "KILL_OPERATOR", now); }
  }

  lemma PermittedLater(who: Instance, disk: Disk, auth: Auth, role: string, now: int)
    requires Permitted(who, disk, auth, role, now)
    ensures now > 0
  {
    hide ValidIdentifier, Unused, ActiveIn, Holds;
  }

  /** A kill is engaged exactly when a kill operator holding the role, in time and with an unused request, issues a well
      formed command with a new identity and a sequence above every earlier one, while some configuration is active.
      The signed command names that configuration. */
  lemma KillsExactly(d: Digests, who: Instance, disk: Disk, memory: State, q: Request, now: int)
    requires q.EmergencyKill? && ValidInstance(who) && Sound(d, disk) && Replay(d.audit, who, disk.log).Some?
    ensures var s, after := Replay(d.audit, who, disk.log).value, Perform(d, who, disk, memory, q, now, Durable);
      && (after.result.Ok? <==> MayKill(who, disk, s, q, now))
      && (after.result.Err? ==> after.disk == disk && after.memory == s)
      && (after.result.Ok? ==>
            var command := KillCommand(1, q.commandID, ActiveIn(disk.log), q.scope, q.targetID, q.commandSequence,
                                       who.epoch, now, q.reasonCode, true);
            && Appended(disk.log, after.disk.log, KillEngaged(SignedKill(command, who.keyID, who.signer)),
                        q.auth.principal, "", [q.auth.requestID], now, ActiveIn(disk.log), q.reasonCode)
            && after.disk.configurations == disk.configurations
            && after.memory.proposals == s.proposals && after.memory.activeHash == s.activeHash
            && after.memory.commandIDs == s.commandIDs + {q.commandID}
            && after.memory.killSequence == q.commandSequence)
  {
    hide Folded, Replay, SoundStore, Resolved, Perform, PlanKill, Appended, MayKill, ActiveIn, ValidInstance;
    var s := Replay(d.audit, who, disk.log).value;
    PerformAppends(d, who, disk, memory, q, now);
    PlanKillExactly(d, who, disk, s, q, now);
    ActiveIsLast(d.audit, disk.log);
  }

  // ----- Every record of every log ----------------------------------------------------------------------------------

  // The record's principals held the roles its event needs.
  ghost predicate Entitled(bootstrap: map<string, set<string>>, stored: Configurations, active: string, b: AuditBody) {
    match b.event
    case Proposed(_) => Holds(bootstrap, stored, active, b.actor, "CONFIGURATION_AUTHOR")
    case Approved(_) => Holds(bootstrap, stored, active, b.actor, "APPROVER")
    case Activated(_) => Holds(bootstrap, stored, active, b.actor, "ACTIVATOR")
    case RolledBackTo(_) =>
      && Holds(bootstrap, stored, active, b.actor, "ROLLBACK_OPERATOR")
      && Holds(bootstrap, stored, active, b.secondActor, "APPROVER")
    case KillEngaged(_) => Holds(bootstrap, stored, active, b.actor, "KILL_OPERATOR")
  }

  lemma PermittedHolds(who: Instance, disk: Disk, auth: Auth, role: string, now: int)
    requires Permitted(who, disk, auth, role, now)
    ensures Holds(who.bootstrapRoles, disk.configurations, ActiveIn(disk.log), auth.principal, role)
  {
    hide ValidIdentifier, Unused, ActiveIn, Holds, Available;
  }

  lemma RecordIsEntitled(d: Digests, who: Instance, disk: Disk, s: State, q: Request, now: int)
    requires ValidInstance(who) && SoundStore(d, disk.configurations) && Folded(d.audit, disk.log) == Some(s)
    requires Plan(d, who, disk, s, q, now).Ok?
    ensures Entitled(who.bootstrapRoles, disk.configurations, ActiveIn(disk.log),
                     NewRecord(d, who, s, Plan(d, who, disk, s, q, now).value, now).body)
  {
    hide Folded, SoundStore, PlanPropose, PlanApprove, PlanActivate, PlanRollback, PlanKill, Permitted, Succeeds,
         Canonical.RejectFinal, BoundedText, Available, ActiveIn, Holds, ValidInstance, ValidIdentifier;
    match q
    case Propose(auth, _, _, _) =>
      PlanProposeExactly(d, who, disk, s, q, now);
      PermittedHolds(who, disk, auth, "CONFIGURATION_AUTHOR", now);
    case Approve(auth, _, _) =>
      PlanApproveExactly(d, who, disk, s, q, now);
      PermittedHolds(who, disk, auth, "APPROVER", now);
    case Activate(auth, _, _) =>
      PlanActivateExactly(d, who, disk, s, q, now);
      PermittedHolds(who, disk, auth, "ACTIVATOR", now);
    case Rollback(initiator, approver, _, _, _) =>
      RollbackIsPlanned(d, who, disk, s, q, now);
      RollbackEffect(d, who, disk, s, q, now);
      PermittedHolds(who, disk, initiator, "ROLLBACK_OPERATOR", now);
      PermittedHolds(who, disk, approver, "APPROVER", now);
    case EmergencyKill(auth, _, _, _, _, _) =>
      PlanKillExactly(d, who, disk, s, q, now);
      PermittedHolds(who, disk, auth, "KILL_OPERATOR", now);
  }

  // Some step's instance gave the record at i its roles.
  ghost predicate EntitledAt(steps: seq<Step>, disk: Disk, i: nat)
    requires i < |disk.log|
  {
    exists k | 0 <= k < |steps| ::
      Entitled(steps[k].who.bootstrapRoles, disk.configurations, ActiveIn(disk.log[..i]), disk.log[i].body)
  }

  lemma HoldsStays(bootstrap: map<string, set<string>>, stored: Configurations, more: Configurations, active: string,
                   b: AuditBody)
    requires forall sha | sha in stored :: sha in more && more[sha] == stored[sha]
    requires Entitled(bootstrap, stored, active, b)
    ensures Entitled(bootstrap, more, active, b)
  {
    hide Binds;
  }

  lemma EarlierStay(steps: seq<Step>, step: Step, disk: Disk, next: Disk, i: nat)
    requires i < |disk.log| && disk.log <= next.log && EntitledAt(steps, disk, i)
    requires forall sha | sha in disk.configurations ::
      sha in next.configurations && next.configurations[sha] == disk.configurations[sha]
    ensures EntitledAt(steps + [step], next, i)
  {
    hide Entitled, ActiveIn;
    assert next.log[..i] == disk.log[..i] && next.log[i] == disk.log[i];
    var active, b := ActiveIn(disk.log[..i]), disk.log[i].body;
    var k :| 0 <= k < |steps| && Entitled(steps[k].who.bootstrapRoles, disk.configurations, active, b);
    HoldsStays(steps[k].who.bootstrapRoles, disk.configurations, next.configurations, active, b);
    assert (steps + [step])[k] == steps[k];
  }

  // An operation appends at most one record, for principals who held its roles.
  lemma AppendsEntitled(d: Digests, who: Instance, disk: Disk, memory: State, q: Request, now: int, io: Durability)
    requires ValidInstance(who) && Sound(d, disk)
    ensures var next := Perform(d, who, disk, memory, q, now, io).disk;
      && disk.log <= next.log && |next.log| <= |disk.log| + 1
      && (|next.log| > |disk.log| ==>
            Entitled(who.bootstrapRoles, disk.configurations, ActiveIn(disk.log), next.log[|disk.log|].body))
  {
    hide Folded, Replay, SoundStore, Resolved, Plan, NewRecord, Committed, Entitled, ValidInstance, ActiveIn,
         WellKeptState;
    ReplayOfSound(d, who, disk);
    if Replay(d.audit, who, disk.log).Some? {
      var s := Replay(d.audit, who, disk.log).value;
      if Plan(d, who, disk, s, q, now).Ok? { RecordIsEntitled(d, who, disk, s, q, now); }
    }
  }

  /** Every record of every reachable log was written for principals who held the roles of its event: a proposal for an
      author, an approval for an approver, an activation for an activator, a rollback for a rollback operator and an
      approver, a kill for a kill operator. The roles are those of the configuration active just before the record or,
      before the first activation, the bootstrap roles of an instance that took part. */
  lemma {:induction false} EveryRecordIsEntitled(d: Digests, steps: seq<Step>, i: nat)
    requires ValidSteps(steps) && i < |Run(d, EMPTY_DISK, steps).log|
    ensures EntitledAt(steps, Run(d, EMPTY_DISK, steps), i)
    decreases |steps|
  {
    hide Perform, Sound, ValidInstance, EntitledAt, Entitled, ActiveIn;
    var front, last := steps[..|steps| - 1], steps[|steps| - 1];
    var disk, next := Run(d, EMPTY_DISK, front), Run(d, EMPTY_DISK, steps);
    EveryDiskIsSound(d, front);
    AppendsEntitled(d, last.who, disk, last.memory, last.request, last.now, last.io);
    PerformKeepsSound(d, last.who, disk, last.memory, last.request, last.now, last.io);
    assert steps == front + [last];
    if i < |disk.log| {
      EveryRecordIsEntitled(d, front, i);
      EarlierStay(front, last, disk, next, i);
    } else {
      NewestIsEntitled(steps, disk, next);
    }
  }

  lemma NewestIsEntitled(steps: seq<Step>, disk: Disk, next: Disk)
    requires steps != [] && disk.log <= next.log && |next.log| == |disk.log| + 1
    requires Entitled(steps[|steps| - 1].who.bootstrapRoles, disk.configurations, ActiveIn(disk.log),
                      next.log[|disk.log|].body)
    requires forall sha | sha in disk.configurations ::
      sha in next.configurations && next.configurations[sha] == disk.configurations[sha]
    ensures EntitledAt(steps, next, |disk.log|)
  {
    hide Entitled, ActiveIn;
    assert next.log[..|disk.log|] == disk.log;
    HoldsStays(steps[|steps| - 1].who.bootstrapRoles, disk.configurations, next.configurations, ActiveIn(disk.log),
               next.log[|disk.log|].body);
  }
}
