/** The authority as objects: a root shared by services, and services that reload, check, append and update
    their own fields. Each operation leaves the root, the memory and the answer that the operation on
    values describes. */
module AuthorityObject {
  import opened Results
  import opened Text
  import opened DeploymentTypes
  import opened Configuration
  import opened AuditLog
  import opened Authority

  lemma {:induction false} ReplayPrefix(digest: Digest, who: Instance, log: seq<AuditRecord>, n: nat)
    requires Replay(digest, who, log).Some? && n <= |log|
    ensures Replay(digest, who, log[..n]).Some?
  {
    hide Accepts, Believes, After;
    if n < |log| {
      var front := log[..|log| - 1];
      ReplayPrefix(digest, who, front, n);
      assert front[..n] == log[..n];
    } else {
      assert log[..n] == log;
    }
  }

  // Notes every request identifier of a record, refusing one seen before.
  method NoteRequests(used: set<string>, ids: seq<string>) returns (unused: bool, seen: set<string>)
    ensures unused <==> FreshRequests(used, ids)
    ensures unused ==> seen == used + Keys(Itself, ids)
  {
    seen := used;
    for i := 0 to |ids|
      invariant FreshRequests(used, ids[..i])
      invariant forall id :: id in seen <==> id in used || id in ids[..i]
    {
      assert ids[..i + 1] == ids[..i] + [ids[i]];
      if ids[i] in seen { return false, seen; }
      seen := seen + {ids[i]};
    }
    assert ids[..|ids|] == ids;
    assert seen == used + Keys(Itself, ids) by {
      forall id | id in ids ensures id in Keys(Itself, ids) {
        var k :| 0 <= k < |ids| && ids[k] == id;
        assert Itself(ids[k]) in Keys(Itself, ids);
      }
    }
    unused := true;
  }

  // The state after an event, or none if the event does not fit the state.
  method ApplyAuditRecord(s: State, b: AuditBody) returns (next: Option<State>)
    ensures next == if Applies(s, b) then Some(Applied(s, b)) else None
  {
    hide ValidIdentifier, Hex64, ValidKillCommand;
    match b.event {
      case Proposed(p) =>
        if !ValidIdentifier(p.proposalID) || !Hex64(p.configurationSHA256) || !p.state.PendingApproval?
           || p.author != b.actor {
          return None;
        }
        if p.approver != "" || p.activationWallUTCNS <= 0 || b.objectSHA256 != p.configurationSHA256 { return None; }
        if p.proposalID in s.proposals { return None; }
        next := Some(s.(proposals := s.proposals[p.proposalID := p]));
      case Approved(p) =>
        if p.proposalID !in s.proposals { return None; }
        var previous := s.proposals[p.proposalID];
        if !previous.state.PendingApproval? || !p.state.ApprovedProposal? || !SameProposal(p, previous) { return None; }
        if p.approver != b.actor || p.approver == p.author { return None; }
        if b.secondActor != p.author || b.objectSHA256 != p.configurationSHA256 { return None; }
        next := Some(s.(proposals := s.proposals[p.proposalID := p]));
      case Activated(p) =>
        if p.proposalID !in s.proposals { return None; }
        var previous := s.proposals[p.proposalID];
        if !previous.state.ApprovedProposal? || !p.state.ActiveProposal? || !SameProposal(p, previous) { return None; }
        if p.approver != previous.approver { return None; }
        if b.secondActor != p.approver || b.objectSHA256 != p.configurationSHA256 { return None; }
        var t := s.(proposals := s.proposals[p.proposalID := p]);
        next := Some(t.(activeHash := p.configurationSHA256));
      case RolledBackTo(target) =>
        if !Hex64(target) || target != b.objectSHA256 || s.activeHash == "" { return None; }
        if b.secondActor == "" || b.secondActor == b.actor { return None; }
        next := Some(s.(activeHash := target));
      case KillEngaged(k) =>
        if !ValidKillCommand(k.command) || k.command.commandSequence <= s.killSequence { return None; }
        if k.command.configurationSHA256 != s.activeHash || b.objectSHA256 != s.activeHash { return None; }
        if k.command.commandID in s.commandIDs { return None; }
        var t := s.(commandIDs := s.commandIDs + {k.command.commandID});
        next := Some(t.(killSequence := k.command.commandSequence));
    }
  }

  // What a decision about a proposal must not change.
  predicate SameProposal(p: Proposal, previous: Proposal) {
    && p.configurationSHA256 == previous.configurationSHA256 && p.author == previous.author
    && p.activationWallUTCNS == previous.activationWallUTCNS
  }

  // One pass of the reload loop.
  method ReplayRecord(digest: Digest, who: Instance, s: State, r: AuditRecord) returns (next: Option<State>)
    ensures next == if Believes(who, r) && Accepts(digest, s, r) then Some(After(s, r)) else None
  {
    hide Continues, FreshRequests, Applies, Keys;
    if !Continues(digest, s, r) || !Believes(who, r) { return None; }
    var unused, seen := NoteRequests(s.requestIDs, r.body.requestIDs);
    if !unused { return None; }
    var applied := ApplyAuditRecord(s, r.body);
    if applied.None? { return None; }
    next := Some(applied.value.(
      requestIDs := seen, auditSequence := r.body.sequence, auditHash := r.recordSHA256,
      audit := s.audit + [PublicEntry(r.body, r.recordSHA256)]));
  }

  method LoadLog(digest: Digest, who: Instance, log: seq<AuditRecord>) returns (state: Option<State>)
    ensures state == Replay(digest, who, log)
  {
    hide Accepts, Believes, After;
    var s := EMPTY_STATE;
    for i := 0 to |log|
      invariant Replay(digest, who, log[..i]) == Some(s)
    {
      assert log[..i + 1][..i] == log[..i];
      var next := ReplayRecord(digest, who, s, log[i]);
      if next.None? {
        if Replay(digest, who, log).Some? { ReplayPrefix(digest, who, log, i + 1); }
        return None;
      }
      s := next.value;
    }
    assert log[..|log|] == log;
    state := Some(s);
  }

  class ControlRoot {
    var configurations: map<string, SignedConfig>
    var log: seq<AuditRecord>

    constructor ()
      ensures View() == Disk(map[], [])
    {
      configurations, log := map[], [];
    }

    function View(): Disk
      reads this
    {
      Disk(configurations, log)
    }
  }

  class Service {
    const d: Digests
    const who: Instance
    const root: ControlRoot
    var auditSequence: uint64
    var auditHash: string
    var activeHash: string
    var proposals: map<string, Proposal>
    var requestIDs: set<string>
    var commandIDs: set<string>
    var killSequence: uint64
    var audit: seq<AuditEntry>

    constructor (d: Digests, who: Instance, root: ControlRoot)
      ensures this.d == d && this.who == who && this.root == root && View() == EMPTY_STATE
    {
      this.d, this.who, this.root := d, who, root;
      auditSequence, auditHash, activeHash, proposals := 0, "", "", map[];
      requestIDs, commandIDs, killSequence, audit := {}, {}, 0, [];
    }

    function View(): State
      reads this
    {
      State(auditSequence, auditHash, activeHash, proposals, requestIDs, commandIDs, killSequence, audit)
    }

    method LoadAudit() returns (ok: bool)
      modifies this
      ensures ok <==> Replay(d.audit, who, root.log).Some?
      ensures View() == if ok then Replay(d.audit, who, root.log).value else old(View())
    {
      hide Replay;
      var state := LoadLog(d.audit, who, root.log);
      if state.None? { return false; }
      var s := state.value;
      auditSequence, auditHash, activeHash, proposals := s.auditSequence, s.auditHash, s.activeHash, s.proposals;
      requestIDs, commandIDs, killSequence, audit := s.requestIDs, s.commandIDs, s.killSequence, s.audit;
      ok := true;
    }

    // Writes one record and, if the write is acknowledged, advances the audit fields.
    method AppendAudit(e: Effect, now: int, io: Durability) returns (ok: bool)
      modifies this`auditSequence, this`auditHash, this`audit, root`log
      ensures ok == io.Durable?
      ensures var r := NewRecord(d, who, old(View()), e, now);
        && root.log == (if io.Durable? || io.Unacknowledged? then old(root.log) + [r] else old(root.log))
        && auditSequence == (if ok then r.body.sequence else old(auditSequence))
        && auditHash == (if ok then r.recordSHA256 else old(auditHash))
        && audit == old(audit) + if ok then [PublicEntry(r.body, r.recordSHA256)] else []
    {
      var r := NewRecord(d, who, View(), e, now);
      if io.NothingWritten? || io.OnlyStored? { return false; }
      root.log := root.log + [r];
      if io.Unacknowledged? { return false; }
      auditSequence, auditHash := r.body.sequence, r.recordSHA256;
      audit := audit + [PublicEntry(r.body, r.recordSHA256)];
      ok := true;
    }

    method Propose(q: Request, now: int, io: Durability) returns (result: Result<Effect, Error>)
      requires q.Propose?
      modifies this, root
      ensures Outcome(root.View(), View(), result) == Perform(d, who, old(root.View()), old(View()), q, now, io)
    {
      hide Replay, Plan, PlanPropose, NewRecord, Perform, Stored, BelievesAll;
      ghost var memory := View();
      PerformUnreadable(d, who, root.View(), memory, q, now, io);
      var ok := LoadAudit();
      if !ok { return Err(Unreadable); }
      var plan := PlanPropose(d, who, root.View(), View(), q, now);
      PlanOf(d, who, root.View(), View(), q, now);
      Performs(d, who, root.View(), memory, q, now, io, View());
      if plan.Err? { return plan; }
      var e := plan.value;
      ProposeMemory(d, who, root.View(), View(), q, now);
      StoredConfiguration(root.View(), q);
      if !io.NothingWritten? {
        root.configurations := root.configurations[q.signed.configuration.sha256 := q.signed];
      }
      ok := AppendAudit(e, now, io);
      if !ok { return Err(WriteFailed); }
      proposals := proposals[e.event.proposal.proposalID := e.event.proposal];
      requestIDs := requestIDs + {q.auth.requestID};
      result := plan;
    }

    method Approve(q: Request, now: int, io: Durability) returns (result: Result<Effect, Error>)
      requires q.Approve?
      modifies this, root`log
      ensures Outcome(root.View(), View(), result) == Perform(d, who, old(root.View()), old(View()), q, now, io)
    {
      hide Replay, Plan, PlanApprove, NewRecord, Perform, Stored, BelievesAll;
      ghost var memory := View();
      PerformUnreadable(d, who, root.View(), memory, q, now, io);
      var ok := LoadAudit();
      if !ok { return Err(Unreadable); }
      var plan := PlanApprove(d, who, root.View(), View(), q, now);
      PlanOf(d, who, root.View(), View(), q, now);
      Performs(d, who, root.View(), memory, q, now, io, View());
      if plan.Err? { return plan; }
      var e := plan.value;
      ApproveMemory(d, who, root.View(), View(), q, now);
      StoredConfiguration(root.View(), q);
      ok := AppendAudit(e, now, io);
      if !ok { return Err(WriteFailed); }
      proposals := proposals[e.event.proposal.proposalID := e.event.proposal];
      requestIDs := requestIDs + {q.auth.requestID};
      result := plan;
    }

    method Activate(q: Request, now: int, io: Durability) returns (result: Result<Effect, Error>)
      requires q.Activate?
      modifies this, root`log
      ensures Outcome(root.View(), View(), result) == Perform(d, who, old(root.View()), old(View()), q, now, io)
    {
      hide Replay, Plan, PlanActivate, NewRecord, Perform, Stored, BelievesAll;
      ghost var memory := View();
      PerformUnreadable(d, who, root.View(), memory, q, now, io);
      var ok := LoadAudit();
      if !ok { return Err(Unreadable); }
      var plan := PlanActivate(d, who, root.View(), View(), q, now);
      PlanOf(d, who, root.View(), View(), q, now);
      Performs(d, who, root.View(), memory, q, now, io, View());
      if plan.Err? { return plan; }
      var e := plan.value;
      ActivateMemory(d, who, root.View(), View(), q, now);
      StoredConfiguration(root.View(), q);
      ok := AppendAudit(e, now, io);
      if !ok { return Err(WriteFailed); }
      activeHash := e.objectSHA256;
      proposals := proposals[e.event.proposal.proposalID := e.event.proposal];
      requestIDs := requestIDs + {q.auth.requestID};
      result := plan;
    }

    method Rollback(q: Request, now: int, io: Durability) returns (result: Result<Effect, Error>)
      requires q.Rollback?
      modifies this, root`log
      ensures Outcome(root.View(), View(), result) == Perform(d, who, old(root.View()), old(View()), q, now, io)
    {
      hide Replay, Plan, PlanRollback, NewRecord, Perform, Stored, BelievesAll;
      ghost var memory := View();
      PerformUnreadable(d, who, root.View(), memory, q, now, io);
      var ok := LoadAudit();
      if !ok { return Err(Unreadable); }
      var plan := PlanRollback(d, who, root.View(), View(), q, now);
      PlanOf(d, who, root.View(), View(), q, now);
      Performs(d, who, root.View(), memory, q, now, io, View());
      if plan.Err? { return plan; }
      var e := plan.value;
      RollbackMemory(d, who, root.View(), View(), q, now);
      StoredConfiguration(root.View(), q);
      ok := AppendAudit(e, now, io);
      if !ok { return Err(WriteFailed); }
      activeHash := q.targetSHA256;
      requestIDs := requestIDs + {q.initiator.requestID};
      requestIDs := requestIDs + {q.approver.requestID};
      result := plan;
    }

    method EmergencyKill(q: Request, now: int, io: Durability) returns (result: Result<Effect, Error>)
      requires q.EmergencyKill?
      modifies this, root`log
      ensures Outcome(root.View(), View(), result) == Perform(d, who, old(root.View()), old(View()), q, now, io)
    {
      hide Replay, Plan, PlanKill, NewRecord, Perform, Stored, BelievesAll;
      ghost var memory := View();
      PerformUnreadable(d, who, root.View(), memory, q, now, io);
      var ok := LoadAudit();
      if !ok { return Err(Unreadable); }
      var plan := PlanKill(d, who, root.View(), View(), q, now);
      PlanOf(d, who, root.View(), View(), q, now);
      Performs(d, who, root.View(), memory, q, now, io, View());
      if plan.Err? { return plan; }
      var e := plan.value;
      KillMemory(d, who, root.View(), View(), q, now);
      StoredConfiguration(root.View(), q);
      ok := AppendAudit(e, now, io);
      if !ok { return Err(WriteFailed); }
      killSequence := q.commandSequence;
      commandIDs := commandIDs + {q.commandID};
      requestIDs := requestIDs + {q.auth.requestID};
      result := plan;
    }
  }

  // ----- What performing an operation comes to -----------------------------------------------------------

  lemma PerformUnreadable(d: Digests, who: Instance, disk: Disk, memory: State, q: Request, now: int, io: Durability)
    ensures Replay(d.audit, who, disk.log).None? ==>
      Perform(d, who, disk, memory, q, now, io) == Outcome(disk, memory, Err(Unreadable))
  {
    hide Replay, Plan;
  }

  lemma PlanOf(d: Digests, who: Instance, disk: Disk, s: State, q: Request, now: int)
    ensures q.Propose? ==> Plan(d, who, disk, s, q, now) == PlanPropose(d, who, disk, s, q, now)
    ensures q.Approve? ==> Plan(d, who, disk, s, q, now) == PlanApprove(d, who, disk, s, q, now)
    ensures q.Activate? ==> Plan(d, who, disk, s, q, now) == PlanActivate(d, who, disk, s, q, now)
    ensures q.Rollback? ==> Plan(d, who, disk, s, q, now) == PlanRollback(d, who, disk, s, q, now)
    ensures q.EmergencyKill? ==> Plan(d, who, disk, s, q, now) == PlanKill(d, who, disk, s, q, now)
  {
    hide PlanPropose, PlanApprove, PlanActivate, PlanRollback, PlanKill;
  }

  lemma Performs(d: Digests, who: Instance, disk: Disk, memory: State, q: Request, now: int, io: Durability, s: State)
    requires Replay(d.audit, who, disk.log) == Some(s)
    ensures var plan, after := Plan(d, who, disk, s, q, now), Perform(d, who, disk, memory, q, now, io);
      && (plan.Err? ==> after == Outcome(disk, s, plan))
      && (plan.Ok? ==>
            var r := NewRecord(d, who, s, plan.value, now);
            && after.disk.configurations == (if io.NothingWritten? then disk else Stored(disk, q)).configurations
            && after.disk.log == (if io.Durable? || io.Unacknowledged? then disk.log + [r] else disk.log)
            && after.memory == (if io.Durable? then Committed(plan.value, r) else s)
            && after.result == if io.Durable? then plan else Err(WriteFailed))
  {
    hide Replay, Plan, NewRecord, Committed;
  }

  lemma StoredConfiguration(disk: Disk, q: Request)
    ensures Stored(disk, q).configurations
         == if q.Propose? then disk.configurations[q.signed.configuration.sha256 := q.signed] else disk.configurations
  {
  }

  // ----- What each plan says the memory becomes ------------------------------------------------------------

  lemma ProposeMemory(d: Digests, who: Instance, disk: Disk, s: State, q: Request, now: int)
    requires q.Propose? && PlanPropose(d, who, disk, s, q, now).Ok?
    ensures var e := PlanPropose(d, who, disk, s, q, now).value;
      && e.event.Proposed?
      && e.memory == s.(proposals := s.proposals[e.event.proposal.proposalID := e.event.proposal],
                        requestIDs := s.requestIDs + {q.auth.requestID})
  {
    hide Authorize, VerifiedConfig, CheckLineage, Blank;
  }

  lemma ApproveMemory(d: Digests, who: Instance, disk: Disk, s: State, q: Request, now: int)
    requires q.Approve? && PlanApprove(d, who, disk, s, q, now).Ok?
    ensures var e := PlanApprove(d, who, disk, s, q, now).value;
      && e.event.Approved?
      && e.memory == s.(proposals := s.proposals[e.event.proposal.proposalID := e.event.proposal],
                        requestIDs := s.requestIDs + {q.auth.requestID})
  {
    hide Authorize, Blank;
  }

  lemma ActivateMemory(d: Digests, who: Instance, disk: Disk, s: State, q: Request, now: int)
    requires q.Activate? && PlanActivate(d, who, disk, s, q, now).Ok?
    ensures var e := PlanActivate(d, who, disk, s, q, now).value;
      && e.event.Activated?
      && e.memory ==
        s.(activeHash := e.objectSHA256, proposals := s.proposals[e.event.proposal.proposalID := e.event.proposal],
                        requestIDs := s.requestIDs + {q.auth.requestID})
  {
    hide Authorize, LoadConfiguration, CheckLineage, Blank;
  }

  lemma RollbackMemory(d: Digests, who: Instance, disk: Disk, s: State, q: Request, now: int)
    requires q.Rollback? && PlanRollback(d, who, disk, s, q, now).Ok?
    ensures PlanRollback(d, who, disk, s, q, now).value.memory
         == s.(activeHash := q.targetSHA256,
               requestIDs := s.requestIDs + {q.initiator.requestID} + {q.approver.requestID})
  {
    hide Authorize, LoadConfiguration, Blank, Hex64;
  }

  lemma KillMemory(d: Digests, who: Instance, disk: Disk, s: State, q: Request, now: int)
    requires q.EmergencyKill? && PlanKill(d, who, disk, s, q, now).Ok?
    ensures PlanKill(d, who, disk, s, q, now).value.memory
         == s.(killSequence := q.commandSequence, commandIDs := s.commandIDs + {q.commandID},
               requestIDs := s.requestIDs + {q.auth.requestID})
  {
    hide Authorize, ValidKillCommand;
  }
}
