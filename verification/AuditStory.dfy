/** What an accepted audit log says, record by record,
whoever wrote and signed it: every approval and activation goes back
    to its own proposal, kill commands only ever escalate, and a rollback leaves something that was active. */
module AuditStory {
  import opened Results
  import opened Text
  import opened DeploymentTypes
  import opened Configuration
  import opened ConfigurationMeaning
  import opened AuditLog

  // ----- What the log says ----------------------------------------------------------------------------------------

  // The configuration the last activation or rollback left active.
  function ActiveIn(log: seq<AuditRecord>): string {
    if log == [] then ""
    else
      match log[|log| - 1].body.event
      case Activated(p) => p.configurationSHA256
      case RolledBackTo(sha) => sha
      case _ => ActiveIn(log[..|log| - 1])
  }

  lemma {:induction false} ActiveIsLast(digest: Digest, log: seq<AuditRecord>)
    requires Folded(digest, log).Some?
    ensures Folded(digest, log).value.activeHash == ActiveIn(log)
  {
    hide Accepts;
    if log != [] { ActiveIsLast(digest, log[..|log| - 1]); }
  }

  ghost predicate Unused(log: seq<AuditRecord>, id: string) {
    forall i | 0 <= i < |log| :: id !in log[i].body.requestIDs
  }

  lemma {:induction false} UnusedExactly(log: seq<AuditRecord>, id: string)
    ensures id in RequestsOf(log) <==> !Unused(log, id)
  {
    hide Keys;
    if log != [] {
      var front, ids := log[..|log| - 1], log[|log| - 1].body.requestIDs;
      UnusedExactly(front, id);
      KeysMean(Itself, ids, id);
      assert Unused(log, id) <==> Unused(front, id) && id !in ids by {
        assert log == front + [log[|log| - 1]];
        forall i | 0 <= i < |front| ensures front[i] == log[i] {}
      }
    }
  }

  // ----- Proposals -------------------------------------------------------------------------------------------

  // The event that leaves the proposal as it is.
  ghost predicate Leaves(event: AuditEvent, p: Proposal) {
    match p.state
    case PendingApproval => event == Proposed(p)
    case ApprovedProposal => event == Approved(p)
    case ActiveProposal => event == Activated(p)
    case Superseded => false
  }

  lemma {:induction false} StoredIsLogged(digest: Digest, log: seq<AuditRecord>, id: string) returns (j: nat)
    requires Folded(digest, log).Some? && id in Folded(digest, log).value.proposals
    ensures j < |log| && Leaves(log[j].body.event, Folded(digest, log).value.proposals[id])
    ensures Folded(digest, log).value.proposals[id].proposalID == id
  {
    hide Continues, FreshRequests, ValidIdentifier, Hex64, Keys, ValidKillCommand;
    var front, last := log[..|log| - 1], log[|log| - 1].body.event;
    var s := Folded(digest, front).value;
    if (last.Proposed? || last.Approved? || last.Activated?) && last.proposal.proposalID == id {
      j := |log| - 1;
    } else {
      j := StoredIsLogged(digest, front, id);
      assert front[j] == log[j];
    }
  }

  // What a proposal keeps from its first record on.
  ghost predicate SameProposal(p: Proposal, q: Proposal) {
    && p.proposalID == q.proposalID && p.configurationSHA256 == q.configurationSHA256 && p.author == q.author
    && p.activationWallUTCNS == q.activationWallUTCNS
  }

  /** Every approval in an accepted log answers an earlier, still pending proposal of the same identity, configuration,
      author and activation time, by someone other than its author. */
  lemma ApprovalHasItsProposal(digest: Digest, log: seq<AuditRecord>, i: nat) returns (j: nat)
    requires Folded(digest, log).Some? && i < |log| && log[i].body.event.Approved?
    ensures j < i && log[j].body.event.Proposed?
    ensures var b, p, q := log[i].body, log[i].body.event.proposal, log[j].body.event.proposal;
      && SameProposal(p, q) && q.state == PendingApproval && p.state == ApprovedProposal
      && log[j].body.actor == p.author && b.actor == p.approver != p.author && b.secondActor == p.author
      && b.objectSHA256 == p.configurationSHA256 == log[j].body.objectSHA256
  {
    hide Continues, FreshRequests, ValidIdentifier, Hex64, Keys, Folded;
    FoldedStep(digest, log, i);
    j := StoredIsLogged(digest, log[..i], log[i].body.event.proposal.proposalID);
    assert log[..i][j] == log[j];
    FoldedStep(digest, log, j);
  }

  /** Every activation in an accepted log answers an earlier approval of exactly this proposal, names its approver, and
      makes its configuration active. */
  lemma ActivationHasItsApproval(digest: Digest, log: seq<AuditRecord>, i: nat) returns (j: nat)
    requires Folded(digest, log).Some? && i < |log| && log[i].body.event.Activated?
    ensures j < i && log[j].body.event.Approved?
    ensures var b, p, q := log[i].body, log[i].body.event.proposal, log[j].body.event.proposal;
      && p == q.(state := ActiveProposal) && q.state == ApprovedProposal
      && b.secondActor == p.approver == log[j].body.actor && p.approver != p.author
      && b.objectSHA256 == p.configurationSHA256 == ActiveIn(log[..i + 1])
  {
    hide Continues, FreshRequests, ValidIdentifier, Hex64, Keys, Folded;
    FoldedStep(digest, log, i);
    j := StoredIsLogged(digest, log[..i], log[i].body.event.proposal.proposalID);
    assert log[..i][j] == log[j];
    FoldedStep(digest, log, j);
  }

  lemma {:induction false} StoredStays(digest: Digest, log: seq<AuditRecord>, i: nat, id: string)
    requires Folded(digest, log).Some? && i <= |log|
    requires Folded(digest, log[..i]).Some? && id in Folded(digest, log[..i]).value.proposals
    ensures id in Folded(digest, log).value.proposals
  {
    hide Accepts, Keys;
    if i < |log| {
      var front := log[..|log| - 1];
      assert front[..i] == log[..i];
      StoredStays(digest, front, i, id);
    } else {
      assert log[..i] == log;
    }
  }

  /** No proposal identity is proposed twice. */
  lemma ProposalsAreUnique(digest: Digest, log: seq<AuditRecord>, i: nat, j: nat)
    requires Folded(digest, log).Some? && i < j < |log| && log[i].body.event.Proposed? && log[j].body.event.Proposed?
    ensures log[i].body.event.proposal.proposalID != log[j].body.event.proposal.proposalID
  {
    hide Continues, FreshRequests, ValidIdentifier, Hex64, Keys, Folded;
    FoldedStep(digest, log, i);
    FoldedStep(digest, log, j);
    assert log[..j][..i + 1] == log[..i + 1];
    StoredStays(digest, log[..j], i + 1, log[i].body.event.proposal.proposalID);
  }

  // ----- Kill commands ---------------------------------------------------------------------------------------

  lemma {:induction false} KillsAreNoted(digest: Digest, log: seq<AuditRecord>, i: nat)
    requires Folded(digest, log).Some? && i < |log| && log[i].body.event.KillEngaged?
    ensures var s, k := Folded(digest, log).value, log[i].body.event.kill.command;
      k.commandSequence <= s.killSequence && k.commandID in s.commandIDs
  {
    hide Continues, FreshRequests, ValidIdentifier, Hex64, Keys, ValidKillCommand;
    var front := log[..|log| - 1];
    if i < |front| {
      KillsAreNoted(digest, front, i);
      assert front[i] == log[i];
    }
  }

  /** Kill commands of an accepted log have increasing sequences and distinct identities, and each names the
      configuration that was active when it was engaged. */
  lemma KillsEscalate(digest: Digest, log: seq<AuditRecord>, i: nat, j: nat)
    requires Folded(digest, log).Some? && i < j < |log|
    requires log[i].body.event.KillEngaged? && log[j].body.event.KillEngaged?
    ensures var k, l := log[i].body.event.kill.command, log[j].body.event.kill.command;
      && k.commandSequence < l.commandSequence && k.commandID != l.commandID
      && k.configurationSHA256 == log[i].body.objectSHA256 == ActiveIn(log[..i]) != ""
  {
    hide Continues, FreshRequests, ValidIdentifier, Keys, Folded, Hex64, ActiveIn;
    FoldedStep(digest, log, i);
    FoldedStep(digest, log, j);
    ActiveIsLast(digest, log[..i]);
    assert log[..j][i] == log[i];
    KillsAreNoted(digest, log[..j], i);
    HexIsNotEmpty(log[i].body.event.kill.command.configurationSHA256);
  }

  lemma HexIsNotEmpty(s: string)
    ensures Hex64(s) ==> s != ""
  {
  }

  // ----- Rollbacks -------------------------------------------------------------------------------------------

  /** Every rollback in an accepted log leaves a configuration that was active, on behalf of two different people, and
      makes its target active. */
  lemma RollbackLeavesActive(digest: Digest, log: seq<AuditRecord>, i: nat)
    requires Folded(digest, log).Some? && i < |log| && log[i].body.event.RolledBackTo?
    ensures var b := log[i].body;
      && ActiveIn(log[..i]) != "" && ActiveIn(log[..i + 1]) == b.event.targetSHA256 == b.objectSHA256
      && Hex64(b.event.targetSHA256) && b.actor != b.secondActor && b.secondActor != ""
  {
    hide Continues, FreshRequests, ValidIdentifier, Keys, Folded, Hex64;
    FoldedStep(digest, log, i);
    ActiveIsLast(digest, log[..i]);
  }

  // ----- Replaying is looking up -----------------------------------------------------------------------------

  // The last thing the log says about a proposal.
  function LastWord(log: seq<AuditRecord>, id: string): Option<Proposal> {
    if log == [] then None
    else
      var event := log[|log| - 1].body.event;
      if (event.Proposed? || event.Approved? || event.Activated?) && event.proposal.proposalID == id then
        Some(event.proposal)
      else LastWord(log[..|log| - 1], id)
  }

  function LastKill(log: seq<AuditRecord>): uint64 {
    if log == [] then 0
    else if log[|log| - 1].body.event.KillEngaged? then log[|log| - 1].body.event.kill.command.commandSequence
    else LastKill(log[..|log| - 1])
  }

  ghost predicate Issues(r: AuditRecord, id: string) {
    r.body.event.KillEngaged? && r.body.event.kill.command.commandID == id
  }

  ghost predicate Issued(log: seq<AuditRecord>, id: string) { exists i | 0 <= i < |log| :: Issues(log[i], id) }

  lemma IssuedExtends(log: seq<AuditRecord>, id: string)
    requires log != []
    ensures Issued(log, id) <==> Issued(log[..|log| - 1], id) || Issues(log[|log| - 1], id)
  {
    hide Issues;
    var front := log[..|log| - 1];
    if i :| 0 <= i < |log| && Issues(log[i], id) { assert i < |front| ==> front[i] == log[i]; }
    if i :| 0 <= i < |front| && Issues(front[i], id) { assert front[i] == log[i]; }
  }

  ghost predicate LooksUp(s: State, log: seq<AuditRecord>) {
    && (forall id :: LastWord(log, id) == if id in s.proposals then Some(s.proposals[id]) else None)
    && s.killSequence == LastKill(log) && (forall id :: id in s.commandIDs <==> Issued(log, id))
    && s.activeHash == ActiveIn(log) && (forall id :: id in s.requestIDs <==> !Unused(log, id))
    && s.auditSequence == |log| % UINT64_LIMIT
    && s.auditHash == if log == [] then "" else log[|log| - 1].recordSHA256
  }

  lemma {:induction false} ProposalsLookUp(digest: Digest, log: seq<AuditRecord>, id: string)
    requires Folded(digest, log).Some?
    ensures var proposals := Folded(digest, log).value.proposals;
      LastWord(log, id) == if id in proposals then Some(proposals[id]) else None
  {
    hide Accepts, Keys;
    if log != [] { ProposalsLookUp(digest, log[..|log| - 1], id); }
  }

  lemma {:induction false} KillsLookUp(digest: Digest, log: seq<AuditRecord>)
    requires Folded(digest, log).Some?
    ensures Folded(digest, log).value.killSequence == LastKill(log)
  {
    hide Accepts, Keys;
    if log != [] { KillsLookUp(digest, log[..|log| - 1]); }
  }

  lemma {:induction false} CommandsLookUp(digest: Digest, log: seq<AuditRecord>, id: string)
    requires Folded(digest, log).Some?
    ensures id in Folded(digest, log).value.commandIDs <==> Issued(log, id)
  {
    hide Accepts, Keys, Issued;
    if log == [] {
      NothingIssued(id);
    } else {
      CommandsLookUp(digest, log[..|log| - 1], id);
      IssuedExtends(log, id);
    }
  }

  lemma NothingIssued(id: string)
    ensures !Issued([], id)
  {
  }

  lemma {:induction false} HeadLooksUp(digest: Digest, log: seq<AuditRecord>)
    requires Folded(digest, log).Some?
    ensures var s := Folded(digest, log).value;
      && s.auditSequence == |log| % UINT64_LIMIT
      && s.auditHash == if log == [] then "" else log[|log| - 1].recordSHA256
  {
    hide FreshRequests, Applies, Applied, ValidIdentifier, Keys;
    if log != [] {
      HeadLooksUp(digest, log[..|log| - 1]);
      LengthExtends(|log|);
    }
  }

  /** The state that replay builds is what one looks up in the log: the last word on every proposal, the last kill, the
      commands issued, the configuration last made active, the requests used, and the length and head. */
  lemma StateIsLookup(digest: Digest, log: seq<AuditRecord>)
    requires Folded(digest, log).Some?
    ensures LooksUp(Folded(digest, log).value, log)
  {
    hide RequestsOf, Unused, ActiveIn, Issued, LastWord, LastKill, Folded;
    var s := Folded(digest, log).value;
    ActiveIsLast(digest, log);
    RequestsAreNoted(digest, log);
    KillsLookUp(digest, log);
    HeadLooksUp(digest, log);
    forall id ensures id in RequestsOf(log) <==> !Unused(log, id) { UnusedExactly(log, id); }
    forall id ensures LastWord(log, id) == if id in s.proposals then Some(s.proposals[id]) else None {
      ProposalsLookUp(digest, log, id);
    }
    forall id ensures id in s.commandIDs <==> Issued(log, id) { CommandsLookUp(digest, log, id); }
  }

  lemma LengthExtends(n: nat)
    requires n > 0
    ensures ((n - 1) % UINT64_LIMIT + 1) % UINT64_LIMIT == n % UINT64_LIMIT
  {
  }

  /** The public trail shows every record in order and nothing of its detail. */
  lemma {:induction false} TrailShowsRecords(digest: Digest, log: seq<AuditRecord>, i: nat)
    requires Folded(digest, log).Some? && i < |log|
    ensures var trail, b := Folded(digest, log).value.audit, log[i].body;
      && |trail| == |log|
      && trail[i].sequence == b.sequence && trail[i].actor == b.actor && trail[i].secondActor == b.secondActor
      && trail[i].requestIDs == b.requestIDs && trail[i].occurredWallUTCNS == b.occurredWallUTCNS
      && trail[i].objectSHA256 == b.objectSHA256 && trail[i].reason == b.reason
      && trail[i].recordSHA256 == log[i].recordSHA256
      && trail[i].eventType ==
         match b.event
         case Proposed(_) => "CONFIGURATION_PROPOSED"
         case Approved(_) => "CONFIGURATION_APPROVED"
         case Activated(_) => "CONFIGURATION_ACTIVATED"
         case RolledBackTo(_) => "CONFIGURATION_ROLLED_BACK"
         case KillEngaged(_) => "EMERGENCY_KILL_ENGAGED"
  {
    hide Accepts, Keys;
    TrailIsAsLong(digest, log);
    var front := log[..|log| - 1];
    TrailIsAsLong(digest, front);
    if i < |front| {
      TrailShowsRecords(digest, front, i);
      assert front[i] == log[i];
    }
  }

  lemma {:induction false} TrailIsAsLong(digest: Digest, log: seq<AuditRecord>)
    requires Folded(digest, log).Some?
    ensures |Folded(digest, log).value.audit| == |log|
  {
    hide Accepts, Keys;
    if log != [] { TrailIsAsLong(digest, log[..|log| - 1]); }
  }

  // ----- Exactly the accepted logs ---------------------------------------------------------------------------

  ghost predicate CommandRule(k: KillCommand) {
    && k.engaged && k.schemaVersion == 1 && k.commandSequence > 0 && k.authorityEpoch > 0 && k.effectiveWallUTCNS > 0
    && ValidIdentifier(k.commandID) && ValidIdentifier(k.reasonCode) && Hex64(k.configurationSHA256)
    && (|| (k.scope == "FIRM" && k.targetID == "")
        || (k.scope in {"ACCOUNT", "VENUE", "STRATEGY", "SYMBOL"} && ValidIdentifier(k.targetID)))
  }

  ghost predicate EventRule(before: seq<AuditRecord>, b: AuditBody) {
    match b.event
    case Proposed(p) =>
      && LastWord(before, p.proposalID).None? && ValidIdentifier(p.proposalID) && Hex64(p.configurationSHA256)
      && p.state == PendingApproval && p.author == b.actor && p.approver == "" && p.activationWallUTCNS > 0
      && b.objectSHA256 == p.configurationSHA256
    case Approved(p) =>
      && LastWord(before, p.proposalID).Some?
      && var q := LastWord(before, p.proposalID).value;
         && q.state == PendingApproval && p == q.(approver := b.actor, state := ApprovedProposal)
         && b.actor != q.author && b.secondActor == q.author && b.objectSHA256 == q.configurationSHA256
    case Activated(p) =>
      && LastWord(before, p.proposalID).Some?
      && var q := LastWord(before, p.proposalID).value;
         && q.state == ApprovedProposal && p == q.(state := ActiveProposal)
         && b.secondActor == q.approver && b.objectSHA256 == q.configurationSHA256
    case RolledBackTo(target) =>
      && ActiveIn(before) != "" && Hex64(target) && b.objectSHA256 == target
      && b.secondActor != "" && b.secondActor != b.actor
    case KillEngaged(k) =>
      && CommandRule(k.command) && k.command.commandSequence > LastKill(before)
      && k.command.configurationSHA256 == ActiveIn(before) && b.objectSHA256 == ActiveIn(before)
      && !Issued(before, k.command.commandID)
  }

  // The record at i is well formed, numbered, linked, hashed, asked for by new requests, and follows from what the log
  // says before it.
  ghost predicate RecordRule(digest: Digest, log: seq<AuditRecord>, i: nat)
    requires i < |log|
  {
    var b, before := log[i].body, log[..i];
    && b.sequence == (i + 1) % UINT64_LIMIT && b.previousSHA256 == (if i == 0 then "" else log[i - 1].recordSHA256)
    && log[i].recordSHA256 == digest(b) && b.occurredWallUTCNS > 0
    && ValidIdentifier(b.actor) && (b.secondActor == "" || ValidIdentifier(b.secondActor)) && 1 <= |b.reason| <= 512
    && 1 <= |b.requestIDs| <= 2 && (|b.requestIDs| == 2 ==> b.requestIDs[0] != b.requestIDs[1])
    && (forall k | 0 <= k < |b.requestIDs| :: ValidIdentifier(b.requestIDs[k]) && Unused(before, b.requestIDs[k]))
    && EventRule(before, b)
  }

  lemma CommandExactly(k: KillCommand)
    ensures ValidKillCommand(k) <==> CommandRule(k)
  {
    hide ValidIdentifier, Hex64;
  }

  lemma AppliesExactly(s: State, log: seq<AuditRecord>, b: AuditBody)
    requires LooksUp(s, log)
    ensures Applies(s, b) <==> EventRule(log, b)
  {
    hide ValidIdentifier, Hex64, LastWord, LastKill, ActiveIn, Issued, Unused, ValidKillCommand, CommandRule;
    match b.event
    case Proposed(p) =>
      assert LastWord(log, p.proposalID) == if p.proposalID in s.proposals then
        Some(s.proposals[p.proposalID]) else None;
    case Approved(p) => LastWordIsItsOwn(log, p.proposalID);
    case Activated(p) => LastWordIsItsOwn(log, p.proposalID);
    case RolledBackTo(_) =>
    case KillEngaged(k) => CommandExactly(k.command);
  }

  lemma {:induction false} LastWordIsItsOwn(log: seq<AuditRecord>, id: string)
    ensures LastWord(log, id).Some? ==> LastWord(log, id).value.proposalID == id
  {
    if log != [] { LastWordIsItsOwn(log[..|log| - 1], id); }
  }

  lemma LastExactly(digest: Digest, s: State, front: seq<AuditRecord>, r: AuditRecord)
    requires LooksUp(s, front)
    ensures Accepts(digest, s, r) <==> RecordRule(digest, front + [r], |front|)
  {
    hide ValidIdentifier, LastWord, LastKill, ActiveIn, Issued, Unused, Applies, EventRule;
    AppliesExactly(s, front, r.body);
    var log := front + [r];
    assert log[..|front|] == front && log[|front|] == r;
    assert front != [] ==> log[|front| - 1] == front[|front| - 1];
    LengthExtends(|front| + 1);
  }

  lemma EarlierExactly(digest: Digest, front: seq<AuditRecord>, r: AuditRecord, i: nat)
    requires i < |front|
    ensures RecordRule(digest, front + [r], i) <==> RecordRule(digest, front, i)
  {
    hide ValidIdentifier, Unused, EventRule;
    var log := front + [r];
    assert log[..i] == front[..i] && log[i] == front[i];
  }

  /** A log is accepted if and only if every record is well formed, numbered, linked, hashed and asked for by new
      requests, and follows from what the log says before it. */
  lemma {:induction false} AcceptedExactly(digest: Digest, log: seq<AuditRecord>)
    ensures Folded(digest, log).Some? <==> forall i | 0 <= i < |log| :: RecordRule(digest, log, i)
  {
    hide Accepts, After, RecordRule, LooksUp;
    if log != [] {
      var front, r := log[..|log| - 1], log[|log| - 1];
      AcceptedExactly(digest, front);
      assert log == front + [r];
      forall i | 0 <= i < |front| ensures RecordRule(digest, log, i) <==> RecordRule(digest, front, i) {
        EarlierExactly(digest, front, r, i);
      }
      if Folded(digest, front).Some? {
        StateIsLookup(digest, front);
        LastExactly(digest, Folded(digest, front).value, front, r);
      }
    }
  }
}
