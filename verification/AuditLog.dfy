/** The configuration authority's audit log and the replay that folds it into the authority's state. */
module AuditLog {
  import opened Results
  import opened Text
  import opened DeploymentTypes
  import opened Configuration
  import HashChain

  // Which key made a signature; a signature that does not verify was made by no trusted key.
  type Key = nat

  type TrustStore = map<string, Key>

  predicate Trusted(trust: TrustStore, keyID: string, signer: Key) { keyID in trust && trust[keyID] == signer }

  datatype KillCommand = KillCommand(
    schemaVersion: uint32, commandID: string, configurationSHA256: string, scope: string, targetID: string,
    commandSequence: uint64, authorityEpoch: uint64, effectiveWallUTCNS: int, reasonCode: string, engaged: bool)

  datatype SignedKill = SignedKill(command: KillCommand, keyID: string, signer: Key)

  // validateKillCommand
  predicate ValidKillCommand(k: KillCommand) {
    && k.schemaVersion == 1 && ValidIdentifier(k.commandID) && Hex64(k.configurationSHA256)
    && ValidKillTarget(k.scope, k.targetID) && k.commandSequence != 0 && k.authorityEpoch != 0
    && k.effectiveWallUTCNS > 0 && ValidIdentifier(k.reasonCode) && k.engaged
  }

  // VerifySignedKillCommand
  predicate VerifiedKill(trust: TrustStore, s: SignedKill) {
    ValidKillCommand(s.command) && Trusted(trust, s.keyID, s.signer)
  }

  datatype ProposalState = PendingApproval | ApprovedProposal | ActiveProposal | Superseded

  datatype Proposal = Proposal(
    proposalID: string, configurationSHA256: string, author: string, approver: string, activationWallUTCNS: int,
    state: ProposalState)

  datatype AuditEvent =
    | Proposed(proposal: Proposal)
    | Approved(proposal: Proposal)
    | Activated(proposal: Proposal)
    | RolledBackTo(targetSHA256: string)
    | KillEngaged(kill: SignedKill)

  datatype AuditBody = AuditBody(
    sequence: uint64, previousSHA256: string, event: AuditEvent, actor: string, secondActor: string,
    requestIDs: seq<string>, occurredWallUTCNS: int, objectSHA256: string, reason: string)

  datatype AuditRecord = AuditRecord(body: AuditBody, recordSHA256: string, keyID: string, signer: Key)

  // The redacted public view of a record: everything but the event's detail.
  datatype AuditEntry = AuditEntry(
    sequence: uint64, eventType: string, actor: string, secondActor: string, requestIDs: seq<string>,
    occurredWallUTCNS: int, objectSHA256: string, reason: string, recordSHA256: string)

  function EventType(event: AuditEvent): string {
    match event
    case Proposed(_) => "CONFIGURATION_PROPOSED"
    case Approved(_) => "CONFIGURATION_APPROVED"
    case Activated(_) => "CONFIGURATION_ACTIVATED"
    case RolledBackTo(_) => "CONFIGURATION_ROLLED_BACK"
    case KillEngaged(_) => "EMERGENCY_KILL_ENGAGED"
  }

  function PublicEntry(b: AuditBody, digest: string): AuditEntry {
    AuditEntry(b.sequence, EventType(b.event), b.actor, b.secondActor, b.requestIDs, b.occurredWallUTCNS,
               b.objectSHA256, b.reason, digest)
  }

  // ----- State ------------------------------------------------------------------------------------------

  datatype State = State(
    auditSequence: uint64, auditHash: string, activeHash: string, proposals: map<string, Proposal>,
    requestIDs: set<string>, commandIDs: set<string>, killSequence: uint64, audit: seq<AuditEntry>)

  const EMPTY_STATE := State(0, "", "", map[], {}, {}, 0, [])

  type Digest = AuditBody -> string

  // ----- Replaying one record ----------------------------------------------------------------------------

  // verifyAuditRecord, except whose signature is trusted.
  predicate Continues(digest: Digest, s: State, r: AuditRecord) {
    var b := r.body;
    && b.sequence == (s.auditSequence + 1) % UINT64_LIMIT && b.previousSHA256 == s.auditHash
    && b.occurredWallUTCNS > 0 && ValidIdentifier(b.actor) && 0 < |b.reason| <= 512
    && 0 < |b.requestIDs| <= 2 && (forall i | 0 <= i < |b.requestIDs| :: ValidIdentifier(b.requestIDs[i]))
    && (b.secondActor == "" || ValidIdentifier(b.secondActor))
    && r.recordSHA256 == digest(b)
  }

  // No request identifier of the record was used before, or twice in the record.
  predicate FreshRequests(used: set<string>, ids: seq<string>) {
    && (forall i | 0 <= i < |ids| :: ids[i] !in used)
    && (forall i, j | 0 <= i < j < |ids| :: ids[i] != ids[j])
  }

  // applyAuditRecord's conditions.
  predicate Applies(s: State, b: AuditBody) {
    match b.event
    case Proposed(p) =>
      && ValidIdentifier(p.proposalID) && Hex64(p.configurationSHA256) && p.state.PendingApproval?
      && p.author == b.actor && p.approver == "" && p.activationWallUTCNS > 0
      && b.objectSHA256 == p.configurationSHA256 && p.proposalID !in s.proposals
    case Approved(p) =>
      && p.proposalID in s.proposals
      && var previous := s.proposals[p.proposalID];
         && previous.state.PendingApproval? && p.state.ApprovedProposal?
         && p.configurationSHA256 == previous.configurationSHA256 && p.author == previous.author
         && p.activationWallUTCNS == previous.activationWallUTCNS && p.approver == b.actor && p.approver != p.author
         && b.secondActor == p.author && b.objectSHA256 == p.configurationSHA256
    case Activated(p) =>
      && p.proposalID in s.proposals
      && var previous := s.proposals[p.proposalID];
         && previous.state.ApprovedProposal? && p.state.ActiveProposal?
         && p.configurationSHA256 == previous.configurationSHA256 && p.author == previous.author
         && p.approver == previous.approver && p.activationWallUTCNS == previous.activationWallUTCNS
         && b.secondActor == p.approver && b.objectSHA256 == p.configurationSHA256
    case RolledBackTo(target) =>
      && Hex64(target) && target == b.objectSHA256 && s.activeHash != ""
      && b.secondActor != "" && b.secondActor != b.actor
    case KillEngaged(k) =>
      && ValidKillCommand(k.command)
      && k.command.commandSequence > s.killSequence && k.command.configurationSHA256 == s.activeHash
      && b.objectSHA256 == s.activeHash && k.command.commandID !in s.commandIDs
  }

  // What an applied event changes.
  function Applied(s: State, b: AuditBody): State {
    match b.event
    case Proposed(p) => s.(proposals := s.proposals[p.proposalID := p])
    case Approved(p) => s.(proposals := s.proposals[p.proposalID := p])
    case Activated(p) => s.(proposals := s.proposals[p.proposalID := p], activeHash := p.configurationSHA256)
    case RolledBackTo(target) => s.(activeHash := target)
    case KillEngaged(k) =>
      s.(commandIDs := s.commandIDs + {k.command.commandID}, killSequence := k.command.commandSequence)
  }

  function Noted(s: State, r: AuditRecord): State {
    s.(auditSequence := r.body.sequence, auditHash := r.recordSHA256,
       requestIDs := s.requestIDs + Keys(Itself, r.body.requestIDs),
       audit := s.audit + [PublicEntry(r.body, r.recordSHA256)])
  }

  predicate Accepts(digest: Digest, s: State, r: AuditRecord) {
    Continues(digest, s, r) && FreshRequests(s.requestIDs, r.body.requestIDs) && Applies(s, r.body)
  }

  function After(s: State, r: AuditRecord): State { Noted(Applied(s, r.body), r) }

  // ----- Replaying the log ----------------------------------------------------------------------------------

  // Whose records an instance believes: its trust store, and its authority epoch for kill commands.
  datatype Instance = Instance(
    trust: TrustStore, keyID: string, signer: Key, epoch: uint64, bootstrapRoles: map<string, set<string>>,
    mutable: bool)

  predicate Believes(who: Instance, r: AuditRecord) {
    && Trusted(who.trust, r.keyID, r.signer)
    && (r.body.event.KillEngaged? ==>
          Trusted(who.trust, r.body.event.kill.keyID, r.body.event.kill.signer)
            && r.body.event.kill.command.authorityEpoch == who.epoch)
  }

  // loadAudit
  function Replay(digest: Digest, who: Instance, log: seq<AuditRecord>): Option<State> {
    if log == [] then Some(EMPTY_STATE)
    else
      var r := log[|log| - 1];
      match Replay(digest, who, log[..|log| - 1])
      case None => None
      case Some(s) => if Believes(who, r) && Accepts(digest, s, r) then Some(After(s, r)) else None
  }

  // The same fold for nobody in particular: what the log says, whoever signed it.
  function Folded(digest: Digest, log: seq<AuditRecord>): Option<State> {
    if log == [] then Some(EMPTY_STATE)
    else
      var r := log[|log| - 1];
      match Folded(digest, log[..|log| - 1])
      case None => None
      case Some(s) => if Accepts(digest, s, r) then Some(After(s, r)) else None
  }

  predicate BelievesAll(who: Instance, log: seq<AuditRecord>) { forall i | 0 <= i < |log| :: Believes(who, log[i]) }

  /** Whom an instance trusts decides only whether it accepts a log, never what the log means to it. */
  lemma {:induction false} ReplayIsFolded(digest: Digest, who: Instance, log: seq<AuditRecord>)
    ensures Replay(digest, who, log) == if BelievesAll(who, log) then Folded(digest, log) else None
  {
    hide Accepts, Believes, After;
    if log != [] {
      var front := log[..|log| - 1];
      ReplayIsFolded(digest, who, front);
      assert BelievesAll(who, log) <==> BelievesAll(who, front) && Believes(who, log[|log| - 1]) by {
        assert log == front + [log[|log| - 1]];
        forall i | 0 <= i < |front| ensures front[i] == log[i] {}
      }
    }
  }

  lemma FoldedExtends(digest: Digest, log: seq<AuditRecord>, r: AuditRecord)
    requires Folded(digest, log).Some? && Accepts(digest, Folded(digest, log).value, r)
    ensures Folded(digest, log + [r]) == Some(After(Folded(digest, log).value, r))
  {
    hide Accepts, After;
    assert (log + [r])[..|log|] == log;
  }

  lemma {:induction false} FoldedPrefix(digest: Digest, log: seq<AuditRecord>, n: nat)
    requires Folded(digest, log).Some? && n <= |log|
    ensures Folded(digest, log[..n]).Some?
  {
    hide Accepts, After;
    if n < |log| {
      var front := log[..|log| - 1];
      FoldedPrefix(digest, front, n);
      assert front[..n] == log[..n];
    } else {
      assert log[..n] == log;
    }
  }

  lemma FoldedStep(digest: Digest, log: seq<AuditRecord>, i: nat)
    requires Folded(digest, log).Some? && i < |log|
    ensures Folded(digest, log[..i]).Some? && Folded(digest, log[..i + 1]).Some?
    ensures Accepts(digest, Folded(digest, log[..i]).value, log[i])
    ensures Folded(digest, log[..i + 1]).value == After(Folded(digest, log[..i]).value, log[i])
  {
    hide Accepts, After;
    FoldedPrefix(digest, log, i);
    FoldedPrefix(digest, log, i + 1);
    assert log[..i + 1][..i] == log[..i];
  }

  // ----- What every accepted log guarantees -------------------------------------------------------------------

  ghost predicate WellKeptProposal(id: string, p: Proposal) {
    && p.proposalID == id && ValidIdentifier(id) && Hex64(p.configurationSHA256) && ValidIdentifier(p.author)
    && p.activationWallUTCNS > 0
    && (if p.state.PendingApproval? then p.approver == "" else ValidIdentifier(p.approver) && p.approver != p.author)
  }

  ghost predicate WellKeptState(s: State) {
    && (forall id | id in s.proposals :: WellKeptProposal(id, s.proposals[id]))
    && (s.activeHash == "" || Hex64(s.activeHash))
  }

  lemma RecordKeepsState(digest: Digest, s: State, r: AuditRecord)
    requires WellKeptState(s) && Accepts(digest, s, r)
    ensures WellKeptState(After(s, r))
  {
    hide ValidIdentifier, Hex64, FreshRequests, Keys;
    var next := After(s, r);
    forall id | id in next.proposals ensures WellKeptProposal(id, next.proposals[id]) {
      if id in s.proposals { assert WellKeptProposal(id, s.proposals[id]); }
    }
    match r.body.event
    case Activated(p) => assert WellKeptProposal(p.proposalID, s.proposals[p.proposalID]);
    case _ =>
  }

  lemma {:induction false} FoldedIsWellKept(digest: Digest, log: seq<AuditRecord>)
    requires Folded(digest, log).Some?
    ensures WellKeptState(Folded(digest, log).value)
  {
    hide Accepts, After;
    if log != [] {
      var front := log[..|log| - 1];
      FoldedIsWellKept(digest, front);
      RecordKeepsState(digest, Folded(digest, front).value, log[|log| - 1]);
    }
  }

  // Two different principals stand behind the record.
  ghost predicate TwoPrincipals(b: AuditBody) {
    match b.event
    case Activated(p) =>
      p.author != p.approver && ValidIdentifier(p.author) && ValidIdentifier(p.approver) && b.secondActor == p.approver
    case RolledBackTo(_) => b.actor != b.secondActor && ValidIdentifier(b.actor) && ValidIdentifier(b.secondActor)
    case _ => false
  }

  /** Every change of the active configuration carries two distinct principals: the author and the approver
      of the activated proposal, or the two who rolled back. */
  lemma ActiveChangesNeedTwo(digest: Digest, log: seq<AuditRecord>, i: nat)
    requires Folded(digest, log).Some? && i < |log|
    ensures Folded(digest, log[..i]).Some? && Folded(digest, log[..i + 1]).Some?
    ensures Folded(digest, log[..i]).value.activeHash != Folded(digest, log[..i + 1]).value.activeHash ==>
      TwoPrincipals(log[i].body)
  {
    hide ValidIdentifier, Hex64, FreshRequests, Keys, Folded;
    FoldedStep(digest, log, i);
    FoldedIsWellKept(digest, log[..i]);
    var s, r := Folded(digest, log[..i]).value, log[i];
    match r.body.event
    case Activated(p) => assert WellKeptProposal(p.proposalID, s.proposals[p.proposalID]);
    case _ =>
  }

  function RequestsOf(log: seq<AuditRecord>): set<string> {
    if log == [] then {} else RequestsOf(log[..|log| - 1]) + Keys(Itself, log[|log| - 1].body.requestIDs)
  }

  lemma {:induction false} RequestsAreNoted(digest: Digest, log: seq<AuditRecord>)
    requires Folded(digest, log).Some?
    ensures Folded(digest, log).value.requestIDs == RequestsOf(log)
  {
    hide Accepts, Keys;
    if log != [] { RequestsAreNoted(digest, log[..|log| - 1]); }
  }

  lemma {:induction false} EarlierRequestsAreKnown(log: seq<AuditRecord>, i: nat, j: nat, id: string)
    requires i < j <= |log| && id in log[i].body.requestIDs
    ensures id in RequestsOf(log[..j])
    decreases j
  {
    var shorter := log[..j];
    assert shorter[..j - 1] == log[..j - 1] && shorter[j - 1] == log[j - 1];
    if i < j - 1 {
      EarlierRequestsAreKnown(log, i, j - 1, id);
    } else {
      var k :| 0 <= k < |log[i].body.requestIDs| && log[i].body.requestIDs[k] == id;
      assert Itself(log[i].body.requestIDs[k]) in Keys(Itself, log[i].body.requestIDs);
    }
  }

  /** No request identifier appears twice in an accepted log: not in two records, and not in one. */
  lemma RequestsAreUnique(digest: Digest, log: seq<AuditRecord>, i: nat, x: nat, j: nat, y: nat)
    requires Folded(digest, log).Some? && i < |log| && j < |log|
    requires x < |log[i].body.requestIDs| && y < |log[j].body.requestIDs|
    requires log[i].body.requestIDs[x] == log[j].body.requestIDs[y]
    ensures i == j && x == y
  {
    hide Folded, Continues, Applies, After, RequestsOf;
    if i > j {
      RequestsAreUnique(digest, log, j, y, i, x);
    } else {
      FoldedStep(digest, log, j);
      RequestsAreNoted(digest, log[..j]);
      if i < j { EarlierRequestsAreKnown(log, i, j, log[i].body.requestIDs[x]); }
    }
  }

  // ----- The head fixes the log ---------------------------------------------------------------------------------

  ghost predicate HexDigest(digest: Digest) { forall b :: Hex64(digest(b)) }

  // The digest separates the records of these two logs.
  ghost predicate CollisionFree(digest: Digest, a: seq<AuditRecord>, b: seq<AuditRecord>) {
    forall i, j | 0 <= i < |a| && 0 <= j < |b| && digest(a[i].body) == digest(b[j].body) :: a[i].body == b[j].body
  }

  function HashOf(r: AuditRecord): string { r.recordSHA256 }

  function LinkOf(r: AuditRecord): string { r.body.previousSHA256 }

  lemma {:induction false} AuditHashIsHead(digest: Digest, log: seq<AuditRecord>)
    requires Folded(digest, log).Some?
    ensures Folded(digest, log).value.auditHash == HashChain.Head(HashOf, log)
  {
    hide Accepts, Applied, Keys;
  }

  lemma AuditIsLinked(digest: Digest, log: seq<AuditRecord>)
    requires HexDigest(digest) && Folded(digest, log).Some?
    ensures HashChain.Linked(HashOf, LinkOf, log)
  {
    hide Folded, FreshRequests, Applies, After, ValidIdentifier;
    forall i | 0 <= i < |log| ensures HashChain.LinkedAt(HashOf, LinkOf, log, i) {
      FoldedStep(digest, log, i);
      AuditHashIsHead(digest, log[..i]);
      assert Hex64(digest(log[i].body));
    }
  }

  // The same record, whoever signed it.
  predicate SameContent(x: AuditRecord, y: AuditRecord) { x.body == y.body && x.recordSHA256 == y.recordSHA256 }

  /** Two accepted logs with the same head hash hold the same records, signatures aside, unless two of their
      records collide. */
  lemma SameHeadSameAudit(digest: Digest, a: seq<AuditRecord>, b: seq<AuditRecord>)
    requires HexDigest(digest) && Folded(digest, a).Some? && Folded(digest, b).Some? && CollisionFree(digest, a, b)
    requires Folded(digest, a).value.auditHash == Folded(digest, b).value.auditHash
    ensures |a| == |b| && forall i | 0 <= i < |a| :: SameContent(a[i], b[i])
  {
    hide Folded, FreshRequests, Applies, After, ValidIdentifier;
    AuditIsLinked(digest, a);
    AuditIsLinked(digest, b);
    AuditHashIsHead(digest, a);
    AuditHashIsHead(digest, b);
    forall i, j | 0 <= i < |a| && 0 <= j < |b| && HashOf(a[i]) == HashOf(b[j]) ensures SameContent(a[i], b[j]) {
      FoldedStep(digest, a, i);
      FoldedStep(digest, b, j);
    }
    HashChain.SameHeadSameLog(HashOf, LinkOf, SameContent, a, b);
  }
}
