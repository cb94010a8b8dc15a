/** Exactly which deployment audit files are accepted: what each line must hold and how it links to the one before. */
module JournalMeaning {
  import opened Text
  import opened DeploymentTypes
  import opened Coordinator
  import opened DeploymentJournal
  import opened Regression

  // The record by itself.
  ghost predicate RecordRule(r: Record) {
    && ValidIdentifier(r.header.deploymentID) && ValidIdentifier(r.header.modelID)
    && ValidSemantic(r.header.candidateVersion) && ValidSemantic(r.header.productionVersion)
    && Hex64(r.header.configurationSHA256) && r.occurredAtUTCNS > 0
    && match r.entry
       case Observed(o) =>
         && o.sequence > 0 && !o.regime.UnknownRegime?
         && GoodPair(r.header.productionVersion, r.header.candidateVersion, o)
       case Triggered(t) => !t.regime.UnknownRegime?
       case ApprovalRequested(a) => NotBlank(a.approvalReference) && Hex64(a.configurationSHA256)
       case CanaryActivated(a) => NotBlank(a.approvalReference) && Hex64(a.configurationSHA256)
       case _ => true
  }

  lemma RecordExactly(r: Record)
    ensures ValidRecord(r) <==> RecordRule(r)
  {
    hide ValidIdentifier, ValidSemantic, Hex64, ValidSample, GoodSample;
    if r.entry.Observed? && r.entry.observation.sequence > 0 && !r.entry.observation.regime.UnknownRegime? {
      PairIsGood(r.header.productionVersion, r.header.candidateVersion, r.entry.observation);
      hide ValidPair, GoodPair;
    }
  }

  // The line at i is numbered, linked and hashed, and its record follows the rule.
  ghost predicate LineRule(digest: Digest, file: seq<Envelope>, i: nat)
    requires i < |file|
  {
    var e := file[i];
    && e.body.sequence == (i + 1) % UINT64_LIMIT
    && e.body.previousSHA256 == (if i == 0 then "" else file[i - 1].recordSHA256)
    && e.recordSHA256 == digest(e.body) && Hex64(e.recordSHA256) && RecordRule(e.body.record)
  }

  lemma Numbered(digest: Digest, file: seq<Envelope>, i: nat)
    requires i <= |file| && forall j | 0 <= j < i :: file[j].body.sequence == (j + 1) % UINT64_LIMIT
    ensures LastSequence(file[..i]) == i % UINT64_LIMIT
    ensures LastHash(file[..i]) == if i == 0 then "" else file[i - 1].recordSHA256
  {
  }

  lemma Wraps(i: nat)
    ensures (i % UINT64_LIMIT + 1) % UINT64_LIMIT == (i + 1) % UINT64_LIMIT
  {
  }

  ghost predicate ContinuesAt(digest: Digest, file: seq<Envelope>, i: nat)
    requires i < |file|
  {
    Continues(digest, LastSequence(file[..i]), LastHash(file[..i]), file[i])
  }

  lemma NextNumber(digest: Digest, file: seq<Envelope>, i: nat)
    requires i < |file| && ContinuesAt(digest, file, i)
    requires forall j | 0 <= j < i :: file[j].body.sequence == (j + 1) % UINT64_LIMIT
    ensures file[i].body.sequence == (i + 1) % UINT64_LIMIT
  {
    hide ValidRecord, Hex64, LastHash;
    Numbered(digest, file, i);
    Wraps(i);
  }

  lemma {:induction false} SequencesCount(digest: Digest, file: seq<Envelope>, i: nat)
    requires i <= |file| && forall j | 0 <= j < i :: ContinuesAt(digest, file, j)
    ensures forall j | 0 <= j < i :: file[j].body.sequence == (j + 1) % UINT64_LIMIT
  {
    hide ContinuesAt;
    if i > 0 {
      SequencesCount(digest, file, i - 1);
      NextNumber(digest, file, i - 1);
    }
  }

  lemma LineExactly(digest: Digest, file: seq<Envelope>, i: nat)
    requires i < |file| && forall j | 0 <= j < i :: file[j].body.sequence == (j + 1) % UINT64_LIMIT
    ensures ContinuesAt(digest, file, i) <==> LineRule(digest, file, i)
  {
    hide ValidRecord, RecordRule, Hex64;
    Numbered(digest, file, i);
    Wraps(i);
    RecordExactly(file[i].body.record);
  }

  lemma ChainedIsContinued(digest: Digest, file: seq<Envelope>)
    ensures WellChained(digest, file) <==> forall i | 0 <= i < |file| :: ContinuesAt(digest, file, i)
  {
    hide Continues, LastSequence, LastHash;
    if forall i | 0 <= i < |file| :: ContinuesAt(digest, file, i) {
      forall i | 0 <= i < |file| ensures Continues(digest, LastSequence(file[..i]), LastHash(file[..i]), file[i]) {
        assert ContinuesAt(digest, file, i);
      }
    }
  }

  /** A deployment audit file is accepted if and only if every line is numbered from one, links to the one before it, is
      hashed, and holds a record each of whose fields is in range. */
  lemma ChainedExactly(digest: Digest, file: seq<Envelope>)
    ensures WellChained(digest, file) <==> forall i | 0 <= i < |file| :: LineRule(digest, file, i)
  {
    hide WellChained, ContinuesAt, LineRule;
    ChainedIsContinued(digest, file);
    if WellChained(digest, file) {
      SequencesCount(digest, file, |file|);
      forall i | 0 <= i < |file| ensures LineRule(digest, file, i) { LineExactly(digest, file, i); }
    }
    if forall i | 0 <= i < |file| :: LineRule(digest, file, i) {
      forall i | 0 <= i < |file| ensures ContinuesAt(digest, file, i) {
        LinesCount(digest, file);
        LineExactly(digest, file, i);
      }
    }
  }

  lemma LinesCount(digest: Digest, file: seq<Envelope>)
    requires forall i | 0 <= i < |file| :: LineRule(digest, file, i)
    ensures forall i | 0 <= i < |file| :: file[i].body.sequence == (i + 1) % UINT64_LIMIT
  {
    hide RecordRule, Hex64;
    forall i | 0 <= i < |file| ensures file[i].body.sequence == (i + 1) % UINT64_LIMIT {
      assert LineRule(digest, file, i);
    }
  }
}
