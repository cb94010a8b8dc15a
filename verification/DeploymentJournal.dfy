/** The deployment audit file: checksummed, numbered and chained records, and the sink that appends them. */
module DeploymentJournal {
  import opened Results
  import opened Text
  import opened DeploymentTypes
  import opened Coordinator
  import HashChain

  datatype Body = Body(sequence: uint64, previousSHA256: string, record: Record)

  datatype Envelope = Envelope(body: Body, recordSHA256: string)

  type Digest = Body -> string

  ghost predicate HexDigest(digest: Digest) { forall b :: Hex64(digest(b)) }

  // The digest separates the lines of these two files.
  ghost predicate CollisionFree(digest: Digest, a: seq<Envelope>, b: seq<Envelope>) {
    forall i, j | 0 <= i < |a| && 0 <= j < |b| && digest(a[i].body) == digest(b[j].body) :: a[i].body == b[j].body
  }

  function HashOf(e: Envelope): string { e.recordSHA256 }

  function LinkOf(e: Envelope): string { e.body.previousSHA256 }

  function LastHash(file: seq<Envelope>): string { HashChain.Head(HashOf, file) }

  function LastSequence(file: seq<Envelope>): uint64 { if file == [] then 0 else file[|file| - 1].body.sequence }

  // The checks on one line, given the sequence and hash of the line before it. Sequences wrap at 2^64.
  predicate Continues(digest: Digest, sequence: uint64, previous: string, e: Envelope) {
    && e.body.sequence == (sequence + 1) % UINT64_LIMIT
    && e.body.previousSHA256 == previous && Hex64(e.recordSHA256)
    && ValidRecord(e.body.record)
    && e.recordSHA256 == digest(e.body)
  }

  // The files InspectDeploymentAudit accepts.
  predicate WellChained(digest: Digest, file: seq<Envelope>) {
    forall i | 0 <= i < |file| :: Continues(digest, LastSequence(file[..i]), LastHash(file[..i]), file[i])
  }

  method Inspect(digest: Digest, file: seq<Envelope>) returns (accepted: bool)
    ensures accepted <==> WellChained(digest, file)
  {
    hide Continues;
    var previous, sequence: uint64 := "", 0;
    for i := 0 to |file|
      invariant sequence == LastSequence(file[..i]) && previous == LastHash(file[..i])
      invariant forall j | 0 <= j < i :: Continues(digest, LastSequence(file[..j]), LastHash(file[..j]), file[j])
    {
      if !Continues(digest, sequence, previous, file[i]) { return false; }
      sequence, previous := file[i].body.sequence, file[i].recordSHA256;
      assert file[..i + 1] == file[..i] + [file[i]];
    }
    accepted := true;
  }

  // ----- The sink ----------------------------------------------------------------------------------

  datatype Sink = Sink(file: seq<Envelope>, sequence: uint64, lastHash: string)

  function Records(file: seq<Envelope>): seq<Record> { seq(|file|, i requires 0 <= i < |file| => file[i].body.record) }

  // What a sink that opened this file holds.
  function Opened(file: seq<Envelope>): Sink { Sink(file, LastSequence(file), LastHash(file)) }

  // The line Append tries to write, if it gets that far: the record is valid and a sequence is left.
  predicate Admissible(sink: Sink, record: Record) { ValidRecord(record) && sink.sequence < UINT64_LIMIT - 1 }

  function Line(digest: Digest, sink: Sink, record: Record): Envelope
    requires sink.sequence < UINT64_LIMIT - 1
  {
    var body := Body(sink.sequence + 1, sink.lastHash, record);
    Envelope(body, digest(body))
  }

  // The file gets the line whenever the write is durable; the sink moves on only if it is acknowledged.
  function AfterAppend(digest: Digest, sink: Sink, record: Record, fate: Fate): Sink {
    if !Admissible(sink, record) || fate.NotWritten? then sink
    else
      var line := Line(digest, sink, record);
      if fate.Stray? then sink.(file := sink.file + [line])
      else Sink(sink.file + [line], line.body.sequence, line.recordSHA256)
  }

  ghost predicate Kept(digest: Digest, sink: Sink) { WellChained(digest, sink.file) && sink == Opened(sink.file) }

  /** A durable line keeps the file well chained and adds exactly its record; acknowledged, it also keeps the
      sink equal to what reopening the file would give. */
  lemma AppendKeeps(digest: Digest, sink: Sink, record: Record, fate: Fate)
    requires HexDigest(digest) && Kept(digest, sink)
    ensures WellChained(digest, AfterAppend(digest, sink, record, fate).file)
    ensures Kept(digest, AfterAppend(digest, sink, record, fate)) <==> !(Admissible(sink, record) && fate.Stray?)
    ensures Records(AfterAppend(digest, sink, record, fate).file)
         == Records(sink.file) + if Admissible(sink, record) && !fate.NotWritten? then [record] else []
  {
    hide ValidRecord, Continues, Hex64, LastSequence, WellChained, Records;
    if Admissible(sink, record) {
      NextContinues(digest, sink, record);
      ChainExtends(digest, sink.file, Line(digest, sink, record));
    }
  }

  lemma NextContinues(digest: Digest, sink: Sink, record: Record)
    requires HexDigest(digest) && Admissible(sink, record)
    ensures Continues(digest, sink.sequence, sink.lastHash, Line(digest, sink, record))
  {
    hide ValidRecord, Hex64;
  }

  lemma ChainExtends(digest: Digest, file: seq<Envelope>, e: Envelope)
    requires WellChained(digest, file)
    ensures WellChained(digest, file + [e]) <==> Continues(digest, LastSequence(file), LastHash(file), e)
    ensures LastHash(file + [e]) == e.recordSHA256
    ensures LastSequence(file + [e]) == e.body.sequence && Records(file + [e]) == Records(file) + [e.body.record]
  {
    hide Continues;
    var longer := file + [e];
    assert longer[..|file|] == file && longer[|file|] == e;
    if Continues(digest, LastSequence(file), LastHash(file), e) {
      forall i | 0 <= i < |longer|
        ensures Continues(digest, LastSequence(longer[..i]), LastHash(longer[..i]), longer[i]) {
        if i < |file| { assert longer[..i] == file[..i]; }
      }
    }
  }

  lemma BrokenStaysBroken(digest: Digest, file: seq<Envelope>, e: Envelope)
    requires !WellChained(digest, file)
    ensures !WellChained(digest, file + [e])
  {
    hide Continues;
    var i :| 0 <= i < |file| && !Continues(digest, LastSequence(file[..i]), LastHash(file[..i]), file[i]);
    assert (file + [e])[..i] == file[..i] && (file + [e])[i] == file[i];
  }

  // ----- Any attempts ------------------------------------------------------------------------------

  // One append attempt.
  datatype Attempt = Attempt(record: Record, fate: Fate)

  function Run(digest: Digest, sink: Sink, attempts: seq<Attempt>): Sink {
    if attempts == [] then sink
    else
      var last := attempts[|attempts| - 1];
      AfterAppend(digest, Run(digest, sink, attempts[..|attempts| - 1]), last.record, last.fate)
  }

  // The records of the attempts with this fate that got as far as writing, in order.
  function Fated(digest: Digest, sink: Sink, attempts: seq<Attempt>, fate: Fate): seq<Record> {
    if attempts == [] then []
    else
      var front, last := attempts[..|attempts| - 1], attempts[|attempts| - 1];
      Fated(digest, sink, front, fate)
      + if last.fate == fate && Admissible(Run(digest, sink, front), last.record) then [last.record] else []
  }

  // Nothing is written after a stray line.
  predicate StrayIsLast(digest: Digest, sink: Sink, attempts: seq<Attempt>) {
    attempts == []
    || (var front, last := attempts[..|attempts| - 1], attempts[|attempts| - 1];
        && StrayIsLast(digest, sink, front)
        && (Fated(digest, sink, front, Stray) == [] || last.fate.NotWritten?
            || !Admissible(Run(digest, sink, front), last.record)))
  }

  // A sink that wrote one stray line after everything it knows.
  ghost predicate OneAhead(digest: Digest, sink: Sink) {
    && sink.file != [] && WellChained(digest, sink.file)
    && var known := sink.file[..|sink.file| - 1];
       WellChained(digest, known) && sink.sequence == LastSequence(known) && sink.lastHash == LastHash(known)
       && sink.sequence < UINT64_LIMIT - 1
  }

  lemma StrayIsAhead(digest: Digest, sink: Sink, record: Record)
    requires HexDigest(digest) && Kept(digest, sink) && Admissible(sink, record)
    ensures OneAhead(digest, AfterAppend(digest, sink, record, Stray))
  {
    hide ValidRecord, Continues, Hex64, LastSequence, WellChained, Records;
    AppendKeeps(digest, sink, record, Stray);
    var file := AfterAppend(digest, sink, record, Stray).file;
    assert file[..|file| - 1] == sink.file;
  }

  // The next line repeats the sequence of the stray one.
  lemma NextBreaks(digest: Digest, sink: Sink, record: Record, fate: Fate)
    requires OneAhead(digest, sink) && Admissible(sink, record) && !fate.NotWritten?
    ensures !WellChained(digest, AfterAppend(digest, sink, record, fate).file)
  {
    hide ValidRecord, Hex64, WellChained, Records;
    var known, stray := sink.file[..|sink.file| - 1], sink.file[|sink.file| - 1];
    assert known + [stray] == sink.file;
    ChainExtends(digest, known, stray);
    ChainExtends(digest, sink.file, Line(digest, sink, record));
  }

  lemma RecordsGrow(digest: Digest, sink: Sink, record: Record, fate: Fate)
    ensures Records(AfterAppend(digest, sink, record, fate).file)
         == Records(sink.file) + if Admissible(sink, record) && !fate.NotWritten? then [record] else []
  {
    hide ValidRecord;
  }

  /** Round trip: after any attempts on an opened file, the file is still accepted if and only if nothing was
      written after a stray line. Then reading it back gives exactly the acknowledged records in order,
      followed by the record of the stray line if there is one. */
  lemma {:induction false} ReadAllIsAcknowledged(digest: Digest, sink: Sink, attempts: seq<Attempt>)
    requires HexDigest(digest) && Kept(digest, sink)
    ensures WellChained(digest, Run(digest, sink, attempts).file) <==> StrayIsLast(digest, sink, attempts)
    ensures StrayIsLast(digest, sink, attempts) ==>
      && Records(Run(digest, sink, attempts).file)
         == Records(sink.file) + Fated(digest, sink, attempts, Written) + Fated(digest, sink, attempts, Stray)
      && |Fated(digest, sink, attempts, Stray)| <= 1
      && (if Fated(digest, sink, attempts, Stray) == [] then Kept(digest, Run(digest, sink, attempts))
          else OneAhead(digest, Run(digest, sink, attempts)))
  {
    hide Kept, OneAhead, WellChained, Admissible, Records;
    if attempts == [] {
      assert WellChained(digest, sink.file) by { KeptIsChained(digest, sink); }
    } else {
      var front, last := attempts[..|attempts| - 1], attempts[|attempts| - 1];
      ReadAllIsAcknowledged(digest, sink, front);
      NextAttempt(digest, Run(digest, sink, front), last);
    }
  }

  lemma KeptIsChained(digest: Digest, sink: Sink)
    requires Kept(digest, sink) || OneAhead(digest, sink)
    ensures WellChained(digest, sink.file)
  {
    hide WellChained;
  }

  lemma NextAttempt(digest: Digest, sink: Sink, a: Attempt)
    requires HexDigest(digest)
    ensures var next := AfterAppend(digest, sink, a.record, a.fate);
      var writes := Admissible(sink, a.record) && !a.fate.NotWritten?;
      && Records(next.file) == Records(sink.file) + (if writes then [a.record] else [])
      && (!writes ==> next == sink)
      && (writes && !WellChained(digest, sink.file) ==> !WellChained(digest, next.file))
      && (writes && Kept(digest, sink) ==>
            WellChained(digest, next.file) && if a.fate.Stray? then OneAhead(digest, next) else Kept(digest, next))
      && (writes && OneAhead(digest, sink) ==> !WellChained(digest, next.file))
      && (Kept(digest, sink) || OneAhead(digest, sink) ==> WellChained(digest, sink.file))
  {
    hide Kept, OneAhead, WellChained, Admissible, Records;
    RecordsGrow(digest, sink, a.record, a.fate);
    if Kept(digest, sink) || OneAhead(digest, sink) { KeptIsChained(digest, sink); }
    if Admissible(sink, a.record) && !a.fate.NotWritten? {
      if Kept(digest, sink) {
        AppendKeeps(digest, sink, a.record, a.fate);
        if a.fate.Stray? { StrayIsAhead(digest, sink, a.record); }
      }
      if OneAhead(digest, sink) { NextBreaks(digest, sink, a.record, a.fate); }
      if !WellChained(digest, sink.file) {
        WritesLine(digest, sink, a.record, a.fate);
        BrokenStaysBroken(digest, sink.file, Line(digest, sink, a.record));
      }
    }
  }

  lemma WritesLine(digest: Digest, sink: Sink, record: Record, fate: Fate)
    requires Admissible(sink, record) && !fate.NotWritten?
    ensures sink.sequence < UINT64_LIMIT - 1
      && AfterAppend(digest, sink, record, fate).file == sink.file + [Line(digest, sink, record)]
  {
    hide ValidRecord;
  }

  /** Two accepted files with the same last hash are the same file, unless two of their lines collide. */
  lemma SameHeadSameFile(digest: Digest, a: seq<Envelope>, b: seq<Envelope>)
    requires WellChained(digest, a) && WellChained(digest, b) && CollisionFree(digest, a, b)
      && LastHash(a) == LastHash(b)
    ensures a == b
  {
    hide ValidRecord, Hex64;
    var same := (x: Envelope, y: Envelope) => x == y;
    FileIsLinked(digest, a);
    FileIsLinked(digest, b);
    forall i, j | 0 <= i < |a| && 0 <= j < |b| && HashOf(a[i]) == HashOf(b[j]) ensures a[i] == b[j] {
      assert Continues(digest, LastSequence(a[..i]), LastHash(a[..i]), a[i]);
      assert Continues(digest, LastSequence(b[..j]), LastHash(b[..j]), b[j]);
    }
    HashChain.SameHeadSameLog(HashOf, LinkOf, same, a, b);
    forall i | 0 <= i < |a| ensures a[i] == b[i] { assert same(a[i], b[i]); }
  }

  lemma FileIsLinked(digest: Digest, file: seq<Envelope>)
    requires WellChained(digest, file)
    ensures HashChain.Linked(HashOf, LinkOf, file)
  {
    hide ValidRecord;
    forall i | 0 <= i < |file| ensures HashChain.LinkedAt(HashOf, LinkOf, file, i) {
      assert Continues(digest, LastSequence(file[..i]), LastHash(file[..i]), file[i]);
    }
  }

  // ----- The sink as an object ------------------------------------------------------------------------

  class FileDeploymentAuditSink {
    const digest: Digest
    var file: seq<Envelope>
    var sequence: uint64
    var lastHash: string

    function View(): Sink
      reads this
    {
      Sink(file, sequence, lastHash)
    }

    // The state after OpenFileDeploymentAuditSink accepted an existing file.
    constructor (digest: Digest, file: seq<Envelope>)
      requires WellChained(digest, file)
      ensures this.digest == digest && View() == Opened(file) && Kept(digest, View())
    {
      this.digest := digest;
      this.file := file;
      sequence, lastHash := 0, "";
      if file != [] {
        sequence, lastHash := file[|file| - 1].body.sequence, file[|file| - 1].recordSHA256;
      }
    }

    method Append(record: Record, fate: Fate) returns (acknowledged: bool)
      modifies this
      ensures View() == AfterAppend(digest, old(View()), record, fate)
      ensures acknowledged <==> Admissible(old(View()), record) && fate.Written?
    {
      hide ValidRecord;
      if !ValidRecord(record) { return false; }
      if sequence == UINT64_LIMIT - 1 { return false; }
      var body := Body(sequence + 1, lastHash, record);
      var envelope := Envelope(body, digest(body));
      if fate.NotWritten? { return false; }
      file := file + [envelope];
      if fate.Stray? { return false; }
      sequence, lastHash := body.sequence, envelope.recordSHA256;
      acknowledged := true;
    }

    method ReadAll() returns (records: Option<seq<Record>>)
      ensures records == if WellChained(digest, file) then Some(Records(file)) else None
    {
      hide WellChained;
      var accepted := Inspect(digest, file);
      if !accepted { return None; }
      var list := [];
      for i := 0 to |file|
        invariant list == Records(file[..i])
      {
        list := list + [file[i].body.record];
        assert file[..i + 1] == file[..i] + [file[i]];
      }
      assert file[..|file|] == file;
      records := Some(list);
    }
  }

  // OpenFileDeploymentAuditSink: a file that fails inspection is refused.
  method Open(digest: Digest, file: seq<Envelope>) returns (sink: Option<FileDeploymentAuditSink>)
    ensures sink.Some? <==> WellChained(digest, file)
    ensures sink.Some? ==> fresh(sink.value) && sink.value.digest == digest && sink.value.View() == Opened(file)
  {
    hide WellChained;
    var accepted := Inspect(digest, file);
    if !accepted { return None; }
    var reader := new FileDeploymentAuditSink(digest, file);
    sink := Some(reader);
  }
}
