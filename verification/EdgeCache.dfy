/** The edge cache: a kill log and an installed configuration on disk, a runtime in memory, and what every
    history of installs, kill commands and restarts keeps. */
module EdgeCache {
  import opened Results
  import opened Text
  import opened DeploymentTypes
  import opened Configuration
  import opened AuditLog
  import opened Authority
  import opened EdgeRuntime

  datatype Identity = Identity(trust: TrustStore, epoch: uint64, expectedID: string, environment: string)

  datatype Cached = Cached(signed: SignedConfig, installedWallUTCNS: int)

  // kills.jsonl and active.json
  datatype EdgeDisk = EdgeDisk(kills: seq<SignedKill>, active: Option<Cached>)

  datatype Refusal =
    | BadStartup | BadSignature | WrongIdentity | OutsideValidity | ReplayedRevision | ReplayedKill | UnreadableKills
    | WriteRefused

  // ----- Kills ------------------------------------------------------------------------------------------------

  function KillKey(scope: string, target: string): string { scope + "\0" + target }

  function CommandKey(k: KillCommand): string { KillKey(k.scope, k.targetID) }

  function LastSequence(kills: seq<SignedKill>): uint64 {
    if kills == [] then 0 else kills[|kills| - 1].command.commandSequence
  }

  predicate AcceptsKill(id: Identity, last: uint64, s: SignedKill) {
    VerifiedKill(id.trust, s) && s.command.authorityEpoch == id.epoch && s.command.commandSequence > last
  }

  // loadKills: the latest command per scope and target.
  function LoadKills(id: Identity, kills: seq<SignedKill>): Option<map<string, KillCommand>> {
    if kills == [] then Some(map[])
    else
      var front, last := kills[..|kills| - 1], kills[|kills| - 1];
      match LoadKills(id, front)
      case None => None
      case Some(m) =>
        if AcceptsKill(id, LastSequence(front), last) then Some(m[CommandKey(last.command) := last.command]) else None
  }

  function Commands(kills: seq<SignedKill>): seq<KillCommand> {
    seq(|kills|, i requires 0 <= i < |kills| => kills[i].command)
  }

  // maximumKillSequence, by what it computes: the greatest sequence in the map, or 0.
  ghost predicate IsMaximum(m: map<string, KillCommand>, maximum: uint64) {
    && (forall key | key in m :: m[key].commandSequence <= maximum)
    && (maximum == 0 || exists key :: key in m && m[key].commandSequence == maximum)
  }

  /** The greatest sequence in the latest-per-target map is always the last sequence in the log. */
  lemma {:induction false} MaximumIsLast(id: Identity, kills: seq<SignedKill>)
    requires LoadKills(id, kills).Some?
    ensures IsMaximum(LoadKills(id, kills).value, LastSequence(kills))
  {
    hide VerifiedKill;
    if kills != [] {
      var front, last := kills[..|kills| - 1], kills[|kills| - 1];
      MaximumIsLast(id, front);
      var m := LoadKills(id, kills).value;
      assert CommandKey(last.command) in m && m[CommandKey(last.command)].commandSequence == LastSequence(kills);
    }
  }

  lemma MaximumIsUnique(m: map<string, KillCommand>, a: uint64, b: uint64)
    requires IsMaximum(m, a) && IsMaximum(m, b)
    ensures a == b
  {
  }

  /** Live acceptance is reload acceptance: for a readable log, a further command is accepted against the
      map's maximum exactly when the log with that command appended is still readable. */
  lemma LiveAcceptsWhatReloads(id: Identity, kills: seq<SignedKill>, s: SignedKill, maximum: uint64)
    requires LoadKills(id, kills).Some? && IsMaximum(LoadKills(id, kills).value, maximum)
    ensures AcceptsKill(id, maximum, s) <==> LoadKills(id, kills + [s]).Some?
    ensures AcceptsKill(id, maximum, s) ==>
      LoadKills(id, kills + [s]).value == LoadKills(id, kills).value[CommandKey(s.command) := s.command]
  {
    hide AcceptsKill;
    MaximumIsLast(id, kills);
    MaximumIsUnique(LoadKills(id, kills).value, maximum, LastSequence(kills));
    assert (kills + [s])[..|kills|] == kills;
  }

  // Every line signed by a trusted key and of the identity's epoch.
  predicate Genuine(id: Identity, kills: seq<SignedKill>) {
    forall i | 0 <= i < |kills| :: VerifiedKill(id.trust, kills[i]) && kills[i].command.authorityEpoch == id.epoch
  }

  // Sequences increase from line to line.
  predicate Increasing(kills: seq<SignedKill>) {
    forall i | 0 <= i < |kills| :: kills[i].command.commandSequence > LastSequence(kills[..i])
  }

  lemma GenuineGrows(id: Identity, kills: seq<SignedKill>, s: SignedKill)
    ensures Genuine(id, kills + [s]) <==>
      Genuine(id, kills) && VerifiedKill(id.trust, s) && s.command.authorityEpoch == id.epoch
  {
    hide VerifiedKill;
    var longer := kills + [s];
    assert longer[|kills|] == s;
    forall i | 0 <= i < |kills| ensures longer[i] == kills[i] {}
  }

  lemma IncreasingGrows(kills: seq<SignedKill>, s: SignedKill)
    ensures Increasing(kills + [s]) <==> Increasing(kills) && s.command.commandSequence > LastSequence(kills)
  {
    var longer := kills + [s];
    assert longer[..|kills|] == kills && longer[|kills|] == s;
    forall i | 0 <= i < |kills| ensures longer[..i] == kills[..i] && longer[i] == kills[i] {}
  }

  /** A kill log loads if and only if its lines are genuine and their sequences increase. */
  lemma {:induction false} LoadsExactly(id: Identity, kills: seq<SignedKill>)
    ensures LoadKills(id, kills).Some? <==> Genuine(id, kills) && Increasing(kills)
  {
    hide VerifiedKill, Genuine, Increasing;
    if kills == [] {
      NothingLoads(id);
    } else {
      var front, last := kills[..|kills| - 1], kills[|kills| - 1];
      assert front + [last] == kills;
      LoadsExactly(id, front);
      GenuineGrows(id, front, last);
      IncreasingGrows(front, last);
    }
  }

  lemma NothingLoads(id: Identity)
    ensures Genuine(id, []) && Increasing([])
  {
  }

  lemma ScopeHasNoNul(scope: string, target: string)
    requires ValidKillTarget(scope, target)
    ensures '\0' !in scope
  {
  }

  lemma SameKeySameMatch(a: KillCommand, b: KillCommand, q: EdgeRequest)
    requires ValidKillCommand(a) && ValidKillCommand(b) && CommandKey(a) == CommandKey(b)
    ensures CommandKills(a, q) <==> CommandKills(b, q)
  {
    hide ValidIdentifier, Hex64, KillMatches, ValidKillTarget;
    ScopeHasNoNul(a.scope, a.targetID);
    ScopeHasNoNul(b.scope, b.targetID);
    JoinIsExact('\0', a.scope, a.targetID, b.scope, b.targetID);
  }

  ghost predicate ValidMap(m: map<string, KillCommand>) {
    forall key | key in m :: ValidKillCommand(m[key]) && CommandKey(m[key]) == key
  }

  lemma NewCommandKills(m: map<string, KillCommand>, k: KillCommand, q: EdgeRequest)
    requires ValidMap(m) && ValidKillCommand(k)
    ensures ValidMap(m[CommandKey(k) := k])
    ensures KilledByMap(m[CommandKey(k) := k], q) <==> KilledByMap(m, q) || CommandKills(k, q)
  {
    hide ValidKillCommand, CommandKills;
    var key := CommandKey(k);
    var next := m[key := k];
    if key in m { SameKeySameMatch(m[key], k, q); }
    if CommandKills(k, q) { assert key in next && CommandKills(next[key], q); }
    if KilledByMap(m, q) {
      var other :| other in m && CommandKills(m[other], q);
      assert other in next && CommandKills(next[other], q);
    }
  }

  lemma MoreCommandsKill(kills: seq<SignedKill>, s: SignedKill, q: EdgeRequest)
    ensures KilledByLog(Commands(kills + [s]), q) <==> KilledByLog(Commands(kills), q) || CommandKills(s.command, q)
  {
    hide CommandKills;
    var longer := Commands(kills + [s]);
    assert longer == Commands(kills) + [s.command];
    if CommandKills(s.command, q) { assert CommandKills(longer[|kills|], q); }
    if KilledByLog(Commands(kills), q) {
      var i :| 0 <= i < |kills| && CommandKills(Commands(kills)[i], q);
      assert CommandKills(longer[i], q);
    }
  }

  /** Keeping only the latest command per scope and target forgets nothing: the map kills a request exactly
      when some command ever accepted does. */
  lemma {:induction false} MapKillsAsLog(id: Identity, kills: seq<SignedKill>)
    requires LoadKills(id, kills).Some?
    ensures ValidMap(LoadKills(id, kills).value)
    ensures SameKills(LoadKills(id, kills).value, Commands(kills))
  {
    hide ValidKillCommand, KilledByMap, KilledByLog;
    var m := LoadKills(id, kills).value;
    if kills == [] {
      forall q ensures KilledByMap(m, q) <==> KilledByLog(Commands(kills), q) {
        NothingKills(q);
        assert Commands(kills) == [];
      }
    } else {
      var front, last := kills[..|kills| - 1], kills[|kills| - 1];
      MapKillsAsLog(id, front);
      var before := LoadKills(id, front).value;
      NewCommandKills(before, last.command, EdgeRequest(0, 0, "", "", "", "", "", "", ""));
      forall q ensures KilledByMap(m, q) <==> KilledByLog(Commands(kills), q) {
        NewCommandKills(before, last.command, q);
        MoreCommandsKill(front, last, q);
        assert front + [last] == kills;
      }
    }
  }

  lemma NothingKills(q: EdgeRequest)
    ensures !KilledByMap(map[], q) && !KilledByLog([], q)
  {
  }

  // ----- Opening, installing, killing ------------------------------------------------------------------------------

  datatype Startup = Startup(wallUTCNS: int, monotonicNS: uint64)

  predicate ValidStartup(id: Identity, at: Startup) {
    && id.epoch != 0 && ValidIdentifier(id.expectedID) && ValidIdentifier(id.environment) && at.wallUTCNS > 0
    && id.trust != map[] && forall key | key in id.trust :: ValidIdentifier(key)
  }

  predicate ForIdentity(id: Identity, c: Config) {
    c.configurationID == id.expectedID && c.environment == id.environment
  }

  // OpenEdgeCache: the runtime it publishes, if any.
  function Open(d: Digests, id: Identity, at: Startup, disk: EdgeDisk): Result<Option<Runtime>, Refusal> {
    if !ValidStartup(id, at) then Err(BadStartup)
    else
      match LoadKills(id, disk.kills)
      case None => Err(UnreadableKills)
      case Some(kills) =>
        match disk.active
        case None => Ok(None)
        case Some(cached) =>
          if !VerifiedConfig(d, id.trust, cached.signed) then Err(BadSignature)
          else if !ForIdentity(id, cached.signed.configuration) then Err(WrongIdentity)
          else if cached.installedWallUTCNS <= 0 || cached.installedWallUTCNS > at.wallUTCNS then Err(OutsideValidity)
          else Ok(Some(Build(cached.signed.configuration, cached.installedWallUTCNS, at.monotonicNS, kills)))
  }

  datatype Cache = Cache(disk: EdgeDisk, runtime: Option<Runtime>)

  // What a call leaves, and what it answers.
  datatype Reply = Reply(cache: Cache, refused: Option<Refusal>)

  function Refuse(cache: Cache, refusal: Refusal): Reply { Reply(cache, Some(refusal)) }

  // Replacing active.json and then publishing: a stray file is not published.
  function Publish(cache: Cache, signed: SignedConfig, wallUTCNS: int, built: Runtime, fate: Fate): Reply {
    var replaced := cache.disk.(active := Some(Cached(signed, wallUTCNS)));
    match fate
    case NotWritten => Refuse(cache, WriteRefused)
    case Stray => Refuse(cache.(disk := replaced), WriteRefused)
    case Written => Reply(Cache(replaced, Some(built)), None)
  }

  function Install(d: Digests, id: Identity, cache: Cache, signed: SignedConfig, wallUTCNS: int, monotonicNS: uint64,
                   fate: Fate)
    : Reply
  {
    var c := signed.configuration;
    if !VerifiedConfig(d, id.trust, signed) then Refuse(cache, BadSignature)
    else if !ForIdentity(id, c) then Refuse(cache, WrongIdentity)
    else if wallUTCNS < c.validFromWallUTCNS || wallUTCNS >= c.validUntilWallUTCNS then Refuse(cache, OutsideValidity)
    else
      match cache.runtime
      case Some(current) =>
        var active := current.configuration;
        if c.configurationID != active.configurationID || c.environment != active.environment then
          Refuse(cache, WrongIdentity)
        else if c.revision < active.revision || (c.revision == active.revision && c.sha256 != active.sha256) then
          Refuse(cache, ReplayedRevision)
        else if c.sha256 == active.sha256 then Reply(cache, None)
        else Publish(cache, signed, wallUTCNS, Build(c, wallUTCNS, monotonicNS, current.emergencyKills), fate)
      case None =>
        match LoadKills(id, cache.disk.kills)
        case None => Refuse(cache, UnreadableKills)
        case Some(kills) => Publish(cache, signed, wallUTCNS, Build(c, wallUTCNS, monotonicNS, kills), fate)
  }

  ghost function MaximumSequence(m: map<string, KillCommand>): (maximum: uint64)
    ensures IsMaximum(m, maximum)
    decreases |m|
  {
    if m == map[] then 0
    else
      var key :| key in m;
      var rest := map k | k in m && k != key :: m[k];
      assert m.Keys == rest.Keys + {key};
      var other := MaximumSequence(rest);
      if m[key].commandSequence > other then m[key].commandSequence else other
  }

  // A stray command is in the log but not in the runtime.
  ghost function ApplyKill(id: Identity, cache: Cache, s: SignedKill, fate: Fate): Reply {
    if !VerifiedKill(id.trust, s) then Refuse(cache, BadSignature)
    else
      match cache.runtime
      case None => Refuse(cache, WrongIdentity)
      case Some(current) =>
        if s.command.authorityEpoch != id.epoch || s.command.configurationSHA256 != current.configuration.sha256 then
          Refuse(cache, WrongIdentity)
        else if s.command.commandSequence <= MaximumSequence(current.emergencyKills) then Refuse(cache, ReplayedKill)
        else
          var logged := cache.disk.(kills := cache.disk.kills + [s]);
          var kills := current.emergencyKills[CommandKey(s.command) := s.command];
          match fate
          case NotWritten => Refuse(cache, WriteRefused)
          case Stray => Refuse(cache.(disk := logged), WriteRefused)
          case Written =>
            Reply(Cache(logged,
                        Some(Build(current.configuration, current.installedWallUTCNS, current.receivedMonotonicNS,
                                   kills))), None)
  }

  // ----- What every step keeps -------------------------------------------------------------------------------

  // The commands the process knows: those it read when it opened the log, and those acknowledged since.
  type Known = seq<SignedKill>

  ghost predicate VerifiedFor(d: Digests, id: Identity, cached: Cached) {
    VerifiedConfig(d, id.trust, cached.signed) && ForIdentity(id, cached.signed.configuration)
  }

  // The runtime is built from a final configuration of this identity and from the known commands.
  ghost predicate BuiltFrom(d: Digests, id: Identity, r: Runtime, known: Known) {
    && Canonical.RejectFinal(d.config, r.configuration) == None && ForIdentity(id, r.configuration)
    && LoadKills(id, known).Some?
    && r == Build(r.configuration, r.installedWallUTCNS, r.receivedMonotonicNS, LoadKills(id, known).value)
  }

  // The file holds what is published, or a higher revision that the process was never told it wrote.
  ghost predicate Ahead(active: Option<Cached>, r: Runtime) {
    && active.Some?
    && var c := active.value.signed.configuration;
       || (c == r.configuration && active.value.installedWallUTCNS == r.installedWallUTCNS)
       || c.revision > r.configuration.revision
  }

  ghost predicate Kept(d: Digests, id: Identity, cache: Cache, known: Known) {
    && LoadKills(id, known).Some? && Genuine(id, cache.disk.kills) && (forall s | s in known :: s in cache.disk.kills)
    && (cache.disk.active.Some? ==> VerifiedFor(d, id, cache.disk.active.value))
    && match cache.runtime
       case None => known == cache.disk.kills
       case Some(r) => BuiltFrom(d, id, r, known) && Ahead(cache.disk.active, r)
  }

  lemma FinalIsCanonical(d: Digests, c: Config)
    requires Canonical.RejectFinal(d.config, c) == None
    ensures Canonical.Canonical(c) == c && ValidConfiguration(c.(sha256 := "")) && Hex64(c.sha256)
  {
    hide Canonical.Canonical, ValidConfiguration, Canonical.HasLiveVenue, Hex64;
    Canonical.CanonicalIgnoresDigest(c.(sha256 := ""), c.sha256);
    assert c.(sha256 := "").(sha256 := c.sha256) == c;
  }

  lemma ValidIgnoresDigest(c: Config, sha: string)
    requires ValidConfiguration(c.(sha256 := sha))
    ensures ValidConfiguration(c)
  {
    hide All, UniqueBy, Keys, Covered, RoleMap, Instruments, ValidIdentifier, Hex64;
  }

  lemma BuiltConfiguration(d: Digests, c: Config, wallUTCNS: int, monotonicNS: uint64, kills: map<string, KillCommand>)
    requires Canonical.RejectFinal(d.config, c) == None
    ensures var r := Build(c, wallUTCNS, monotonicNS, kills);
      && r.configuration == c && r.installedWallUTCNS == wallUTCNS && r.receivedMonotonicNS == monotonicNS
      && r.emergencyKills == kills
  {
    hide Canonical.RejectFinal, Index, ModelIndex, Canonical.Canonical;
    FinalIsCanonical(d, c);
  }

  // What a successful publication leaves.
  lemma PublishKeeps(d: Digests, id: Identity, cache: Cache, known: Known, signed: SignedConfig, wallUTCNS: int,
                     monotonicNS: uint64, fate: Fate)
    requires Kept(d, id, cache, known) && VerifiedFor(d, id, Cached(signed, wallUTCNS))
    requires cache.runtime.Some? ==> signed.configuration.revision > cache.runtime.value.configuration.revision
    ensures var built := Build(signed.configuration, wallUTCNS, monotonicNS, LoadKills(id, known).value);
      Kept(d, id, Publish(cache, signed, wallUTCNS, built, fate).cache, known)
  {
    hide Canonical.RejectFinal, ForIdentity, LoadKills, Build, Genuine;
    BuiltConfiguration(d, signed.configuration, wallUTCNS, monotonicNS, LoadKills(id, known).value);
  }

  lemma RuntimeKnows(d: Digests, id: Identity, cache: Cache, known: Known)
    requires Kept(d, id, cache, known)
    ensures cache.runtime.Some? ==> LoadKills(id, known) == Some(cache.runtime.value.emergencyKills)
    ensures LoadKills(id, known).Some? && (cache.runtime.None? ==> known == cache.disk.kills)
  {
    hide Canonical.RejectFinal, ForIdentity, LoadKills, Build, Genuine, VerifiedConfig, Ahead;
    if cache.runtime.Some? {
      var r := cache.runtime.value;
      BuiltConfiguration(d, r.configuration, r.installedWallUTCNS, r.receivedMonotonicNS, LoadKills(id, known).value);
    }
  }

  lemma InstallKeeps(d: Digests, id: Identity, cache: Cache, known: Known, signed: SignedConfig, wallUTCNS: int,
                     monotonicNS: uint64, fate: Fate)
    requires Kept(d, id, cache, known)
    ensures Kept(d, id, Install(d, id, cache, signed, wallUTCNS, monotonicNS, fate).cache, known)
    ensures Install(d, id, cache, signed, wallUTCNS, monotonicNS, fate).cache.disk.kills == cache.disk.kills
  {
    hide Kept, VerifiedConfig, LoadKills, Build;
    RuntimeKnows(d, id, cache, known);
    var c := signed.configuration;
    if VerifiedFor(d, id, Cached(signed, wallUTCNS))
       && (cache.runtime.Some? ==> c.revision > cache.runtime.value.configuration.revision)
    {
      PublishKeeps(d, id, cache, known, signed, wallUTCNS, monotonicNS, fate);
    }
  }

  // The live check passes.
  ghost predicate LiveAccepts(id: Identity, cache: Cache, s: SignedKill) {
    && cache.runtime.Some? && s.command.configurationSHA256 == cache.runtime.value.configuration.sha256
    && AcceptsKill(id, MaximumSequence(cache.runtime.value.emergencyKills), s)
  }

  lemma KillOutcome(id: Identity, cache: Cache, s: SignedKill, fate: Fate)
    ensures var o := ApplyKill(id, cache, s, fate);
      && (o.refused.None? <==> LiveAccepts(id, cache, s) && fate.Written?)
      && o.cache.disk ==
        cache.disk.(kills := cache.disk.kills + if LiveAccepts(id, cache, s) && !fate.NotWritten? then [s] else [])
      && (o.refused.Some? ==> o.cache.runtime == cache.runtime)
  {
    hide VerifiedKill, Build, MaximumSequence;
    assert cache.disk.kills + [] == cache.disk.kills;
  }

  lemma KillKeeps(d: Digests, id: Identity, cache: Cache, known: Known, s: SignedKill, fate: Fate)
    requires Kept(d, id, cache, known)
    ensures var o := ApplyKill(id, cache, s, fate);
      Kept(d, id, o.cache, if o.refused.None? then known + [s] else known)
  {
    hide ApplyKill, Kept, LiveAccepts;
    KillOutcome(id, cache, s, fate);
    var o := ApplyKill(id, cache, s, fate);
    if LiveAccepts(id, cache, s) && fate.Stray? { StrayKeeps(d, id, cache, known, s, o.cache); }
    if o.refused.None? {
      AcknowledgedKeeps(d, id, cache, known, s);
    } else if o.cache.disk.kills == cache.disk.kills {
      assert o.cache == cache;
    }
  }

  lemma StrayKeeps(d: Digests, id: Identity, cache: Cache, known: Known, s: SignedKill, next: Cache)
    requires Kept(d, id, cache, known) && LiveAccepts(id, cache, s)
    requires next == cache.(disk := cache.disk.(kills := cache.disk.kills + [s]))
    ensures Kept(d, id, next, known)
  {
    hide BuiltFrom, Ahead, VerifiedFor, LoadKills, Genuine, VerifiedKill, MaximumSequence;
    GenuineGrows(id, cache.disk.kills, s);
  }

  lemma AcknowledgedKeeps(d: Digests, id: Identity, cache: Cache, known: Known, s: SignedKill)
    requires Kept(d, id, cache, known) && LiveAccepts(id, cache, s)
    ensures Kept(d, id, ApplyKill(id, cache, s, Written).cache, known + [s])
  {
    hide Canonical.RejectFinal, ForIdentity, VerifiedFor, LoadKills, Genuine, VerifiedKill, MaximumSequence, Build;
    var current := cache.runtime.value;
    RuntimeKnows(d, id, cache, known);
    LiveAcceptsWhatReloads(id, known, s, MaximumSequence(current.emergencyKills));
    GenuineGrows(id, cache.disk.kills, s);
    BuiltConfiguration(d, current.configuration, current.installedWallUTCNS, current.receivedMonotonicNS,
                       LoadKills(id, known + [s]).value);
  }

  // Nothing on disk that the process does not know.
  ghost predicate Settled(cache: Cache, known: Known) {
    && known == cache.disk.kills
    && match cache.runtime
       case None => cache.disk.active.None?
       case Some(r) =>
         && cache.disk.active.Some? && cache.disk.active.value.signed.configuration == r.configuration
         && cache.disk.active.value.installedWallUTCNS == r.installedWallUTCNS
  }

  /** Reopening under the same identity and a later wall clock: it is refused if and only if the sequences in
      the kill log do not increase, and otherwise publishes what is on disk. If nothing on disk was unknown
      to the process, the configuration, its installation time, every index and the kill map come back as
      they were. */
  lemma ReopenRebuilds(d: Digests, id: Identity, cache: Cache, known: Known, at: Startup)
    requires Kept(d, id, cache, known) && ValidStartup(id, at)
    requires cache.disk.active.Some? ==> 0 < cache.disk.active.value.installedWallUTCNS <= at.wallUTCNS
    ensures Open(d, id, at, cache.disk).Ok? <==> Increasing(cache.disk.kills)
    ensures Increasing(cache.disk.kills) ==>
      && LoadKills(id, cache.disk.kills).Some?
      && Open(d, id, at, cache.disk).value ==
         match cache.disk.active
         case None => None
         case Some(cached) =>
           Some(Build(cached.signed.configuration, cached.installedWallUTCNS, at.monotonicNS,
                      LoadKills(id, cache.disk.kills).value))
    ensures Settled(cache, known) ==>
      Open(d, id, at, cache.disk)
      == Ok(if cache.runtime.None? then None else Some(cache.runtime.value.(receivedMonotonicNS := at.monotonicNS)))
  {
    hide VerifiedConfig, LoadKills, Canonical.RejectFinal, ValidStartup, Increasing, Genuine, Index, ModelIndex,
         Canonical.Canonical;
    LoadsExactly(id, cache.disk.kills);
  }

  // ----- Histories -------------------------------------------------------------------------------------------

  // An edge process that could not open its files, or one that did.
  datatype Edge = Closed(files: EdgeDisk) | Opened(id: Identity, cache: Cache, known: Known)

  datatype Step =
    | Restart(id: Identity, at: Startup)
    | Installing(signed: SignedConfig, wallUTCNS: int, monotonicNS: uint64, fate: Fate)
    | Killing(kill: SignedKill, fate: Fate)

  function DiskOf(e: Edge): EdgeDisk { match e case Closed(files) => files case Opened(_, cache, _) => cache.disk }

  ghost function Next(d: Digests, e: Edge, step: Step): Edge {
    match step
    case Restart(id, at) =>
      (match Open(d, id, at, DiskOf(e))
       case Err(_) => Closed(DiskOf(e))
       case Ok(runtime) => Opened(id, Cache(DiskOf(e), runtime), DiskOf(e).kills))
    case Installing(signed, wall, monotonic, fate) =>
      if e.Closed? then e else e.(cache := Install(d, e.id, e.cache, signed, wall, monotonic, fate).cache)
    case Killing(kill, fate) =>
      if e.Closed? then e
      else
        var o := ApplyKill(e.id, e.cache, kill, fate);
        Opened(e.id, o.cache, if o.refused.None? then e.known + [kill] else e.known)
  }

  ghost function Run(d: Digests, e: Edge, steps: seq<Step>): Edge {
    if steps == [] then e else Next(d, Run(d, e, steps[..|steps| - 1]), steps[|steps| - 1])
  }

  ghost predicate WellKept(d: Digests, e: Edge) { e.Opened? ==> Kept(d, e.id, e.cache, e.known) }

  lemma OpenKeeps(d: Digests, id: Identity, at: Startup, disk: EdgeDisk)
    requires Open(d, id, at, disk).Ok?
    ensures Kept(d, id, Cache(disk, Open(d, id, at, disk).value), disk.kills)
  {
    hide LoadKills, Canonical.RejectFinal, Build, ValidStartup, Genuine, Increasing;
    LoadsExactly(id, disk.kills);
    if disk.active.Some? {
      var cached := disk.active.value;
      BuiltConfiguration(d, cached.signed.configuration, cached.installedWallUTCNS, at.monotonicNS,
                         LoadKills(id, disk.kills).value);
    }
  }

  // The commands an edge enforces, or will if it can open again.
  function Enforced(e: Edge): seq<SignedKill> { if e.Opened? then e.known else e.files.kills }

  lemma StepKeeps(d: Digests, e: Edge, step: Step)
    requires WellKept(d, e)
    ensures WellKept(d, Next(d, e, step))
    ensures DiskOf(e).kills <= DiskOf(Next(d, e, step)).kills
    ensures forall s | s in Enforced(e) :: s in Enforced(Next(d, e, step))
  {
    hide Kept, Open, Install, ApplyKill, LiveAccepts;
    match step
    case Restart(id, at) =>
      if Open(d, id, at, DiskOf(e)).Ok? { OpenKeeps(d, id, at, DiskOf(e)); }
      if e.Opened? { KnownIsLogged(d, e.id, e.cache, e.known); }
    case Installing(signed, wall, monotonic, fate) =>
      if e.Opened? { InstallKeeps(d, e.id, e.cache, e.known, signed, wall, monotonic, fate); }
    case Killing(kill, fate) =>
      if e.Opened? {
        KillKeeps(d, e.id, e.cache, e.known, kill, fate);
        KillOutcome(e.id, e.cache, kill, fate);
      }
  }

  lemma KnownIsLogged(d: Digests, id: Identity, cache: Cache, known: Known)
    requires Kept(d, id, cache, known)
    ensures forall s | s in known :: s in cache.disk.kills
  {
  }

  lemma {:induction false} EveryRunIsWellKept(d: Digests, e: Edge, steps: seq<Step>)
    requires WellKept(d, e)
    ensures WellKept(d, Run(d, e, steps)) && DiskOf(e).kills <= DiskOf(Run(d, e, steps)).kills
    ensures forall s | s in Enforced(e) :: s in Enforced(Run(d, e, steps))
  {
    hide Next, WellKept, Enforced;
    if steps != [] {
      EveryRunIsWellKept(d, e, steps[..|steps| - 1]);
      StepKeeps(d, Run(d, e, steps[..|steps| - 1]), steps[|steps| - 1]);
    }
  }

  // What the edge answers, open or not.
  function Answer(e: Edge, q: EdgeRequest): Decision {
    if e.Opened? && e.cache.runtime.Some? then Evaluate(e.cache.runtime.value, q) else UNAVAILABLE
  }

  // In a well-kept edge every answer is the scan of the published configuration and all the known commands.
  lemma AnswerIsScan(d: Digests, e: Edge, q: EdgeRequest)
    requires WellKept(d, e) && e.Opened? && e.cache.runtime.Some?
    ensures var r := e.cache.runtime.value;
      && ValidConfiguration(r.configuration)
      && Answer(e, q) == Judge(r.configuration, r.installedWallUTCNS, r.receivedMonotonicNS,
                               Scan(r.configuration, Commands(e.known), q), q)
  {
    hide Canonical.RejectFinal, ForIdentity, LoadKills, Evaluate, Judge, Scan, Build, ValidConfiguration, SameKills,
         Genuine, Ahead, VerifiedFor;
    var r := e.cache.runtime.value;
    FinalIsCanonical(d, r.configuration);
    ValidIgnoresDigest(r.configuration, "");
    MapKillsAsLog(e.id, e.known);
    EvaluateIsScan(r.configuration, r.installedWallUTCNS, r.receivedMonotonicNS, LoadKills(e.id, e.known).value,
                   Commands(e.known), q);
  }

  /** In every well-kept edge with something published: new orders are allowed exactly when the published
      configuration authorizes them and no known command stops them, and a denial names the first condition that
      fails. */
  lemma AnswersExactly(d: Digests, e: Edge, q: EdgeRequest)
    requires WellKept(d, e) && e.Opened? && e.cache.runtime.Some?
    ensures var r := e.cache.runtime.value;
      && (Answer(e, q).allowNewOrders <==>
            Authorized(r.configuration, r.installedWallUTCNS, r.receivedMonotonicNS, Commands(e.known), q))
      && Answer(e, q).reason
         == Verdict(r.configuration, r.installedWallUTCNS, r.receivedMonotonicNS, Commands(e.known), q)
      && Answer(e, q).sha256 == r.configuration.sha256 && Answer(e, q).revision == r.configuration.revision
  {
    hide WellKept, Judge, Scan, ValidConfiguration, Answer, Authorized, Verdict, Commands;
    AnswerIsScan(d, e, q);
    var r := e.cache.runtime.value;
    JudgesExactly(r.configuration, r.installedWallUTCNS, r.receivedMonotonicNS, Commands(e.known), q);
    AllowedExactly(r.configuration, r.installedWallUTCNS, r.receivedMonotonicNS, Commands(e.known), q);
  }

  // Whatever an open edge knows is engaged.
  lemma KnownIsEngaged(d: Digests, e: Edge, s: SignedKill)
    requires WellKept(d, e) && e.Opened? && s in e.known
    ensures s.command.engaged && s.command in Commands(e.known)
  {
    hide Increasing, BuiltFrom, Ahead, VerifiedFor, LoadKills, ValidIdentifier, Hex64, ValidKillTarget;
    LoadsExactly(e.id, e.known);
    var i :| 0 <= i < |e.known| && e.known[i] == s;
    assert VerifiedKill(e.id.trust, e.known[i]) && Commands(e.known)[i] == s.command;
  }

  lemma EnforcedDenies(d: Digests, e: Edge, s: SignedKill, q: EdgeRequest)
    requires WellKept(d, e) && s in Enforced(e) && Stops(s.command.scope, s.command.targetID, q)
    ensures !Answer(e, q).allowNewOrders
  {
    hide WellKept, Stops, Verdict, Commands, StrategyServes, VenueServes, SymbolServes, ModelServes, SessionServes,
         AccountIsFresh, Identified, FreshEnough, Evaluate;
    if e.Opened? && e.cache.runtime.Some? {
      AnswersExactly(d, e, q);
      KnownIsEngaged(d, e, s);
    }
  }

  /** Once a kill command is acknowledged, or was in the log when the process opened it, the requests it stops are
      denied in every later state, across installs, further commands, failed writes, and restarts under any
      identity and clock: every request for a FIRM command, and for the others those of the account, the venue,
      the strategy or the symbol it targets. */
  lemma KilledForever(d: Digests, e: Edge, steps: seq<Step>, s: SignedKill, q: EdgeRequest)
    requires WellKept(d, e) && s in Enforced(e)
    requires var k := s.command;
      || k.scope == "FIRM"
      || (k.scope == "ACCOUNT" && k.targetID == q.accountID)
      || (k.scope == "VENUE" && k.targetID == q.venueID)
      || (k.scope == "STRATEGY" && k.targetID == q.strategyID)
      || (k.scope == "SYMBOL" && k.targetID == q.instrumentID)
    ensures !Answer(Run(d, e, steps), q).allowNewOrders
  {
    hide WellKept, Answer, Enforced;
    EveryRunIsWellKept(d, e, steps);
    EnforcedDenies(d, Run(d, e, steps), s, q);
  }

  /** An acknowledged command is enforced from then on: it is known, and whatever happens next the requests it
      stops are denied. */
  lemma AcceptedKillIsLogged(d: Digests, e: Edge, kill: SignedKill, fate: Fate, steps: seq<Step>, q: EdgeRequest)
    requires WellKept(d, e) && e.Opened? && ApplyKill(e.id, e.cache, kill, fate).refused.None?
    ensures kill in Enforced(Next(d, e, Killing(kill, fate)))
    ensures Stops(kill.command.scope, kill.command.targetID, q) ==>
      !Answer(Run(d, Next(d, e, Killing(kill, fate)), steps), q).allowNewOrders
  {
    hide WellKept, ApplyKill, Answer, Stops;
    var next := Next(d, e, Killing(kill, fate));
    StepKeeps(d, e, Killing(kill, fate));
    EveryRunIsWellKept(d, next, steps);
    if Stops(kill.command.scope, kill.command.targetID, q) { EnforcedDenies(d, Run(d, next, steps), kill, q); }
  }

  /** A command that is in the log although its writer got an error is enforced from the next restart on, if
      not before: the edge enforces it or cannot open at all. */
  lemma LoggedKillHoldsAfterRestart(d: Digests, e: Edge, id: Identity, at: Startup, steps: seq<Step>, s: SignedKill,
                                    q: EdgeRequest)
    requires WellKept(d, e) && s in DiskOf(e).kills && Stops(s.command.scope, s.command.targetID, q)
    ensures !Answer(Run(d, Next(d, e, Restart(id, at)), steps), q).allowNewOrders
  {
    hide WellKept, Stops, Answer, Open;
    var next := Next(d, e, Restart(id, at));
    StepKeeps(d, e, Restart(id, at));
    EveryRunIsWellKept(d, next, steps);
    EnforcedDenies(d, Run(d, next, steps), s, q);
  }

  // ----- When a command accepted live makes the log unreadable -----------------------------------------------

  /** The live check compares with the commands the process knows, reloading with the line before. For a
      command that is accepted live and written, the log still loads if and only if it did and the command's
      sequence is above that of the last line. That is always so when the process knows the whole log. */
  lemma KillReloadsExactly(d: Digests, e: Edge, s: SignedKill, fate: Fate)
    requires WellKept(d, e) && e.Opened? && LiveAccepts(e.id, e.cache, s) && !fate.NotWritten?
    ensures var before, after := e.cache.disk.kills, DiskOf(Next(d, e, Killing(s, fate))).kills;
      && (LoadKills(e.id, after).Some? <==>
            LoadKills(e.id, before).Some? && s.command.commandSequence > LastSequence(before))
      && (e.known == before ==> LoadKills(e.id, after).Some?)
  {
    hide ApplyKill, LoadKills, VerifiedKill, Genuine, Increasing, BuiltFrom, Ahead, VerifiedFor, MaximumSequence;
    var before := e.cache.disk.kills;
    KillOutcome(e.id, e.cache, s, fate);
    LoadsExactly(e.id, before);
    LoadsExactly(e.id, before + [s]);
    GenuineGrows(e.id, before, s);
    IncreasingGrows(before, s);
    RuntimeKnows(d, e.id, e.cache, e.known);
    LiveAcceptsWhatReloads(e.id, e.known, s, MaximumSequence(e.cache.runtime.value.emergencyKills));
  }

  /** Retrying a command whose first write was stray is accepted live, and then the log loads under no
      identity: the running edge enforces the command, and after the next restart no edge opens again. */
  lemma RetryLocksLog(d: Digests, e: Edge, s: SignedKill, id: Identity, at: Startup, steps: seq<Step>)
    requires WellKept(d, e) && e.Opened? && LiveAccepts(e.id, e.cache, s)
    ensures var retried := Next(d, Next(d, e, Killing(s, Stray)), Killing(s, Written));
      && s in Enforced(retried)
      && Next(d, Run(d, retried, steps), Restart(id, at)).Closed?
  {
    hide ApplyKill, LiveAccepts, LoadKills, Increasing, Kept;
    var first := Next(d, e, Killing(s, Stray));
    StepKeeps(d, e, Killing(s, Stray));
    KillOutcome(e.id, e.cache, s, Stray);
    SameRuntimeAccepts(e.id, e.cache, first.cache, s);
    KillOutcome(e.id, first.cache, s, Written);
    var retried := Next(d, first, Killing(s, Written));
    StepKeeps(d, first, Killing(s, Written));
    assert retried.cache.disk.kills == (e.cache.disk.kills + [s]) + [s];
    IncreasingGrows(e.cache.disk.kills + [s], s);
    LockedForever(d, retried, steps, id, at);
  }

  lemma SameRuntimeAccepts(id: Identity, cache: Cache, other: Cache, s: SignedKill)
    requires LiveAccepts(id, cache, s) && other.runtime == cache.runtime
    ensures LiveAccepts(id, other, s)
  {
  }

  lemma IncreasingPrefix(short: seq<SignedKill>, long: seq<SignedKill>)
    requires short <= long && Increasing(long)
    ensures Increasing(short)
  {
    forall i | 0 <= i < |short| ensures short[i].command.commandSequence > LastSequence(short[..i]) {
      assert short[..i] == long[..i];
    }
  }

  /** Once the sequences in the log do not increase, no later restart opens, under any identity. */
  lemma LockedForever(d: Digests, e: Edge, steps: seq<Step>, id: Identity, at: Startup)
    requires WellKept(d, e) && !Increasing(DiskOf(e).kills)
    ensures Next(d, Run(d, e, steps), Restart(id, at)).Closed?
  {
    hide WellKept, LoadKills, Increasing, ValidStartup, VerifiedConfig, Build;
    EveryRunIsWellKept(d, e, steps);
    var kills := DiskOf(Run(d, e, steps)).kills;
    if Increasing(kills) { IncreasingPrefix(DiskOf(e).kills, kills); }
    LoadsExactly(id, kills);
  }

  // ----- Installed revisions ---------------------------------------------------------------------------------

  // A configuration and when it was installed.
  datatype Standing = Standing(configuration: Config, installedWallUTCNS: int)

  function OnDisk(disk: EdgeDisk): Option<Standing> {
    match disk.active
    case None => None
    case Some(cached) => Some(Standing(cached.signed.configuration, cached.installedWallUTCNS))
  }

  // What an edge publishes, or will if it can open again.
  function Published(e: Edge): Option<Standing> {
    match e
    case Closed(files) => OnDisk(files)
    case Opened(_, cache, _) =>
      match cache.runtime
      case None => None
      case Some(r) => Some(Standing(r.configuration, r.installedWallUTCNS))
  }

  // What stood stands as it did, or gave way to a higher revision.
  ghost predicate Advances(before: Option<Standing>, after: Option<Standing>) {
    before.Some? ==>
      after.Some? && (after == before || after.value.configuration.revision > before.value.configuration.revision)
  }

  lemma StepAdvances(d: Digests, e: Edge, step: Step)
    requires WellKept(d, e)
    ensures Advances(Published(e), Published(Next(d, e, step)))
  {
    hide Install, ApplyKill, Open, Kept;
    match step
    case Restart(id, at) => RestartAdvances(d, e, id, at);
    case Installing(signed, wall, monotonic, fate) =>
      if e.Opened? { InstallAdvances(d, e, signed, wall, monotonic, fate); }
    case Killing(kill, fate) => if e.Opened? { KillAdvances(d, e, kill, fate); }
  }

  lemma RestartAdvances(d: Digests, e: Edge, id: Identity, at: Startup)
    requires WellKept(d, e)
    ensures Advances(Published(e), Published(Next(d, e, Restart(id, at))))
  {
    hide Canonical.RejectFinal, LoadKills, Build, ValidStartup, Genuine, BuiltFrom, ForIdentity;
    var disk := DiskOf(e);
    if Open(d, id, at, disk).Ok? && disk.active.Some? {
      var cached := disk.active.value;
      BuiltConfiguration(d, cached.signed.configuration, cached.installedWallUTCNS, at.monotonicNS,
                         LoadKills(id, disk.kills).value);
    }
  }

  lemma InstallAdvances(d: Digests, e: Edge, signed: SignedConfig, wallUTCNS: int, monotonicNS: uint64, fate: Fate)
    requires WellKept(d, e) && e.Opened?
    ensures Advances(Published(e), Published(Next(d, e, Installing(signed, wallUTCNS, monotonicNS, fate))))
  {
    hide Canonical.RejectFinal, LoadKills, Build, Kept, ForIdentity;
    if VerifiedConfig(d, e.id.trust, signed) {
      forall kills: map<string, KillCommand>
        ensures Build(signed.configuration, wallUTCNS, monotonicNS, kills).configuration == signed.configuration
      {
        BuiltConfiguration(d, signed.configuration, wallUTCNS, monotonicNS, kills);
      }
    }
  }

  lemma KillAdvances(d: Digests, e: Edge, kill: SignedKill, fate: Fate)
    requires WellKept(d, e) && e.Opened?
    ensures Published(Next(d, e, Killing(kill, fate))) == Published(e)
  {
    hide Canonical.RejectFinal, LoadKills, Build, VerifiedKill, MaximumSequence, Genuine, ForIdentity, Ahead,
         VerifiedFor;
    if e.cache.runtime.Some? {
      var r := e.cache.runtime.value;
      var kills := r.emergencyKills[CommandKey(kill.command) := kill.command];
      BuiltConfiguration(d, r.configuration, r.installedWallUTCNS, r.receivedMonotonicNS, kills);
    }
  }

  /** In every history the published revision never decreases, and as long as it stays the same so does its
      installation time: reinstalling the same bytes, kill commands, failed writes and restarts never extend
      the wall-clock deadline of a published revision. */
  lemma {:induction false} DeadlineIsNeverExtended(d: Digests, e: Edge, steps: seq<Step>)
    requires WellKept(d, e)
    ensures Advances(Published(e), Published(Run(d, e, steps)))
  {
    hide Next, WellKept, Published;
    if steps != [] {
      var front := steps[..|steps| - 1];
      DeadlineIsNeverExtended(d, e, front);
      EveryRunIsWellKept(d, e, front);
      StepAdvances(d, Run(d, e, front), steps[|steps| - 1]);
    }
  }

  // The call gets as far as writing.
  predicate WouldInstall(d: Digests, id: Identity, cache: Cache, signed: SignedConfig, wallUTCNS: int,
                         monotonicNS: uint64) {
    Install(d, id, cache, signed, wallUTCNS, monotonicNS, NotWritten).refused == Some(WriteRefused)
  }

  /** The file can fall back: an install that is written takes the file forward if and only if the file's
      revision is below the new one, or the same bytes are written again. While the process knows what the
      file holds the file only moves forward; after a stray write an install between the published revision
      and the stray one is accepted and takes the file back. */
  lemma FileAdvancesExactly(d: Digests, e: Edge, signed: SignedConfig, wallUTCNS: int, monotonicNS: uint64, fate: Fate)
    requires WellKept(d, e) && e.Opened? && !fate.NotWritten?
      && WouldInstall(d, e.id, e.cache, signed, wallUTCNS, monotonicNS)
    ensures var before := OnDisk(e.cache.disk);
      var after := OnDisk(DiskOf(Next(d, e, Installing(signed, wallUTCNS, monotonicNS, fate))));
      && after == Some(Standing(signed.configuration, wallUTCNS))
      && (Advances(before, after) <==>
            before.None? || before.value.configuration.revision < signed.configuration.revision || before == after)
      && (before == Published(e) ==> Advances(before, after))
  {
    hide Canonical.RejectFinal, LoadKills, Build, Kept, ForIdentity;
  }

  /** An allow means the published configuration's wall age is within the edge's limit and within the limit of
      the requesting account, and so is the monotonic age. */
  lemma AllowedMeansFresh(d: Digests, e: Edge, q: EdgeRequest)
    requires WellKept(d, e) && Answer(e, q).allowNewOrders
    ensures e.Opened? && e.cache.runtime.Some?
    ensures var r := e.cache.runtime.value;
      && FreshEnough(r.installedWallUTCNS, r.receivedMonotonicNS, r.configuration.maximumEdgeOfflineAgeNS, q)
      && exists limits | limits in r.configuration.riskLimits ::
           limits.accountID == q.accountID
           && FreshEnough(r.installedWallUTCNS, r.receivedMonotonicNS, limits.maximumConfigurationAgeNS, q)
  {
    hide WellKept, Evaluate, FreshEnough, Verdict, Halted, StrategyServes, VenueServes, SymbolServes, ModelServes,
         SessionServes, Identified, Commands;
    assert e.Opened? && e.cache.runtime.Some?;
    AnswersExactly(d, e, q);
  }

  // ----- What is accepted ------------------------------------------------------------------------------------

  // An engaging command of the known schema, with a reason, for the whole firm or for one named target.
  predicate WellFormedKill(k: KillCommand) {
    && k.engaged && k.schemaVersion == 1 && k.commandSequence > 0 && k.authorityEpoch > 0 && k.effectiveWallUTCNS > 0
    && ValidIdentifier(k.commandID) && ValidIdentifier(k.reasonCode) && Hex64(k.configurationSHA256)
    && (|| (k.scope == "FIRM" && k.targetID == "")
        || (k.scope in {"ACCOUNT", "VENUE", "STRATEGY", "SYMBOL"} && ValidIdentifier(k.targetID)))
  }

  /** Exactly which kill commands an open edge accepts: signed by a trusted key, well formed, of its epoch, for the
      published configuration, and with a sequence above every command it knows. */
  lemma LiveAcceptsExactly(d: Digests, e: Edge, s: SignedKill, fate: Fate)
    requires WellKept(d, e) && e.Opened?
    ensures var o := ApplyKill(e.id, e.cache, s, fate);
      && (LiveAccepts(e.id, e.cache, s) <==>
            && e.cache.runtime.Some? && s.keyID in e.id.trust && e.id.trust[s.keyID] == s.signer
            && WellFormedKill(s.command) && s.command.authorityEpoch == e.id.epoch
            && s.command.configurationSHA256 == e.cache.runtime.value.configuration.sha256
            && forall k | k in e.known :: s.command.commandSequence > k.command.commandSequence)
      && (o.refused.None? <==> LiveAccepts(e.id, e.cache, s) && fate.Written?)
  {
    hide WellKept, ApplyKill, MaximumSequence, IsMaximum, ValidIdentifier, Hex64;
    KillOutcome(e.id, e.cache, s, fate);
    if e.cache.runtime.Some? { AboveAllKnown(d, e, s.command.commandSequence); }
  }

  // The map's maximum is below a number exactly when all known commands are; no command has sequence 0.
  lemma AboveAllKnown(d: Digests, e: Edge, n: uint64)
    requires WellKept(d, e) && e.Opened? && e.cache.runtime.Some?
    ensures n > MaximumSequence(e.cache.runtime.value.emergencyKills) ==>
      forall k | k in e.known :: n > k.command.commandSequence
    ensures n > 0 && (forall k | k in e.known :: n > k.command.commandSequence) ==>
      n > MaximumSequence(e.cache.runtime.value.emergencyKills)
  {
    hide BuiltFrom, Ahead, VerifiedFor, LoadKills, Genuine, VerifiedKill, MaximumSequence;
    RuntimeKnows(d, e.id, e.cache, e.known);
    MaximumIsLast(e.id, e.known);
    MaximumIsUnique(e.cache.runtime.value.emergencyKills, MaximumSequence(e.cache.runtime.value.emergencyKills),
                    LastSequence(e.known));
    LoadsExactly(e.id, e.known);
    LastIsGreatest(e.known);
  }

  lemma {:induction false} LastIsGreatest(kills: seq<SignedKill>)
    requires Increasing(kills)
    ensures forall k | k in kills :: k.command.commandSequence <= LastSequence(kills)
  {
    if kills != [] {
      var front, last := kills[..|kills| - 1], kills[|kills| - 1];
      assert front + [last] == kills;
      IncreasingGrows(front, last);
      LastIsGreatest(front);
    }
  }

  // The same configuration as the published one.
  predicate Republished(cache: Cache, c: Config) {
    cache.runtime.Some? && c.sha256 == cache.runtime.value.configuration.sha256
  }

  /** Exactly which configurations an open edge installs: final, signed by a trusted key, for its identity, valid
      at the installation time, and of a higher revision than the published one or the published one again; what
      is not published already must be written. */
  lemma InstallsExactly(d: Digests, e: Edge, signed: SignedConfig, wallUTCNS: int, monotonicNS: uint64, fate: Fate)
    requires WellKept(d, e) && e.Opened?
    ensures var c := signed.configuration;
      var o := Install(d, e.id, e.cache, signed, wallUTCNS, monotonicNS, fate);
      && (o.refused.None? <==>
            && Canonical.RejectFinal(d.config, c) == None
            && signed.keyID in e.id.trust && e.id.trust[signed.keyID] == signed.signer
            && c.configurationID == e.id.expectedID && c.environment == e.id.environment
            && c.validFromWallUTCNS <= wallUTCNS < c.validUntilWallUTCNS
            && (match e.cache.runtime
                case None => fate.Written?
                case Some(r) =>
                  || (c.revision > r.configuration.revision && c.sha256 != r.configuration.sha256 && fate.Written?)
                  || (c.revision >= r.configuration.revision && c.sha256 == r.configuration.sha256)))
      && (o.refused.None? && !Republished(e.cache, c) ==>
            && o.cache.disk.active == Some(Cached(signed, wallUTCNS)) && o.cache.runtime.Some?
            && o.cache.runtime.value.configuration == c && o.cache.runtime.value.installedWallUTCNS == wallUTCNS
            && o.cache.runtime.value.receivedMonotonicNS == monotonicNS
            && LoadKills(e.id, e.known) == Some(o.cache.runtime.value.emergencyKills))
      && (o.refused.None? && Republished(e.cache, c) ==> o.cache == e.cache)
  {
    hide Canonical.RejectFinal, LoadKills, Build, BuiltFrom, Ahead, VerifiedFor, Genuine;
    RuntimeKnows(d, e.id, e.cache, e.known);
    PublishedIdentity(d, e);
    var c := signed.configuration;
    if Canonical.RejectFinal(d.config, c) == None {
      BuiltConfiguration(d, c, wallUTCNS, monotonicNS, LoadKills(e.id, e.known).value);
    }
  }

  lemma PublishedIdentity(d: Digests, e: Edge)
    requires WellKept(d, e) && e.Opened?
    ensures e.cache.runtime.Some? ==> ForIdentity(e.id, e.cache.runtime.value.configuration)
  {
    hide Canonical.RejectFinal, LoadKills, Build, Ahead, VerifiedFor, Genuine;
  }

  /** Exactly when an edge opens its files: a sound startup, a kill log that loads, and no configuration or one that
      is final, trusted, for this identity and installed in the past. */
  lemma OpensExactly(d: Digests, id: Identity, at: Startup, disk: EdgeDisk)
    ensures Open(d, id, at, disk).Ok? <==>
      && id.epoch > 0 && at.wallUTCNS > 0 && ValidIdentifier(id.expectedID) && ValidIdentifier(id.environment)
      && id.trust != map[] && (forall key | key in id.trust :: ValidIdentifier(key))
      && Genuine(id, disk.kills) && Increasing(disk.kills)
      && (match disk.active
          case None => true
          case Some(cached) =>
            var c := cached.signed.configuration;
            && Canonical.RejectFinal(d.config, c) == None
            && cached.signed.keyID in id.trust && id.trust[cached.signed.keyID] == cached.signed.signer
            && c.configurationID == id.expectedID && c.environment == id.environment
            && 0 < cached.installedWallUTCNS <= at.wallUTCNS)
  {
    hide Canonical.RejectFinal, LoadKills, Build, Genuine, Increasing, ValidIdentifier;
    LoadsExactly(id, disk.kills);
  }
}
