/** The edge cache as an object: loops that load kills and fill the index maps, and methods that change the
    files and the published runtime. Each leaves what the function on values describes. */
module EdgeCacheObject {
  import opened Results
  import opened DeploymentTypes
  import opened Configuration
  import opened AuditLog
  import opened Authority
  import opened EdgeRuntime
  import opened EdgeCache

  lemma {:induction false} LoadKillsPrefix(id: Identity, kills: seq<SignedKill>, n: nat)
    requires LoadKills(id, kills).Some? && n <= |kills|
    ensures LoadKills(id, kills[..n]).Some?
  {
    hide AcceptsKill;
    if n < |kills| {
      var front := kills[..|kills| - 1];
      LoadKillsPrefix(id, front, n);
      assert front[..n] == kills[..n];
    } else {
      assert kills[..n] == kills;
    }
  }

  method ReadKills(id: Identity, kills: seq<SignedKill>) returns (result: Option<map<string, KillCommand>>)
    ensures result == LoadKills(id, kills)
  {
    hide AcceptsKill;
    var latest: map<string, KillCommand> := map[];
    var lastSequence: uint64 := 0;
    for i := 0 to |kills|
      invariant LoadKills(id, kills[..i]) == Some(latest) && lastSequence == LastSequence(kills[..i])
    {
      assert kills[..i + 1][..i] == kills[..i];
      if !AcceptsKill(id, lastSequence, kills[i]) {
        if LoadKills(id, kills).Some? { LoadKillsPrefix(id, kills, i + 1); }
        return None;
      }
      latest := latest[CommandKey(kills[i].command) := kills[i].command];
      lastSequence := kills[i].command.commandSequence;
    }
    assert kills[..|kills|] == kills;
    result := Some(latest);
  }

  method MaximumKillSequence(m: map<string, KillCommand>) returns (maximum: uint64)
    ensures IsMaximum(m, maximum)
  {
    maximum := 0;
    var rest := m.Keys;
    while rest != {}
      invariant rest <= m.Keys
      invariant forall key | key in m && key !in rest :: m[key].commandSequence <= maximum
      invariant maximum == 0 || exists key :: key in m && m[key].commandSequence == maximum
      decreases |rest|
    {
      var key :| key in rest;
      if m[key].commandSequence > maximum { maximum := m[key].commandSequence; }
      rest := rest - {key};
    }
  }

  method IsKilled(configured: seq<KillSwitch>, emergency: map<string, KillCommand>,
                  q: EdgeRequest) returns (killed: bool)
    ensures killed <==> Killed(configured, emergency, q)
    ensures killed <==>
      || (exists i | 0 <= i < |configured| ::
          configured[i].engaged && Stops(configured[i].scope, configured[i].targetID, q))
      || (exists key | key in emergency ::
          emergency[key].engaged && Stops(emergency[key].scope, emergency[key].targetID, q))
  {
    hide SwitchKills, CommandKills, Stops;
    KillsMean(q);
    for i := 0 to |configured|
      invariant forall j | 0 <= j < i :: !SwitchKills(configured[j], q)
    {
      if SwitchKills(configured[i], q) { return true; }
    }
    var rest := emergency.Keys;
    while rest != {}
      invariant rest <= emergency.Keys
      invariant forall key | key in emergency && key !in rest :: !CommandKills(emergency[key], q)
      decreases |rest|
    {
      var key :| key in rest;
      if CommandKills(emergency[key], q) { return true; }
      rest := rest - {key};
    }
    killed := false;
  }

  lemma KillsMean(q: EdgeRequest)
    ensures forall k :: SwitchKills(k, q) <==> k.engaged && Stops(k.scope, k.targetID, q)
    ensures forall k :: CommandKills(k, q) <==> k.engaged && Stops(k.scope, k.targetID, q)
  {
    forall k: KillSwitch ensures SwitchKills(k, q) <==> k.engaged && Stops(k.scope, k.targetID, q) {
      MatchesExactly(k.scope, k.targetID, q);
    }
    forall k: KillCommand ensures CommandKills(k, q) <==> k.engaged && Stops(k.scope, k.targetID, q) {
      MatchesExactly(k.scope, k.targetID, q);
    }
  }

  method FillIndex<T>(key: T -> string, items: seq<T>) returns (index: map<string, T>)
    ensures index == Index(key, items)
  {
    index := map[];
    for i := 0 to |items|
      invariant index == Index(key, items[..i])
    {
      index := index[key(items[i]) := items[i]];
      assert items[..i + 1][..i] == items[..i];
    }
    assert items[..|items|] == items;
  }

  method FillModels(items: seq<Model>) returns (index: map<string, map<string, Model>>)
    ensures index == ModelIndex(items)
  {
    index := map[];
    for i := 0 to |items|
      invariant index == ModelIndex(items[..i])
    {
      var versions := if items[i].modelID in index then index[items[i].modelID] else map[];
      versions := versions[items[i].semanticVersion := items[i]];
      index := index[items[i].modelID := versions];
      assert items[..i + 1][..i] == items[..i];
    }
    assert items[..|items|] == items;
  }

  method BuildEdgeRuntime(configuration: Config, installedWallUTCNS: int, monotonicNS: uint64,
                          kills: map<string, KillCommand>)
    returns (runtime: Runtime)
    ensures runtime == Build(configuration, installedWallUTCNS, monotonicNS, kills)
  {
    hide Index, ModelIndex, Canonical.Canonical;
    var c := Canonical.CanonicalizeConfiguration(configuration);
    var strategies := FillIndex(StrategyKey, c.strategies);
    var venues := FillIndex(VenueKey, c.venues);
    var risk := FillIndex(AccountKey, c.riskLimits);
    var models := FillModels(c.models);
    var sessions := FillIndex(SessionKey, c.tradingSessions);
    runtime := Runtime(c, installedWallUTCNS, monotonicNS, strategies, venues, risk, models, sessions, kills);
  }

  // The loop over one account's symbols stops at the first with the instrument's identifier.
  method IsSymbolAuthorized(limits: RiskLimits, instrumentID: string) returns (authorized: bool)
    ensures authorized <==> SymbolAuthorized(limits, instrumentID)
  {
    var fits := (s: SymbolLimit) => s.instrumentID == instrumentID;
    authorized := false;
    for i := 0 to |limits.symbolLimits|
      invariant !authorized && Find(fits, limits.symbolLimits) == Find(fits, limits.symbolLimits[i..])
    {
      var symbol := limits.symbolLimits[i];
      assert limits.symbolLimits[i..][1..] == limits.symbolLimits[i + 1..];
      if symbol.instrumentID == instrumentID { return symbol.authorized && !symbol.restricted; }
    }
  }

  class EdgeCacheService {
    const d: Digests
    const id: Identity
    var kills: seq<SignedKill>
    var active: Option<Cached>
    var runtime: Option<Runtime>

    function View(): Cache
      reads this
    {
      Cache(EdgeDisk(kills, active), runtime)
    }

    // The process before it opens its files.
    constructor (d: Digests, id: Identity, disk: EdgeDisk)
      ensures this.d == d && this.id == id && View() == Cache(disk, None)
    {
      this.d, this.id := d, id;
      kills, active, runtime := disk.kills, disk.active, None;
    }

    method OpenFiles(at: Startup) returns (refused: Option<Refusal>)
      requires runtime == None
      modifies this`runtime
      ensures match Open(d, id, at, old(View()).disk)
              case Err(e) => refused == Some(e) && View() == old(View())
              case Ok(published) => refused == None && View() == old(View()).(runtime := published)
    {
      hide LoadKills, Build, VerifiedConfig, ValidStartup;
      if !ValidStartup(id, at) { return Some(BadStartup); }
      var loaded := ReadKills(id, kills);
      if loaded.None? { return Some(UnreadableKills); }
      if active.None? { return None; }
      var cached := active.value;
      if !VerifiedConfig(d, id.trust, cached.signed) { return Some(BadSignature); }
      if !ForIdentity(id, cached.signed.configuration) { return Some(WrongIdentity); }
      if cached.installedWallUTCNS <= 0 || cached.installedWallUTCNS > at.wallUTCNS { return Some(OutsideValidity); }
      var built :=
        BuildEdgeRuntime(cached.signed.configuration, cached.installedWallUTCNS, at.monotonicNS, loaded.value);
      runtime := Some(built);
      refused := None;
    }

    // Replaces the file and then publishes.
    method WriteAndPublish(signed: SignedConfig, wallUTCNS: int, monotonicNS: uint64, kills: map<string, KillCommand>,
                           fate: Fate)
      returns (refused: Option<Refusal>)
      modifies this`active, this`runtime
      ensures Reply(View(), refused)
           == Publish(old(View()), signed, wallUTCNS, Build(signed.configuration, wallUTCNS, monotonicNS, kills), fate)
    {
      hide Build;
      if fate.NotWritten? { return Some(WriteRefused); }
      active := Some(Cached(signed, wallUTCNS));
      if fate.Stray? { return Some(WriteRefused); }
      var built := BuildEdgeRuntime(signed.configuration, wallUTCNS, monotonicNS, kills);
      runtime := Some(built);
      refused := None;
    }

    method InstallConfiguration(signed: SignedConfig, wallUTCNS: int, monotonicNS: uint64, fate: Fate)
      returns (refused: Option<Refusal>)
      modifies this`active, this`runtime
      ensures Reply(View(), refused) == Install(d, id, old(View()), signed, wallUTCNS, monotonicNS, fate)
    {
      hide LoadKills, Build, VerifiedConfig, Publish;
      var c := signed.configuration;
      if !VerifiedConfig(d, id.trust, signed) { return Some(BadSignature); }
      if !ForIdentity(id, c) { return Some(WrongIdentity); }
      if wallUTCNS < c.validFromWallUTCNS || wallUTCNS >= c.validUntilWallUTCNS { return Some(OutsideValidity); }
      var carried: map<string, KillCommand> := map[];
      if runtime.Some? {
        var current := runtime.value.configuration;
        if c.configurationID != current.configurationID || c.environment != current.environment {
          return Some(WrongIdentity);
        }
        if c.revision < current.revision || (c.revision == current.revision && c.sha256 != current.sha256) {
          return Some(ReplayedRevision);
        }
        if c.sha256 == current.sha256 { return None; }
        carried := runtime.value.emergencyKills;
      } else {
        var loaded := ReadKills(id, kills);
        if loaded.None? { return Some(UnreadableKills); }
        carried := loaded.value;
      }
      refused := WriteAndPublish(signed, wallUTCNS, monotonicNS, carried, fate);
    }

    method ApplyEmergencyKill(s: SignedKill, fate: Fate) returns (refused: Option<Refusal>)
      modifies this`kills, this`runtime
      ensures Reply(View(), refused) == ApplyKill(id, old(View()), s, fate)
    {
      hide Build, VerifiedKill, MaximumSequence;
      if !VerifiedKill(id.trust, s) { return Some(BadSignature); }
      if runtime.None? { return Some(WrongIdentity); }
      var current := runtime.value;
      if s.command.authorityEpoch != id.epoch || s.command.configurationSHA256 != current.configuration.sha256 {
        return Some(WrongIdentity);
      }
      var maximum := MaximumKillSequence(current.emergencyKills);
      MaximumIsUnique(current.emergencyKills, maximum, MaximumSequence(current.emergencyKills));
      if s.command.commandSequence <= maximum { return Some(ReplayedKill); }
      if fate.NotWritten? { return Some(WriteRefused); }
      kills := kills + [s];
      if fate.Stray? { return Some(WriteRefused); }
      var latest := current.emergencyKills[CommandKey(s.command) := s.command];
      var built :=
        BuildEdgeRuntime(current.configuration, current.installedWallUTCNS, current.receivedMonotonicNS, latest);
      runtime := Some(built);
      refused := None;
    }

    method EvaluateRequest(q: EdgeRequest) returns (decision: Decision)
      ensures decision == Answer(Opened(id, View(), kills), q)
    {
      hide Killed, IdentifiedRequest, SymbolAuthorized, Version;
      if runtime.None? { return UNAVAILABLE; }
      var r := runtime.value;
      var c := r.configuration;
      var deny := Decision(false, ExpiredOrClockUnsafe, c.configurationID, c.revision, Version(c), c.sha256, "");
      if q.nowWallUTCNS < c.validFromWallUTCNS || q.nowWallUTCNS >= c.validUntilWallUTCNS
         || q.nowWallUTCNS < r.installedWallUTCNS
      {
        return deny;
      }
      if q.nowMonotonicNS < r.receivedMonotonicNS { return deny.(reason := MonotonicRegression); }
      var wallAge, monotonicAge := q.nowWallUTCNS - r.installedWallUTCNS, q.nowMonotonicNS - r.receivedMonotonicNS;
      if wallAge > c.maximumEdgeOfflineAgeNS || monotonicAge > c.maximumEdgeOfflineAgeNS {
        return deny.(reason := CacheStale);
      }
      if !IdentifiedRequest(q) { return deny.(reason := IdentityInvalid); }
      var killed := IsKilled(c.killSwitches, r.emergencyKills, q);
      if killed { return deny.(reason := KillSwitchEngaged); }
      if q.strategyID !in r.strategies || !StrategyAllows(r.strategies[q.strategyID], q) {
        return deny.(reason := StrategyNotAuthorized);
      }
      if q.venueID !in r.venues || !r.venues[q.venueID].enabled { return deny.(reason := VenueNotAuthorized); }
      deny := deny.(mode := r.venues[q.venueID].mode);
      if deny.mode == LIVE || (deny.mode != PAPER && deny.mode != SIMULATION) {
        return deny.(reason := LiveModeUnavailable);
      }
      if q.accountID !in r.risk { return deny.(reason := RiskLimitsUnavailable); }
      var limits := r.risk[q.accountID];
      if limits.maximumConfigurationAgeNS < c.maximumEdgeOfflineAgeNS
         && (wallAge > limits.maximumConfigurationAgeNS || monotonicAge > limits.maximumConfigurationAgeNS) {
        return deny.(reason := RiskConfigurationStale);
      }
      var authorized := IsSymbolAuthorized(limits, q.instrumentID);
      if !authorized { return deny.(reason := SymbolNotAuthorized); }
      if q.modelID !in r.models { return deny.(reason := ModelNotEligible); }
      var versions := r.models[q.modelID];
      if q.modelVersion !in versions || !ModelAllows(versions[q.modelVersion], q) {
        return deny.(reason := ModelNotEligible);
      }
      if q.sessionID !in r.sessions || !SessionOpen(r.sessions[q.sessionID], q) {
        return deny.(reason := TradingSessionClosed);
      }
      decision := deny.(allowNewOrders := true, reason := EdgeAuthorized);
    }
  }
}
