/** Exactly when a coordinator opens on a registry and a journal, and as what. */
module Reopening {
  import opened Results
  import opened DeploymentTypes
  import opened Coordinator
  import opened Recovery
  import opened Regression
  import opened Restoration
  import opened CoordinatorObject

  // Restoring these records against this registry state succeeds.
  ghost predicate Restorable(cfg: DeploymentConfig, records: seq<Record>, registry: RunState) {
    && (forall i | 0 <= i < |records| :: Proper(cfg, records[i]))
    && (forall i, j | 0 <= i < j < |records| :: Precedes(records[i].entry, records[j].entry))
    && Agree(registry, if records == [] then registry else records[|records| - 1].state)
  }

  /** A coordinator opens exactly when the comparison version is approved and in PRODUCTION,
  and either the candidate is in
      CANARY, active in the canary environment, with a journal that restores against that, or in SHADOW, active in the
      shadow environment, with such a journal or none that can be read. It then has the state of the last record or,
      without records, of the registry, and the statistics the records show. */
  lemma OpensExactly(config: DeploymentConfig, candidate: VersionStatus, production: VersionStatus,
                     records: Option<seq<Record>>)
    requires ValidConfig(config)
    ensures Opening(config, candidate, production, records).Ok? <==>
      && production.approval.Approved? && production.stage.Production?
      && (|| (&& candidate.stage.CanaryStage? && config.canaryEnvironment in candidate.activeEnvironments
              && records.Some? && Restorable(config, records.value, Canary))
          || (&& candidate.stage.ShadowStage? && config.shadowEnvironment in candidate.activeEnvironments
              && (records.None? || Restorable(config, records.value, Shadow))))
    ensures Opening(config, candidate, production, records).Ok? ==>
      var c := Opening(config, candidate, production, records).value;
      var list := if records.Some? then records.value else [];
      && c.state ==
        (if list != [] then list[|list| - 1].state else if candidate.stage.CanaryStage? then Canary else Shadow)
      && (forall r :: r in c.statistics <==> r in config.requiredRegimes)
      && forall r | r in c.statistics :: MomentsOf(c.statistics[r], Observations(list, r))
  {
    hide ValidConfig, Recovery.Restore, Fresh, MomentsOf, Observations, Proper, Precedes;
    if records.Some? {
      RestoresExactly(config, records.value, Canary);
      RestoresExactly(config, records.value, Shadow);
    } else {
      FreshIs(config);
    }
  }

  lemma FreshIs(cfg: DeploymentConfig)
    ensures var c := Fresh(cfg, Shadow);
      && c.state == Shadow && (forall r :: r in c.statistics <==> r in cfg.requiredRegimes)
      && forall r | r in c.statistics :: MomentsOf(c.statistics[r], Observations([], r))
  {
    hide MomentsOf;
    FreshRemembers(cfg, Shadow);
  }
}
