# Control-plane verification

This project models the decision logic of the control plane in Dafny and proves what it guarantees over
whole runs: the shadow and canary deployment coordinator with its exact confidence intervals, the model
registry with its lifecycle logs and deployment pointers, the configuration authority with its replayed
audit log, the edge cache with its kill log, and the evidence hash of the paper-trading certification.
`dafny verify dfyconfig.toml` checks everything.

The main results:

- **The arithmetic closes a dangerous exit.** For all validated observations the interval computation
  cannot fail, so nothing leaves CANARY except into ROLLBACK_PENDING (`Statistics.IntervalNeverFails`,
  `Coordinator.ObserveFailsClosed`, `Interleaving.CanaryLeavesOnlyToRollback`).
- **Every interleaving is safe.** The coordinator drops its lock between readiness and promotion and
  before a rollback; `Interleaving.EveryRunIsSafe` covers every interleaving of any number of callers, and
  `Promotion.EveryJournalIsOrderly` says what every journal shows of it.
- **A worse candidate is caught.** The evidence is the candidate's readings minus production's, field by
  field; while a run is alive no regime exceeds its permitted regression on average, and exactly which
  observations and scope requests count is written out over every run (`Regression.EveryRunActsOnExcesses`,
  `Regression.LiveRunsAreWithinRegression`, `Regression.ObservationTripsExactly`, `Admission.AdmittedExactly`).
- **Recovery is exact.** `Recovery.RestoreIsFaithful` gives the precise conditions under which the journal
  rebuilds the live coordinator. `Restart.RestartAnswersLikeLive` concludes that the restarted coordinator
  then gives every caller the same replies forever, and `RestartHistory.EveryLifeKeepsLimits` carries every
  guarantee across any number of such restarts. `Restart.RestoreOfOwedRollback` says exactly when a rollback
  that was owed survives the restart, and `Restoration.RestoresExactly` which journals restore at all, whoever
  wrote them.
- **Every crash point keeps logs chained and pointers attached, and withdrawal is permanent**
  (`Registry.OperationKeeps`, `RegistryHistory.DisableRepairs`, `RegistryHistory.WithdrawnForever`). Every
  event of every history names the one call that can write it, and each call succeeds exactly under the
  conditions written out (`RegistryCalls.EveryEventHasItsCall`, `RegistryOutcomes.TransitsExactly`,
  `RegistryOutcomes.RollsBackExactly`, `RegistryOutcomes.DisablesExactly`).
- **Memory is replay.** After every successful configuration operation by any instance on a shared root,
  memory equals the replay of the log (`AuthorityHistory.MemoryIsReplay`), and every record of every log was
  written for someone who held the role it needs (`Authorization.EveryRecordIsEntitled`).
- **Finalizing keeps what it is given.** It succeeds exactly for the valid configurations, in any order, and
  only reorders them (`ConfigurationMeaning.ValidExactly`, `Finalizing.FinalizesExactly`).
- **A kill is forever, an index is a scan, and a deadline is never extended** (`EdgeCache.KilledForever`,
  `EdgeRuntime.EvaluateIsScan`, `EdgeCache.DeadlineIsNeverExtended`), also when writes are durable although
  the writer got an error.

## How the model is built

A value-level function describes each critical section, operation or loop; theorems are about those
functions and about runs of them. Classes (`DeploymentCoordinator`, `OrderWindow`, `MetricAccumulator`,
`FileDeploymentAuditSink`, `ModelRegistry`, `Service`, `EdgeCacheService`) change their fields step by step
and are proved to leave the value the function describes, so the theorems hold of them.

The environment is a parameter. Clocks are arguments. What becomes of a write (nothing is durable, it is
durable although the writer got an error, or it is durable and acknowledged), how many writes happen before a
call is cut short, and how the registry answers a promotion or rollback are arguments too, so every lemma
quantifies over them. Digests are function parameters with 64 hexadecimal digits as results. No such function
is injective on all inputs, so collision resistance is assumed only where it is used: the lemmas about equal
heads assume that no two entries of the two logs collide, and the registry that two revisions of a log never
share a digest. A signature is the key that made it, and verifies exactly when the verifier's trust store
binds the stated key identifier to that key. Strings are byte sequences with one char per byte. Integers are
mathematical; the width of the source's types is written out wherever it can be reached.

| files | what they model |
|---|---|
| Results, Text, SemanticVersion | outcomes, identifier, version and digest shapes, and the version pattern |
| DeploymentTypes, Statistics | metrics, thresholds, exact moments and conservative intervals |
| Coordinator, CanaryScope, Interleaving, CoordinatorObject | the deployment coordinator, its runs and its object form |
| Recovery, Restart, RestartHistory, Reachability | restoring the journal, what restarted coordinators do, runs with many restarts, and runs that reach the states in question |
| Regression, Admission, Promotion, Restoration, Reopening | exactly which observations count and trip, which requests are admitted, how promotions and rollbacks go, which journals restore, and when a coordinator opens |
| HashChain, DeploymentJournal, JournalMeaning | chained logs and the deployment audit file, and exactly which files are accepted |
| Lifecycle, LifecycleMeaning, Registry, RegistryHistory, RegistryReachability, RegistryObject | lifecycle logs, registry operations with crash points, histories, particular histories from the empty disk, object form |
| RegistryCalls, RegistryOutcomes | which call writes which event, and exactly when each call succeeds |
| Sorting, Configuration, Validation, Canonical | configurations: validity, the validator's loops, canonical form and finalizing |
| ConfigurationMeaning, Finalizing | the rules field by field, and what finalizing keeps |
| AuditLog, Authority, AuthorityHistory, RollbackHistory, AuthorityObject | the configuration authority: log and replay, operations, histories and two in particular, object form |
| AuditStory, Authorization | what accepted logs say record by record, who may do what, and exactly when each operation succeeds |
| EdgeRuntime, EdgeCache, EdgeHistory, EdgeCacheObject | edge evaluation, installs, kills and restarts, two particular histories, object form |
| Evidence, EvidenceRecord, EvidenceLayout | the evidence hash, its preimage and its byte format |
| Consistency | a digest and configurations that meet the assumptions of the other files |

## Where the code differs from what one might expect

Each point below is a lemma; the code is modelled as it is.

- The live coordinator journals scope requests whose sequence or time did not advance, and restore refuses
  a journal that holds one. From every CANARY a request with sequence 0 leads there, and nothing repairs the
  journal (`Recovery.RestoreIsFaithful`, `Restart.ReplayedScopeLocksJournal`,
  `Restart.LockedJournalStaysLocked`, `Reachability.UnrestorableJournalIsReachable`).
- A malformed last request is journaled without advancing the live sequence but advances the rebuilt one
  (`Restart.MalformedLastScopeIsVisible`, `Reachability.DivergingRestartIsReachable`).
- Only the callers that entered a pending state act on it, so a restored pending state is permanent. An owed
  rollback is restored as owed only if the alarm was journaled; otherwise the restart resumes CANARY
  (`Restart.OwnerlessPendingIsPermanent`, `Restart.RestoreOfOwedRollback`,
  `Restart.RestoredRollbackIsNeverPerformed`, `Reachability.LostRollbackIsReachable`).
- A line that is durable although its append failed is followed by a line with the same sequence, and then
  the deployment audit file is refused (`DeploymentJournal.ReadAllIsAcknowledged`).
- Promotion to CANARY or LIMITED_RISK does not bound the authorization reference, and the verifier does. A
  longer reference makes the version unreadable for every later call, disabling included
  (`RegistryHistory.AcceptedExactly`, `RegistryHistory.OverlongReferenceLocks`,
  `RegistryHistory.LongReferencePromotionLocks`, `RegistryReachability.LockedVersionIsReachable`).
- The lifecycle verifier by itself lets approval appear without an approval event. An accepted log that
  deploys has one approval event if the event that entered REPLAY_VALIDATED left approval pending, and none
  otherwise; the operations write logs of the first kind only (`RegistryHistory.AcceptedDeploymentApproval`,
  `RegistryHistory.VerifierAloneAllowsUnapprovedDeployment`, `RegistryHistory.DeploymentHasOneApproval`).
- Retirement does not touch pointers. Disabling repairs any interrupted operation before retirement and
  nothing does after it (`RegistryHistory.DisableRepairs`, `RegistryHistory.RetiredIsFinal`,
  `RegistryHistory.InterruptedRollbackThenRetireStrands`,
  `RegistryReachability.StrandedVersionIsReachable`).
- A configuration rollback target must be stored and older, not approved and not previously active
  (`Authorization.RollbackTargetExactly`, `RollbackHistory.RollbackActivatesTheNeverActive`,
  `RollbackHistory.NeverApprovedBecomesActive`).
- An instance of another authority epoch can write until a kill command is logged, and cannot read the log
  afterwards (`AuthorityHistory.ReadableExactly`, `AuthorityHistory.EveryLogHasOneEpoch`,
  `RollbackHistory.ForeignEpochIsLockedOut`).
- The edge checks a kill command against the commands it knows, and reloads against the line before. After a
  stray line the same command is accepted again and the log never loads any more
  (`EdgeCache.KillReloadsExactly`, `EdgeCache.RetryLocksLog`, `EdgeHistory.LockedLogIsReachable`). Likewise
  the installed file can fall back from the revision a stray install left, though never below the published
  one (`EdgeCache.FileAdvancesExactly`, `EdgeHistory.FileFallsBack`).

## Model

| member | source | states |
|---|---|---|
| `SemanticVersion.SemanticExactly` | control/model_registry/types.go:37-37 | The scan accepts a version text if and only if it matches the pattern: three numbers without leading zeros, an optional pre-release and an optional build tag |
| `Statistics.CeilDiv` | control/model_registry/deployment_statistics.go:87-95 | The least integer q with a <= q*b, for negative numerators too |
| `Statistics.FloorDiv` | control/model_registry/deployment_statistics.go:97-105 | The greatest integer q with q*b <= a, for negative numerators too |
| `Statistics.CeilSqrt` | control/model_registry/deployment_statistics.go:107-115 | The least natural number whose square reaches v |
| `Statistics.MetricAccumulator.Add` | control/model_registry/deployment_statistics.go:14-21 | The accumulator of a list of deltas becomes the accumulator of the list extended by one delta |
| `Statistics.AccumulateIsExact` | control/model_registry/deployment_statistics.go:14-21 | Count, sum and sum of squares are the exact ones of every list of deltas shorter than 2^64 |
| `Statistics.AddKeepsBounded` | control/model_registry/deployment_statistics.go:14-21 | One more bounded delta keeps the variance numerator n*sum(x^2) - sum(x)^2 nonnegative and every moment within the range of its inputs |
| `Statistics.AccumulateIsBounded` | control/model_registry/deployment_statistics.go:14-21 | The same for every list of fewer than 2^64 deltas, in any order |
| `Statistics.IntervalNeverFails` | control/model_registry/deployment_statistics.go:23-85 | For every accumulator of validated deltas and every permitted z-score none of the error exits of the interval computation is reachable |
| `Statistics.StandardErrorIsLeast` | control/model_registry/deployment_statistics.go:54-66 | Rounding the variance up before the root loses nothing: the standard error is the least integer whose square reaches the exact variance of the mean |
| `Statistics.IntervalIsExact` | control/model_registry/deployment_statistics.go:23-85 | n*lower <= sum <= n*upper for every list of deltas, the centres are the tightest integers around the mean, and the reported mean is the exact one truncated toward zero |
| `Statistics.HalfWidthIsConservative` | control/model_registry/deployment_statistics.go:54-73 | halfWidth^2 * 10^12 * n^2(n-1) covers z^2 times the variance numerator, and no smaller integer covers z times any integer whose square reaches the variance of the mean |
| `Statistics.TriggeredExactly` | control/model_registry/deployment_statistics.go:23-85 | A breach is reported if and only if there are enough samples and the upper bound exceeds the permitted regression, for every count including zero and one |
| `Statistics.IntervalIgnoresOrder` | control/model_registry/deployment_statistics.go:14-85 | Any two orders of the same deltas give the same interval |
| `DeploymentTypes.EveryMetricHasThreshold` | control/model_registry/deployment_types.go:383-435 | A validated configuration has a valid threshold for every metric, so the zero threshold is never used |
| `DeploymentTypes.DeltaInRange` | control/model_registry/deployment_types.go:302-350 | Every metric delta of a validated paired observation fits the supported range and int64 |
| `Coordinator.ObserveFailsClosed` | control/model_registry/deployment_coordinator.go:141-236 | An observation never takes CANARY to PROMOTION_BLOCKED: interval computation cannot fail, every exit from CANARY is to ROLLBACK_PENDING and makes its caller owe the rollback, and blocked states stay untouched |
| `Coordinator.ReadinessSurvivesObservation` | control/model_registry/deployment_coordinator.go:141-275 | Complete evidence is kept by every observation that leaves the coordinator in SHADOW |
| `Coordinator.FirstBreachFinds` | control/model_registry/deployment_coordinator.go:519-537 | The reported trigger exists if and only if some metric of the regime is triggered |
| `CanaryScope.OrderWindow.ExpireOrderTimes` | control/model_registry/deployment_coordinator.go:584-597 | The in-place shift leaves exactly the order times that the window keeps |
| `CanaryScope.OrderWindow.Append` | control/model_registry/deployment_coordinator.go:395-396 | Appending keeps all earlier times in order, also when the buffer has to grow |
| `CanaryScope.ExpireDropsPrefix` | control/model_registry/deployment_coordinator.go:584-597 | Expiry drops a prefix of times outside the window and stops at the first time inside it |
| `CanaryScope.AdmitFailsClosed` | control/model_registry/deployment_coordinator.go:338-402 | A scope decision leaves CANARY only for ROLLBACK_PENDING, when its journal refuses, and then admits nothing; outside CANARY it changes nothing |
| `CanaryScope.AdmitKeepsRate` | control/model_registry/deployment_coordinator.go:338-402 | Every decision keeps, over the whole history of admissions: the buffer bound, increasing sequences, ordered times, capital within the cap in true integers, and any maximum+1 consecutive admissions at least a window apart |
| `CanaryScope.StateChangeKeepsRate` | control/model_registry/deployment_coordinator.go:279-334 | Entering CANARY once and leaving it keep the same limits |
| `CanaryScope.AtMostMaximumPerWindow` | control/model_registry/deployment_coordinator.go:584-597 | Times so spaced put at most the configured maximum into any half-open interval of one window length |
| `Interleaving.StepKeepsOwners` | control/model_registry/deployment_coordinator.go:141-402 | One turn of any caller keeps exactly one owner for PROMOTION_PENDING and for ROLLBACK_PENDING |
| `Interleaving.EveryRunIsSafe` | control/model_registry/deployment_coordinator.go:141-402 | Under every interleaving of any number of callers on a fresh coordinator: one owner per pending state, the registry is asked to promote only on complete unbreached evidence in every regime, CANARY is entered at most once, and the canary limits hold |
| `Interleaving.CanaryLeavesOnlyToRollback` | control/model_registry/deployment_coordinator.go:141-236 | From every reachable CANARY state every turn stays in CANARY or moves to ROLLBACK_PENDING with the moving caller owing the rollback |
| `Interleaving.FailClosedIsFinal` | control/model_registry/deployment_coordinator.go:539-582 | No later turns of any callers leave a final state |
| `Interleaving.EveryRunKeepsLimits` | control/model_registry/deployment_coordinator.go:338-402 | In every run: any half-open interval of one rate window holds at most the maximum of admissions, the buffer never exceeds it, admitted sequences strictly increase, and every admission is for a listed instrument and strategy, on a fresh risk snapshot, within the capital limit |
| `Admission.AdmittedExactly` | control/model_registry/deployment_coordinator.go:338-402 | In every reachable CANARY a request is admitted if and only if it is well formed, its sequence is new and its time does not regress, its snapshot is fresh, its instrument and strategy are listed, its capital fits and the admissions of the run inside the window ending now are below the maximum; the reason and the remaining budgets are exact |
| `Admission.AdmitsExactly` | control/model_registry/deployment_coordinator.go:338-402 | Everything a scope request does, in every run: nothing outside CANARY; in CANARY the decision is journaled, answered and moves replay protection only as far as it was valid and later, or, when the journal does not take it, nothing is admitted and the caller owes a rollback |
| `Admission.AdmittedExactlyInEveryLife` | control/model_registry/deployment_coordinator.go:338-402 | The same across any number of restarts that restore the live coordinator |
| `Recovery.FirstErrorDecides` | control/model_registry/deployment_coordinator.go:445-491 | A refused record decides the outcome of restoring any longer journal |
| `Recovery.EveryRunMirrors` | control/model_registry/deployment_coordinator.go:445-491 | In every run that is still live the journal determines the coordinator up to the scope fields the last request explains |
| `Recovery.RestoreIsFaithful` | control/model_registry/deployment_coordinator.go:445-491 | For every run ending in SHADOW or CANARY: restore succeeds if and only if journaled scope requests have increasing sequences and non-regressing times; the rebuilt coordinator is then the live one, up to order times already outside the window, if and only if the last scope request was structurally valid |
| `Recovery.AlikeForever` | control/model_registry/deployment_coordinator.go:141-402 | Systems whose coordinators are alike in that sense stay alike, with equal journals, callers and admissions, under every future sequence of turns |
| `Recovery.EveryRunJournalsItsStatistics` | control/model_registry/deployment_coordinator.go:433-443 | In every run the statistics are the accumulation of the deltas in the run's own journal |
| `Regression.DeltaIsExcess` | control/model_registry/deployment_coordinator.go:433-443 | For each of the ten metrics, what an observation adds is the candidate's reading minus production's, written out field by field; a missed deadline counts one million |
| `Regression.EveryRunActsOnExcesses` | control/model_registry/deployment_coordinator.go:519-537 | In every run the moments and the interval of every regime and threshold are those of the excesses that the run's journal shows, against that configured threshold, and the interval brackets their exact mean |
| `Regression.LiveRunsAreWithinRegression` | control/model_registry/deployment_coordinator.go:141-236 | In every run in SHADOW, PROMOTION_PENDING or CANARY, a regime with enough journaled observations exceeds no permitted regression on average |
| `Regression.WorseCandidateIsCaught` | control/model_registry/deployment_coordinator.go:141-236 | A candidate that always reads worse than production by one amount above the permitted regression leaves no run in those states once there are enough observations |
| `Regression.ObservationTripsExactly` | control/model_registry/deployment_coordinator.go:141-236 | In every run a valid, durable observation trips if and only if the regime's journaled observations with it are in breach; SHADOW is then blocked, CANARY owes a rollback, and otherwise the state stays |
| `Regression.ConstantExcessTripsExactly` | control/model_registry/deployment_coordinator.go:141-236 | With constant differences an observation trips if and only if some metric has enough samples and an amount above its permitted regression; a candidate that reads the same or better never trips |
| `Regression.ObservationCountsExactly` | control/model_registry/deployment_coordinator.go:404-431 | In every run in SHADOW or CANARY an observation is refused if and only if its sequence is not above the last journaled one, its regime is not required, or some field of the pair, each written out, is wrong |
| `Regression.TriggerIsFirst` | control/model_registry/deployment_coordinator.go:519-537 | The trigger names the regime and the first metric in the fixed order that is in breach, with its interval |
| `Regression.ObservesExactly` | control/model_registry/deployment_coordinator.go:141-236 | Everything an observation does, in every run: nothing outside SHADOW and CANARY; failing closed without a record when it does not count or its record is not durable; and otherwise counted in its own regime only, recorded, and tripped, with an alarm if that becomes durable, exactly when the regime is then in breach; every record field by field |
| `Restoration.RestoresExactly` | control/model_registry/deployment_coordinator.go:445-491 | For every sequence of records, whoever wrote it, and every registry state: restore succeeds if and only if every record is a well-formed one of this deployment, observations and scope requests are in order and the last state agrees with the registry; the coordinator then holds the last state, sequences and time, the moments of the excesses shown, and exactly the admission times still inside the window |
| `Promotion.ReadyExactly` | control/model_registry/deployment_coordinator.go:240-301 | In every run an idle caller passes the readiness check if and only if the run is in SHADOW, a second person approves exactly this configuration with reason and reference, and every required regime has as many journaled observations as every threshold asks for |
| `Promotion.LocksExactly` | control/model_registry/deployment_coordinator.go:302-316 | In every run the caller that saw readiness goes on to the registry if and only if the run is still in SHADOW and its request becomes durable; if it does not, promotion is blocked; the record is given field by field |
| `Promotion.FinishesExactly` | control/model_registry/deployment_coordinator.go:317-336 | In every run the run enters CANARY if and only if the registry granted it and the activation becomes durable; a refusal blocks promotion, and a lost activation makes the caller owe a rollback |
| `Promotion.AsksExactly` | control/model_registry/deployment_coordinator.go:317-336 | In every run: a promotion is asked of the registry once, from PROMOTION_PENDING, and a rollback from ROLLBACK_PENDING; asking only moves the caller, which remembers the answer; and a turn that its caller cannot perform now changes nothing |
| `Promotion.RollsBackExactly` | control/model_registry/deployment_coordinator.go:539-582 | In every run only from ROLLBACK_PENDING and only for its owner: the final state and the record are those of the registry's answer, whether or not the record becomes durable |
| `Promotion.EveryJournalIsOrderly` | control/model_registry/deployment_coordinator.go:279-336 | In every journal of every run each record was written in a state in which its entry is written, every request and activation carries a second person's approval of exactly this configuration, an activation directly follows the request with the same approval, and a closing record is the last one |
| `Restart.AlikeReplies` | control/model_registry/deployment_coordinator.go:141-402 | Alike coordinators give every caller the same replies to every future sequence of turns |
| `Restart.RestartAnswersLikeLive` | control/model_registry/deployment_coordinator.go:445-491 | For every run ending in SHADOW or CANARY with monotone scope requests and a structurally valid last one: restore succeeds, and to every future sequence of turns the restarted coordinator gives the replies, records and admissions of the live one |
| `Restart.ReplayedScopeLocksJournal` | control/model_registry/deployment_coordinator.go:350-396 | From every reachable CANARY a request whose sequence does not advance is journaled, leaves CANARY in place, and makes restore fail whatever the registry says |
| `Restart.LockedJournalStaysLocked` | control/model_registry/deployment_coordinator.go:445-491 | No later turns make such a journal restorable again |
| `Restart.MalformedLastScopeIsVisible` | control/model_registry/deployment_coordinator.go:387-394 | In every run whose journal restores and ends in a malformed scope request, some request is considered by the live coordinator and called invalid by the restored one |
| `Restart.MalformedScopeIsReachable` | control/model_registry/deployment_coordinator.go:350-396 | One malformed request leads there from every reachable CANARY that can be restored |
| `Restart.OwnerlessPendingIsPermanent` | control/model_registry/deployment_coordinator.go:539-582 | With no caller owning it, PROMOTION_PENDING or ROLLBACK_PENDING, the coordinator and its journal never change again |
| `Restart.RestoreOfOwedRollback` | control/model_registry/deployment_coordinator.go:445-491 | For every run ending in ROLLBACK_PENDING: restore against a registry in CANARY succeeds if and only if the scope requests are monotone and the last record is not an approval request; the statistics come back, and the state is ROLLBACK_PENDING if and only if the last record is the alarm, else CANARY |
| `Restart.RestoredRollbackIsNeverPerformed` | control/model_registry/deployment_coordinator.go:481-491 | A rollback restored as owed is performed by no later turns |
| `Restart.InvalidObservationLosesRollback` | control/model_registry/deployment_coordinator.go:151-165 | From every reachable CANARY that can be restored an invalid observation owes a rollback of which the journal has no trace, so a restart resumes CANARY |
| `Restart.RestoreOfPendingPromotion` | control/model_registry/deployment_coordinator.go:481-491 | For every run ending in PROMOTION_PENDING: a registry in SHADOW restores that state, a registry in CANARY makes restore fail |
| `RestartHistory.EveryLifeIsSafe` | control/model_registry/deployment_coordinator.go:141-491 | Across any number of restarts that restore the live coordinator, with any calls before, between and after them: one owner per pending state, promotions only on complete unbreached evidence, CANARY entered at most once, the canary limits, and a journal that mirrors the coordinator |
| `RestartHistory.EveryLifeKeepsLimits` | control/model_registry/deployment_coordinator.go:338-491 | Across any number of such restarts: any half-open interval of one rate window holds at most the maximum of admissions, the buffer never exceeds it, sequences strictly increase, and every admission is for a listed instrument and strategy, on a fresh risk snapshot, within the capital limit |
| `RestartHistory.EveryRestartAnswersLikeLive` | control/model_registry/deployment_coordinator.go:445-491 | Every such restart, however many came before it, gives the replies, records and admissions of the coordinator it replaces to every future sequence of turns |
| `Reachability.CanaryIsReachable` | control/model_registry/deployment_coordinator.go:141-334 | Under every valid configuration some run reaches CANARY |
| `Reachability.UnrestorableJournalIsReachable` | control/model_registry/deployment_coordinator.go:338-491 | Under every valid configuration some run is in CANARY with a journal that cannot be restored |
| `Reachability.DivergingRestartIsReachable` | control/model_registry/deployment_coordinator.go:338-491 | Under every valid configuration some run restores to a coordinator that answers a request differently |
| `Reachability.LostRollbackIsReachable` | control/model_registry/deployment_coordinator.go:141-491 | Under every valid configuration some run owes a rollback that a restart loses |
| `CoordinatorObject.DeploymentCoordinator.constructor` | control/model_registry/deployment_coordinator.go:91-117 | A new coordinator has empty accumulators for every required regime, an empty order buffer and the given state |
| `CoordinatorObject.NewDeploymentCoordinator` | control/model_registry/deployment_coordinator.go:73-130 | Opens or refuses as `Reopening.OpensExactly` says, and the object then holds the coordinator it determines |
| `Reopening.OpensExactly` | control/model_registry/deployment_coordinator.go:57-131 | A coordinator opens if and only if the comparison version is approved and in PRODUCTION and the candidate is in CANARY, active in the canary environment, with a journal that restores, or in SHADOW, active in the shadow environment, with such a journal or none that can be read; its state and statistics are then those of the records |
| `CoordinatorObject.DeploymentCoordinator.ApplyObservation` | control/model_registry/deployment_coordinator.go:433-443 | The loop over metrics adds to each accumulator of the observation's regime, and to no other, the delta that `Regression.DeltaIsExcess` writes out |
| `CoordinatorObject.DeploymentCoordinator.IntervalsForRegime` | control/model_registry/deployment_coordinator.go:519-537 | Intervals of all ten metrics in order, the first trigger if any, and never an error |
| `CoordinatorObject.DeploymentCoordinator.RegimeReadiness` | control/model_registry/deployment_coordinator.go:252-266 | Whether samples are missing and whether some metric is in breach, exactly |
| `CoordinatorObject.DeploymentCoordinator.Readiness` | control/model_registry/deployment_coordinator.go:240-275 | Ready if and only if in SHADOW with enough samples and no breach for every metric in every regime |
| `CoordinatorObject.DeploymentCoordinator.Observe` | control/model_registry/deployment_coordinator.go:141-236 | State, journal, outcome and owed rollback are those that `Regression.ObservesExactly` determines |
| `CoordinatorObject.DeploymentCoordinator.AdmitCanaryScope` | control/model_registry/deployment_coordinator.go:338-402 | State, journal, decision and owed rollback are those that `Admission.AdmitsExactly` determines |
| `CoordinatorObject.DeploymentCoordinator.LockPromotion` | control/model_registry/deployment_coordinator.go:296-309 | The promotion is claimed only from SHADOW and a refused journal blocks it, as `Promotion.LocksExactly` writes out |
| `CoordinatorObject.DeploymentCoordinator.FinishPromotion` | control/model_registry/deployment_coordinator.go:315-333 | A granted promotion enters CANARY, or owes a rollback when its activation cannot be journaled, as `Promotion.FinishesExactly` writes out |
| `CoordinatorObject.DeploymentCoordinator.FinishRollback` | control/model_registry/deployment_coordinator.go:539-582 | The final state and the journaled record match what the registry answered, as `Promotion.RollsBackExactly` writes out |
| `CoordinatorObject.DeploymentCoordinator.RestoreRecord` | control/model_registry/deployment_coordinator.go:446-485 | One record is applied or refused exactly as replay on values says |
| `CoordinatorObject.DeploymentCoordinator.Restore` | control/model_registry/deployment_coordinator.go:445-491 | The loop over the journal ends in the replayed coordinator, which `Restoration.RestoresExactly` determines, or in the first refusal |
| `DeploymentJournal.Inspect` | control/model_registry/deployment_journal.go:175-214 | Accepts a file if and only if sequences continue, every line links to the one before, digests match and records are valid |
| `JournalMeaning.ChainedExactly` | control/model_registry/deployment_journal.go:175-214 | A deployment audit file is accepted if and only if every line is numbered from one, links to the one before it, is hashed, and holds a record each of whose fields is in range |
| `DeploymentJournal.Open` | control/model_registry/deployment_journal.go:81-103 | Opens exactly the accepted files, with the sequence and hash of their last line |
| `DeploymentJournal.FileDeploymentAuditSink.Append` | control/model_registry/deployment_journal.go:106-154 | Writes exactly valid, numbered records; sequence and hash move on only if the write is acknowledged, while a stray line stays in the file |
| `DeploymentJournal.FileDeploymentAuditSink.ReadAll` | control/model_registry/deployment_journal.go:157-172 | The records of an accepted file in order, or nothing |
| `DeploymentJournal.AppendKeeps` | control/model_registry/deployment_journal.go:106-154 | A durable line keeps the file accepted and adds exactly its record; the sink stays equal to what reopening the file gives if and only if the line is not stray |
| `DeploymentJournal.ReadAllIsAcknowledged` | control/model_registry/deployment_journal.go:106-172 | After any attempts the file is accepted if and only if nothing was written after a stray line; then it holds the acknowledged records in order, followed by the stray one if any |
| `DeploymentJournal.SameHeadSameFile` | control/model_registry/deployment_journal.go:175-214 | Two accepted files with the same last hash are the same file, unless two of their lines collide |
| `Lifecycle.VerifyLog` | control/model_registry/registry.go:690-756 | Accepts a log if and only if it is not empty and every event is accepted after its predecessor |
| `LifecycleMeaning.AcceptedLogExactly` | control/model_registry/registry.go:690-819 | A log is accepted if and only if it is not empty and every event is hashed, numbered and linked, has every field in range, and makes one of the permitted moves from the event before it, the moves listed stage by stage |
| `Lifecycle.SameHeadSameHistory` | control/model_registry/registry.go:758-781 | Two accepted logs with the same last digest are the same log of the same model version, unless two of their events collide |
| `HashChain.SameHeadSameLog` | control/model_registry/registry.go:758-781 | Two linked logs with equal heads have equal length and pairwise the same entries, with no sequence numbers needed |
| `Registry.TransitionIsWritten` | control/model_registry/registry.go:554-625 | Every event a lifecycle call plans is a well-formed, correctly numbered, signed move from the log's last event, with approval carried along |
| `Registry.RollbackIsWritten` | control/model_registry/registry.go:375-441 | The same for the rollback event, whose target is another approved and deployed version |
| `Registry.DisableIsWritten` | control/model_registry/registry.go:446-499 | The same for the disabling event, or the log already ends with it |
| `Registry.DisablePointersKeeps` | control/model_registry/registry.go:1029-1056 | Repointing environments, cut short anywhere, leaves every pointer attached to its version's log |
| `Registry.OperationKeeps` | control/model_registry/registry.go:206-625 | At every crash point of every operation logs stay chained and signed and each pointer names an event of its active version's log with the matching lifecycle |
| `RegistryHistory.EveryDiskIsKept` | control/model_registry/registry.go:206-625 | The same for every disk reachable by any operations, each cut short anywhere |
| `RegistryHistory.EveryHistoryIsKept` | control/model_registry/registry.go:206-625 | The same for every history that starts with an empty registry |
| `RegistryHistory.AcceptedExactly` | control/model_registry/registry.go:758-819 | The verifier accepts a written log if and only if no authorization reference in it exceeds 256 bytes |
| `RegistryHistory.ReadableExactly` | control/model_registry/registry.go:690-756 | A reachable version is readable if and only if it is registered and its references fit |
| `RegistryHistory.OverlongReferenceLocks` | control/model_registry/registry.go:766-766 | Every later call on a version with an over-long reference, disabling included, is refused and changes nothing |
| `RegistryHistory.LongReferencePromotionLocks` | control/model_registry/registry.go:340-372 | A promotion to CANARY or LIMITED_RISK with a reference over 256 bytes writes such a log |
| `RegistryHistory.DisablePointersEffect` | control/model_registry/registry.go:1029-1056 | Only pointers at the version change, to the event's stage and a higher generation, and a completed pass leaves none behind |
| `RegistryHistory.OperationMoves` | control/model_registry/registry.go:375-625 | One operation appends at most one well-formed event to its own version and moves pointers only to the last stage of its version or of the version rolled back to |
| `RegistryHistory.GenerationsIncrease` | control/model_registry/registry.go:935-966 | Every change of an environment's pointer strictly increases its generation, and no pointer disappears |
| `RegistryHistory.CompletedRollbackWithdraws` | control/model_registry/registry.go:375-441 | A completed rollback leaves the version active in no environment and the target active in the named one |
| `RegistryHistory.CompletedDisableWithdraws` | control/model_registry/registry.go:446-499 | A completed disable leaves the version active in no environment, from every reachable state |
| `RegistryHistory.DisableRepairs` | control/model_registry/registry.go:446-499 | From every reachable disk a well-formed disable of a readable version that is not RETIRED completes and withdraws it everywhere |
| `RegistryHistory.WithdrawnForever` | control/model_registry/registry.go:375-508 | A withdrawn version is active in no environment in every later state of every history, not even as a rollback target |
| `RegistryHistory.RetiredIsFinal` | control/model_registry/registry.go:471-473 | Every further call on a retired version leaves the disk unchanged |
| `RegistryHistory.InterruptedRollbackThenRetireStrands` | control/model_registry/registry.go:375-510 | A planned rollback cut short after its first write, then any well-formed verified retirement: the retirement succeeds and leaves the retired version active wherever it was |
| `RegistryHistory.ApprovalMatchesApprovers` | control/model_registry/registry.go:315-326 | A written log holds at most one approval event, none while approval is pending, and the approved version remembers its actor |
| `RegistryHistory.DeploymentHasOneApproval` | control/model_registry/registry.go:329-371 | Every deployment event is preceded by exactly one approval event, names its actor, and is not promoted to PRODUCTION by that actor |
| `RegistryHistory.AcceptedDeploymentApproval` | control/model_registry/registry.go:758-818 | For every accepted log and every deployment in it: event 3, counting from 0, entered REPLAY_VALIDATED, and up to the deployment there is one approval event if event 3 left approval pending and none otherwise |
| `RegistryHistory.VerifierAloneAllowsUnapprovedDeployment` | control/model_registry/registry.go:758-818 | Such a log without any approval event exists, for every digest and model |
| `RegistryCalls.CallsWriteTheirOwnEvents` | control/model_registry/registry.go:206-510 | From every reachable disk, wherever a call is cut short, it appends at most one event, to its own version, and only one it can write: to PRODUCTION only an explicit promotion with that target, verified, with a reference of at most 256 bytes that is not blank, from LIMITED_RISK, approved, by someone other than the approver; and likewise for every other stage |
| `RegistryCalls.EveryEventHasItsCall` | control/model_registry/registry.go:206-625 | Every event of every version's log in every history was written by the one kind of call that can write it after the event before it |
| `RegistryCalls.PlansExactly` | control/model_registry/registry.go:554-625 | A validation, approval, deployment, promotion or retirement is planned if and only if the version is readable and can be extended, the request well formed and verified, and the stage, approval and authorization are those the call asks for |
| `RegistryOutcomes.TransitsExactly` | control/model_registry/registry.go:294-373 | Such a call succeeds if and only if it is planned, its reference fits, the environment's generations are not used up and its one or two writes are durable; the log then ends in its event and the environment points at it, field by field; cut short it leaves nothing, or the event without the pointer |
| `RegistryOutcomes.RegistersExactly` | control/model_registry/registry.go:206-290 | Exactly when a registration succeeds; a new version's log is started and a known one is left as it is |
| `RegistryOutcomes.RollsBackExactly` | control/model_registry/registry.go:375-441 | With all writes durable a rollback succeeds if and only if the request is well formed and authorized, both versions verified and readable, the version runs, the target is approved and runs, the environment is at the version and no generation is used up; every listed environment at the version then shows it rolled back, the named one the target's last event, and no other changes |
| `RegistryOutcomes.DisablesExactly` | control/model_registry/registry.go:446-499 | With all writes durable a disable succeeds if and only if the request is well formed, the version readable and not RETIRED and no stale environment's generation used up; the log then ends disabled once only, every listed stale environment shows that event and no other changes |
| `RegistryReachability.ThenRuns` | control/model_registry/registry.go:206-337 | From every disk reached by complete calls, a new version can be brought to SHADOW in a new environment, leaving other versions and environments as they were |
| `RegistryReachability.StrandedVersionIsReachable` | control/model_registry/registry.go:206-510 | For every two versions and two environments some history from the empty disk, with one rollback cut short, leaves a retired version active |
| `RegistryReachability.LockedVersionIsReachable` | control/model_registry/registry.go:206-352 | For every version some history from the empty disk leaves a log with an overlong reference |
| `RegistryObject.ModelRegistry.WriteDeploymentPointer` | control/model_registry/registry.go:935-966 | The next generation of one pointer, or a refusal that changes nothing, also when the pointer in place does not load |
| `RegistryObject.ModelRegistry.DisableDeploymentPointers` | control/model_registry/registry.go:1029-1056 | The loop over environments leaves the pointers, remaining writes and completion that the pass on values describes |
| `RegistryObject.ModelRegistry.Transit` | control/model_registry/registry.go:554-625 | Disk and answer of a transition for every number of writes that become durable; with all durable, those of `RegistryOutcomes.TransitsExactly` |
| `RegistryObject.ModelRegistry.Rollback` | control/model_registry/registry.go:375-441 | Disk and answer of a rollback for every number of writes that become durable; with all durable, those of `RegistryOutcomes.RollsBackExactly` |
| `RegistryObject.ModelRegistry.Disable` | control/model_registry/registry.go:446-499 | Disk and answer of a disable for every number of writes that become durable; with all durable, those of `RegistryOutcomes.DisablesExactly` |
| `RegistryObject.ModelRegistry.Register` | control/model_registry/registry.go:206-290 | Disk and answer of a registration; with all writes durable, those of `RegistryOutcomes.RegistersExactly` |
| `RegistryObject.ModelRegistry.Apply` | control/model_registry/registry.go:206-625 | Every call on the object is the operation on values whose events `RegistryCalls.CallsWriteTheirOwnEvents` and whose success and final disk the lemmas of `RegistryOutcomes` determine |
| `Validation.Validate` | control/config_service/validation.go:91-256 | No failure is reported if and only if the configuration is valid: bounds, unique keys in every list, and every reference resolved |
| `ConfigurationMeaning.ValidExactly` | control/config_service/validation.go:91-256 | The valid configurations, field by field without keys, sets or role maps: bounds, every item's rule, every reference to something in the configuration, distinct identities, and somebody for every job with different people to write and to approve |
| `Validation.HasUniqueIdentifiers` | control/config_service/validation.go:258-270 | True if and only if all values are identifiers and no two are equal |
| `Validation.CheckStrategies` | control/config_service/validation.go:112-122 | No failure if and only if every strategy is valid and keys are unique; the seen-set is the set of keys |
| `Validation.CheckVenues` | control/config_service/validation.go:124-134 | The same for venues |
| `Validation.CheckSymbols` | control/config_service/validation.go:144-152 | The same for one account's symbols |
| `Validation.CheckRiskLimits` | control/config_service/validation.go:136-153 | The same for accounts with their symbols; the instrument set is the union over accounts |
| `Validation.CheckModels` | control/config_service/validation.go:155-171 | The same for models, although the seen-set holds joined strings |
| `Validation.CheckCaps` | control/config_service/validation.go:172-187 | The same for ensemble caps, whose models are looked up by prefix |
| `Validation.CheckSessions` | control/config_service/validation.go:188-195 | The same for trading sessions and their venues |
| `Validation.CheckStrategyReferences` | control/config_service/validation.go:196-211 | No failure if and only if every session and model a strategy names exists |
| `Validation.CheckCalendar` | control/config_service/validation.go:213-219 | No failure if and only if every event is valid and keys are unique |
| `Validation.CheckKills` | control/config_service/validation.go:221-238 | No failure if and only if every kill switch is valid, unique and targets something that exists |
| `Validation.CheckBindings` | control/config_service/validation.go:240-253 | No failure if and only if every binding is valid and principals are unique; the role map is the bindings' |
| `Validation.HasOperationalRoleCoverage` | control/config_service/validation.go:281-311 | True if and only if two different principals can author and approve and every other job has somebody |
| `Validation.JoinedKeyIsExact` | control/config_service/validation.go:157-157 | Joined keys of identifiers are equal if and only if their parts are, and a prefix match is an equal first part |
| `Validation.PrefixLookupIsExact` | control/config_service/validation.go:175-181 | The prefix search over joined keys finds a model if and only if one has that identifier |
| `Sorting.SortSlice` | control/config_service/validation.go:11-79 | In-place sorting yields the sorted order of the slice |
| `Sorting.SortSorts` | control/config_service/validation.go:11-79 | Sorting by a strict weak order yields the same elements in order |
| `Sorting.SortedOrderIsUnique` | control/config_service/validation.go:11-79 | A list without ties has only one sorted order |
| `Canonical.CanonicalizeConfiguration` | control/config_service/validation.go:11-73 | The step-by-step canonicalization is the canonical form of every list at every level |
| `Canonical.FinalizeIsIdempotent` | control/config_service/crypto.go:26-43 | Finalizing a finalized configuration returns it |
| `Canonical.FinalizeIgnoresOrder` | control/config_service/crypto.go:26-43 | For every configuration, any reordering of its set-like fields at every level finalizes to the same configuration or the same refusal |
| `Canonical.AcceptsExactlyFinalized` | control/config_service/crypto.go:140-167 | A configuration is accepted as final if and only if it is the result of finalizing some configuration, and then finalizing returns it |
| `Finalizing.ValidityIgnoresOrder` | control/config_service/validation.go:91-256 | Validity does not depend on the order of any list, at any level |
| `Finalizing.FinalizesExactly` | control/config_service/crypto.go:26-43 | Finalizing succeeds if and only if the configuration follows those rules, in whatever order it is given; the result has the same contents, every list in ascending order and the digest of itself without one; a live venue is refused as such |
| `Finalizing.LessIsLexicographic` | control/config_service/validation.go:11-79 | The order of identities: the first differing character decides, and a proper prefix comes first |
| `Consistency.SamplesAreValid` | control/config_service/validation.go:91-256 | Valid configurations of every revision and every supported offline age exist, so results about them are not vacuous |
| `Consistency.SealedIsFinal` | control/config_service/crypto.go:140-167 | Such a configuration with its digest is accepted as final |
| `AuditLog.ReplayIsFolded` | control/config_service/store.go:153-204 | Whom an instance trusts decides only whether it accepts a log, never the state the log gives it |
| `AuditLog.FoldedIsWellKept` | control/config_service/store.go:241-301 | Every accepted log gives proposals under their own identifiers, with distinct author and approver once approved |
| `AuditLog.ActiveChangesNeedTwo` | control/config_service/service.go:225-329 | Every change of the active hash in an accepted log carries two distinct principals |
| `AuditLog.RequestsAreUnique` | control/config_service/store.go:177-182 | No request identifier appears twice in an accepted log |
| `AuditLog.SameHeadSameAudit` | control/config_service/store.go:113-239 | Two accepted logs with the same head hash hold the same records, signatures aside, unless two of their records collide |
| `AuditStory.ApprovalHasItsProposal` | control/config_service/store.go:255-264 | In every accepted log each approval answers an earlier pending proposal of the same identity, configuration, author and activation time, by someone other than its author |
| `AuditStory.ActivationHasItsApproval` | control/config_service/store.go:265-275 | In every accepted log each activation answers an earlier approval of exactly this proposal, names its approver and makes its configuration active |
| `AuditStory.ProposalsAreUnique` | control/config_service/store.go:243-254 | No proposal identity is proposed twice in an accepted log |
| `AuditStory.KillsEscalate` | control/config_service/store.go:284-296 | Kill commands of an accepted log have increasing sequences and distinct identities, and each names the configuration active when it was engaged |
| `AuditStory.RollbackLeavesActive` | control/config_service/store.go:276-283 | Each rollback in an accepted log leaves a configuration that was active, on behalf of two different people, and makes its target active |
| `AuditStory.StateIsLookup` | control/config_service/store.go:241-301 | The state replay builds from an accepted log is what one looks up in it: the last word on every proposal, the last kill and the commands issued, the configuration last made active, the requests used, the length and the head |
| `AuditStory.AcceptedExactly` | control/config_service/store.go:153-301 | A log is accepted, signatures aside, if and only if every record is well formed field by field, numbered, linked, hashed, asked for by new requests, and follows from what the log says before it |
| `AuditStory.TrailShowsRecords` | control/config_service/store.go:206-208 | The public trail shows every record in order, with its event type and without its detail |
| `Authority.EffectReplays` | control/config_service/service.go:136-371 | The record of every planned operation is accepted by its writer's replay, and replaying it gives exactly the memory the operation computed |
| `AuthorityHistory.MemoryIsReplay` | control/config_service/store.go:303-319 | After every successful operation, for any instance sharing the root, memory equals the replay of the log |
| `AuthorityHistory.ReadableExactly` | control/config_service/store.go:153-239 | An instance's replay accepts a reachable log if and only if it trusts every signer in it and every kill in it is of its epoch |
| `AuthorityHistory.PerformKeepsSound` | control/config_service/service.go:136-371 | Every operation, however far its writes get, keeps log and store sound and changes no stored configuration |
| `AuthorityHistory.EveryDiskIsSound` | control/config_service/service.go:136-371 | Every reachable root has an accepted log whose configurations are stored, valid and descended from stored parents |
| `AuthorityHistory.RecognizedHistoriesAreReadable` | control/config_service/store.go:153-204 | An instance that trusts every writer and has their epoch never finds the log unreadable |
| `AuthorityHistory.EveryLogHasOneEpoch` | control/config_service/store.go:183-191 | All kill commands of a reachable log carry one epoch |
| `AuthorityHistory.LineageIsComplete` | control/config_service/service.go:454-469 | Every stored configuration heads a parent chain as long as its revision, down to revision 1, of one identity and environment |
| `AuthorityHistory.ActiveMoves` | control/config_service/service.go:225-329 | A successful change of the active configuration goes to its direct child or to an older revision of the same identity |
| `Authorization.AuthorizesExactly` | control/config_service/service.go:471-494 | A request is authorized if and only if it is authenticated in the instance's epoch, within its time and for at most fifteen minutes, named by no record of the log, and made by a principal whom a binding of the active configuration, or with none active the bootstrap roles, gives the role |
| `Authorization.ProposesExactly` | control/config_service/service.go:136-181 | On every reachable root an instance can read: exactly when a proposal succeeds, with the author role, clock bounds, unused request, next revision and free identity written out; and then the stored configuration, the record and the pending proposal |
| `Authorization.ApprovesExactly` | control/config_service/service.go:184-222 | Exactly when an approval succeeds: the approver role, clock bounds and unused request, a pending proposal, another author; and then the record and the one changed proposal |
| `Authorization.ActivatesExactly` | control/config_service/service.go:225-271 | Exactly when an activation succeeds: the activator role, clock bounds and unused request, an approved proposal at or after its moment, a stored and trusted configuration that is valid now and still the next revision; and then the record and the active configuration |
| `Authorization.RollbackTargetExactly` | control/config_service/service.go:275-329 | Exactly when a rollback succeeds: a rollback operator and a different approver, clock bounds and unused, different requests, and a stored, trusted, older target of the same identity that is valid now; proposals and earlier activations play no part; and then the record and the active target |
| `Authorization.KillsExactly` | control/config_service/service.go:333-371 | Exactly when a kill is engaged: the kill operator role, clock bounds and unused request, an active configuration, a new identity, a sequence above every earlier one and a well-formed scope and target; and then the record with the signed command |
| `Authorization.FailedWritesExactly` | control/config_service/store.go:303-319 | An operation whose writes are not all acknowledged answers an error, remembers the log as it read it, and leaves on the root what it would have left as far as its writes got; an unreadable log is left alone |
| `Authorization.EveryRecordIsEntitled` | control/config_service/service.go:471-494 | Every record of every reachable log was written for principals who held the roles of its event, by the configuration active just before it or, with none active, by the bootstrap roles of an instance that took part |
| `RollbackHistory.RollbackActivatesTheNeverActive` | control/config_service/service.go:136-329 | For all digests that tell three small configurations apart: proposals, approvals and activations reach a root where a sibling was never active and its proposal is pending, and a rollback makes it active while the proposal is still pending |
| `RollbackHistory.NeverApprovedBecomesActive` | control/config_service/service.go:275-329 | Such digests, such a history and such a configuration exist |
| `RollbackHistory.ForeignEpochIsLockedOut` | control/config_service/store.go:153-204 | For the same digests: an instance of another epoch has a proposal accepted and reads it back, then a kill command is logged, and the log is unreadable to that instance and readable to the other |
| `AuthorityObject.LoadLog` | control/config_service/store.go:153-204 | The reload loop yields the replayed state or refuses, as replay on values does |
| `AuthorityObject.NoteRequests` | control/config_service/store.go:177-182 | Refuses exactly identifiers seen before or twice, and otherwise notes them all |
| `AuthorityObject.Service.LoadAudit` | control/config_service/store.go:153-204 | Memory becomes the replay of the log, or stays as it was when the log is refused |
| `AuthorityObject.Service.AppendAudit` | control/config_service/store.go:113-151 | One record is appended and the audit fields advance only if the write is acknowledged |
| `AuthorityObject.Service.Propose` | control/config_service/service.go:136-181 | For every state of the log and every fate of the writes, root, memory and answer are those of the operation on values; with all durable, those that `Authorization.ProposesExactly` writes out |
| `AuthorityObject.Service.Approve` | control/config_service/service.go:184-222 | For every state of the log and every fate of the writes, root, memory and answer are those of the operation on values; with all durable, those that `Authorization.ApprovesExactly` writes out |
| `AuthorityObject.Service.Activate` | control/config_service/service.go:225-271 | For every state of the log and every fate of the writes, root, memory and answer are those of the operation on values; with all durable, those that `Authorization.ActivatesExactly` writes out |
| `AuthorityObject.Service.Rollback` | control/config_service/service.go:275-329 | For every state of the log and every fate of the writes, root, memory and answer are those of the operation on values; with all durable, those that `Authorization.RollbackTargetExactly` writes out |
| `AuthorityObject.Service.EmergencyKill` | control/config_service/service.go:333-371 | For every state of the log and every fate of the writes, root, memory and answer are those of the operation on values; with all durable, those that `Authorization.KillsExactly` writes out |
| `EdgeRuntime.EvaluateIsScan` | control/config_service/edge_cache.go:203-313 | For every valid configuration and request the decision over the index maps and the latest-kill map is that of a linear scan of the lists and of the whole kill log |
| `EdgeRuntime.AllowedExactly` | control/config_service/edge_cache.go:203-285 | New orders are allowed if and only if nothing that applies is killed, each of the five scopes written out, and the configuration, strategy, venue, account, symbol, model and session serve the request, each condition in the fields of the configuration and the request |
| `EdgeRuntime.MatchesExactly` | control/config_service/edge_cache.go:363-378 | A kill applies to a request if and only if its scope is FIRM, or ACCOUNT, VENUE, STRATEGY or SYMBOL with the request's own identifier, or none of these five, which applies to every request |
| `EdgeRuntime.JudgesExactly` | control/config_service/edge_cache.go:203-285 | The answer to every request: the first reason that applies, in order, each condition in the fields of the configuration and the request, with the identity fields it reports |
| `EdgeCache.MaximumIsLast` | control/config_service/edge_cache.go:390-398 | The greatest sequence in the latest-per-target map is the last sequence in the kill log |
| `EdgeCache.LiveAcceptsWhatReloads` | control/config_service/edge_cache.go:162-199 | Against a map loaded from a log, a command passes the sequence check if and only if that log with it appended reloads, and then to the updated map |
| `EdgeCache.LoadsExactly` | control/config_service/edge_cache.go:315-347 | A kill log loads if and only if every line is signed by a trusted key and of the epoch, and sequences increase |
| `EdgeCache.MapKillsAsLog` | control/config_service/edge_cache.go:315-361 | The latest-per-target map kills a request if and only if some logged command does |
| `EdgeCache.ReopenRebuilds` | control/config_service/edge_cache.go:56-104 | Reopening under the same identity and a later clock is refused if and only if sequences in the log do not increase, and otherwise publishes what is on disk: the same runtime if the process knew everything on disk |
| `EdgeCache.EveryRunIsWellKept` | control/config_service/edge_cache.go:56-199 | In every history of installs, kills, stray writes and restarts the runtime is built from a verified configuration and the known commands, the file holds it or a higher revision, the kill log only grows and no known command is forgotten |
| `EdgeCache.AnswerIsScan` | control/config_service/edge_cache.go:203-313 | In every such state every answer is the scan of the published configuration and of all known commands |
| `EdgeCache.AnswersExactly` | control/config_service/edge_cache.go:203-285 | In every history of installs, kills, stray writes and restarts every answer is that one, over all commands known |
| `EdgeCache.LiveAcceptsExactly` | control/config_service/edge_cache.go:162-199 | Exactly which kill commands an open edge accepts: trusted, well formed with scope and target written out, of its epoch, for the published configuration, and above every command it knows |
| `EdgeCache.InstallsExactly` | control/config_service/edge_cache.go:110-158 | An open edge installs a configuration if and only if it is final, signed by a trusted key, for its identity, valid at the installation time, and either of a higher revision and written or the published one again; what is then published and on file is given field by field |
| `EdgeCache.OpensExactly` | control/config_service/edge_cache.go:56-104 | An edge opens its files if and only if its identity and clock are sound, the kill log is genuine and increasing, and there is no configuration or one that is final, trusted, for this identity and installed in the past |
| `EdgeCache.AcceptedKillIsLogged` | control/config_service/edge_cache.go:162-199 | An acknowledged command is among those enforced, and every request in its scope, the scopes written out, is denied in every later state |
| `EdgeCache.KilledForever` | control/config_service/edge_cache.go:349-378 | A request of the firm, or with the account, venue, strategy or instrument of a command that was acknowledged or was in the log at opening, is denied in every later state, across installs, kills and restarts |
| `EdgeCache.LoggedKillHoldsAfterRestart` | control/config_service/edge_cache.go:56-199 | A stray command stops every request in its scope from the next restart on, whatever happens next, or the edge cannot open at all |
| `EdgeCache.KillReloadsExactly` | control/config_service/edge_cache.go:162-199 | A command accepted live and written keeps the log loadable if and only if the log was and its sequence is above that of the last line; always so when the process knows the whole log |
| `EdgeCache.RetryLocksLog` | control/config_service/edge_cache.go:162-199 | Retrying a stray command is accepted and enforced, and then no restart under any identity opens again, whatever happens next |
| `EdgeCache.LockedForever` | control/config_service/edge_cache.go:315-347 | Once sequences in the log do not increase, no later restart opens |
| `EdgeCache.DeadlineIsNeverExtended` | control/config_service/edge_cache.go:110-158 | In every history the published revision never decreases, and while it stays the same so does its installation time |
| `EdgeCache.FileAdvancesExactly` | control/config_service/edge_cache.go:110-158 | A written install takes the file forward if and only if its revision is above the one on file or it writes the same again; always so when the file holds what is published |
| `EdgeHistory.LockedLogIsReachable` | control/config_service/edge_cache.go:56-199 | From empty files: install, a stray kill and its retry, and no restart opens again |
| `EdgeHistory.FileFallsBack` | control/config_service/edge_cache.go:110-158 | From empty files: revision 1, a stray revision 3, then revision 2 is accepted and the file falls back to it |
| `EdgeCache.AllowedMeansFresh` | control/config_service/edge_cache.go:210-255 | An allow implies wall age and monotonic age of the published configuration within the limits of the edge and of the account |
| `EdgeCacheObject.ReadKills` | control/config_service/edge_cache.go:315-347 | The loop yields the latest-per-target map or refuses, as loading on values does |
| `EdgeCacheObject.MaximumKillSequence` | control/config_service/edge_cache.go:390-398 | The greatest sequence in the map, or zero |
| `EdgeCacheObject.IsKilled` | control/config_service/edge_cache.go:349-361 | True if and only if an engaged switch or command names the firm or the request's own account, venue, strategy or instrument |
| `EdgeCacheObject.BuildEdgeRuntime` | control/config_service/edge_cache.go:287-313 | The loops fill the maps that evaluation reads |
| `EdgeCacheObject.EdgeCacheService.OpenFiles` | control/config_service/edge_cache.go:56-104 | Publishes the runtime of the files or refuses and changes nothing |
| `EdgeCacheObject.EdgeCacheService.InstallConfiguration` | control/config_service/edge_cache.go:110-158 | Files, runtime and answer for every fate of the write: a stray file is not published |
| `EdgeCacheObject.EdgeCacheService.ApplyEmergencyKill` | control/config_service/edge_cache.go:162-199 | Files, runtime and answer for every fate of the write: a stray command is logged and not enforced |
| `EdgeCacheObject.EdgeCacheService.EvaluateRequest` | control/config_service/edge_cache.go:203-285 | The decision of the published runtime, which `EdgeRuntime.JudgesExactly` determines, field by field |
| `Evidence.StepIsBijective` | tools/alpaca_paper_certification.py:459-465 | For every byte the fold step is a bijection of 64-bit words, with an explicit inverse |
| `Evidence.StepSeparatesBytes` | tools/alpaca_paper_certification.py:459-465 | From one word different bytes lead to different words |
| `Evidence.FoldIsInjective` | tools/alpaca_paper_certification.py:459-465 | Folding the same bytes never merges two starting words |
| `Evidence.OneByteIsVisible` | tools/alpaca_paper_certification.py:459-465 | Equal-length preimages differing in one byte never fold to the same word |
| `Evidence.OneByteCollidesExactly` | tools/alpaca_paper_certification.py:459-465 | Their hashes collide if and only if the folds are 0 and 1, which replacing zero merges |
| `Evidence.Fnv64` | tools/alpaca_paper_certification.py:459-465 | The nested loop computes the fold of the joined parts, with zero replaced |
| `EvidenceRecord.FieldIsInjective` | tools/alpaca_paper_certification.py:468-513 | Every encoder is injective: unsigned and signed integers, fixed-width ASCII and flags |
| `EvidenceRecord.PreimageIsInjective` | tools/alpaca_paper_certification.py:524-583 | Records with the same preimage agree on every hashed field |
| `EvidenceRecord.PreimagesHaveOneLength` | tools/alpaca_paper_certification.py:524-583 | All preimages have the same length |
| `EvidenceRecord.FlagFlipIsVisible` | tools/alpaca_paper_certification.py:566-583 | Flipping one flag and nothing else always changes the fold |
| `EvidenceLayout.EncodesExactly` | tools/alpaca_paper_certification.py:468-513 | Exactly which bytes each kind of field is encoded as: little-endian worth, two's complement, zero-padded ASCII, four-byte flags |
| `EvidenceLayout.PreimageExactly` | tools/alpaca_paper_certification.py:524-583 | A byte string is a record's preimage if and only if the schema version is supported and its 247 bytes hold version, stage and each of the thirty fields at its own place |
| `EvidenceLayout.XorBits` | tools/alpaca_paper_certification.py:459-465 | Exclusive or is one exactly at the bits where the two differ |
| `EvidenceLayout.HashArithmetic` | tools/alpaca_paper_certification.py:459-465 | The hash of one more byte is the hash so far, mixed with the byte and multiplied by 1099511628211 modulo 2^64, from 1469598103934665603 on |
| `EvidenceRecord.SystemPathStableHash` | tools/alpaca_paper_certification.py:524-583 | The hash of the preimage, or a refusal exactly when a field is missing, mistyped or out of range |

## Left out

- Signatures, JSON and files: Ed25519, SHA-256, base64, JSON encoding, locks, fsync and rename are abstract; a line or a replaced file is durable as a whole or not at all, so a torn line is not modelled. That a write can be durable although its writer got an error is modelled for the deployment audit file, the authority log, the edge's kill log and its installed file.
- Interleaving.EveryRunIsSafe: the journal of a run holds acknowledged records only; what the file holds after an append that failed although its line is durable is `DeploymentJournal.ReadAllIsAcknowledged`.
- Canonical.AcceptsExactlyFinalized: JSON distinguishes an absent list from an empty one and the model does not; a final configuration whose empty list was encoded as `[]` is refused by the source and equals its canonical form here.
- Sorting.SortSlice: the library sort is modelled as a stable insertion sort; lists with equal keys may come out in another order in the source, and every such configuration is refused in both.
- Canonical.FinalizeIgnoresOrder: a refusal is its kind only; which failure text comes first is not modelled.
- Coordinator.ObserveFailsClosed: the hypothetical decision built from an observation is not modelled. Its one error exit (deployment_coordinator.go:166-172) is a failure to encode a record of strings, integers and booleans as JSON, which the encoder does not report for such values. The schema version and feature schema of samples are not modelled either.
- Interleaving.CanaryLeavesOnlyToRollback: the same exit is left out. Of the two exits in the text that take CANARY to PROMOTION_BLOCKED, the other is the failed interval, which is proved unreachable.
- CoordinatorObject.DeploymentCoordinator.Observe: the same; the outcome names the trigger but carries neither the hypothetical decision nor the ten intervals, which IntervalsForRegime computes.
- CoordinatorObject.NewDeploymentCoordinator: the signed configuration is already verified and the two versions are already loaded.
- RegistryObject.ModelRegistry.Register: artifact, manifest, parent and feature schema checks are one flag.
- Restart.RestartAnswersLikeLive: replies compare outcomes, decisions, states and owed rollbacks, not metrics text.
- Telemetry: observation, rollback and rejection counters, the last trigger kept for metrics, and the metrics rendering.
- DeploymentCoordinator keeps its accumulators as values in a map; `Statistics.MetricAccumulator` is the accumulator as an object.
- Canonicalizing and hashing a deployment configuration, which would repeat the configuration results on fewer lists.
- Registry: one model at a time; manifests, artifacts and feature schemas are a flag saying whether they verified; crash points lie between writes, not inside one.
- Authority: read-only calls, health, metrics, shutdown and the checks on opening a service; a service that is stopped or has no signer is one flag.
- Text: only ASCII white space counts as blank, and no Unicode normalization is modelled.
- Command lines, key loading, network clients, process control, report writing, benchmarks and the C++ engines.
