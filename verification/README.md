# KubeScaleSense: a verified model

KubeScaleSense scales one Deployment. Every interval it reads the cluster, decides on a replica count, and, if the
decision is a write, replaces the count through the scale subresource. This project models that controller and the
small stateful parts around it in Dafny 4.11, and proves what they keep in every run.

`dafny verify dfyconfig.toml` checks the whole project.

## How the model is built

* **The decision engine** (`Scaling`, `Engine`, `EngineLoops`) is a set of pure functions with the source's guard order,
  branches and constants. `Int32` and `Int64` arithmetic wraps where Go's does (`GoInt`); time is an unbounded integer
  of nanoseconds and Go's zero time is `None`. A `Config` is a configuration that validation accepts. `GuardOrder`,
  `DemandProperties` and `QuietWindow` say what the guards, the demand numbers and the window mean without using the
  engine's own helpers.
* **The controller** is a state machine over its memory (`Controller`): one reconcile observes, decides, folds the
  decision, actuates, and folds the write only if the actuator reported no error. A *run* is a sequence of such
  reconciles from the initial memory, with the environment choosing the clock, what is readable, every count and
  signal, and whether the actuator succeeded. `ControllerObject` is the same as a class whose methods update the memory
  in place, each proved against the step; its `Run` produces exactly these runs.
* **The cluster** (`Protocol`) is a versioned history of counts that any number of `Apply` calls and other actors write.
  Reads may be stale, writes may be lost, refused, delayed or land with their reply lost. `Actuator` runs the retry
  loop against it as code, with every other actor free to step in between. `SoleWriter` shows that a controller alone
  on such a cluster runs as the sole writer of `OwnWrites`.
* **Capacity and placement** (`PodRequests`, `Candidates`, `CandidateRules`, `NodeOrder`, `Fit`, `Placement`,
  `ScaleUpPlacement`) go from the request arithmetic and the scheduling rules to a packing theorem and on to the
  decision.
* **The workload view** (`Workload`), **the Normalizer's admission control** (`Admission`, `NormalizerServer`), **leader
  hand-over** (`Leadership`, `LeaderProcess`), **smoothing** (`Smoothing`), **hold announcements** (`HoldEvents`) and
  **deletion costs** (`DeletionCost`, `PodCosts`) are modelled each on its own; the concurrent ones as interleavings of
  atomic steps, with the handler code proved against them.

Inputs that come from outside (the clock, the caches, signals, API replies, jitter, cancellation, the elector's lease)
are arbitrary values or arbitrary steps of an environment.

## Where the code and its naive reading part

Each of these is proved, with an input or run that shows it and, where there is one, the exact condition:

* The reconcile that adopts another actor's change decides on the history and floor from before it, so it can scale
  down at once (`Counterexamples.AdoptionScalesDownAtOnce`), and the first reconcile reverts with a floor of 0
  (`Counterexamples.FirstReconcileReverts`).
* With `tolerancePercent` 0, demand equal to the count reaches a scale-down that changes nothing
  (`Counterexamples.NoOpScaleDown`).
* A scale-up from far under `minReplicas` stays under it (`Counterexamples.ScaleUpBelowMinimum`).
  `EngineProperties.RefusedExactly` lists exactly the write decisions the actuator refuses.
* A write that lands with its reply lost is not remembered, and its first sight counts as another actor's change
  (`Counterexamples.LostReplyLooksExternal`; `OwnWrites.DriftIsALostReply` is the exact condition).
* A revert removes more than the stuck replicas exactly when `maxReplicas` is below the count without them
  (`Counterexamples.RevertRemovesMoreThanStuck`).
* The 32-bit step addition can wrap, since validation puts no upper limit on `maxScaleUpStep`. A complete scale-up then
  targets a negative count, which the actuator refuses (`Counterexamples.ScaleUpWraps`); a partial one takes all
  capacity whatever demand is, which it lets through (`Counterexamples.PartialScaleUpOvershootsDemand`).
  `EngineProperties.ScaleUpRaisesExactly` is the exact condition for both.
* The demand conversion to 32 bits can wrap, down to no demand at all (`Counterexamples.HugeBacklogWrapsToNothing`);
  `DemandProperties.RawDemandExactly` is the exact condition, for the backlog and CPU together.
* The delay between retries doubles 36 times; the next doubling leaves 64 bits and turns it negative, so there is no
  wait, its sign then varies, and from the 56th doubling on it is 0 (`Actuator.DelayDoublesExactly`,
  `Actuator.DelayVanishesExactly`). The budget and not the delay bounds the retries.
* A tolerance for external changes above 32 bits, which validation accepts, turns negative: the controller then stands
  back from changes nobody made (`Counterexamples.HugeToleranceFreezes`; `OwnWrites.FreezesItselfExactly` and
  `DriftRuns.ToleranceIsMeantExactly` are the exact conditions).
* A capacity margin above 32 bits can turn negative, and capacity then exceeds what can be placed
  (`Counterexamples.HugeMarginPromisesCapacity`; `ScaleUpPlacement.MarginKeepsCapacityExactly` is the exact condition).
* The Normalizer's queue counter also counts records that are being turned away, so one can be turned away from an
  empty queue (`Counterexamples.TurnedAwayFromEmptyQueue`).
* A lease whose renewal fails is released by the elector before the leading context is cancelled, so two processes can
  be reconciling without any lease having been taken (`Leadership.FailedRenewalOverlaps`).
* The smoothing rounds toward zero, so a constant negative signal reads one too high
  (`Smoothing.NegativeConstantRises`); with a weight under two thousandths a constant signal may never be reached
  (`Smoothing.NeverSettles`).

## Model

| member | source | states |
|---|---|---|
| EngineLoops.MaxDesired | internal/scaling/snapshot.go:175-188 | The loop finds a sample exactly when one lies in the window, returns the largest such demand, and with it decides whether every sample in the window wanted fewer than any given count. |
| EngineLoops.Covered | internal/scaling/snapshot.go:205-234 | The loop's answer is the coverage condition: at least the configured share of the expected samples in the window, and one sample at least a window old. |
| EngineLoops.Arm | internal/scaling/decide.go:396-423 | The growth loop computes the same interval as the recursive schedule that hold announcements follow, and arms the backoff with it. |
| EngineProperties.HoldsMoveNothing | internal/scaling/decide.go:73-184 | Every decision is about the count it was given, only the four write reasons can move it, each in its own direction, and an invalid snapshot neither writes, computes demand nor touches the backoff. |
| EngineProperties.UpWrite | internal/scaling/decide.go:187-275 | A scale-up adds what it wants as far as capacity goes, at least one and at most the step, in 32-bit arithmetic, and reports the rest as its deficit, which is 0 exactly for a complete one; while the step addition does not wrap the new count is the true sum and never above clamped demand. |
| EngineProperties.ScaleUpRaisesExactly | internal/scaling/decide.go:228-267 | For complete and partial scale-ups: the count rises to at most clamped demand (and to at most maxReplicas) if and only if the 32-bit step addition does not wrap, or capacity is below the step and stays under the bound by itself. |
| EngineProperties.StepFitsIsEnough | internal/scaling/decide.go:228 | A limit on the configuration alone rules that wrap out for every snapshot. |
| EngineProperties.DownWrite | internal/scaling/decide.go:281-323 | A demand scale-down never goes below clamped demand, keeps to the step inside the bounds, is a no-op exactly when demand equals the count (only with tolerance 0), and is decided only settled, out of cooldown, over a quiet window and on a fresh signal. |
| EngineProperties.RevertWrite | internal/scaling/decide.go:348-380 | A revert lowers the count inside the bounds, never below the floor or the unstuck count as far as maxReplicas allows; from inside the bounds its target is exactly the largest of floor, unstuck count and minimum; it removes more than the stuck replicas exactly when maxReplicas forces it to. |
| EngineProperties.WritesMoveInsideBounds | internal/scaling/decide.go:73-380 | With a deadband and a count at or above the minimum, a decision writes exactly when it moves the count, strictly in its direction, inside the bounds and within the step limits. |
| EngineProperties.WritesExactly | internal/scaling/decide.go:88-323 | A scale-up, a scale-down and a revert are decided if and only if all of their own conditions hold together, over every guard of the three paths. |
| EngineProperties.ShortfallNeedsCapacity | internal/scaling/decide.go:231-274 | In a resource shortfall no higher maxReplicas changes the hold, and more capacity gives a scale-up exactly when it covers what is wanted, or any of it where partial scale-ups are allowed. |
| EngineProperties.LimitNeedsPolicy | internal/scaling/decide.go:165-173 | At the policy limit no amount of capacity changes the hold, and a higher limit gives a scale-up exactly when the up-gates and the capacity then allow it. |
| EngineProperties.RefusedExactly | internal/controller/scale.go:318-335 | Exactly which write decisions the actuator's own validation refuses, from the inputs: a scale-down onto equal demand, a scale-up that step and capacity leave under minReplicas, and one that a wrapped step takes past maxReplicas. |
| GuardOrder.FirstReasonWins | internal/scaling/decide.go:73-184 | For every reason: it is the reason of the decision if and only if its condition, in the snapshot's own ages, counts and percentages, holds and that of no reason before it in the documented order does. |
| GuardOrder.ReportsExactly | internal/scaling/decide.go:187-380 | Exactly when a decision reports a timeout and computes demand, and the direction, step limit, requested change and deficit it reports. |
| DemandProperties.RawDemandExactly | internal/scaling/decide.go:133-157 | Raw demand is the least count that covers the backlog and, when CPU is fresh and replicas are ready, brings their usage to the target, if and only if both fit 32-bit counts and the backlog's 64-bit sum does not wrap, or the count for CPU alone covers the backlog too. |
| DemandProperties.CpuDemandExactly | internal/scaling/decide.go:140-145 | CPU demand alone is the least count that brings usage to the target exactly when such a count fits 32 bits. |
| DemandProperties.BusyIsNotShrunk | internal/scaling/decide.go:147-153 | While there is more backlog or more CPU usage than the count covers, and demand for it keeps its bits, no demand scale-down is decided, unless the count is above maxReplicas. |
| DemandProperties.HotIsNotShrunk | internal/scaling/decide.go:147-153 | In particular with every replica ready and fresh CPU above its target, whatever the backlog says. |
| DemandProperties.WantsMoreOnlyIfBusy | internal/scaling/decide.go:147-153 | Raw demand exceeds the count only if backlog or CPU usage exceeds what the count covers, whatever wraps on the way, short of a negative usage whose product wraps. |
| DemandProperties.BacklogDemandExactly | internal/scaling/decide.go:134 | Backlog demand is the least count that covers the backlog if and only if neither the 64-bit sum nor the 32-bit conversion loses bits. |
| DemandProperties.QuotientCoversExactly | internal/scaling/decide.go:444-449 | The same for any work and share: the converted ceiling quotient is the least cover exactly under those two bounds. |
| QuietWindow.QuietExactly | internal/scaling/snapshot.go:175-234 | The window is quiet below the count if and only if its samples are at least the configured share of the least number whose intervals cover it, one sample is a whole window old, and all samples in it, of which there are some, wanted fewer. |
| QuietWindow.ExpectedCovers | internal/scaling/snapshot.go:210-213 | A fully observed window holds the least number of samples whose intervals together cover it. |
| ControllerObject.ReconcileLoop.TrackUnmaterialised | internal/controller/controller.go:612-624 | Starts, keeps and clears the clock of replicas that never became pods, and reports its age; nothing else in memory changes. |
| ControllerObject.ReconcileLoop.TrackExternalDrift | internal/controller/controller.go:541-604 | The new memory and the drift count are those of the drift step (first reading, own write, adoption with history reset and floor raised, pruning to the window); an adopted change, and nothing else, also empties the smoothed average and waits to be announced. |
| ControllerObject.ReconcileLoop.PruneHistory | internal/controller/controller.go:758-766 | The filter keeps exactly the retained samples in order. |
| ControllerObject.ReconcileLoop.FoldDecision | internal/controller/controller.go:696-720 | Appends a sample exactly when demand was computed, and replaces the backoff exactly when the decision says so. |
| ControllerObject.ReconcileLoop.FoldWrite | internal/controller/controller.go:730-755 | Remembers the written count, stamps the direction's cooldown, and makes the pre-scale count the revert floor. |
| ControllerObject.ReconcileLoop.CountRemediation | internal/controller/controller.go:635-674 | Records one remediation per episode, a revert only once applied, and as a freeze when revert is configured but nothing was reverted. |
| ControllerObject.ReconcileLoop.Observe | internal/controller/controller.go:359-456 | The snapshot takes history and floor from before the tracking and the drift count from after it, however far the observation got; right after an adoption the backlog is the raw one. |
| ControllerObject.ReconcileLoop.CollectPressure | internal/controller/controller.go:462-490 | A backlog sample, when there is one, reaches the engine as the output of the average over the raw values since the last adopted change. |
| ControllerObject.ReconcileLoop.Reconcile | internal/controller/controller.go:288-351 | One reconcile is the step of the model; a live write reported as done has taken effect in the cluster after the reconcile began, as that call's own write inside the bounds; a hold or a dry run leaves the cluster as it was; a change is announced exactly when it was adopted. |
| ControllerObject.ReconcileLoop.ReconcileLive | internal/controller/controller.go:288-335 | Every live reconcile is a step of the sole run as far as it is its own doing: one fresh Apply call, planned from the count read, acknowledged only if it landed. |
| ControllerObject.ReconcileLoop.Run | internal/controller/controller.go:247-281 | The loop produces a run of the model, one reconcile a tick, and none after a cancelled context is checked. |
| Controller.FoldIsSequential | internal/controller/controller.go:302-335 | The field-by-field step equals the three folds in the source's order. |
| WindowRuns.ScaleDownIsJustified | internal/controller/controller.go:696-713 | In every run with a strictly increasing clock, a demand scale-down from C means every demand computed in the last window was below C, the reconciles that computed it account, an interval each, for the configured share of the window, demand was observed for a whole window, and no earlier reconcile adopted an external change inside it. |
| WindowRuns.AdoptionScalesDownExactly | internal/controller/controller.go:367-397 | Exactly when an adopting reconcile scales down at once: window, coverage and cooldown are judged by the memory from before the adoption, against the count just adopted. |
| WindowRuns.SamplesHaveSources | internal/controller/controller.go:569-592 | Every remembered sample was computed by an earlier reconcile since which no external change was adopted, and no demand computed more than two windows later. |
| WindowRuns.SamplesSurvive | internal/controller/controller.go:758-766 | A computed demand stays in memory for at least two windows unless an external change is adopted. |
| GroundedRuns.ScaleUpIsGrounded | internal/controller/controller.go:359-456 | In every run a scale-up is decided only on a complete, fresh reading without another autoscaler, a rollout, stuck or failing replicas, which shows more work than the count covers or a count below the minimum. |
| GroundedRuns.ScaleDownIsGrounded | internal/controller/controller.go:359-456 | A demand scale-down is decided only on such a reading with every replica ready, and inside the bounds only when the count covers all the work it shows, as far as that can be counted without losing bits. |
| StuckRuns.MissingAgeExactly | internal/controller/controller.go:612-624 | In every run each reading reports exactly how long replicas have been missing without a break: since the first reading that found some, unreadable reconciles being no break, and 0 when none are. |
| StuckRuns.MissingReplicasTimeOut | internal/scaling/decide.go:348-380 | Once every reading for longer than the timeout has found replicas missing, a complete, undisturbed reconcile reports the timeout, decides no scale-up, and under the revert policy takes back exactly when the count is above the floor and the minimum, or above the maximum. |
| BackoffRuns.EngineBackoff | internal/scaling/decide.go:119-163 | Exactly what a decision does to the backoff: kept, armed with one more attempt or with the first, carried, or cleared, and each only for its own reasons. |
| BackoffRuns.ScaleUpWaits | internal/scaling/decide.go:192-217 | In every run, after the latest arming at capacity f, a scale-up before its interval has passed implies that a reconcile since then saw capacity above f or demand at or below the count. |
| BackoffRuns.AttemptsOnlyGrow | internal/scaling/decide.go:235-273 | Between clearings the attempt count grows by exactly the number of armings. |
| BackoffRuns.AttemptsLostExactly | internal/scaling/decide.go:122-163 | The attempts are lost exactly when every replica is placed after a carry, or demand is at or below the count. |
| CooldownRuns.UpsAreSpaced | internal/scaling/decide.go:220-222 | In every run no scale-up is even decided within the cooldown of an acknowledged one. |
| CooldownRuns.DownsAreSpaced | internal/scaling/decide.go:295-297 | A demand scale-down waits out its cooldown after any acknowledged down-write, reverts included. |
| CooldownRuns.GrowthIsRateLimited | internal/controller/controller.go:324-334 | Over any stretch of a run lasting T the acknowledged scale-ups add at most step * (1 + T / cooldown) replicas. |
| FloorRuns.RevertKeepsFloor | internal/controller/controller.go:745-750 | In every run a revert never goes below the count read by the latest earlier reconcile that set the floor, and from inside the bounds its target is exact. |
| FloorRuns.FirstReadingHasNoFloor | internal/controller/controller.go:367-373 | Until a reconcile has set the floor, reverts are decided with a floor of 0. |
| FloorRuns.RevertSparesPlacedPods | internal/kubernetes/target.go:115-187 | A revert decided from the caches' view never goes below the active pods that have a node, less those already being removed, unless maxReplicas is lower. |
| DriftRuns.DriftsReported | internal/controller/controller.go:593-603 | The engine is told exactly how many external changes were adopted in the last window, this reconcile's own included, in 32 bits. |
| DriftRuns.StandsBackExactly | internal/scaling/decide.go:95-100 | The controller holds for external changes exactly when it sees everything, no autoscaler conflicts and more were adopted in the last window than tolerated, both in 32 bits. |
| DriftRuns.ToleranceIsMeantExactly | internal/scaling/decide.go:98 | That comparison is the one with the configured tolerance if and only if the tolerance fits in 32 bits, or no more changes were adopted than the number it turns into. |
| RemediationRuns.OneRemediationPerEpisode | internal/controller/controller.go:626-661 | Between two recorded remediations some reconcile saw nothing timed out. |
| RemediationRuns.RecordsWhatHappened | internal/controller/controller.go:629-656 | In every run the recorded action is a revert exactly when one was decided and applied. |
| OwnWrites.DriftIsALostReply | internal/controller/controller.go:541-591 | For a sole writer with a cache that only moves forward, a change counts as external exactly when it is the first sight of a write that was never acknowledged, landed in its own reconcile or in a later one, and whose value is not the remembered one. |
| OwnWrites.OwnWritesAreNeverDrift | internal/controller/controller.go:556-566 | With every landed write acknowledged, no run counts one of the controller's own writes as external. |
| OwnWrites.FreezesItselfExactly | internal/scaling/decide.go:98-100 | With nothing lost it stands back from itself exactly when it sees everything and its tolerance turns negative in 32 bits, so never with one that fits. |
| OwnWrites.StaysInStep | internal/controller/scale.go:306-334 | The invariant behind it: no count repeats its predecessor, the cache is at most one write behind, and the newest acknowledged write is the remembered one. |
| SoleWriter.SoleRunIsSoleWriterRun | internal/controller/scale.go:296-309 | A controller alone on the cluster, with late landings and with status updates that move the version, runs as the sole writer: what those runs take for granted follows from the protocol and the actuator. |
| SoleWriter.LateIsFirst | internal/controller/scale.go:306-311 | A write of an earlier call can land late only as the first new version; later ones repeat the count or are this call's own. |
| SoleWriter.AloneMeansNoDrift | internal/controller/controller.go:556-566 | On such a cluster, with every landed write acknowledged, no run counts one of its own writes as external. |
| Counterexamples.NoOpScaleDown | internal/scaling/decide.go:176-183 | An input whose decision is a scale-down to the current count. |
| Counterexamples.ScaleUpBelowMinimum | internal/scaling/decide.go:228 | An input whose complete scale-up targets less than minReplicas. |
| Counterexamples.ScaleUpWraps | internal/scaling/decide.go:228-237 | An input whose complete scale-up targets a negative count. |
| Counterexamples.PartialScaleUpOvershootsDemand | internal/scaling/decide.go:255-260 | An input whose wrapped step makes a partial scale-up take all capacity: from 2 to 102 with demand for 5, inside the bounds. |
| Counterexamples.HugeBacklogWrapsToNothing | internal/scaling/decide.go:134 | An input whose positive backlog converts to a demand of 0. |
| Counterexamples.HugeToleranceFreezes | internal/scaling/decide.go:98 | A tolerance that turns negative: the controller holds for external changes with none seen. |
| Counterexamples.HugeMarginPromisesCapacity | internal/resources/fit.go:34-38 | A configured margin that turns negative: an empty cluster is reported to have room for one pod. |
| Counterexamples.RevertRemovesMoreThanStuck | internal/scaling/decide.go:363-364 | An input whose revert removes more replicas than are stuck. |
| Counterexamples.AdoptionScalesDownAtOnce | internal/controller/controller.go:367-397 | A two-reconcile run with an increasing clock in which the adopting reconcile itself scales down on the history from before the change. |
| Counterexamples.FirstReconcileReverts | internal/controller/controller.go:367-373 | A run whose first reconcile takes back four of the five replicas it has only just read. |
| Counterexamples.LostReplyLooksExternal | internal/controller/controller.go:324-334 | A run alone on the cluster whose second reconcile takes the first one's landed, unacknowledged write for another actor's. |
| Counterexamples.TakesEffectTwice | internal/controller/scale.go:296-309 | A reachable history in which one call's write takes effect, another actor restores the count, and the call's retry takes effect again. |
| Counterexamples.TurnedAwayFromEmptyQueue | internal/normalizer/server.go:193-197 | A reachable state in which a record is turned away although no admitted record waits. |
| Protocol.EffectsAreExact | internal/controller/scale.go:290-315 | With any number of controllers and other writers, late landings and lost replies, every actuator write that takes effect replaces exactly the count its decision was computed from, at the version just read, by a different count inside the bounds. |
| Protocol.TwiceOnlyAfterRestore | internal/controller/scale.go:296-309 | One Apply takes effect a second time only after another actor restored the count it started from. |
| Actuator.Cluster.Jitter | internal/controller/scale.go:399-404 | The wait is in (0, d], and 0 for a delay that is not positive. |
| Actuator.ScaleWriter.Write | internal/kubernetes/scale.go:175-199 | A write without a version is refused before anything is sent; how any other ends is determined by the server's reply, error by error; success means this call's conditional write took effect. |
| Actuator.ScaleActuator.Attempt | internal/controller/scale.go:290-315 | One read-check-write cycle: a write follows exactly a read that still shows the planned count and a version; how it ends is determined by the server's replies, error by error; success means its own conditional write landed. |
| Actuator.ScaleActuator.Apply | internal/controller/scale.go:180-287 | Terminates; an attempt is followed by another only if the server's reply was an error that may pass or a read without a version, and such a failure ends the call only when it is cancelled or the next wait may not fit the budget; the waits are drawn from (0, delay] for the delay of that retry, and are none once it is not positive; they total less than the budget and the time passed; a rejection is exactly a target outside the bounds or equal to the count and sends nothing; no error on a write decision means its own conditional write took effect. |
| Actuator.NoSecondTry | internal/controller/scale.go:222-251 | A conflict, a moved count, a refusal and a success each end the call that meets them, with that outcome. |
| Actuator.DelayDoublesExactly | internal/controller/scale.go:203-285 | The delay of a retry is the initial one doubled as often as there were retries, exactly up to the 36th. |
| Actuator.DelayVanishesExactly | internal/controller/scale.go:285 | The 64-bit delay is 0 exactly from the 56th doubling on. |
| PodRequests.ComputePodRequest | internal/resources/request.go:93-133 | The two loops compute the one-pass request. |
| PodRequests.RequestIsStartupPeak | internal/resources/request.go:93-133 | That request is the peak, over the pod's whole start-up sequence, of the summed requests of the containers running together, plus overhead: no phase exceeds it and some phase reaches it. |
| Candidates.CountFreeSlots | internal/resources/candidates.go:144-159 | The loop counts allocatable pods less the pods still holding a slot, never below 0. |
| CandidateRules.ExcludedExactly | internal/resources/candidates.go:83-124 | For every exclusion: it is the one reported if and only if the node breaks the scheduling rule behind it and none before it, so a node is a candidate if and only if it breaks none. |
| CandidateRules.NumbersCompare | internal/resources/candidates.go:306-323 | Integer labels compare as integers under Gt and Lt. |
| Fit.ByNode | internal/resources/fit.go:165-174 | The index holds for every name exactly the pods assigned to it, in order. |
| Fit.NodeFree | internal/resources/fit.go:183-203 | Free resources are allocatable less the charges of chargeable pods less the reserve, floored at 0. |
| Fit.FitOnNode | internal/resources/fit.go:210-240 | The estimate is the minimum over the three dimensions, and the scarcest dimension by precedence is reported. |
| Fit.AggregateBinding | internal/resources/fit.go:248-267 | The reported dimension binds on the most candidate nodes, ties by precedence. |
| Fit.MostBindingIsMost | internal/resources/fit.go:248-267 | No dimension binds on more candidate nodes than the reported one, and those before it in precedence bind on fewer. |
| Fit.ScarcestIsLeast | internal/resources/fit.go:210-240 | No dimension takes fewer pods on a node than the one reported for it, and those before it in precedence take more. |
| Fit.Calculate | internal/resources/fit.go:105-156 | The walk computes the specified estimate: the wrapped sum of every node's room, the margin taken off, the candidates in name order with what they offer, the exclusions by reason and the free totals. |
| Fit.EveryNodeIsAccounted | internal/resources/fit.go:115-143 | Every node is a candidate or excluded, for its first failing check and no other; the free totals are those of the candidates. |
| Fit.ObserveCapacity | internal/controller/controller.go:399-427 | An observation gets an estimate exactly when the template's request is positive in both dimensions, and it is the specified one. |
| Fit.EstimateIsCapacity | internal/resources/fit.go:145-152 | The 32-bit sum is the true sum exactly when that fits, and then the capacity is the sum less the margin, floored at 0. |
| Placement.PodsHoldTheirNodes | internal/resources/candidates.go:161-174 | A pod assigned to a node takes its request and a slot from what is left there while it is Pending, Running or Unknown, and nothing once it has Succeeded or Failed. |
| Placement.CandidatesAreReported | internal/resources/fit.go:115-143 | The report lists exactly the candidates, each with what its pods hold, what is left of it, how many pods that takes and what runs out first. |
| NodeOrder.SortedByNameSorts | internal/resources/fit.go:276-281 | The visiting order is sorted by name and lists every node once. |
| Placement.PlacementCostsAtMostOne | internal/resources/fit.go:105-152 | Placing one pod of the target's shape on any node lowers the recomputed sum by at most one. |
| Placement.SchedulerNeverStuck | internal/resources/fit.go:183-240 | Wherever fewer than the sum have been placed, some node takes the next pod within its CPU, memory, reserve and slots. |
| Placement.PlaceableExactly | internal/resources/fit.go:205-240 | n pods of the target's shape have a placement within every node's limits if and only if n is at most the sum. |
| Placement.AcceptedTemplatePacks | internal/resources/request.go:51-91 | A template whose request validates is one the packing theorem holds for: its pods can be placed exactly up to the sum. |
| Placement.RawFitIgnoresOrder | internal/resources/fit.go:115-143 | The sum does not depend on the order of nodes or pods. |
| Placement.EstimateIgnoresOrder | internal/resources/fit.go:102-104 | Two listings of the same cluster give the same estimate, node by node and to the last field. |
| ScaleUpPlacement.ScaleUpHasAPlacement | internal/scaling/decide.go:235-267 | Every scale-up that raises the count, decided on the calculated capacity, has a placement of all its replicas within every node's limits that leaves the margin unused. |
| ScaleUpPlacement.MarginKeepsCapacityExactly | internal/resources/fit.go:145-152 | Exactly which converted margins keep the capacity within the sum, whatever the sum and its 32-bit conversion are: those not negative, and the least 32-bit value. |
| ScaleUpPlacement.ScaleUpNeverGetsStuck | internal/scaling/decide.go:231-253 | A scheduler placing them in any order on any nodes never gets stuck, even if as many other such pods as the margin were placed meanwhile. |
| Workload.CurrentReplicaSet | internal/kubernetes/target.go:203-220 | The loop picks the newest of the Deployment's own ReplicaSets. |
| Workload.NewestIsLatest | internal/kubernetes/target.go:198-232 | One is picked exactly when the Deployment owns any: of the highest revision, of those the latest created, of those the first listed. |
| Workload.ScaleAheadOfPods | internal/kubernetes/target.go:128-149 | The shortfall is a scale waiting for pods exactly when the spec is observed, updated pods are short, and no other own ReplicaSet holds or wants replicas. |
| Workload.SummarisePodHealth | internal/kubernetes/target.go:152-187 | The loop's 32-bit counts and ages are those of the active, pending and unhealthy pods. |
| Workload.HealthExactly | internal/kubernetes/target.go:152-187 | The counts are those of the pods neither deleted nor finished, and of those of them Pending without a node; the ages are the longest waits of the latter, and of the pods on nodes that are neither Ready nor Succeeded, by the time the scheduler last spoke of them. |
| Workload.ObserveTarget | internal/kubernetes/target.go:74-124 | The assembled view is the specified one: own generation only, rollout by both signs, the unmaterialised gap outside a rollout. |
| Workload.RolloutExactly | internal/kubernetes/target.go:90-118 | A rollout is in progress exactly while the spec is unobserved, or too many replicas are updated, or too few and there is no current ReplicaSet or another one still has or wants replicas. |
| Workload.ViewExactly | internal/kubernetes/target.go:74-124 | The count read is the spec's, 1 by default; outside a rollout the replicas missing are those asked for less the current ReplicaSet's live pods. |
| Workload.ViewCountsAreOk | internal/kubernetes/target.go:160-176 | Every view gives the engine counts whose sums stay in 32 bits, as the engine's results require. |
| Workload.StuckSparesPlaced | internal/kubernetes/target.go:108-120 | Outside a rollout the replicas that are not stuck are never fewer than the active pods on nodes, less the surplus being removed. |
| Admission.LimitsHold | internal/normalizer/server.go:177-232 | In every interleaving the channel holds one token a slot holder and at most MaxConcurrent, and at most QueueLimit admitted records wait. |
| Admission.OneOutcomeEach | internal/normalizer/server.go:119-170 | Every record is counted under at most one outcome, and under exactly its own once it has left. |
| Admission.RestIsClean | internal/normalizer/server.go:200-232 | With no record in the handler both counters are 0 and every record received has been counted. |
| Admission.TurnedAwayExactly | internal/normalizer/server.go:193-197 | A record is turned away exactly when admitted records and records being turned away reach QueueLimit together. |
| Admission.SlotsComeBack | internal/normalizer/server.go:200-232 | No slot is lost to the records waiting for one: while a record is unfinished, it or a slot holder can move on without any timer firing or client giving up. |
| Admission.DrainsAreBounded | internal/normalizer/server.go:253-278 | Once arrivals stop, every interleaving has boundedly many steps left, and none left means rest. |
| NormalizerServer.Server.Acquire | internal/normalizer/server.go:177-227 | Whatever other records do between its atomic operations, it ends holding a slot or refused, with its wait uncounted either way; a record whose timer does not fire and whose client stays is refused only when it found every slot taken and the queue counter at its limit. |
| NormalizerServer.Server.AwaitSlot | internal/normalizer/server.go:200-227 | In the queue such a record gets a slot: the others can always go on until one is free. |
| NormalizerServer.Server.Serve | internal/normalizer/server.go:150-169 | A slot holder ends finished with the outcome of its response, and its slot released. |
| NormalizerServer.Server.HandleNormalize | internal/normalizer/server.go:119-170 | One record ends finished, holding nothing, counted once: Invalid exactly when it does not parse, Error only when the client left, and Overloaded, for a record that is not given up on, only when it was turned away from a full queue. |
| Leadership.AtMostOneActs | cmd/kubescalesense/leader.go:119-168 | Among any number of processes, two are inside the reconcile loop at once only if one of them has lost its lease. |
| Leadership.ReleaseOnlyMeansExclusive | cmd/kubescalesense/leader.go:137-162 | When no lease is taken and no renewal fails, so that the lease changes hands only by a process releasing it for itself, at most one process is inside the loop at any time. |
| Leadership.ReleaseComesLast | cmd/kubescalesense/leader.go:121-127 | A process gives up a lease it has not lost only after its loop has returned. |
| Leadership.NoNewReconcile | internal/controller/controller.go:259-266 | Once its leading context is cancelled, no context check of a process's loop passes again. |
| Leadership.LoopEndsSoon | internal/controller/controller.go:259-281 | And its loop returns within three of its own steps. |
| Leadership.FailureEndsLoop | internal/controller/controller.go:267-271 | A reconcile ends the loop by itself exactly when it failed and the loop's context is cancelled; otherwise the next tick follows. |
| Leadership.ReturnIsExact | cmd/kubescalesense/leader.go:155-161 | A loop that returns is on its way to the error exactly when there was no shutdown, and then the lease was lost. |
| Leadership.ExitIsReported | cmd/kubescalesense/leader.go:161-167 | The lost-leadership error, and the one for an election that ended early, are returned only by a process whose lease was lost, and a clean exit only by one that was shut down; none exits before its election is over. |
| Leadership.TakenLeaseOverlaps | cmd/kubescalesense/leader.go:15-23 | A run in which a lease is taken and no renewal fails leaves two processes past their context checks at once. |
| Leadership.FailedRenewalOverlaps | internal/kubernetes/lease.go:184-189 | A run in which a renewal fails and no lease is taken does too. |
| LeaderProcess.Host.Loop | internal/controller/controller.go:247-281 | The loop returns, and starts no reconcile if its context was already cancelled; until a shutdown it makes every reconcile unless the lease is lost. |
| LeaderProcess.Host.Lead | cmd/kubescalesense/leader.go:130-168 | The leader function ends with its election over, reports a loss only if there was one, and reconciles nothing under a lease lost before it started; a process that gets the lease makes every reconcile unless it is shut down or loses it. |
| Smoothing.Smoother.Apply | internal/metrics/smoothing.go:54-71 | In `none` mode the identity; otherwise the reported value is that of the average over the raw values since the last reset. |
| Smoothing.Smoother.Reset | internal/metrics/smoothing.go:76-79 | Forgets every raw value. |
| Smoothing.BlendIsWeightedMean | internal/metrics/smoothing.go:66 | While nothing is negative the next state is the weighted mean of sample and state in thousandths, cut off to an integer. |
| Smoothing.RoundsToNearest | internal/metrics/smoothing.go:68-70 | The reported value is the item nearest to a non-negative state, and for a negative one the item above it. |
| Smoothing.OutputBetweenExtremes | internal/metrics/smoothing.go:59-70 | No output falls below the smallest raw value so far, and none exceeds the largest when that is not negative. |
| Smoothing.RangeBoundsOutputExactly | internal/metrics/smoothing.go:59-70 | A range of raw values bounds every output, whatever the sequence, if and only if its upper end is not negative. |
| Smoothing.NegativeConstantRises | internal/metrics/smoothing.go:68-70 | A constant negative signal is reported one too high. |
| Smoothing.ErrorNeverGrows | internal/metrics/smoothing.go:66-70 | On a constant non-negative signal the error of the output never grows. |
| Smoothing.SettlesInTime | internal/metrics/smoothing.go:66-70 | With a weight of at least two thousandths the output is the signal after a bounded number of samples and stays there. |
| Smoothing.SettlesExactly | internal/metrics/smoothing.go:34-39 | Every signal that becomes constant is eventually reported exactly if and only if the weight is at least two thousandths. |
| HoldEvents.Cycle | internal/controller/events.go:278-289 | The loop computes the interval the hold backoff is armed with for the same count. |
| HoldEvents.CycleBounds | internal/controller/events.go:278-289 | The waits never shrink, start at the initial interval and stop at the maximum. |
| HoldEvents.WaitsMultiply | internal/scaling/decide.go:396-423 | The first wait is the initial one, and each next is the one before it times the factor, rounded down and capped. |
| HoldEvents.WaitsAreGeometric | internal/scaling/decide.go:396-423 | With a whole factor the n-th wait is the initial one times the factor to the power n - 1, capped. |
| HoldEvents.HoldEventLimiter.Due | internal/controller/events.go:261-275 | Answers and updates one key's cadence and no other. |
| HoldEvents.FirstIsAnnounced | internal/controller/events.go:262-266 | The first call for a key is announced, as the first in a row. |
| HoldEvents.AnnouncedExactly | internal/controller/events.go:261-275 | A later call is announced exactly after a quiet period longer than the maximum, or once the wait after the k-th in a row has passed. |
| HoldEvents.AnnouncementsAreSpaced | internal/controller/events.go:251-258 | The k-th announcement in a row is followed by the next no sooner than cycle(k), quiet restarts included. |
| DeletionCost.AcceptsExactly | internal/kubernetes/deletioncost.go:121-156 | The validator accepts a patch if and only if all that the patch does, under section 2 of RFC 7396 and to any pod, is set the deletion-cost annotation to a 32-bit integer. |
| DeletionCost.AcceptedSetsOnlyTheCost | internal/kubernetes/deletioncost.go:72-79 | An accepted patch leaves every other part of any pod as it was. |
| DeletionCost.BuiltPatchIsAccepted | internal/kubernetes/deletioncost.go:158-167 | The patch built for any 32-bit cost is accepted and sets exactly that cost. |
| PodCosts.DeletionCosts | internal/kubernetes/deletioncost.go:187-213 | All or nothing: costs exactly when every Ready pod's work is known and there is one, one cost a pod in order, changed exactly when the pod carries another value. |
| PodCosts.CostIsWork | internal/kubernetes/deletioncost.go:177-207 | A cost is the outstanding work reported under the pod's own address, 0 for less than none, and the largest 32-bit value for more than that. |
| PodCosts.CostsFollowWork | internal/kubernetes/deletioncost.go:177-186 | The costs order the pods as their work does. |
| PodCosts.WrittenCostIsSettled | internal/kubernetes/deletioncost.go:202-207 | After writing one cost the next pass leaves that pod alone and judges the others as before. |
| IntText.ParseFormat | internal/kubernetes/deletioncost.go:152-162 | Parsing the decimal text of an integer gives the integer back if it is in range, and nothing otherwise. |
| IntText.FormatIsUsual | internal/kubernetes/deletioncost.go:158-167 | The text of an integer has a minus sign only when it is negative, and no leading zero. |
| IntText.ParseVariants | internal/kubernetes/deletioncost.go:152-162 | A plus sign or leading zeros change nothing, and a sign without digits or anything but digits after the first character is no integer. |

## Left out

- The floating-point backoff factor: it is a rational here, so the rounding of `float64` products is not modelled, nor is the overflow of durations.
- 64-bit overflow of quantity sums, ages and sample counts: those are unbounded; `Int64` wraps in the demand quotient, the smoother and the retry delay only.
- RequeueAfter, the Blocked flag and the blocking dimension in a decision, and the partial fields of an unreadable snapshot: no guard reads them.
- Leadership.ReleaseOnlyMeansExclusive: excludes runs with a failed renewal, for which FailedRenewalOverlaps shows that exclusion fails; the elector itself is abstract.
- Fit.Calculate: node counts and exclusion counts are unbounded, where the code keeps them in 32 bits.
- Actuator.ScaleActuator.Apply: termination rests on every live read advancing the clock, because the waits alone stop doing so once the delay is not positive.
- SoleWriter.SoleRunIsSoleWriterRun: that an Apply call sends nothing after it has returned is part of what a controller alone on the cluster means here.
- Smoothing.OutputBetweenExtremes: raw values up to 9.2e12 in size, beyond which the 64-bit products can wrap.
- DeletionCost.AcceptsExactly: documents are decoded values; a repeated JSON key has already been resolved to its last value, and byte limits and the other transport checks are not modelled.
- The signals as outputs of scraping: runs take arbitrary signals, and a sample's time is taken as already settled.
- A panic inside the Normalizer's handler, the gauges, draining (it only fails readiness) and the listener.
- Normalization itself, configuration loading, HTTP transports, informers, logs, metrics and event texts.
- Label-selector and quantity parsing: an abstract predicate and parsed integers.
- The refresh of deletion costs inside a reconcile: its failure is logged and changes no decision.
