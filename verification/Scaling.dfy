/** The values the pure engine reads and returns: configuration, snapshot and decision. */
module Scaling {
  import opened GoInt
  import opened Wrappers

  // ---- Configuration (the fields that reach the engine and the controller's memory)

  datatype OnPendingTimeout = Revert | Freeze | Ignore

  /** The growth factor is the rational factorNum / factorDen. */
  datatype HoldBackoffConfig = HoldBackoffConfig(initial: int, max: int, factorNum: int, factorDen: int) {
    predicate Valid() {
      0 < initial <= max && 0 < factorDen < factorNum
    }
  }

  /** Durations and instants are integers in nanoseconds; coverageMilli is int64(coverage * 1000). */
  datatype Settings = Settings(
    interval: int,
    minReplicas: Int32,
    maxReplicas: Int32,
    itemsPerReplica: Int64,
    targetCpuPercent: int,
    metricsStaleAfter: int,
    scaleUpCooldown: int,
    scaleDownCooldown: int,
    window: int,
    coverageMilli: int,
    tolerancePercent: int,
    maxScaleUpStep: Int32,
    maxScaleDownStep: Int32,
    allowPartialScaleUp: bool,
    externalChangeTolerance: int,
    holdBackoff: HoldBackoffConfig,
    pendingPodTimeout: int,
    podStartupTimeout: int,
    onPendingTimeout: OnPendingTimeout)
  {
    /** What configuration validation accepts. */
    predicate Valid() {
      && 0 < interval
      && 1 <= minReplicas <= maxReplicas
      && 0 < itemsPerReplica
      && 1 <= targetCpuPercent <= 100
      && interval <= metricsStaleAfter
      && 0 <= scaleUpCooldown
      && 0 <= scaleDownCooldown
      && interval <= window
      && 0 <= coverageMilli <= 1000
      && 0 <= tolerancePercent <= 100
      && 1 <= maxScaleUpStep
      && 1 <= maxScaleDownStep
      && 0 <= externalChangeTolerance
      && holdBackoff.Valid()
      && interval <= pendingPodTimeout
      && 0 < podStartupTimeout
    }

    /** No scale-up from below maxReplicas can leave the 32-bit range. */
    predicate StepFits() {
      maxReplicas - 1 + maxScaleUpStep <= MAX_INT32
    }
  }

  const SECOND := 1_000_000_000

  /** The documented defaults. */
  const DEFAULTS := Settings(
    15 * SECOND, 1, 12, 50, 70, 60 * SECOND, 60 * SECOND, 300 * SECOND, 300 * SECOND, 800, 10, 4, 1, true, 3,
    HoldBackoffConfig(30 * SECOND, 900 * SECOND, 2, 1), 120 * SECOND, 300 * SECOND, Revert)

  /** A configuration that passed validation. */
  type Config = c: Settings | c.Valid() witness DEFAULTS

  // ---- Reasons

  datatype Reason =
    | ScaleUp | ScaleUpPartial | ScaleDown | RevertPendingPods
    | NoChangeWithinTolerance
    | HoldInsufficientResources | HoldCooldown | HoldStabilizationWindow | HoldBackoff | HoldPendingPods
    | HoldUnhealthyPods | HoldReplicasSettling | HoldRolloutInProgress | HoldExternalChange
    | HoldAtMaxReplicas | HoldAtMinReplicas | HoldScalingConflict | HoldStaleMetrics
    | ErrorAPIFailure
  {
    predicate Writes() {
      ScaleUp? || ScaleUpPartial? || ScaleDown? || RevertPendingPods?
    }
  }

  datatype Direction = NoDirection | Up | Down

  datatype BackoffAction = Unchanged | Arm | Reset | Carry

  // ---- Snapshot

  datatype Signal = Signal(value: Int64, sampledAt: Option<int>, available: bool) {
    /** A sample from the future counts as age zero. */
    predicate Fresh(staleAfter: int, now: int) {
      available && sampledAt.Some? && Max(now - sampledAt.value, 0) <= staleAfter
    }
  }

  /** nextEligible is None for Go's zero time, which is before every instant. */
  datatype BackoffState = BackoffState(
    attempts: int, nextEligible: Option<int>, fitCapacityAtArm: Int32, awaitingPlacement: bool)
  {
    predicate Armed() {
      attempts > 0
    }
  }

  const CLEARED := BackoffState(0, None, -1, false)

  datatype Sample = Sample(at: int, desired: Int32)

  datatype Snapshot = Snapshot(
    valid: bool,
    currentReplicas: Int32,
    readyReplicas: Int32,
    backlog: Signal,
    cpu: Signal,
    fitCapacity: Int32,
    rolloutInProgress: bool,
    hpaPresent: bool,
    externalDrifts: Int32,
    lastScaleUp: Option<int>,
    lastScaleDown: Option<int>,
    desiredHistory: seq<Sample>,
    holdBackoff: BackoffState,
    lastGoodReplicas: Int32,
    pendingOurPods: Int32,
    oldestPendingAge: int,
    unhealthyPodAge: int,
    unmaterialisedReplicas: Int32,
    unmaterialisedAge: int)
  {
    /** What the observers guarantee of the counts in a snapshot. */
    predicate CountsOk() {
      && 0 <= currentReplicas
      && 0 <= fitCapacity
      && 0 <= pendingOurPods
      && 0 <= unmaterialisedReplicas
      && pendingOurPods + unmaterialisedReplicas <= MAX_INT32
    }

    function Stuck(): int {
      pendingOurPods + unmaterialisedReplicas
    }
  }

  // ---- Decision

  /** Present exactly when the reconcile computed demand. */
  datatype Demand = Demand(byBacklog: Int32, byCpu: Int32, raw: Int32, clamped: Int32)

  datatype Sizing = Sizing(stepLimited: Int32, requestedDelta: Int32, deficit: Int32)

  /** The backoff after the decision, and what the controller is told to do with it. */
  datatype BackoffChange = BackoffChange(state: BackoffState, action: BackoffAction, interval: int)

  datatype Decision = Decision(
    reason: Reason,
    direction: Direction,
    current: Int32,
    target: Int32,
    demand: Option<Demand>,
    sizing: Sizing,
    fit: Int32,
    backoff: BackoffChange,
    pendingTimedOut: bool)
  {
    predicate Writes() {
      reason.Writes()
    }

    /** A write inside the bounds that changes the count. */
    predicate MovesInside(lo: Int32, hi: Int32) {
      lo <= target <= hi && target != current
    }

    /** The change in the count that the decision asks for. */
    function Delta(): int {
      target - current
    }
  }
}
