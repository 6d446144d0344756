/** The pure decision engine: every guard of one reconcile, in order, first match wins. */
module Engine {
  import opened GoInt
  import opened Wrappers
  import opened Scaling

  // ---- Helpers over the stabilization window

  predicate InWindow(sample: Sample, window: int, now: int) {
    now - sample.at <= window
  }

  function CountInWindow(history: seq<Sample>, window: int, now: int): nat {
    if history == [] then 0
    else
      CountInWindow(history[..|history| - 1], window, now)
      + if InWindow(history[|history| - 1], window, now) then 1 else 0
  }

  /** How many samples a fully observed window holds. */
  function ExpectedSamples(window: int, interval: int): int
    requires interval > 0
  {
    Max(TruncDiv(window + interval - 1, interval), 1)
  }

  /** Enough samples, and at least one that is a whole window old. */
  predicate WindowCovered(history: seq<Sample>, window: int, interval: int, coverageMilli: int, now: int) {
    && interval > 0
    && window > 0
    && CountInWindow(history, window, now) * 1000 >= coverageMilli * ExpectedSamples(window, interval)
    && exists k :: 0 <= k < |history| && now - history[k].at >= window
  }

  /** Some sample lies in the window and every sample in it wanted fewer than `count`. */
  predicate QuietBelow(history: seq<Sample>, window: int, now: int, count: Int32) {
    && (exists k :: 0 <= k < |history| && InWindow(history[k], window, now))
    && (forall k :: 0 <= k < |history| && InWindow(history[k], window, now) ==> history[k].desired < count)
  }

  // ---- Arithmetic helpers

  /** Ceiling division as written: the int64 addition can wrap. */
  function CeilDiv(a: Int64, b: Int64): Int64 {
    if a <= 0 || b <= 0 then 0
    else
      var n := Wrap64(a + b - 1);
      DivBound(n, b);
      TruncDiv(n, b)
  }

  lemma DivBound(n: Int64, b: Int64)
    requires b > 0
    ensures -0x8000_0000_0000_0000 <= TruncDiv(n, b) <= MAX_INT64
  {
    var m: int := n;
    assert m >= 0 ==> m / b <= m;
    assert m < 0 ==> (-m) / b <= -m;
  }

  predicate WithinTolerance(desired: Int32, current: Int32, tolerancePercent: int) {
    && current > 0
    && var diff := if desired >= current then desired - current else current - desired;
       diff * 100 < tolerancePercent * current
  }

  // ---- Backoff

  /** One growth step of the backoff interval. */
  function Grown(interval: int, cfg: HoldBackoffConfig): int
    requires cfg.factorDen > 0
  {
    TruncDiv(interval * cfg.factorNum, cfg.factorDen)
  }

  /** The interval after at most `steps` growth steps; growth stops at max and when a step does not grow. */
  function GrownInterval(interval: int, steps: nat, cfg: HoldBackoffConfig): int
    requires cfg.factorDen > 0
    decreases steps
  {
    if steps == 0 || interval >= cfg.max then interval
    else
      var grown := Grown(interval, cfg);
      if grown <= interval then interval else GrownInterval(grown, steps - 1, cfg)
  }

  /** The wait that follows the n-th consecutive infeasible attempt. */
  function BackoffInterval(n: int, cfg: HoldBackoffConfig): int
    requires cfg.factorDen > 0
  {
    Min(GrownInterval(cfg.initial, Max(n - 1, 0), cfg), cfg.max)
  }

  function ArmBackoff(prev: BackoffState, fitCapacity: Int32, cfg: HoldBackoffConfig, now: int): BackoffState
    requires cfg.factorDen > 0
  {
    var attempts := prev.attempts + 1;
    BackoffState(attempts, Some(now + BackoffInterval(attempts, cfg)), fitCapacity, false)
  }

  // ---- The decision

  function DesiredBacklog(s: Snapshot, c: Config): Int32 {
    Wrap32(CeilDiv(s.backlog.value, c.itemsPerReplica))
  }

  function DesiredUtilization(s: Snapshot, c: Config, now: int): Int32 {
    if s.cpu.Fresh(c.metricsStaleAfter, now) && s.readyReplicas > 0 then
      Wrap32(CeilDiv(Wrap64(s.readyReplicas * s.cpu.value), Wrap64(c.targetCpuPercent * 1000)))
    else 0
  }

  const NO_SIZING := Sizing(0, 0, 0)

  predicate TimedOut(s: Snapshot, c: Config) {
    || (s.pendingOurPods > 0 && s.oldestPendingAge > c.pendingPodTimeout)
    || (s.unmaterialisedReplicas > 0 && s.unmaterialisedAge > c.pendingPodTimeout)
  }

  function RevertTarget(s: Snapshot, c: Config): Int32 {
    var stuck := Wrap32(s.pendingOurPods + s.unmaterialisedReplicas);
    Clamp(Max(s.lastGoodReplicas, Wrap32(s.currentReplicas - stuck)), c.minReplicas, c.maxReplicas)
  }

  function Arming(prev: BackoffState, s: Snapshot, c: Config, now: int): BackoffChange
  {
    var armed := ArmBackoff(prev, s.fitCapacity, c.holdBackoff, now);
    BackoffChange(armed, Arm, BackoffInterval(armed.attempts, c.holdBackoff))
  }

  predicate Reverts(s: Snapshot, c: Config) {
    TimedOut(s, c) && c.onPendingTimeout == Revert && RevertTarget(s, c) < s.currentReplicas
  }

  predicate BackoffActive(s: Snapshot, now: int) {
    && s.holdBackoff.nextEligible.Some?
    && now < s.holdBackoff.nextEligible.value
    && s.fitCapacity <= s.holdBackoff.fitCapacityAtArm
  }

  predicate CoolingDown(last: Option<int>, cooldown: int, now: int) {
    last.Some? && now - last.value < cooldown
  }

  /** The decision that changes nothing, for the given reason. */
  function Hold(r: Reason, dir: Direction, s: Snapshot, c: Config, demand: Option<Demand>, backoff: BackoffChange):
    Decision
  {
    Decision(r, dir, s.currentReplicas, s.currentReplicas, demand, NO_SIZING, s.fitCapacity, backoff, TimedOut(s, c))
  }

  /** The feasibility gate: complete, partial or infeasible. */
  function Gate(s: Snapshot, c: Config, now: int, demand: Demand, backoff: BackoffChange): Decision
  {
    var limited := Min(demand.clamped, Wrap32(s.currentReplicas + c.maxScaleUpStep));
    var delta := Wrap32(limited - s.currentReplicas);
    if s.fitCapacity >= delta then
      var carried :=
        if backoff.state.Armed() then BackoffChange(BackoffState(backoff.state.attempts, None, -1, true), Carry, 0)
        else BackoffChange(CLEARED, Reset, 0);
      Decision(ScaleUp, Up, s.currentReplicas, limited, Some(demand), Sizing(limited, delta, 0), s.fitCapacity,
               carried, TimedOut(s, c))
    else if s.fitCapacity > 0 && c.allowPartialScaleUp then
      Decision(ScaleUpPartial, Up, s.currentReplicas, Wrap32(s.currentReplicas + s.fitCapacity), Some(demand),
               Sizing(limited, delta, Wrap32(delta - s.fitCapacity)), s.fitCapacity,
               Arming(backoff.state, s, c, now), TimedOut(s, c))
    else
      Decision(HoldInsufficientResources, Up, s.currentReplicas, s.currentReplicas, Some(demand),
               Sizing(limited, delta, delta), s.fitCapacity, Arming(backoff.state, s, c, now), TimedOut(s, c))
  }

  function ScaleUpPath(s: Snapshot, c: Config, now: int, demand: Demand, backoff: BackoffChange): Decision
  {
    if s.pendingOurPods > 0 || s.unmaterialisedReplicas > 0 then Hold(HoldPendingPods, Up, s, c, Some(demand), backoff)
    else if s.unhealthyPodAge > c.podStartupTimeout then Hold(HoldUnhealthyPods, Up, s, c, Some(demand), backoff)
    else if BackoffActive(s, now) then Hold(HoldBackoff, Up, s, c, Some(demand), backoff)
    else if CoolingDown(s.lastScaleUp, c.scaleUpCooldown, now) then Hold(HoldCooldown, Up, s, c, Some(demand), backoff)
    else Gate(s, c, now, demand, backoff)
  }

  /** Whether the stabilization window shows the workload sustainably below the current count. */
  predicate Quiet(s: Snapshot, c: Config, now: int) {
    && WindowCovered(s.desiredHistory, c.window, c.interval, c.coverageMilli, now)
    && QuietBelow(s.desiredHistory, c.window, now, s.currentReplicas)
  }

  /** The step limit rate-limits movement inside the bounds, so the clamp is applied last. */
  function DownTarget(s: Snapshot, c: Config, clamped: Int32): Int32 {
    Clamp(Max(clamped, Wrap32(s.currentReplicas - c.maxScaleDownStep)), c.minReplicas, c.maxReplicas)
  }

  function ScaleDownPath(s: Snapshot, c: Config, now: int, demand: Demand, quiet: bool, backoff: BackoffChange):
    Decision
  {
    if s.readyReplicas != s.currentReplicas then Hold(HoldReplicasSettling, Down, s, c, Some(demand), backoff)
    else if CoolingDown(s.lastScaleDown, c.scaleDownCooldown, now) then
      Hold(HoldCooldown, Down, s, c, Some(demand), backoff)
    else if !quiet then Hold(HoldStabilizationWindow, Down, s, c, Some(demand), backoff)
    else
      var target := DownTarget(s, c, demand.clamped);
      Decision(ScaleDown, Down, s.currentReplicas, target, Some(demand),
               Sizing(target, Wrap32(target - s.currentReplicas), 0), s.fitCapacity, backoff, TimedOut(s, c))
  }

  /** Placement of every replica clears attempts carried through a complete scale-up. */
  function AfterPlacement(s: Snapshot): BackoffChange {
    if s.holdBackoff.awaitingPlacement && s.pendingOurPods == 0 && s.unmaterialisedReplicas == 0 then
      BackoffChange(CLEARED, Reset, 0)
    else BackoffChange(s.holdBackoff, Unchanged, 0)
  }

  /** Demand at or below the current count clears an armed backoff. */
  function AfterDemand(s: Snapshot, raw: Int32): BackoffChange {
    if s.holdBackoff.Armed() && raw <= s.currentReplicas then BackoffChange(CLEARED, Reset, 0)
    else AfterPlacement(s)
  }

  function DemandOf(s: Snapshot, c: Config, now: int): Demand {
    var byBacklog := DesiredBacklog(s, c);
    var byCpu := DesiredUtilization(s, c, now);
    var raw := Max(byBacklog, byCpu);
    Demand(byBacklog, byCpu, raw, Clamp(raw, c.minReplicas, c.maxReplicas))
  }

  /** The clamp, the deadband and the two paths, for any demand and either answer from the window. */
  function DecideOnDemand(s: Snapshot, c: Config, now: int, demand: Demand, quiet: bool): Decision
  {
    var backoff := AfterDemand(s, demand.raw);
    if demand.raw > c.maxReplicas && s.currentReplicas == c.maxReplicas then
      Hold(HoldAtMaxReplicas, NoDirection, s, c, Some(demand), backoff)
    else if demand.raw < c.minReplicas && s.currentReplicas == c.minReplicas then
      Hold(HoldAtMinReplicas, NoDirection, s, c, Some(demand), backoff)
    else if WithinTolerance(demand.clamped, s.currentReplicas, c.tolerancePercent) then
      Hold(NoChangeWithinTolerance, NoDirection, s, c, Some(demand), backoff)
    else if demand.clamped > s.currentReplicas then ScaleUpPath(s, c, now, demand, backoff)
    else ScaleDownPath(s, c, now, demand, quiet, backoff)
  }

  /** A guard that fires before the watchdog and before demand is known. */
  function EarlyHold(r: Reason, s: Snapshot): Decision {
    Decision(r, NoDirection, s.currentReplicas, s.currentReplicas, None, NO_SIZING, s.fitCapacity,
             BackoffChange(s.holdBackoff, Unchanged, 0), false)
  }

  function RevertDecision(s: Snapshot, c: Config, now: int): Decision
  {
    var target := RevertTarget(s, c);
    Decision(RevertPendingPods, Down, s.currentReplicas, target, None,
             Sizing(0, Wrap32(target - s.currentReplicas), 0), s.fitCapacity,
             Arming(s.holdBackoff, s, c, now), true)
  }

  /** Every guard in its fixed order; the first match wins. */
  function Guards(s: Snapshot, c: Config, now: int, demand: Demand, quiet: bool): Decision
  {
    if !s.valid then EarlyHold(ErrorAPIFailure, s)
    else if s.hpaPresent then EarlyHold(HoldScalingConflict, s)
    else if s.externalDrifts > Wrap32(c.externalChangeTolerance) then EarlyHold(HoldExternalChange, s)
    else if s.rolloutInProgress then EarlyHold(HoldRolloutInProgress, s)
    else if Reverts(s, c) then RevertDecision(s, c, now)
    else if !s.backlog.Fresh(c.metricsStaleAfter, now) then
      Hold(HoldStaleMetrics, NoDirection, s, c, None, AfterPlacement(s))
    else DecideOnDemand(s, c, now, demand, quiet)
  }

  function Decide(s: Snapshot, c: Config, now: int): Decision
  {
    Guards(s, c, now, DemandOf(s, c, now), Quiet(s, c, now))
  }
}
