/** What one decision promises, for every snapshot, every valid configuration and every instant. */
module EngineProperties {
  import opened GoInt
  import opened Wrappers
  import opened Scaling
  import opened Engine

  predicate IsUp(d: Decision) {
    d.reason.ScaleUp? || d.reason.ScaleUpPartial?
  }

  /**
   * What a scale-up towards clamped demand asks for: the rest of it within the step, or the whole step whatever
   * demand is once the 32-bit step addition wraps.
   */
  function Wanted(s: Snapshot, c: Config, clamped: Int32): int {
    if s.currentReplicas + c.maxScaleUpStep <= MAX_INT32
    then Min(clamped, s.currentReplicas + c.maxScaleUpStep) - s.currentReplicas
    else c.maxScaleUpStep
  }

  /** The part of it that capacity lets through. */
  function Granted(s: Snapshot, c: Config, clamped: Int32): int {
    Min(Wanted(s, c, clamped), s.fitCapacity)
  }

  // ---- The guards, for any demand and either answer from the window

  lemma GuardsShape(s: Snapshot, c: Config, now: int, demand: Demand, quiet: bool)
    ensures var d := Guards(s, c, now, demand, quiet);
            && d.current == s.currentReplicas
            && d.fit == s.fitCapacity
            && (!d.Writes() ==> d.target == s.currentReplicas)
            && (d.Writes() ==> d.direction == if IsUp(d) then Up else Down)
            && (d.demand.Some? ==> d.demand.value == demand)
            && (d.demand.Some? || d.Writes() || d.backoff.action != Unchanged ==> s.valid)
  {
  }

  lemma GuardsDemand(s: Snapshot, c: Config, now: int, demand: Demand, quiet: bool)
    requires Guards(s, c, now, demand, quiet).demand.Some?
    ensures Guards(s, c, now, demand, quiet) == DecideOnDemand(s, c, now, demand, quiet)
    ensures s.valid && !Reverts(s, c) && s.backlog.Fresh(c.metricsStaleAfter, now)
  {
  }

  lemma DemandUp(s: Snapshot, c: Config, now: int, demand: Demand, quiet: bool)
    requires IsUp(DecideOnDemand(s, c, now, demand, quiet))
    ensures DecideOnDemand(s, c, now, demand, quiet) == Gate(s, c, now, demand, AfterDemand(s, demand.raw))
    ensures s.currentReplicas < demand.clamped
    ensures s.pendingOurPods <= 0 && s.unmaterialisedReplicas <= 0
    ensures !CoolingDown(s.lastScaleUp, c.scaleUpCooldown, now) && !BackoffActive(s, now)
  {
  }

  lemma GuardsUp(s: Snapshot, c: Config, now: int, demand: Demand, quiet: bool)
    requires IsUp(Guards(s, c, now, demand, quiet))
    ensures Guards(s, c, now, demand, quiet) == Gate(s, c, now, demand, AfterDemand(s, demand.raw))
    ensures s.currentReplicas < demand.clamped
    ensures s.pendingOurPods <= 0 && s.unmaterialisedReplicas <= 0
    ensures !CoolingDown(s.lastScaleUp, c.scaleUpCooldown, now) && !BackoffActive(s, now)
  {
    WritesNeedDemand(s, c, now, demand, quiet);
    GuardsDemand(s, c, now, demand, quiet);
    DemandUp(s, c, now, demand, quiet);
  }

  lemma WritesNeedDemand(s: Snapshot, c: Config, now: int, demand: Demand, quiet: bool)
    ensures var d := Guards(s, c, now, demand, quiet);
            IsUp(d) || d.reason.ScaleDown? ==> d.demand == Some(demand)
  {
  }

  lemma DemandDown(s: Snapshot, c: Config, now: int, demand: Demand, quiet: bool)
    requires DecideOnDemand(s, c, now, demand, quiet).reason.ScaleDown?
    ensures DecideOnDemand(s, c, now, demand, quiet)
            == ScaleDownPath(s, c, now, demand, quiet, AfterDemand(s, demand.raw))
    ensures demand.clamped <= s.currentReplicas
    ensures !WithinTolerance(demand.clamped, s.currentReplicas, c.tolerancePercent)
  {
  }

  /** No change is outside the deadband only when there is none. */
  lemma NoDeadband(current: Int32, tolerancePercent: int)
    requires 0 < current && !WithinTolerance(current, current, tolerancePercent)
    ensures tolerancePercent <= 0
  {
  }

  lemma PathDown(s: Snapshot, c: Config, now: int, demand: Demand, quiet: bool, backoff: BackoffChange)
    requires ScaleDownPath(s, c, now, demand, quiet, backoff).reason.ScaleDown?
    ensures ScaleDownPath(s, c, now, demand, quiet, backoff).target == DownTarget(s, c, demand.clamped)
    ensures quiet && s.readyReplicas == s.currentReplicas
    ensures !CoolingDown(s.lastScaleDown, c.scaleDownCooldown, now)
  {
  }

  lemma GuardsDown(s: Snapshot, c: Config, now: int, demand: Demand, quiet: bool)
    requires Guards(s, c, now, demand, quiet).reason.ScaleDown?
    ensures Guards(s, c, now, demand, quiet).target == DownTarget(s, c, demand.clamped)
    ensures demand.clamped <= s.currentReplicas && quiet
    ensures demand.clamped == s.currentReplicas && 0 < s.currentReplicas ==> c.tolerancePercent <= 0
    ensures s.readyReplicas == s.currentReplicas
    ensures !CoolingDown(s.lastScaleDown, c.scaleDownCooldown, now)
    ensures s.backlog.Fresh(c.metricsStaleAfter, now)
  {
    WritesNeedDemand(s, c, now, demand, quiet);
    GuardsDemand(s, c, now, demand, quiet);
    DemandDown(s, c, now, demand, quiet);
    PathDown(s, c, now, demand, quiet, AfterDemand(s, demand.raw));
    if demand.clamped == s.currentReplicas && 0 < s.currentReplicas {
      NoDeadband(s.currentReplicas, c.tolerancePercent);
    }
  }

  lemma GuardsRevert(s: Snapshot, c: Config, now: int, demand: Demand, quiet: bool)
    requires Guards(s, c, now, demand, quiet).reason.RevertPendingPods?
    ensures Guards(s, c, now, demand, quiet) == RevertDecision(s, c, now)
    ensures Reverts(s, c) && !s.rolloutInProgress
  {
  }

  /** A decision is about the snapshot it came from, and only the four write reasons can move the count. */
  lemma HoldsMoveNothing(s: Snapshot, c: Config, now: int)
    ensures var d := Decide(s, c, now);
            && d.current == s.currentReplicas
            && d.fit == s.fitCapacity
            && (!d.Writes() ==> d.target == s.currentReplicas)
            && (d.Writes() ==> d.direction == if IsUp(d) then Up else Down)
            && (d.demand.Some? ==> d.demand.value == DemandOf(s, c, now))
            && (d.demand.Some? || d.Writes() || d.backoff.action != Unchanged ==> s.valid)
  {
    GuardsShape(s, c, now, DemandOf(s, c, now), Quiet(s, c, now));
  }

  // ---- Scale-up

  lemma GateWrite(s: Snapshot, c: Config, now: int, demand: Demand, backoff: BackoffChange)
    requires s.CountsOk() && IsUp(Gate(s, c, now, demand, backoff))
    requires s.currentReplicas < demand.clamped
    ensures var d, gain := Gate(s, c, now, demand, backoff), Granted(s, c, demand.clamped);
            && 0 < gain <= Min(c.maxScaleUpStep, s.fitCapacity)
            && d.target == Wrap32(s.currentReplicas + gain)
            && gain + d.sizing.deficit == Wanted(s, c, demand.clamped)
            && (d.reason.ScaleUp? <==> d.sizing.deficit == 0)
            && (d.reason.ScaleUpPartial? ==> c.allowPartialScaleUp)
  {
  }

  lemma ClampedInside(s: Snapshot, c: Config, now: int)
    ensures c.minReplicas <= DemandOf(s, c, now).clamped <= c.maxReplicas
  {
  }

  /** The only place a decision becomes a scale-up. */
  lemma UpIsGated(s: Snapshot, c: Config, now: int)
    requires IsUp(Decide(s, c, now))
    ensures var demand := DemandOf(s, c, now);
            && Decide(s, c, now) == Gate(s, c, now, demand, AfterDemand(s, demand.raw))
            && s.currentReplicas < demand.clamped <= c.maxReplicas
            && c.minReplicas <= demand.clamped
            && s.pendingOurPods <= 0 && s.unmaterialisedReplicas <= 0
            && !CoolingDown(s.lastScaleUp, c.scaleUpCooldown, now)
            && !BackoffActive(s, now)
  {
    ClampedInside(s, c, now);
    GuardsUp(s, c, now, DemandOf(s, c, now), Quiet(s, c, now));
  }

  /**
   * A scale-up adds what it wants as far as capacity goes, at most the step, and reports the rest as its deficit.
   * The new count is that sum in 32 bits; while the step addition does not wrap it never exceeds clamped demand.
   */
  lemma UpWrite(s: Snapshot, c: Config, now: int)
    requires s.CountsOk() && IsUp(Decide(s, c, now))
    ensures var d, clamped := Decide(s, c, now), DemandOf(s, c, now).clamped;
            var gain := Granted(s, c, clamped);
            && 0 < gain <= Min(c.maxScaleUpStep, s.fitCapacity)
            && d.target == Wrap32(s.currentReplicas + gain)
            && gain + d.sizing.deficit == Wanted(s, c, clamped)
            && (d.reason.ScaleUp? <==> d.sizing.deficit == 0)
            && (s.currentReplicas + c.maxScaleUpStep <= MAX_INT32 ==>
                  s.currentReplicas < d.target == s.currentReplicas + gain <= clamped <= c.maxReplicas)
  {
    UpIsGated(s, c, now);
    var demand := DemandOf(s, c, now);
    GateWrite(s, c, now, demand, AfterDemand(s, demand.raw));
    GrantedFits(s, c, demand.clamped);
  }

  lemma GuardsGain(s: Snapshot, c: Config, now: int, demand: Demand, quiet: bool) returns (gain: int)
    requires s.CountsOk() && IsUp(Guards(s, c, now, demand, quiet))
    ensures 0 < gain <= Min(c.maxScaleUpStep, s.fitCapacity)
    ensures Guards(s, c, now, demand, quiet).target == Wrap32(s.currentReplicas + gain)
  {
    GuardsUp(s, c, now, demand, quiet);
    GateWrite(s, c, now, demand, AfterDemand(s, demand.raw));
    gain := Granted(s, c, demand.clamped);
  }

  /** The same with the gain as a number of its own. */
  lemma UpGain(s: Snapshot, c: Config, now: int) returns (gain: int)
    requires s.CountsOk() && IsUp(Decide(s, c, now))
    ensures 0 < gain <= Min(c.maxScaleUpStep, s.fitCapacity)
    ensures Decide(s, c, now).target == Wrap32(s.currentReplicas + gain)
  {
    gain := GuardsGain(s, c, now, DemandOf(s, c, now), Quiet(s, c, now));
  }

  lemma GrantedFits(s: Snapshot, c: Config, clamped: Int32)
    ensures s.currentReplicas + c.maxScaleUpStep <= MAX_INT32 ==> s.currentReplicas + Granted(s, c, clamped) <= clamped
  {
  }

  lemma GateRaisesExactly(s: Snapshot, c: Config, clamped: Int32, bound: Int32)
    requires s.CountsOk() && s.currentReplicas < clamped <= bound && 0 < Granted(s, c, clamped)
    ensures s.currentReplicas < Wrap32(s.currentReplicas + Granted(s, c, clamped)) <= bound
            <==> || s.currentReplicas + c.maxScaleUpStep <= MAX_INT32
                 || (s.fitCapacity < c.maxScaleUpStep && s.currentReplicas + s.fitCapacity <= bound)
  {
  }

  /**
   * Exactly when a scale-up, complete or partial, raises the count to at most clamped demand, and exactly when to
   * at most maxReplicas: the step addition keeps its 32 bits, or capacity below the step happens to stay under the
   * bound by itself.
   */
  lemma ScaleUpRaisesExactly(s: Snapshot, c: Config, now: int)
    requires s.CountsOk() && IsUp(Decide(s, c, now))
    ensures var d, clamped := Decide(s, c, now), DemandOf(s, c, now).clamped;
            && (s.currentReplicas < d.target <= clamped
                <==> || s.currentReplicas + c.maxScaleUpStep <= MAX_INT32
                     || (s.fitCapacity < c.maxScaleUpStep && s.currentReplicas + s.fitCapacity <= clamped))
            && (s.currentReplicas < d.target <= c.maxReplicas
                <==> || s.currentReplicas + c.maxScaleUpStep <= MAX_INT32
                     || (s.fitCapacity < c.maxScaleUpStep && s.currentReplicas + s.fitCapacity <= c.maxReplicas))
  {
    UpIsGated(s, c, now);
    UpWrite(s, c, now);
    var clamped := DemandOf(s, c, now).clamped;
    GateRaisesExactly(s, c, clamped, clamped);
    GateRaisesExactly(s, c, clamped, c.maxReplicas);
  }

  /** A configuration limit that rules the wrap out for every snapshot. */
  lemma StepFitsIsEnough(s: Snapshot, c: Config, now: int)
    requires c.StepFits() && IsUp(Decide(s, c, now))
    ensures s.currentReplicas + c.maxScaleUpStep <= MAX_INT32
  {
    UpIsGated(s, c, now);
  }

  // ---- Scale-down

  lemma DownTargetExact(s: Snapshot, c: Config, clamped: Int32)
    requires c.minReplicas <= clamped <= Min(s.currentReplicas, c.maxReplicas)
    ensures var target := DownTarget(s, c, clamped);
            && clamped <= target <= s.currentReplicas
            && target == Min(Max(clamped, s.currentReplicas - c.maxScaleDownStep), c.maxReplicas)
            && (target == s.currentReplicas <==> clamped == s.currentReplicas)
  {
  }

  /** A demand scale-down never goes below clamped demand, and is a no-op exactly when demand equals the count. */
  lemma DownWrite(s: Snapshot, c: Config, now: int)
    requires Decide(s, c, now).reason.ScaleDown?
    ensures var d := Decide(s, c, now);
            var clamped := DemandOf(s, c, now).clamped;
            && c.minReplicas <= clamped <= d.target <= Min(s.currentReplicas, c.maxReplicas)
            && d.target == Min(Max(clamped, s.currentReplicas - c.maxScaleDownStep), c.maxReplicas)
            && (d.target == s.currentReplicas <==> clamped == s.currentReplicas)
            && (d.target == s.currentReplicas ==> c.tolerancePercent == 0)
            && s.readyReplicas == s.currentReplicas
            && !CoolingDown(s.lastScaleDown, c.scaleDownCooldown, now)
            && Quiet(s, c, now)
            && s.backlog.Fresh(c.metricsStaleAfter, now)
  {
    ClampedInside(s, c, now);
    GuardsDown(s, c, now, DemandOf(s, c, now), Quiet(s, c, now));
    DownTargetExact(s, c, DemandOf(s, c, now).clamped);
  }

  // ---- Revert

  lemma RevertTargetExact(s: Snapshot, c: Config)
    requires s.CountsOk() && RevertTarget(s, c) < s.currentReplicas
    ensures var target := RevertTarget(s, c);
            && c.minReplicas <= target <= c.maxReplicas
            && Min(s.lastGoodReplicas, c.maxReplicas) <= target
            && Min(s.currentReplicas - s.Stuck(), c.maxReplicas) <= target
            && (s.currentReplicas <= c.maxReplicas ==>
                  target == Max(Max(s.lastGoodReplicas, s.currentReplicas - s.Stuck()), c.minReplicas))
            && (target < s.currentReplicas - s.Stuck() <==> c.maxReplicas < s.currentReplicas - s.Stuck())
  {
  }

  /**
   * A revert stays above the floor and inside the bounds; from inside the bounds it removes exactly the stuck
   * replicas down to the floor, and it removes more than the stuck ones only when maxReplicas forces it to.
   */
  lemma RevertWrite(s: Snapshot, c: Config, now: int)
    requires s.CountsOk() && Decide(s, c, now).reason.RevertPendingPods?
    ensures var d := Decide(s, c, now);
            && c.minReplicas <= d.target <= c.maxReplicas
            && d.target < s.currentReplicas
            && Min(s.lastGoodReplicas, c.maxReplicas) <= d.target
            && Min(s.currentReplicas - s.Stuck(), c.maxReplicas) <= d.target
            && (s.currentReplicas <= c.maxReplicas ==>
                  d.target == Max(Max(s.lastGoodReplicas, s.currentReplicas - s.Stuck()), c.minReplicas))
            && (d.target < s.currentReplicas - s.Stuck() <==> c.maxReplicas < s.currentReplicas - s.Stuck())
            && TimedOut(s, c)
            && !s.rolloutInProgress
  {
    GuardsRevert(s, c, now, DemandOf(s, c, now), Quiet(s, c, now));
    RevertTargetExact(s, c);
  }

  // ---- When each write is decided

  /** The cluster is readable and nobody else is changing the target. */
  predicate Undisturbed(s: Snapshot, c: Config) {
    && s.valid
    && !s.hpaPresent
    && s.externalDrifts <= Wrap32(c.externalChangeTolerance)
    && !s.rolloutInProgress
  }

  predicate DemandKnown(s: Snapshot, c: Config, now: int) {
    Undisturbed(s, c) && !Reverts(s, c) && s.backlog.Fresh(c.metricsStaleAfter, now)
  }

  /** Nothing the controller asked for is stuck or failing, and no wait is running. */
  predicate FreeToGrow(s: Snapshot, c: Config, now: int) {
    && s.pendingOurPods <= 0 && s.unmaterialisedReplicas <= 0
    && s.unhealthyPodAge <= c.podStartupTimeout
    && !BackoffActive(s, now)
    && !CoolingDown(s.lastScaleUp, c.scaleUpCooldown, now)
  }

  /** The last change has settled, no wait is running and the window is quiet. */
  predicate FreeToShrink(s: Snapshot, c: Config, now: int, quiet: bool) {
    && s.readyReplicas == s.currentReplicas
    && !CoolingDown(s.lastScaleDown, c.scaleDownCooldown, now)
    && quiet
  }

  /** Demand beyond a bound while the count already sits on it. */
  predicate HeldByBounds(s: Snapshot, c: Config, raw: Int32) {
    || (raw > c.maxReplicas && s.currentReplicas == c.maxReplicas)
    || (raw < c.minReplicas && s.currentReplicas == c.minReplicas)
  }

  /** Capacity for all that is wanted, or for some of it when partial scale-ups are allowed. */
  predicate CapacityAllows(s: Snapshot, c: Config, clamped: Int32) {
    s.fitCapacity >= Wanted(s, c, clamped) || (0 < s.fitCapacity && c.allowPartialScaleUp)
  }

  lemma GateOpens(s: Snapshot, c: Config, now: int, demand: Demand, backoff: BackoffChange)
    requires 0 <= s.currentReplicas < demand.clamped
    ensures var d := Gate(s, c, now, demand, backoff);
            && (IsUp(d) <==> CapacityAllows(s, c, demand.clamped))
            && (d.reason.HoldInsufficientResources? <==> !CapacityAllows(s, c, demand.clamped))
            && !d.reason.ScaleDown?
  {
  }

  lemma PathUpExactly(s: Snapshot, c: Config, now: int, demand: Demand, backoff: BackoffChange)
    requires 0 <= s.currentReplicas < demand.clamped
    ensures var d := ScaleUpPath(s, c, now, demand, backoff);
            && (IsUp(d) <==> FreeToGrow(s, c, now) && CapacityAllows(s, c, demand.clamped))
            && (d.reason.HoldInsufficientResources? <==> FreeToGrow(s, c, now) && !CapacityAllows(s, c, demand.clamped))
            && !d.reason.ScaleDown? && !d.reason.HoldAtMaxReplicas?
  {
    GateOpens(s, c, now, demand, backoff);
  }

  lemma DemandWritesExactly(s: Snapshot, c: Config, now: int, demand: Demand, quiet: bool)
    requires 0 <= s.currentReplicas
    requires demand.clamped == Clamp(demand.raw, c.minReplicas, c.maxReplicas)
    ensures var d := DecideOnDemand(s, c, now, demand, quiet);
            var outside := !WithinTolerance(demand.clamped, s.currentReplicas, c.tolerancePercent);
            && (IsUp(d) <==>
                  && s.currentReplicas < demand.clamped && outside
                  && FreeToGrow(s, c, now) && CapacityAllows(s, c, demand.clamped))
            && (d.reason.ScaleDown? <==>
                  && demand.clamped <= s.currentReplicas && outside && !HeldByBounds(s, c, demand.raw)
                  && FreeToShrink(s, c, now, quiet))
            && !d.reason.RevertPendingPods?
            && (d.reason.HoldInsufficientResources? <==>
                  && s.currentReplicas < demand.clamped && outside
                  && FreeToGrow(s, c, now) && !CapacityAllows(s, c, demand.clamped))
            && (d.reason.HoldAtMaxReplicas? <==> demand.raw > c.maxReplicas == s.currentReplicas)
  {
    if s.currentReplicas < demand.clamped {
      PathUpExactly(s, c, now, demand, AfterDemand(s, demand.raw));
    }
  }

  lemma GuardsExactly(s: Snapshot, c: Config, now: int, demand: Demand, quiet: bool)
    ensures var d := Guards(s, c, now, demand, quiet);
            && (d.reason.RevertPendingPods? ==> Undisturbed(s, c) && Reverts(s, c))
            && (Undisturbed(s, c) && Reverts(s, c) ==> d == RevertDecision(s, c, now))
            && (DemandKnown(s, c, now) ==> d == DecideOnDemand(s, c, now, demand, quiet))
            && (IsUp(d) || d.reason.ScaleDown? ==> DemandKnown(s, c, now))
            && (d.reason.HoldInsufficientResources? || d.reason.HoldAtMaxReplicas? ==> DemandKnown(s, c, now))
  {
  }

  /**
   * Exactly when each write is decided. Whatever any one guard would report, a scale-up, a scale-down and a revert
   * happen if and only if all of their own conditions hold together.
   */
  lemma WritesExactly(s: Snapshot, c: Config, now: int)
    requires 0 <= s.currentReplicas
    ensures var d, demand := Decide(s, c, now), DemandOf(s, c, now);
            var outside := !WithinTolerance(demand.clamped, s.currentReplicas, c.tolerancePercent);
            && (IsUp(d) <==>
                  && DemandKnown(s, c, now) && s.currentReplicas < demand.clamped && outside
                  && FreeToGrow(s, c, now) && CapacityAllows(s, c, demand.clamped))
            && (d.reason.ScaleDown? <==>
                  && DemandKnown(s, c, now) && demand.clamped <= s.currentReplicas && outside
                  && !HeldByBounds(s, c, demand.raw) && FreeToShrink(s, c, now, Quiet(s, c, now)))
            && (d.reason.RevertPendingPods? <==> Undisturbed(s, c) && Reverts(s, c))
  {
    var demand, quiet := DemandOf(s, c, now), Quiet(s, c, now);
    GuardsExactly(s, c, now, demand, quiet);
    DemandWritesExactly(s, c, now, demand, quiet);
  }

  // ---- What an operator can do about a hold

  /** Exactly when the two holds about scarcity are reported. */
  lemma ScarcityExactly(s: Snapshot, c: Config, now: int)
    requires 0 <= s.currentReplicas
    ensures var d, demand := Decide(s, c, now), DemandOf(s, c, now);
            && (d.reason.HoldInsufficientResources? <==>
                  && DemandKnown(s, c, now) && s.currentReplicas < demand.clamped
                  && !WithinTolerance(demand.clamped, s.currentReplicas, c.tolerancePercent)
                  && FreeToGrow(s, c, now) && !CapacityAllows(s, c, demand.clamped))
            && (d.reason.HoldAtMaxReplicas? <==>
                  DemandKnown(s, c, now) && demand.raw > c.maxReplicas == s.currentReplicas)
  {
    var demand, quiet := DemandOf(s, c, now), Quiet(s, c, now);
    GuardsExactly(s, c, now, demand, quiet);
    DemandWritesExactly(s, c, now, demand, quiet);
  }

  /** The policy with a higher limit, everything else as it was. */
  function Raised(c: Config, limit: Int32): (c': Config)
    requires c.maxReplicas <= limit
    ensures c' == c.(maxReplicas := limit)
  {
    c.(maxReplicas := limit)
  }

  /** The same cluster with more room. */
  function Roomier(s: Snapshot, fit: Int32): Snapshot {
    s.(fitCapacity := fit)
  }

  lemma RaisedKeepsDemand(s: Snapshot, c: Config, now: int, limit: Int32)
    requires c.maxReplicas <= limit
    ensures DemandKnown(s, c, now) ==> DemandKnown(s, Raised(c, limit), now)
    ensures FreeToGrow(s, c, now) <==> FreeToGrow(s, Raised(c, limit), now)
    ensures var demand, raised := DemandOf(s, c, now), DemandOf(s, Raised(c, limit), now);
            && raised.raw == demand.raw && demand.clamped <= raised.clamped <= limit
            && raised.clamped == Clamp(demand.raw, c.minReplicas, limit)
  {
  }

  lemma FartherIsOutside(near: Int32, far: Int32, current: Int32, tolerancePercent: int)
    requires current < near <= far && !WithinTolerance(near, current, tolerancePercent)
    ensures !WithinTolerance(far, current, tolerancePercent)
  {
  }

  /** A resource shortfall: no higher limit helps, and more room does exactly when it covers what is wanted. */
  lemma ShortfallNeedsCapacity(s: Snapshot, c: Config, now: int, limit: Int32, fit: Int32)
    requires s.CountsOk() && Decide(s, c, now).reason.HoldInsufficientResources?
    requires c.maxReplicas <= limit && s.fitCapacity <= fit
    ensures Decide(s, Raised(c, limit), now).reason.HoldInsufficientResources?
    ensures IsUp(Decide(Roomier(s, fit), c, now)) <==>
              fit >= Wanted(s, c, DemandOf(s, c, now).clamped) || (0 < fit && c.allowPartialScaleUp)
  {
    ScarcityExactly(s, c, now);
    RaisedKeepsDemand(s, c, now, limit);
    var clamped := DemandOf(s, c, now).clamped;
    FartherIsOutside(clamped, DemandOf(s, Raised(c, limit), now).clamped, s.currentReplicas, c.tolerancePercent);
    ScarcityExactly(s, Raised(c, limit), now);
    RoomierKeepsDemand(s, c, now, fit);
    WritesExactly(Roomier(s, fit), c, now);
  }

  lemma RoomierKeepsDemand(s: Snapshot, c: Config, now: int, fit: Int32)
    ensures DemandOf(Roomier(s, fit), c, now) == DemandOf(s, c, now)
    ensures DemandKnown(s, c, now) <==> DemandKnown(Roomier(s, fit), c, now)
    ensures s.fitCapacity <= fit && FreeToGrow(s, c, now) ==> FreeToGrow(Roomier(s, fit), c, now)
  {
  }

  /** The policy limit: no amount of room helps, and a higher limit does exactly when the up-gates then open. */
  lemma LimitNeedsPolicy(s: Snapshot, c: Config, now: int, limit: Int32, fit: Int32)
    requires s.CountsOk() && Decide(s, c, now).reason.HoldAtMaxReplicas? && c.maxReplicas < limit
    ensures Decide(Roomier(s, fit), c, now).reason.HoldAtMaxReplicas?
    ensures var wanted := Clamp(DemandOf(s, c, now).raw, c.minReplicas, limit);
            && s.currentReplicas < wanted
            && (IsUp(Decide(s, Raised(c, limit), now)) <==>
                  && !WithinTolerance(wanted, s.currentReplicas, c.tolerancePercent)
                  && FreeToGrow(s, c, now) && CapacityAllows(s, Raised(c, limit), wanted))
  {
    ScarcityExactly(s, c, now);
    RoomierKeepsDemand(s, c, now, fit);
    ScarcityExactly(Roomier(s, fit), c, now);
    RaisedKeepsDemand(s, c, now, limit);
    WritesExactly(s, Raised(c, limit), now);
  }

  // ---- All writes together

  /**
   * With a deadband of at least one percent, starting at or above the policy's floor, a decision writes
   * exactly when it moves the count, and every write moves it in its own direction inside the bounds.
   */
  lemma WritesMoveInsideBounds(s: Snapshot, c: Config, now: int)
    requires c.StepFits() && s.CountsOk()
    requires 1 <= c.tolerancePercent && c.minReplicas <= s.currentReplicas
    ensures var d := Decide(s, c, now);
            && (d.Writes() <==> d.target != s.currentReplicas)
            && (d.Writes() ==> d.MovesInside(c.minReplicas, c.maxReplicas))
            && (d.Writes() && d.direction == Up ==> 0 < d.Delta() <= c.maxScaleUpStep)
            && (d.Writes() && d.direction != Up ==> d.direction == Down && d.target < s.currentReplicas)
            && (d.reason.ScaleDown? ==> DemandOf(s, c, now).clamped <= d.target)
            && (d.reason.ScaleDown? && s.currentReplicas <= c.maxReplicas ==> -d.Delta() <= c.maxScaleDownStep)
  {
    var d := Decide(s, c, now);
    HoldsMoveNothing(s, c, now);
    if IsUp(d) {
      StepFitsIsEnough(s, c, now);
      UpWrite(s, c, now);
    } else if d.reason.ScaleDown? {
      DownWrite(s, c, now);
    } else if d.reason.RevertPendingPods? {
      RevertWrite(s, c, now);
    }
  }

  /** The gain counted against the limits when the actuator looks at the target again. */
  lemma UpIsRefusedExactly(s: Snapshot, c: Config, clamped: Int32)
    requires s.CountsOk() && s.currentReplicas < clamped <= c.maxReplicas && c.minReplicas <= clamped
    requires 0 < Granted(s, c, clamped)
    ensures var target := Wrap32(s.currentReplicas + Granted(s, c, clamped));
            var reach := s.currentReplicas + Min(c.maxScaleUpStep, s.fitCapacity);
            !(c.minReplicas <= target <= c.maxReplicas && target != s.currentReplicas)
            <==> reach < c.minReplicas || (s.currentReplicas + c.maxScaleUpStep > MAX_INT32 && reach > c.maxReplicas)
  {
  }

  /**
   * Exactly which write decisions the actuator's second check refuses: a scale-down onto equal demand, a scale-up
   * that step and capacity leave under minReplicas, and one past maxReplicas, which takes a wrapped step.
   */
  lemma RefusedExactly(s: Snapshot, c: Config, now: int)
    requires s.CountsOk() && Decide(s, c, now).Writes()
    ensures var d := Decide(s, c, now);
            var reach := s.currentReplicas + Min(c.maxScaleUpStep, s.fitCapacity);
            !d.MovesInside(c.minReplicas, c.maxReplicas)
            <==> || (d.reason.ScaleDown? && DemandOf(s, c, now).clamped == s.currentReplicas)
                 || (IsUp(d) && reach < c.minReplicas)
                 || (IsUp(d) && s.currentReplicas + c.maxScaleUpStep > MAX_INT32 && reach > c.maxReplicas)
  {
    HoldsMoveNothing(s, c, now);
    if IsUp(Decide(s, c, now)) {
      UpRefused(s, c, now);
    } else if Decide(s, c, now).reason.ScaleDown? {
      DownWrite(s, c, now);
    } else {
      RevertWrite(s, c, now);
    }
  }

  lemma UpRefused(s: Snapshot, c: Config, now: int)
    requires s.CountsOk() && IsUp(Decide(s, c, now))
    ensures var reach := s.currentReplicas + Min(c.maxScaleUpStep, s.fitCapacity);
            !Decide(s, c, now).MovesInside(c.minReplicas, c.maxReplicas)
            <==> reach < c.minReplicas || (s.currentReplicas + c.maxScaleUpStep > MAX_INT32 && reach > c.maxReplicas)
  {
    UpIsGated(s, c, now);
    UpWrite(s, c, now);
    UpIsRefusedExactly(s, c, DemandOf(s, c, now).clamped);
  }
}
