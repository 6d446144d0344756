/** The documented order of the guards: a decision reports the first reason in it whose condition holds. */
module GuardOrder {
  import opened GoInt
  import opened Wrappers
  import opened Scaling
  import opened Engine
  import opened EngineProperties

  // ---- The conditions, on what the snapshot shows

  /** Sampled no longer ago than allowed; a sample from the future is not old. */
  predicate IsRecent(signal: Signal, staleAfter: int, now: int) {
    signal.available && signal.sampledAt.Some? && now - staleAfter <= signal.sampledAt.value
  }

  /** A replica has waited for a node, or to become a pod, for longer than the timeout. */
  predicate StuckTooLong(s: Snapshot, c: Config) {
    || (0 < s.pendingOurPods && c.pendingPodTimeout < s.oldestPendingAge)
    || (0 < s.unmaterialisedReplicas && c.pendingPodTimeout < s.unmaterialisedAge)
  }

  /** Lowering the count stays above the floor and the minimum, or brings it back under the maximum. */
  predicate CanTakeBack(s: Snapshot, c: Config) {
    c.maxReplicas < s.currentReplicas || (s.lastGoodReplicas < s.currentReplicas && c.minReplicas < s.currentReplicas)
  }

  /** The change is a smaller part of the count than the tolerance. */
  predicate IsNegligible(s: Snapshot, c: Config, clamped: Int32) {
    && 0 < s.currentReplicas
    && 100 * (clamped - s.currentReplicas) < c.tolerancePercent * s.currentReplicas
    && 100 * (s.currentReplicas - clamped) < c.tolerancePercent * s.currentReplicas
  }

  predicate IsWithin(last: Option<int>, cooldown: int, now: int) {
    last.Some? && now < last.value + cooldown
  }

  /** The condition of each reason, given the demand and the answer from the window. */
  predicate Applies(r: Reason, s: Snapshot, c: Config, now: int, demand: Demand, quiet: bool) {
    var up := s.currentReplicas < demand.clamped;
    match r
    case ErrorAPIFailure => !s.valid
    case HoldScalingConflict => s.hpaPresent
    case HoldExternalChange => Wrap32(c.externalChangeTolerance) < s.externalDrifts
    case HoldRolloutInProgress => s.rolloutInProgress
    case RevertPendingPods => StuckTooLong(s, c) && c.onPendingTimeout == Revert && CanTakeBack(s, c)
    case HoldStaleMetrics => !IsRecent(s.backlog, c.metricsStaleAfter, now)
    case HoldAtMaxReplicas => s.currentReplicas == c.maxReplicas < demand.raw
    case HoldAtMinReplicas => demand.raw < c.minReplicas == s.currentReplicas
    case NoChangeWithinTolerance => IsNegligible(s, c, demand.clamped)
    case HoldPendingPods => up && (0 < s.pendingOurPods || 0 < s.unmaterialisedReplicas)
    case HoldUnhealthyPods => up && c.podStartupTimeout < s.unhealthyPodAge
    case HoldBackoff =>
      && up && s.holdBackoff.nextEligible.Some? && now < s.holdBackoff.nextEligible.value
      && s.fitCapacity <= s.holdBackoff.fitCapacityAtArm
    case HoldReplicasSettling => !up && s.readyReplicas != s.currentReplicas
    case HoldCooldown =>
      if up then IsWithin(s.lastScaleUp, c.scaleUpCooldown, now)
      else IsWithin(s.lastScaleDown, c.scaleDownCooldown, now)
    case HoldStabilizationWindow => !up && !quiet
    case ScaleUp => up && Wanted(s, c, demand.clamped) <= s.fitCapacity
    case ScaleUpPartial => up && 0 < s.fitCapacity && c.allowPartialScaleUp
    case HoldInsufficientResources => up
    case ScaleDown => !up
  }

  /** The place of each reason in the order. */
  function Place(r: Reason): nat {
    match r
    case ErrorAPIFailure => 0
    case HoldScalingConflict => 1
    case HoldExternalChange => 2
    case HoldRolloutInProgress => 3
    case RevertPendingPods => 4
    case HoldStaleMetrics => 5
    case HoldAtMaxReplicas => 6
    case HoldAtMinReplicas => 7
    case NoChangeWithinTolerance => 8
    case HoldPendingPods => 9
    case HoldUnhealthyPods => 10
    case HoldBackoff => 11
    case HoldReplicasSettling => 12
    case HoldCooldown => 13
    case HoldStabilizationWindow => 14
    case ScaleUp => 15
    case ScaleUpPartial => 16
    case HoldInsufficientResources => 17
    case ScaleDown => 18
  }

  /** r applies and nothing before it does. */
  predicate IsFirst(r: Reason, s: Snapshot, c: Config, now: int, demand: Demand, quiet: bool) {
    Applies(r, s, c, now, demand, quiet) && forall q :: Place(q) < Place(r) ==> !Applies(q, s, c, now, demand, quiet)
  }

  // ---- The engine's own predicates

  lemma WatchdogReads(s: Snapshot, c: Config, now: int)
    requires s.CountsOk()
    ensures s.backlog.Fresh(c.metricsStaleAfter, now) <==> IsRecent(s.backlog, c.metricsStaleAfter, now)
    ensures TimedOut(s, c) <==> StuckTooLong(s, c)
    ensures Reverts(s, c) <==> StuckTooLong(s, c) && c.onPendingTimeout == Revert && CanTakeBack(s, c)
  {
  }

  lemma ToleranceReads(s: Snapshot, c: Config, clamped: Int32)
    ensures WithinTolerance(clamped, s.currentReplicas, c.tolerancePercent) <==> IsNegligible(s, c, clamped)
  {
  }

  // ---- The paths

  /** The feasibility gate: complete, else partial, else nothing. */
  lemma GateReason(s: Snapshot, c: Config, now: int, demand: Demand, backoff: BackoffChange)
    requires s.CountsOk() && s.currentReplicas < demand.clamped
    ensures Gate(s, c, now, demand, backoff).reason ==
            if Wanted(s, c, demand.clamped) <= s.fitCapacity then ScaleUp
            else if 0 < s.fitCapacity && c.allowPartialScaleUp then ScaleUpPartial
            else HoldInsufficientResources
  {
  }

  /** The up-gates in front of it, with the gate's own answer for the rest. */
  lemma UpPathReason(s: Snapshot, c: Config, now: int, demand: Demand, backoff: BackoffChange)
    requires s.CountsOk()
    ensures ScaleUpPath(s, c, now, demand, backoff).reason ==
            if 0 < s.Stuck() then HoldPendingPods
            else if c.podStartupTimeout < s.unhealthyPodAge then HoldUnhealthyPods
            else if BackoffActive(s, now) then HoldBackoff
            else if IsWithin(s.lastScaleUp, c.scaleUpCooldown, now) then HoldCooldown
            else Gate(s, c, now, demand, backoff).reason
  {
  }

  lemma UpPathOrder(q: Reason, s: Snapshot, c: Config, now: int, demand: Demand, quiet: bool, backoff: BackoffChange)
    requires s.CountsOk() && s.currentReplicas < demand.clamped
    ensures var r := ScaleUpPath(s, c, now, demand, backoff).reason;
            && Place(NoChangeWithinTolerance) < Place(r)
            && Applies(r, s, c, now, demand, quiet)
            && (Place(NoChangeWithinTolerance) < Place(q) < Place(r) ==> !Applies(q, s, c, now, demand, quiet))
  {
    UpPathReason(s, c, now, demand, backoff);
    GateReason(s, c, now, demand, backoff);
    InFrontOfGate(q, Gate(s, c, now, demand, backoff).reason, s, c, now, demand, quiet);
  }

  lemma InFrontOfGate(q: Reason, gate: Reason, s: Snapshot, c: Config, now: int, demand: Demand, quiet: bool)
    requires s.CountsOk() && s.currentReplicas < demand.clamped
    requires Place(HoldStabilizationWindow) < Place(gate) && Applies(gate, s, c, now, demand, quiet)
    requires Place(HoldStabilizationWindow) < Place(q) < Place(gate) ==> !Applies(q, s, c, now, demand, quiet)
    ensures var r := if 0 < s.Stuck() then HoldPendingPods
                     else if c.podStartupTimeout < s.unhealthyPodAge then HoldUnhealthyPods
                     else if BackoffActive(s, now) then HoldBackoff
                     else if IsWithin(s.lastScaleUp, c.scaleUpCooldown, now) then HoldCooldown
                     else gate;
            && Place(NoChangeWithinTolerance) < Place(r)
            && Applies(r, s, c, now, demand, quiet)
            && (Place(NoChangeWithinTolerance) < Place(q) < Place(r) ==> !Applies(q, s, c, now, demand, quiet))
  {
  }

  lemma DownPathOrder(q: Reason, s: Snapshot, c: Config, now: int, demand: Demand, quiet: bool, backoff: BackoffChange)
    requires demand.clamped <= s.currentReplicas
    ensures var r := ScaleDownPath(s, c, now, demand, quiet, backoff).reason;
            && Place(NoChangeWithinTolerance) < Place(r)
            && Applies(r, s, c, now, demand, quiet)
            && (Place(NoChangeWithinTolerance) < Place(q) < Place(r) ==> !Applies(q, s, c, now, demand, quiet))
  {
  }

  lemma DemandOrder(q: Reason, s: Snapshot, c: Config, now: int, demand: Demand, quiet: bool)
    requires s.CountsOk()
    ensures var r := DecideOnDemand(s, c, now, demand, quiet).reason;
            && Place(HoldStaleMetrics) < Place(r)
            && Applies(r, s, c, now, demand, quiet)
            && (Place(HoldStaleMetrics) < Place(q) < Place(r) ==> !Applies(q, s, c, now, demand, quiet))
  {
    ToleranceReads(s, c, demand.clamped);
    if s.currentReplicas < demand.clamped {
      UpPathOrder(q, s, c, now, demand, quiet, AfterDemand(s, demand.raw));
    } else {
      DownPathOrder(q, s, c, now, demand, quiet, AfterDemand(s, demand.raw));
    }
  }

  /** The guards in front of demand, with the answer on demand for the rest. */
  function EarlyReason(s: Snapshot, c: Config, now: int, onDemand: Reason): Reason {
    if !s.valid then ErrorAPIFailure
    else if s.hpaPresent then HoldScalingConflict
    else if Wrap32(c.externalChangeTolerance) < s.externalDrifts then HoldExternalChange
    else if s.rolloutInProgress then HoldRolloutInProgress
    else if Reverts(s, c) then RevertPendingPods
    else if !IsRecent(s.backlog, c.metricsStaleAfter, now) then HoldStaleMetrics
    else onDemand
  }

  lemma GuardsReason(s: Snapshot, c: Config, now: int, demand: Demand, quiet: bool)
    ensures Guards(s, c, now, demand, quiet).reason
            == EarlyReason(s, c, now, DecideOnDemand(s, c, now, demand, quiet).reason)
  {
  }

  lemma InFrontOfDemand(q: Reason, r: Reason, s: Snapshot, c: Config, now: int, demand: Demand, quiet: bool)
    requires s.CountsOk() && Place(HoldStaleMetrics) < Place(r) && Applies(r, s, c, now, demand, quiet)
    requires Place(HoldStaleMetrics) < Place(q) < Place(r) ==> !Applies(q, s, c, now, demand, quiet)
    ensures var first := EarlyReason(s, c, now, r);
            && Applies(first, s, c, now, demand, quiet)
            && (Place(q) < Place(first) ==> !Applies(q, s, c, now, demand, quiet))
  {
    WatchdogReads(s, c, now);
  }

  lemma GuardsInOrder(q: Reason, s: Snapshot, c: Config, now: int, demand: Demand, quiet: bool)
    requires s.CountsOk()
    ensures var r := Guards(s, c, now, demand, quiet).reason;
            && Applies(r, s, c, now, demand, quiet)
            && (Place(q) < Place(r) ==> !Applies(q, s, c, now, demand, quiet))
  {
    GuardsReason(s, c, now, demand, quiet);
    DemandOrder(q, s, c, now, demand, quiet);
    InFrontOfDemand(q, DecideOnDemand(s, c, now, demand, quiet).reason, s, c, now, demand, quiet);
  }

  // ---- The decision

  lemma OnlyOneIsFirst(p: Reason, r: Reason, s: Snapshot, c: Config, now: int, demand: Demand, quiet: bool)
    requires IsFirst(p, s, c, now, demand, quiet) && IsFirst(r, s, c, now, demand, quiet)
    ensures p == r
  {
    assert !(Place(p) < Place(r)) && !(Place(r) < Place(p));
  }

  /** The reason of a decision is r if and only if r applies and no reason before it does. */
  lemma FirstReasonWins(s: Snapshot, c: Config, now: int, r: Reason)
    requires s.CountsOk()
    ensures Decide(s, c, now).reason == r <==> IsFirst(r, s, c, now, DemandOf(s, c, now), Quiet(s, c, now))
  {
    var demand, quiet := DemandOf(s, c, now), Quiet(s, c, now);
    var reason := Decide(s, c, now).reason;
    forall q
      ensures Applies(reason, s, c, now, demand, quiet)
      ensures Place(q) < Place(reason) ==> !Applies(q, s, c, now, demand, quiet)
    {
      GuardsInOrder(q, s, c, now, demand, quiet);
    }
    if IsFirst(r, s, c, now, demand, quiet) {
      OnlyOneIsFirst(reason, r, s, c, now, demand, quiet);
    }
  }

  // ---- What the decision reports besides

  /** Readable, and nobody else at work on the target. */
  predicate Clear(s: Snapshot, c: Config) {
    s.valid && !s.hpaPresent && s.externalDrifts <= Wrap32(c.externalChangeTolerance) && !s.rolloutInProgress
  }

  /** The size of the change: what was asked for, and where that would end. */
  predicate Sized(d: Decision, s: Snapshot, c: Config, clamped: Int32) {
    var asked := Wanted(s, c, clamped);
    if IsUp(d) || d.reason.HoldInsufficientResources? then
      && d.sizing.requestedDelta == asked && d.sizing.stepLimited == Wrap32(s.currentReplicas + asked)
      && d.sizing.deficit == (if IsUp(d) then Max(asked - s.fitCapacity, 0) else asked)
    else
      && d.sizing.requestedDelta == d.target - s.currentReplicas && d.sizing.deficit == 0
      && d.sizing.stepLimited == if d.reason.ScaleDown? then d.target else 0
  }

  predicate Directed(d: Decision, s: Snapshot, clamped: Int32) {
    d.direction == if d.reason.RevertPendingPods? then Down
                   else if Place(d.reason) <= Place(NoChangeWithinTolerance) then NoDirection
                   else if s.currentReplicas < clamped then Up
                   else Down
  }

  lemma UpPathReports(s: Snapshot, c: Config, now: int, demand: Demand, backoff: BackoffChange)
    requires s.CountsOk() && s.currentReplicas < demand.clamped
    ensures var d := ScaleUpPath(s, c, now, demand, backoff);
            && (d.pendingTimedOut <==> TimedOut(s, c)) && d.demand == Some(demand) && d.direction == Up
            && Sized(d, s, c, demand.clamped) && Place(NoChangeWithinTolerance) < Place(d.reason)
            && !d.reason.RevertPendingPods?
  {
    GateReports(s, c, now, demand, backoff);
  }

  lemma DownPathReports(s: Snapshot, c: Config, now: int, demand: Demand, quiet: bool, backoff: BackoffChange)
    requires s.CountsOk() && c.minReplicas <= demand.clamped <= Min(s.currentReplicas, c.maxReplicas)
    ensures var d := ScaleDownPath(s, c, now, demand, quiet, backoff);
            && (d.pendingTimedOut <==> TimedOut(s, c)) && d.demand == Some(demand) && d.direction == Down
            && Sized(d, s, c, demand.clamped) && Place(NoChangeWithinTolerance) < Place(d.reason)
            && !d.reason.RevertPendingPods?
  {
    DownTargetExact(s, c, demand.clamped);
  }

  lemma PathReports(s: Snapshot, c: Config, now: int, demand: Demand, quiet: bool)
    requires s.CountsOk() && c.minReplicas <= demand.clamped <= c.maxReplicas
    ensures var d := DecideOnDemand(s, c, now, demand, quiet);
            && (d.pendingTimedOut <==> TimedOut(s, c)) && d.demand == Some(demand)
            && Sized(d, s, c, demand.clamped) && Directed(d, s, demand.clamped)
            && !d.reason.RevertPendingPods?
  {
    var backoff := AfterDemand(s, demand.raw);
    if s.currentReplicas < demand.clamped {
      UpPathReports(s, c, now, demand, backoff);
    } else {
      DownPathReports(s, c, now, demand, quiet, backoff);
    }
  }

  lemma GateReports(s: Snapshot, c: Config, now: int, demand: Demand, backoff: BackoffChange)
    requires s.CountsOk() && s.currentReplicas < demand.clamped
    ensures Sized(Gate(s, c, now, demand, backoff), s, c, demand.clamped)
  {
  }

  lemma GuardsReport(s: Snapshot, c: Config, now: int, demand: Demand, quiet: bool)
    requires s.CountsOk() && c.minReplicas <= demand.clamped <= c.maxReplicas
    ensures var d := Guards(s, c, now, demand, quiet);
            && (d.pendingTimedOut <==> Clear(s, c) && StuckTooLong(s, c))
            && (d.demand.Some? <==>
                  Clear(s, c) && !d.reason.RevertPendingPods? && IsRecent(s.backlog, c.metricsStaleAfter, now))
            && Sized(d, s, c, demand.clamped) && Directed(d, s, demand.clamped)
  {
    WatchdogReads(s, c, now);
    PathReports(s, c, now, demand, quiet);
    if Reverts(s, c) {
      RevertReports(s, c, now);
    }
  }

  lemma RevertReports(s: Snapshot, c: Config, now: int)
    requires s.CountsOk() && Reverts(s, c)
    ensures var d := RevertDecision(s, c, now);
            && d.sizing == Sizing(0, d.target - s.currentReplicas, 0)
            && d.reason.RevertPendingPods? && d.direction == Down && d.demand.None?
  {
  }

  /** Exactly when a timeout is reported and demand is computed, and what a decision says of its size and direction. */
  lemma ReportsExactly(s: Snapshot, c: Config, now: int)
    requires s.CountsOk()
    ensures var d, clamped := Decide(s, c, now), DemandOf(s, c, now).clamped;
            && (d.pendingTimedOut <==> Clear(s, c) && StuckTooLong(s, c))
            && (d.demand.Some? <==>
                  Clear(s, c) && !d.reason.RevertPendingPods? && IsRecent(s.backlog, c.metricsStaleAfter, now))
            && Sized(d, s, c, clamped) && Directed(d, s, clamped)
  {
    ClampedInside(s, c, now);
    GuardsReport(s, c, now, DemandOf(s, c, now), Quiet(s, c, now));
  }
}
