/** What one reconcile of a run does to each part of the controller's memory. */
module Runs {
  import opened GoInt
  import opened Wrappers
  import opened Scaling
  import opened Engine
  import opened EngineProperties
  import opened Controller

  /** The reconcile decided a scale-up and the actuator reported it done. */
  predicate Ups(m: Moment) {
    m.x.acked && IsUp(m.d)
  }

  /** The reconcile decided a demand scale-down or a revert and the actuator reported it done. */
  predicate Downs(m: Moment) {
    m.x.acked && (m.d.reason.ScaleDown? || m.d.reason.RevertPendingPods?)
  }

  /** The reconcile computed demand. */
  predicate Computes(m: Moment) {
    m.d.demand.Some?
  }

  predicate DecisionShape(m: Moment) {
    && m.d.current == m.s.currentReplicas
    && m.d.fit == m.s.fitCapacity
    && (m.d.Writes() ==> m.d.direction == if IsUp(m.d) then Up else Down)
    && (m.d.demand.Some? || m.d.Writes() || m.d.backoff.action != Unchanged ==> m.s.valid)
  }

  lemma ShapeAt(c: Config, ms: seq<Moment>, k: nat)
    requires IsRun(c, ms) && k < |ms|
    ensures DecisionShape(ms[k])
  {
    assert Decided(c, ms[k]);
    HoldsMoveNothing(ms[k].s, c, ms[k].x.now);
  }

  /** The snapshot's memory is the memory before the reconcile, and its counts are what was read. */
  predicate SnapshotShape(m: Moment) {
    && m.s.lastScaleUp == m.before.lastScaleUp
    && m.s.lastScaleDown == m.before.lastScaleDown
    && m.s.desiredHistory == m.before.desiredHistory
    && m.s.holdBackoff == m.before.backoff
    && m.s.lastGoodReplicas == m.before.lastGoodReplicas
    && (m.s.valid <==> m.x.seen.Complete?)
    && (m.s.valid ==> m.s.fitCapacity == m.x.seen.cluster.fit)
    && (!m.x.seen.Unreadable? ==>
          && m.s.currentReplicas == m.x.seen.target.current
          && m.s.pendingOurPods == m.x.seen.target.pending
          && m.s.unmaterialisedReplicas == m.x.seen.target.unmaterialised)
    && (m.x.seen.CountsOk() ==> m.s.CountsOk())
    && (!Adopts(m) && m.before.externalDriftAt == [] ==> m.s.externalDrifts == 0)
  }

  lemma SnapshotAt(c: Config, ms: seq<Moment>, k: nat)
    requires IsRun(c, ms) && k < |ms|
    ensures SnapshotShape(ms[k])
  {
    assert Observed(c, ms[k]);
  }

  /** Everything else in the snapshot is what the reconcile read, and nothing where it read nothing. */
  predicate ReadingShape(m: Moment) {
    && (!m.x.seen.Unreadable? ==>
          && m.s.readyReplicas == m.x.seen.target.ready
          && m.s.rolloutInProgress == m.x.seen.target.rollout
          && m.s.oldestPendingAge == m.x.seen.target.oldestPendingAge
          && m.s.unhealthyPodAge == m.x.seen.target.unhealthyPodAge)
    && (m.x.seen.Complete? ==>
          && m.s.hpaPresent == m.x.seen.cluster.hpa
          && m.s.backlog == m.x.seen.cluster.backlog
          && m.s.cpu == m.x.seen.cluster.cpu)
    && (!m.x.seen.Complete? ==>
          && m.s.fitCapacity == 0 && !m.s.hpaPresent
          && m.s.backlog == m.s.cpu == Signal(0, None, false))
    && (m.x.seen.Unreadable? ==>
          && m.s.currentReplicas == m.s.readyReplicas == 0 && !m.s.rolloutInProgress && m.s.externalDrifts == 0
          && m.s.pendingOurPods == m.s.unmaterialisedReplicas == 0
          && m.s.oldestPendingAge == m.s.unhealthyPodAge == m.s.unmaterialisedAge == 0)
  }

  lemma ReadingAt(c: Config, ms: seq<Moment>, k: nat)
    requires IsRun(c, ms) && k < |ms|
    ensures ReadingShape(ms[k])
  {
    assert Observed(c, ms[k]);
  }

  predicate MemoryShape(c: Config, m: Moment) {
    && m.after.lastScaleUp == (if Ups(m) then Some(m.x.now) else m.before.lastScaleUp)
    && m.after.lastScaleDown == (if Downs(m) then Some(m.x.now) else m.before.lastScaleDown)
    && m.after.backoff == (if m.d.backoff.action == Unchanged then m.before.backoff else m.d.backoff.state)
    && m.after.desiredHistory == HistoryAfter(c, if Adopts(m) then [] else m.before.desiredHistory, m.d, m.x.now)
    && m.after.lastGoodReplicas ==
         (if Ups(m) then m.d.current
          else if !m.x.seen.Unreadable? && (!m.before.hasBaseline || Adopts(m)) then m.x.seen.target.current
          else m.before.lastGoodReplicas)
    && m.after.hasBaseline == (m.before.hasBaseline || !m.x.seen.Unreadable?)
    && m.after.observedReplicas == (if m.x.seen.Unreadable? then m.before.observedReplicas else m.x.seen.target.current)
    && m.after.hasWritten == (m.before.hasWritten || (m.x.acked && m.d.Writes()))
    && m.after.lastWrittenReplicas == (if m.x.acked && m.d.Writes() then m.d.target else m.before.lastWrittenReplicas)
    && (!Adopts(m) && m.before.externalDriftAt == [] ==> m.after.externalDriftAt == [])
  }

  lemma MemoryAt(c: Config, ms: seq<Moment>, k: nat)
    requires IsRun(c, ms) && k < |ms|
    ensures MemoryShape(c, ms[k])
    ensures k + 1 < |ms| ==> ms[k + 1].before == ms[k].after
  {
    ShapeAt(c, ms, k);
    assert Folded(c, ms[k]);
    if k + 1 < |ms| {
      assert Follows(ms, k);
    }
  }

  lemma GuardsStandBack(s: Snapshot, c: Config, now: int, demand: Demand, quiet: bool)
    ensures Guards(s, c, now, demand, quiet).reason.HoldExternalChange?
            <==> s.valid && !s.hpaPresent && s.externalDrifts > Wrap32(c.externalChangeTolerance)
  {
  }

  /** The reconcile stands back from other actors exactly when it sees too many of their changes. */
  lemma FreezeAt(c: Config, ms: seq<Moment>, k: nat)
    requires IsRun(c, ms) && k < |ms|
    ensures ms[k].d.reason.HoldExternalChange? <==>
              ms[k].s.valid && !ms[k].s.hpaPresent && ms[k].s.externalDrifts > Wrap32(c.externalChangeTolerance)
  {
    assert Decided(c, ms[k]);
    var s, now := ms[k].s, ms[k].x.now;
    GuardsStandBack(s, c, now, DemandOf(s, c, now), Quiet(s, c, now));
  }
}
