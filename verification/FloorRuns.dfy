/** The revert floor over whole runs. */
module FloorRuns {
  import opened GoInt
  import opened Scaling
  import opened Engine
  import opened EngineProperties
  import opened Controller
  import opened Runs
  import opened Workload

  /** The reconcile read the target first, adopted another actor's count, or had a scale-up acknowledged. */
  predicate SetsFloor(m: Moment) {
    || Ups(m)
    || (!m.x.seen.Unreadable? && (!m.before.hasBaseline || Adopts(m)))
  }

  lemma FloorAfter(c: Config, ms: seq<Moment>, k: nat)
    requires IsRun(c, ms) && k < |ms|
    ensures SetsFloor(ms[k]) ==> !ms[k].x.seen.Unreadable?
    ensures ms[k].after.lastGoodReplicas
            == if SetsFloor(ms[k]) then ms[k].x.seen.target.current else ms[k].before.lastGoodReplicas
  {
    ShapeAt(c, ms, k);
    SnapshotAt(c, ms, k);
    MemoryAt(c, ms, k);
  }

  lemma {:induction false} FloorSince(c: Config, ms: seq<Moment>, i: nat, j: nat)
    requires IsRun(c, ms) && i < j < |ms| && SetsFloor(ms[i])
    requires forall m :: i < m < j ==> !SetsFloor(ms[m])
    ensures !ms[i].x.seen.Unreadable?
    ensures ms[j].before.lastGoodReplicas == ms[i].x.seen.target.current
  {
    FloorAfter(c, ms, j - 1);
    MemoryAt(c, ms, j - 1);
    if i < j - 1 {
      FloorSince(c, ms, i, j - 1);
    }
  }

  lemma {:induction false} NoFloorYet(c: Config, ms: seq<Moment>, j: nat)
    requires IsRun(c, ms) && j < |ms|
    requires forall m :: 0 <= m < j ==> !SetsFloor(ms[m])
    ensures ms[j].before.lastGoodReplicas == 0
  {
    if j > 0 {
      FloorAfter(c, ms, j - 1);
      MemoryAt(c, ms, j - 1);
      NoFloorYet(c, ms, j - 1);
    }
  }

  /** What a revert may do when the floor at the end of the previous reconcile is `floor`. */
  predicate RevertsTo(c: Config, d: Decision, t: TargetView, floor: Int32) {
    && Min(floor, c.maxReplicas) <= d.target < t.current
    && Min(t.current - (t.pending + t.unmaterialised), c.maxReplicas) <= d.target
    && c.minReplicas <= d.target <= c.maxReplicas
    && (t.current <= c.maxReplicas ==>
          d.target == Max(Max(floor, t.current - (t.pending + t.unmaterialised)), c.minReplicas))
  }

  lemma RevertAt(c: Config, ms: seq<Moment>, j: nat)
    requires IsRun(c, ms) && j < |ms| && ms[j].x.seen.CountsOk() && ms[j].d.reason.RevertPendingPods?
    ensures !ms[j].x.seen.Unreadable?
    ensures RevertsTo(c, ms[j].d, ms[j].x.seen.target, ms[j].before.lastGoodReplicas)
  {
    ShapeAt(c, ms, j);
    SnapshotAt(c, ms, j);
    assert Decided(c, ms[j]);
    RevertWrite(ms[j].s, c, ms[j].x.now);
  }

  /**
   * A revert never goes below the count read by the latest earlier reconcile that set the floor: the first
   * reading, the last adopted external count, or the count before the last acknowledged scale-up.
   */
  lemma RevertKeepsFloor(c: Config, ms: seq<Moment>, i: nat, j: nat)
    requires IsRun(c, ms) && i < j < |ms| && ms[j].x.seen.CountsOk() && ms[j].d.reason.RevertPendingPods?
    requires SetsFloor(ms[i]) && forall m :: i < m < j ==> !SetsFloor(ms[m])
    ensures !ms[i].x.seen.Unreadable? && !ms[j].x.seen.Unreadable?
    ensures RevertsTo(c, ms[j].d, ms[j].x.seen.target, ms[i].x.seen.target.current)
  {
    FloorSince(c, ms, i, j);
    RevertAt(c, ms, j);
  }

  /** The reconcile that reads the target for the first time decides with a floor of 0. */
  lemma FirstReadingHasNoFloor(c: Config, ms: seq<Moment>, j: nat)
    requires IsRun(c, ms) && j < |ms| && ms[j].x.seen.CountsOk() && ms[j].d.reason.RevertPendingPods?
    requires forall m :: 0 <= m < j ==> !SetsFloor(ms[m])
    ensures !ms[j].x.seen.Unreadable?
    ensures RevertsTo(c, ms[j].d, ms[j].x.seen.target, 0)
  {
    NoFloorYet(c, ms, j);
    RevertAt(c, ms, j);
  }

  lemma RevertIsAfterStuck(c: Config, ms: seq<Moment>, j: nat)
    requires IsRun(c, ms) && j < |ms| && ms[j].x.seen.CountsOk() && ms[j].d.reason.RevertPendingPods?
    ensures !ms[j].x.seen.Unreadable?
    ensures var t := ms[j].x.seen.target; !t.rollout && t.pending + t.unmaterialised > 0
  {
    ShapeAt(c, ms, j);
    SnapshotAt(c, ms, j);
    assert Observed(c, ms[j]);
    assert Decided(c, ms[j]);
    RevertWrite(ms[j].s, c, ms[j].x.now);
  }

  /**
   * A revert decided from the caches' view of the workload never goes below the active pods that have a node, less
   * the pods the Deployment was already removing, unless maxReplicas is lower still.
   */
  lemma RevertSparesPlacedPods(c: Config, ms: seq<Moment>, j: nat,
                               d: Deployment, sets: seq<ReplicaSet>, pods: seq<WorkloadPod>)
    requires IsRun(c, ms) && j < |ms| && ms[j].x.seen.CountsOk() && ms[j].d.reason.RevertPendingPods?
    requires |pods| <= MAX_INT32 && 0 <= d.Replicas()
    requires !ms[j].x.seen.Unreadable? ==> ms[j].x.seen.target == ViewOf(d, sets, pods, ms[j].x.now)
    ensures ms[j].d.target
            >= Min(PlacedPods(d, sets, pods) - Max(ActivePods(d, sets, pods) - d.Replicas(), 0), c.maxReplicas)
  {
    RevertIsAfterStuck(c, ms, j);
    RevertAt(c, ms, j);
    StuckSparesPlaced(d, sets, pods, ms[j].x.now);
  }
}
