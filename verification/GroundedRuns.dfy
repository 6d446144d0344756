/** What every demand-driven write of a run was read from the cluster, in the terms of what was read. */
module GroundedRuns {
  import opened GoInt
  import opened Wrappers
  import opened Scaling
  import opened Engine
  import opened EngineProperties
  import opened GuardOrder
  import opened DemandProperties
  import opened Controller
  import opened Runs

  /** The work that a reading's CPU signal stands for. */
  function UsageRead(c: Config, x: Input): int
    requires x.seen.Complete?
  {
    var cpu := x.seen.cluster.cpu;
    if IsRecent(cpu, c.metricsStaleAfter, x.now) && 0 < x.seen.target.ready then x.seen.target.ready * cpu.value else 0
  }

  /** There is more backlog, or more CPU usage, than `count` replicas cover. */
  predicate Exceeds(c: Config, x: Input, count: int)
    requires x.seen.Complete?
  {
    || count * c.itemsPerReplica < x.seen.cluster.backlog.value
    || count * (c.targetCpuPercent * 1000) < UsageRead(c, x)
  }

  /** Complete and fresh, with no other autoscaler and no rollout. */
  predicate ReadsCleanly(c: Config, x: Input) {
    && x.seen.Complete? && !x.seen.cluster.hpa && !x.seen.target.rollout
    && IsRecent(x.seen.cluster.backlog, c.metricsStaleAfter, x.now)
  }

  lemma UsageIsRead(c: Config, ms: seq<Moment>, j: nat)
    requires IsRun(c, ms) && j < |ms| && ms[j].x.seen.Complete?
    ensures CpuWork(ms[j].s, c, ms[j].x.now) == UsageRead(c, ms[j].x)
  {
    ReadingAt(c, ms, j);
  }

  lemma UpNeedsMore(s: Snapshot, c: Config, now: int)
    requires s.CountsOk() && IsUp(Decide(s, c, now)) && -0x8000_0000_0000_0000 <= CpuWork(s, c, now)
    ensures || s.currentReplicas < c.minReplicas
            || s.currentReplicas * c.itemsPerReplica < s.backlog.value
            || s.currentReplicas * CpuShare(c) < CpuWork(s, c, now)
  {
    WritesExactly(s, c, now);
    ClampedIsNearest(s, c, now);
    if c.minReplicas <= s.currentReplicas {
      WantsMoreOnlyIfBusy(s, c, now);
    }
  }

  /**
   * A scale-up is decided only on a clean reading in which nothing of ours is stuck or failing to start, and which
   * shows more work than the count covers or a count below the minimum.
   */
  lemma ScaleUpIsGrounded(c: Config, ms: seq<Moment>, j: nat)
    requires IsRun(c, ms) && j < |ms| && IsUp(ms[j].d) && ms[j].x.seen.CountsOk()
    ensures ReadsCleanly(c, ms[j].x)
    ensures var t := ms[j].x.seen.target;
            && t.pending == 0 && t.unmaterialised == 0 && t.unhealthyPodAge <= c.podStartupTimeout
            && (-0x8000_0000_0000_0000 <= UsageRead(c, ms[j].x) ==>
                  t.current < c.minReplicas || Exceeds(c, ms[j].x, t.current))
  {
    ShapeAt(c, ms, j);
    SnapshotAt(c, ms, j);
    ReadingAt(c, ms, j);
    UsageIsRead(c, ms, j);
    assert Decided(c, ms[j]);
    UpIsClean(ms[j].s, c, ms[j].x.now);
    if -0x8000_0000_0000_0000 <= UsageRead(c, ms[j].x) {
      UpNeedsMore(ms[j].s, c, ms[j].x.now);
    }
  }

  lemma UpIsClean(s: Snapshot, c: Config, now: int)
    requires s.CountsOk() && IsUp(Decide(s, c, now))
    ensures Clear(s, c) && IsRecent(s.backlog, c.metricsStaleAfter, now)
    ensures s.pendingOurPods == 0 && s.unmaterialisedReplicas == 0 && s.unhealthyPodAge <= c.podStartupTimeout
  {
    WatchdogReads(s, c, now);
    WritesExactly(s, c, now);
  }

  lemma DownIsClean(s: Snapshot, c: Config, now: int)
    requires s.CountsOk() && Decide(s, c, now).reason.ScaleDown?
    ensures Clear(s, c) && IsRecent(s.backlog, c.metricsStaleAfter, now) && s.readyReplicas == s.currentReplicas
    ensures !BacklogExceeds(s, c) || c.maxReplicas < s.currentReplicas
    ensures !UsageExceeds(s, c, now) || c.maxReplicas < s.currentReplicas
  {
    WatchdogReads(s, c, now);
    WritesExactly(s, c, now);
    if BacklogExceeds(s, c) || UsageExceeds(s, c, now) {
      BusyIsNotShrunk(s, c, now);
    }
  }

  /**
   * A demand scale-down is decided only on a clean reading with every replica ready, and from inside the bounds only
   * when the count covers all the work it shows, as long as that work can be counted without losing bits.
   */
  lemma ScaleDownIsGrounded(c: Config, ms: seq<Moment>, j: nat)
    requires IsRun(c, ms) && j < |ms| && ms[j].d.reason.ScaleDown? && ms[j].x.seen.CountsOk()
    ensures ReadsCleanly(c, ms[j].x)
    ensures var x, t := ms[j].x, ms[j].x.seen.target;
            var backlog := x.seen.cluster.backlog.value;
            && t.ready == t.current
            && (t.current <= c.maxReplicas
                && UsageRead(c, x) <= MAX_INT32 * (c.targetCpuPercent * 1000)
                && backlog <= MAX_INT32 * c.itemsPerReplica && backlog + c.itemsPerReplica - 1 <= MAX_INT64 ==>
                  !Exceeds(c, x, t.current))
  {
    ShapeAt(c, ms, j);
    SnapshotAt(c, ms, j);
    ReadingAt(c, ms, j);
    UsageIsRead(c, ms, j);
    assert Decided(c, ms[j]);
    DownIsClean(ms[j].s, c, ms[j].x.now);
  }
}
