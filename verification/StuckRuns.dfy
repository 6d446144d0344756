/** Replicas that never became pods, over whole runs: how long the controller says they have been missing. */
module StuckRuns {
  import opened GoInt
  import opened Wrappers
  import opened Scaling
  import opened Engine
  import opened EngineProperties
  import opened GuardOrder
  import opened Controller
  import opened Runs
  import opened DriftRuns

  predicate Reads(m: Moment) {
    !m.x.seen.Unreadable?
  }

  /** The reconcile read the target and found replicas missing. */
  predicate FindsMissing(m: Moment) {
    Reads(m) && 0 < m.x.seen.target.unmaterialised
  }

  /** Every reading from reconcile i to reconcile j found some missing. */
  predicate MissingThroughout(ms: seq<Moment>, i: nat, j: nat)
    requires i <= j < |ms|
  {
    FindsMissing(ms[i]) && forall k :: i <= k <= j && Reads(ms[k]) ==> FindsMissing(ms[k])
  }

  /** The last reading before reconcile i, if there was one, found none missing. */
  predicate NoneMissingBefore(ms: seq<Moment>, i: nat)
    requires i < |ms|
  {
    forall h :: 0 <= h < i && FindsMissing(ms[h]) ==> exists k :: h < k < i && Reads(ms[k]) && !FindsMissing(ms[k])
  }

  /** One reconcile starts the clock, keeps it or clears it, and reports what it shows. */
  lemma ClockStep(c: Config, ms: seq<Moment>, k: nat)
    requires IsRun(c, ms) && k < |ms|
    ensures !Reads(ms[k]) ==> ms[k].after.unmaterialisedSince == ms[k].before.unmaterialisedSince
    ensures Reads(ms[k]) && !FindsMissing(ms[k]) ==>
              ms[k].after.unmaterialisedSince == None && ms[k].s.unmaterialisedAge == 0
    ensures FindsMissing(ms[k]) ==>
              && ms[k].after.unmaterialisedSince == Some(ms[k].before.unmaterialisedSince.GetOr(ms[k].x.now))
              && ms[k].s.unmaterialisedAge == ms[k].x.now - ms[k].before.unmaterialisedSince.GetOr(ms[k].x.now)
    ensures k + 1 < |ms| ==> ms[k + 1].before == ms[k].after
  {
    assert Observed(c, ms[k]);
    assert Folded(c, ms[k]);
    if k + 1 < |ms| {
      assert Follows(ms, k);
    }
  }

  /** Without a missing replica in the last reading the clock does not run. */
  lemma {:induction false} ClockStopped(c: Config, ms: seq<Moment>, i: nat)
    requires IsRun(c, ms) && i < |ms| && NoneMissingBefore(ms, i)
    ensures ms[i].before.unmaterialisedSince == None
  {
    if i > 0 {
      ClockStep(c, ms, i - 1);
      if !Reads(ms[i - 1]) {
        forall h | 0 <= h < i - 1 && FindsMissing(ms[h])
          ensures exists k :: h < k < i - 1 && Reads(ms[k]) && !FindsMissing(ms[k])
        {
          var k :| h < k < i && Reads(ms[k]) && !FindsMissing(ms[k]);
        }
        ClockStopped(c, ms, i - 1);
      }
    }
  }

  lemma {:induction false} ClockRuns(c: Config, ms: seq<Moment>, i: nat, j: nat)
    requires IsRun(c, ms) && i <= j < |ms| && NoneMissingBefore(ms, i) && MissingThroughout(ms, i, j)
    ensures ms[j].after.unmaterialisedSince == Some(ms[i].x.now)
    ensures Reads(ms[j]) ==> ms[j].s.unmaterialisedAge == ms[j].x.now - ms[i].x.now
  {
    ClockStep(c, ms, j);
    if i == j {
      ClockStopped(c, ms, i);
    } else {
      ClockRuns(c, ms, i, j - 1);
      ClockStep(c, ms, j - 1);
    }
  }

  /**
   * At every reading the engine is told exactly how long replicas have been missing without a break: since the first
   * reading that found some missing, nothing if this one finds none. Unreadable reconciles in between are no break.
   */
  lemma MissingAgeExactly(c: Config, ms: seq<Moment>, i: nat, j: nat)
    requires IsRun(c, ms) && i <= j < |ms| && Reads(ms[j])
    ensures NoneMissingBefore(ms, i) && MissingThroughout(ms, i, j) ==>
              ms[j].s.unmaterialisedAge == ms[j].x.now - ms[i].x.now
    ensures !FindsMissing(ms[j]) ==> ms[j].s.unmaterialisedAge == 0
  {
    ClockStep(c, ms, j);
    if NoneMissingBefore(ms, i) && MissingThroughout(ms, i, j) {
      ClockRuns(c, ms, i, j);
    }
  }

  /** Every reading that finds replicas missing belongs to such a stretch. */
  lemma {:induction false} MissingSince(c: Config, ms: seq<Moment>, j: nat) returns (i: nat)
    requires IsRun(c, ms) && j < |ms| && FindsMissing(ms[j])
    ensures i <= j && NoneMissingBefore(ms, i) && MissingThroughout(ms, i, j)
  {
    i := j;
    if !NoneMissingBefore(ms, j) {
      var h: nat :| h < j && FindsMissing(ms[h]) && forall k :: h < k < j && Reads(ms[k]) ==> FindsMissing(ms[k]);
      i := MissingSince(c, ms, h);
    }
  }

  /** The reconcile saw everything and nobody else at work on the target. */
  predicate SeesCalm(c: Config, ms: seq<Moment>, j: nat)
    requires j < |ms|
  {
    && ms[j].x.seen.Complete? && !ms[j].x.seen.cluster.hpa && !ms[j].x.seen.target.rollout
    && Wrap32(AdoptCount(ms, j + 1, c.window, ms[j].x.now)) <= Wrap32(c.externalChangeTolerance)
  }

  lemma CalmIsClear(c: Config, ms: seq<Moment>, j: nat)
    requires IsRun(c, ms) && Monotone(ms) && j < |ms| && SeesCalm(c, ms, j)
    ensures Clear(ms[j].s, c)
  {
    SnapshotAt(c, ms, j);
    ReadingAt(c, ms, j);
    DriftsReported(c, ms, j);
  }

  /** What the watchdog does about a timeout at reconcile j, with the floor in memory. */
  predicate Remedied(c: Config, m: Moment)
    requires Reads(m)
  {
    var count := m.x.seen.target.current;
    && m.d.pendingTimedOut
    && !IsUp(m.d)
    && (m.d.reason.RevertPendingPods? <==>
          && c.onPendingTimeout == Revert
          && (c.maxReplicas < count || Max(m.before.lastGoodReplicas, c.minReplicas) < count))
  }

  lemma TimeoutAt(c: Config, ms: seq<Moment>, j: nat)
    requires IsRun(c, ms) && Monotone(ms) && j < |ms| && SeesCalm(c, ms, j) && ms[j].x.seen.CountsOk()
    requires FindsMissing(ms[j]) && c.pendingPodTimeout < ms[j].s.unmaterialisedAge
    ensures Remedied(c, ms[j])
  {
    CalmIsClear(c, ms, j);
    SnapshotAt(c, ms, j);
    assert Decided(c, ms[j]);
    TimeoutIsRemedied(ms[j].s, c, ms[j].x.now);
  }

  lemma TimeoutIsRemedied(s: Snapshot, c: Config, now: int)
    requires s.CountsOk() && Clear(s, c) && StuckTooLong(s, c)
    ensures Decide(s, c, now).pendingTimedOut && !IsUp(Decide(s, c, now))
    ensures Decide(s, c, now).reason.RevertPendingPods? <==> c.onPendingTimeout == Revert && CanTakeBack(s, c)
  {
    ReportsExactly(s, c, now);
    WritesExactly(s, c, now);
    WatchdogReads(s, c, now);
  }

  /**
   * A quota that refuses pods does not go unnoticed: at a complete, undisturbed reconcile, once every reading for
   * longer than the timeout has found replicas missing, the timeout is reported, no scale-up is stacked on top, and
   * under the revert policy what is above the floor and the minimum is taken back.
   */
  lemma MissingReplicasTimeOut(c: Config, ms: seq<Moment>, i: nat, j: nat)
    requires IsRun(c, ms) && Monotone(ms) && i <= j < |ms| && SeesCalm(c, ms, j) && ms[j].x.seen.CountsOk()
    requires MissingThroughout(ms, i, j) && c.pendingPodTimeout < ms[j].x.now - ms[i].x.now
    ensures Remedied(c, ms[j])
  {
    var first := MissingSince(c, ms, i);
    assert MissingThroughout(ms, first, j);
    MissingAgeExactly(c, ms, first, j);
    if first < i {
      assert ms[first].x.now <= ms[i].x.now;
    }
    TimeoutAt(c, ms, j);
  }
}
