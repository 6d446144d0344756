/** The hold backoff over whole runs. */
module BackoffRuns {
  import opened GoInt
  import opened Wrappers
  import opened Scaling
  import opened Engine
  import opened EngineProperties
  import opened Controller
  import opened Runs

  // ---- One decision

  /** Every replica asked for exists and is scheduled. */
  predicate AllPlaced(s: Snapshot) {
    s.pendingOurPods == 0 && s.unmaterialisedReplicas == 0
  }

  /** The decision got past the watchdog and found the reason for the backoff gone. */
  predicate Clears(d: Decision, s: Snapshot) {
    || ((d.demand.Some? || d.reason == HoldStaleMetrics) && s.holdBackoff.awaitingPlacement && AllPlaced(s))
    || (d.demand.Some? && s.holdBackoff.Armed() && d.demand.value.raw <= s.currentReplicas)
  }

  /** What a decision does to the backoff it was given. */
  predicate BackoffRule(d: Decision, s: Snapshot, c: Config, now: int) {
    var b, b' := s.holdBackoff, d.backoff.state;
    && (IsUp(d) ==> !BackoffActive(s, now))
    && (d.backoff.action != Arm ==> d.backoff.interval == 0)
    && match d.backoff.action
       case Unchanged => b' == b && !Clears(d, s)
       case Arm =>
         && b' == BackoffState(if Clears(d, s) then 1 else b.attempts + 1,
                               Some(now + d.backoff.interval), s.fitCapacity, false)
         && d.backoff.interval == BackoffInterval(b'.attempts, c.holdBackoff)
         && (d.reason.ScaleUpPartial? || d.reason.HoldInsufficientResources? || d.reason.RevertPendingPods?)
       case Reset => b' == BackoffState(0, None, -1, false) && (Clears(d, s) || (d.reason.ScaleUp? && b.attempts <= 0))
       case Carry => b' == BackoffState(b.attempts, None, -1, true) && d.reason.ScaleUp? && !Clears(d, s)
  }

  lemma GateBackoff(s: Snapshot, c: Config, now: int, demand: Demand)
    ensures var d := Gate(s, c, now, demand, AfterDemand(s, demand.raw));
            d.demand == Some(demand) && (!BackoffActive(s, now) ==> BackoffRule(d, s, c, now))
  {
  }

  lemma DemandBackoff(s: Snapshot, c: Config, now: int, demand: Demand, quiet: bool)
    ensures BackoffRule(DecideOnDemand(s, c, now, demand, quiet), s, c, now)
  {
    GateBackoff(s, c, now, demand);
  }

  lemma GuardsBackoff(s: Snapshot, c: Config, now: int, demand: Demand, quiet: bool)
    ensures BackoffRule(Guards(s, c, now, demand, quiet), s, c, now)
  {
    DemandBackoff(s, c, now, demand, quiet);
  }

  lemma EngineBackoff(s: Snapshot, c: Config, now: int)
    ensures BackoffRule(Decide(s, c, now), s, c, now)
  {
    GuardsBackoff(s, c, now, DemandOf(s, c, now), Quiet(s, c, now));
  }

  // ---- Runs

  predicate Arms(m: Moment) {
    m.d.backoff.action == Arm
  }

  /** Capacity above the level at arm, or demand at or below the current count. */
  predicate Recovered(m: Moment, fit: Int32) {
    || (m.x.seen.Complete? && m.x.seen.cluster.fit > fit)
    || (Computes(m) && m.d.demand.value.raw <= m.d.current)
  }

  lemma BackoffStep(c: Config, ms: seq<Moment>, k: nat)
    requires IsRun(c, ms) && k < |ms|
    ensures DecisionShape(ms[k]) && SnapshotShape(ms[k])
    ensures BackoffRule(ms[k].d, ms[k].s, c, ms[k].x.now)
    ensures ms[k].after.backoff == ms[k].d.backoff.state
    ensures k + 1 < |ms| ==> ms[k + 1].before == ms[k].after
  {
    ShapeAt(c, ms, k);
    SnapshotAt(c, ms, k);
    MemoryAt(c, ms, k);
    assert Decided(c, ms[k]);
    EngineBackoff(ms[k].s, c, ms[k].x.now);
  }

  predicate Holding(b: BackoffState, now: int) {
    b.attempts > 0 && b.nextEligible.Some? && now < b.nextEligible.value && !b.awaitingPlacement
  }

  lemma UpNeedsRecovery(c: Config, ms: seq<Moment>, k: nat)
    requires IsRun(c, ms) && k < |ms| && IsUp(ms[k].d)
    requires Holding(ms[k].before.backoff, ms[k].x.now)
    ensures Recovered(ms[k], ms[k].before.backoff.fitCapacityAtArm)
  {
    BackoffStep(c, ms, k);
  }

  /** An armed backoff stays as it is until something recovers, or it is armed again. */
  lemma ArmedStays(c: Config, ms: seq<Moment>, k: nat)
    requires IsRun(c, ms) && k < |ms| && !Arms(ms[k])
    requires Holding(ms[k].before.backoff, ms[k].x.now)
    requires !Recovered(ms[k], ms[k].before.backoff.fitCapacityAtArm)
    ensures ms[k].after.backoff == ms[k].before.backoff
  {
    BackoffStep(c, ms, k);
  }

  lemma {:induction false} AttemptsAreCounts(c: Config, ms: seq<Moment>, k: nat)
    requires IsRun(c, ms) && k < |ms|
    ensures ms[k].before.backoff.attempts >= 0
  {
    if k > 0 {
      AttemptsAreCounts(c, ms, k - 1);
      BackoffStep(c, ms, k - 1);
    }
  }

  lemma {:induction false} ArmedUntilRecovered(c: Config, ms: seq<Moment>, i: nat, j: nat)
    requires IsRun(c, ms) && Monotone(ms) && i < j < |ms| && Arms(ms[i])
    requires forall k :: i < k < j ==> !Arms(ms[k])
    requires ms[j].x.now < ms[i].x.now + ms[i].d.backoff.interval
    requires forall k :: i < k < j ==> !Recovered(ms[k], ms[i].d.fit)
    ensures ms[j].before.backoff == ms[i].after.backoff
    ensures Holding(ms[j].before.backoff, ms[j].x.now)
    ensures ms[j].before.backoff.fitCapacityAtArm == ms[i].d.fit
  {
    AttemptsAreCounts(c, ms, i);
    BackoffStep(c, ms, i);
    if i + 1 < j {
      assert ms[j - 1].x.now <= ms[j].x.now;
      ArmedUntilRecovered(c, ms, i, j - 1);
      ArmedStays(c, ms, j - 1);
      BackoffStep(c, ms, j - 1);
    }
  }

  /**
   * After the latest arming, at capacity f, no scale-up is decided before its interval has passed, unless a
   * reconcile since then saw capacity above f or demand at or below the current count.
   */
  lemma ScaleUpWaits(c: Config, ms: seq<Moment>, i: nat, j: nat) returns (k: nat)
    requires IsRun(c, ms) && Monotone(ms) && i < j < |ms| && Arms(ms[i]) && IsUp(ms[j].d)
    requires forall m :: i < m < j ==> !Arms(ms[m])
    requires ms[j].x.now < ms[i].x.now + ms[i].d.backoff.interval
    ensures i < k <= j && Recovered(ms[k], ms[i].d.fit)
  {
    if k' :| i < k' < j && Recovered(ms[k'], ms[i].d.fit) {
      k := k';
    } else {
      ArmedUntilRecovered(c, ms, i, j);
      UpNeedsRecovery(c, ms, j);
      k := j;
    }
  }

  // ---- The attempt count

  function ArmCount(ms: seq<Moment>, i: nat, j: nat): nat
    requires i <= j <= |ms|
  {
    if i == j then 0 else ArmCount(ms, i, j - 1) + if Arms(ms[j - 1]) then 1 else 0
  }

  /** Between clearings the attempt count is exact: every arming adds one and nothing else changes it. */
  lemma {:induction false} AttemptsOnlyGrow(c: Config, ms: seq<Moment>, i: nat, j: nat)
    requires IsRun(c, ms) && i <= j < |ms|
    requires forall k :: i <= k < j ==> !Clears(ms[k].d, ms[k].s)
    ensures ms[j].before.backoff.attempts == ms[i].before.backoff.attempts + ArmCount(ms, i, j)
  {
    if i < j {
      AttemptsOnlyGrow(c, ms, i, j - 1);
      AttemptsAreCounts(c, ms, j - 1);
      BackoffStep(c, ms, j - 1);
    }
  }

  /** Attempts are lost exactly when every replica was placed after a carry, or demand was at or below the count. */
  lemma AttemptsLostExactly(c: Config, ms: seq<Moment>, k: nat)
    requires IsRun(c, ms) && k < |ms| && ms[k].before.backoff.attempts > 0
    ensures Clears(ms[k].d, ms[k].s) <==> ms[k].after.backoff.attempts == if Arms(ms[k]) then 1 else 0
    ensures !Clears(ms[k].d, ms[k].s) ==> ms[k].after.backoff.attempts >= ms[k].before.backoff.attempts
  {
    BackoffStep(c, ms, k);
  }
}
