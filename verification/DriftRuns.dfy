/** Other actors' changes over whole runs: exactly when the controller stands back from them. */
module DriftRuns {
  import opened GoInt
  import opened Scaling
  import opened Engine
  import opened Controller
  import opened Runs

  /** How many of the first n reconciles adopted another actor's count within `window` of `now`. */
  function AdoptCount(ms: seq<Moment>, n: nat, window: int, now: int): nat
    requires n <= |ms|
  {
    if n == 0 then 0
    else
      AdoptCount(ms, n - 1, window, now)
      + if Adopts(ms[n - 1]) && now - ms[n - 1].x.now <= window then 1 else 0
  }

  function CountRecent(times: seq<int>, window: int, now: int): nat {
    if times == [] then 0
    else CountRecent(times[..|times| - 1], window, now) + if now - times[|times| - 1] <= window then 1 else 0
  }

  lemma CountPush(times: seq<int>, at: int, window: int, now: int)
    ensures CountRecent(times + [at], window, now)
            == CountRecent(times, window, now) + if now - at <= window then 1 else 0
  {
    assert (times + [at])[..|times|] == times;
  }

  /** Pruning loses nothing that a later count would count, and leaves nothing else for a count at the same instant. */
  lemma {:induction false} RecentCounts(times: seq<int>, window: int, at: int, now: int)
    requires at <= now
    ensures CountRecent(Recent(times, window, at), window, now) == CountRecent(times, window, now)
    ensures |Recent(times, window, at)| == CountRecent(times, window, at)
  {
    if times != [] {
      var before := times[..|times| - 1];
      RecentCounts(before, window, at, now);
      CountPush(Recent(before, window, at), times[|times| - 1], window, now);
      assert Recent(before, window, at) + [] == Recent(before, window, at);
    }
  }

  lemma DriftStep(c: Config, ms: seq<Moment>, k: nat)
    requires IsRun(c, ms) && k < |ms|
    ensures ms[k].after.externalDriftAt ==
            if ms[k].x.seen.Unreadable? || !ms[k].before.hasBaseline then ms[k].before.externalDriftAt
            else
              Recent(ms[k].before.externalDriftAt + (if Adopts(ms[k]) then [ms[k].x.now] else []),
                     c.window, ms[k].x.now)
    ensures ms[k].before.hasBaseline ==> ms[k].after.hasBaseline
    ensures k + 1 < |ms| ==> ms[k + 1].before == ms[k].after
  {
    assert Folded(c, ms[k]);
    assert ms[k].before.externalDriftAt + [] == ms[k].before.externalDriftAt;
    if k + 1 < |ms| {
      assert Follows(ms, k);
    }
  }

  lemma {:induction false} NoDriftBeforeBaseline(c: Config, ms: seq<Moment>, k: nat)
    requires IsRun(c, ms) && k < |ms| && !ms[k].before.hasBaseline
    ensures ms[k].before.externalDriftAt == []
  {
    if k > 0 {
      DriftStep(c, ms, k - 1);
      NoDriftBeforeBaseline(c, ms, k - 1);
    }
  }

  lemma {:induction false} DriftsAreAdoptions(c: Config, ms: seq<Moment>, k: nat, now: int)
    requires IsRun(c, ms) && Monotone(ms) && k < |ms| && ms[k].x.now <= now
    ensures CountRecent(ms[k].before.externalDriftAt, c.window, now) == AdoptCount(ms, k, c.window, now)
    ensures CountRecent(ms[k].after.externalDriftAt, c.window, now) == AdoptCount(ms, k + 1, c.window, now)
  {
    if k > 0 {
      DriftStep(c, ms, k - 1);
      DriftsAreAdoptions(c, ms, k - 1, now);
    }
    DriftStep(c, ms, k);
    var m := ms[k];
    if m.before.hasBaseline {
      CountPush(m.before.externalDriftAt, m.x.now, c.window, now);
      var times := m.before.externalDriftAt + (if Adopts(m) then [m.x.now] else []);
      RecentCounts(times, c.window, m.x.now, now);
      assert m.before.externalDriftAt + [] == m.before.externalDriftAt;
    }
  }

  lemma KeptDrifts(c: Config, ms: seq<Moment>, j: nat)
    requires IsRun(c, ms) && Monotone(ms) && j < |ms| && !ms[j].x.seen.Unreadable?
    ensures |ms[j].after.externalDriftAt| == AdoptCount(ms, j + 1, c.window, ms[j].x.now)
  {
    var m := ms[j];
    DriftsAreAdoptions(c, ms, j, m.x.now);
    DriftStep(c, ms, j);
    if m.before.hasBaseline {
      RecentTwice(m.before.externalDriftAt + (if Adopts(m) then [m.x.now] else []), c.window, m.x.now);
    } else {
      NoDriftBeforeBaseline(c, ms, j);
    }
  }

  /** The engine is told exactly how many adoptions the last window holds, this reconcile's own included, in 32 bits. */
  lemma DriftsReported(c: Config, ms: seq<Moment>, j: nat)
    requires IsRun(c, ms) && Monotone(ms) && j < |ms| && !ms[j].x.seen.Unreadable?
    ensures ms[j].s.externalDrifts == Wrap32(AdoptCount(ms, j + 1, c.window, ms[j].x.now))
  {
    KeptDrifts(c, ms, j);
    ReportedAt(c, ms, j);
  }

  lemma RecentTwice(times: seq<int>, window: int, now: int)
    ensures CountRecent(Recent(times, window, now), window, now) == |Recent(times, window, now)|
  {
    RecentCounts(times, window, now, now);
  }

  lemma ReportedAt(c: Config, ms: seq<Moment>, j: nat)
    requires IsRun(c, ms) && j < |ms| && !ms[j].x.seen.Unreadable?
    ensures ms[j].s.externalDrifts == Wrap32(|ms[j].after.externalDriftAt|)
  {
    assert Observed(c, ms[j]);
    assert Folded(c, ms[j]);
    if !ms[j].before.hasBaseline {
      NoDriftBeforeBaseline(c, ms, j);
    }
  }

  /**
   * The controller stands back exactly when it sees everything, no other autoscaler is present, and more changes
   * by other actors were adopted in the last window than it tolerates, both counted in 32 bits; so it resumes once
   * they have aged out.
   */
  lemma StandsBackExactly(c: Config, ms: seq<Moment>, j: nat)
    requires IsRun(c, ms) && Monotone(ms) && j < |ms|
    ensures ms[j].d.reason.HoldExternalChange? <==>
              && ms[j].x.seen.Complete?
              && !ms[j].x.seen.cluster.hpa
              && Wrap32(AdoptCount(ms, j + 1, c.window, ms[j].x.now)) > Wrap32(c.externalChangeTolerance)
  {
    FreezeAt(c, ms, j);
    if ms[j].x.seen.Complete? {
      DriftsReported(c, ms, j);
    }
    HpaAt(c, ms, j);
  }

  /**
   * Exactly when the tolerance means what it says, for a complete reconcile without another autoscaler: it fits in
   * 32 bits, or the window holds no more adoptions than the number it turns into.
   */
  lemma ToleranceIsMeantExactly(c: Config, ms: seq<Moment>, j: nat)
    requires IsRun(c, ms) && Monotone(ms) && j < |ms| && ms[j].x.seen.Complete? && !ms[j].x.seen.cluster.hpa
    requires AdoptCount(ms, j + 1, c.window, ms[j].x.now) <= MAX_INT32
    ensures var adopted := AdoptCount(ms, j + 1, c.window, ms[j].x.now);
            (ms[j].d.reason.HoldExternalChange? <==> adopted > c.externalChangeTolerance)
            <==> c.externalChangeTolerance <= MAX_INT32 || adopted <= Wrap32(c.externalChangeTolerance)
  {
    StandsBackExactly(c, ms, j);
  }

  lemma HpaAt(c: Config, ms: seq<Moment>, j: nat)
    requires IsRun(c, ms) && j < |ms|
    ensures ms[j].s.valid <==> ms[j].x.seen.Complete?
    ensures ms[j].s.valid ==> ms[j].s.hpaPresent == ms[j].x.seen.cluster.hpa
  {
    assert Observed(c, ms[j]);
  }
}
