/** The engine's loops over accumulators, each proved against the function the decision is stated with. */
module EngineLoops {
  import opened GoInt
  import opened Wrappers
  import opened Scaling
  import opened Engine

  method MaxDesired(history: seq<Sample>, window: int, now: int) returns (maxDesired: Int32, found: bool)
    ensures found <==> exists k :: 0 <= k < |history| && InWindow(history[k], window, now)
    ensures found ==> exists k :: 0 <= k < |history| && InWindow(history[k], window, now)
                                  && history[k].desired == maxDesired
    ensures found ==> forall k :: 0 <= k < |history| && InWindow(history[k], window, now)
                                  ==> history[k].desired <= maxDesired
    ensures forall count: Int32 :: QuietBelow(history, window, now, count) <==> found && maxDesired < count
  {
    maxDesired, found := 0, false;
    for i := 0 to |history|
      invariant found <==> exists k :: 0 <= k < i && InWindow(history[k], window, now)
      invariant found ==> exists k :: 0 <= k < i && InWindow(history[k], window, now)
                                      && history[k].desired == maxDesired
      invariant found ==> forall k :: 0 <= k < i && InWindow(history[k], window, now)
                                      ==> history[k].desired <= maxDesired
    {
      var sample := history[i];
      if !(now - sample.at > window) {
        if !found || sample.desired > maxDesired {
          maxDesired, found := sample.desired, true;
        }
      }
    }
  }

  method Covered(history: seq<Sample>, window: int, interval: int, coverageMilli: int, now: int)
    returns (covered: bool)
    ensures covered == WindowCovered(history, window, interval, coverageMilli, now)
  {
    if interval <= 0 || window <= 0 {
      return false;
    }
    var expected := TruncDiv(window + interval - 1, interval);
    if expected < 1 {
      expected := 1;
    }
    var present := 0;
    var oldest := None;
    for i := 0 to |history|
      invariant present == CountInWindow(history[..i], window, now)
      invariant oldest.None? <==> i == 0
      invariant oldest.Some? ==> exists k :: 0 <= k < i && history[k].at == oldest.value
      invariant forall k :: 0 <= k < i ==> oldest.Some? && oldest.value <= history[k].at
    {
      assert history[..i + 1][..i] == history[..i];
      if now - history[i].at <= window {
        present := present + 1;
      }
      if oldest.None? || history[i].at < oldest.value {
        oldest := Some(history[i].at);
      }
    }
    assert history[..|history|] == history;
    if present * 1000 < coverageMilli * expected {
      return false;
    }
    return oldest.Some? && now - oldest.value >= window;
  }

  method Arm(prev: BackoffState, fitCapacity: Int32, cfg: HoldBackoffConfig, now: int)
    returns (state: BackoffState, interval: int)
    requires cfg.factorDen > 0
    ensures state == ArmBackoff(prev, fitCapacity, cfg, now)
    ensures interval == BackoffInterval(state.attempts, cfg)
  {
    var attempts := prev.attempts + 1;
    interval := cfg.initial;
    var i := 1;
    while i < attempts
      invariant 1 <= i <= Max(attempts, 1)
      invariant Min(GrownInterval(interval, Max(attempts - i, 0), cfg), cfg.max) == BackoffInterval(attempts, cfg)
    {
      var grown := Grown(interval, cfg);
      if grown <= interval {
        break;
      }
      interval := grown;
      if interval >= cfg.max {
        break;
      }
      i := i + 1;
    }
    if interval > cfg.max {
      interval := cfg.max;
    }
    state := BackoffState(attempts, Some(now + interval), fitCapacity, false);
  }
}
