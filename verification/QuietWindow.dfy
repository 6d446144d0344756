/** What the stabilization window asks of the remembered demand, without the loops and helpers that compute it. */
module QuietWindow {
  import opened GoInt
  import opened Scaling
  import opened Engine
  import opened DemandProperties
  import opened Marks

  /** The positions of the samples that are at most a window old. */
  function Within(history: seq<Sample>, window: int, now: int): set<nat> {
    set k: nat | k < |history| && now - window <= history[k].at
  }

  lemma {:induction false} CountIsCardinality(history: seq<Sample>, window: int, now: int)
    ensures CountInWindow(history, window, now) == |Within(history, window, now)|
  {
    if history != [] {
      var n := |history| - 1;
      CountIsCardinality(history[..n], window, now);
      var before := Within(history[..n], window, now);
      assert n !in before;
      if now - window <= history[n].at {
        assert Within(history, window, now) == before + {n};
      } else {
        assert Within(history, window, now) == before;
      }
    }
  }

  /** A fully observed window holds the least number of samples whose intervals together cover it. */
  lemma ExpectedCovers(window: int, interval: int)
    requires 0 < window && 0 < interval
    ensures LeastCover(ExpectedSamples(window, interval), window, interval)
  {
    CeilingCovers(window, interval);
  }

  /** Enough samples for the expected ones are enough for the window itself. */
  lemma ShareOfWindow(count: nat, share: nat, expected: int, window: int, interval: int)
    requires 0 < interval && LeastCover(expected, window, interval) && count * 1000 >= share * expected
    ensures count * 1000 * interval >= share * window
  {
    Scale(share * expected, count * 1000, interval);
    Scale(window, expected * interval, share);
    assert share * expected * interval == share * (expected * interval);
  }

  /**
   * The window is quiet below the count exactly when the samples in it are at least the configured share of the
   * number that covers it, one of them all is a whole window old, some lie in it, and all those wanted fewer.
   */
  lemma QuietExactly(s: Snapshot, c: Config, now: int, expected: int)
    requires LeastCover(expected, c.window, c.interval)
    ensures var recent := Within(s.desiredHistory, c.window, now);
            Quiet(s, c, now) <==>
              && |recent| * 1000 >= c.coverageMilli * expected
              && (exists k :: 0 <= k < |s.desiredHistory| && s.desiredHistory[k].at <= now - c.window)
              && recent != {}
              && (forall k :: k in recent ==> s.desiredHistory[k].desired < s.currentReplicas)
  {
    var history := s.desiredHistory;
    CountIsCardinality(history, c.window, now);
    ExpectedCovers(c.window, c.interval);
    OneLeastCover(expected, c.window, c.interval);
    assert ExpectedSamples(c.window, c.interval) == expected;
    RecentIsInWindow(history, c.window, now);
  }

  lemma RecentIsInWindow(history: seq<Sample>, window: int, now: int)
    ensures Within(history, window, now) != {} <==> exists k :: 0 <= k < |history| && InWindow(history[k], window, now)
    ensures forall k: nat :: k in Within(history, window, now) <==> k < |history| && InWindow(history[k], window, now)
  {
    if k :| 0 <= k < |history| && InWindow(history[k], window, now) {
      assert k in Within(history, window, now);
    }
  }
}
