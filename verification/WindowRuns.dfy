/** The stabilization window over whole runs: what a demand scale-down is justified by. */
module WindowRuns {
  import opened GoInt
  import opened Scaling
  import opened Engine
  import opened EngineProperties
  import opened Controller
  import opened Runs
  import opened QuietWindow

  function SampleOf(m: Moment): Sample
    requires Computes(m)
  {
    Sample(m.x.now, m.d.demand.value.raw)
  }

  /** How many of the first k reconciles computed demand within `window` of `now`. */
  function ComputedCount(ms: seq<Moment>, k: nat, window: int, now: int): nat
    requires k <= |ms|
  {
    if k == 0 then 0
    else
      ComputedCount(ms, k - 1, window, now)
      + if Computes(ms[k - 1]) && now - ms[k - 1].x.now <= window then 1 else 0
  }

  // ---- Pruning

  lemma {:induction false} RetainedKeeps(history: seq<Sample>, retain: int, now: int, h: Sample)
    ensures h in Retained(history, retain, now) <==> h in history && now - h.at <= retain
  {
    if history != [] {
      var n := |history| - 1;
      RetainedKeeps(history[..n], retain, now, h);
      assert history == history[..n] + [history[n]];
    }
  }

  lemma CountAppend(history: seq<Sample>, h: Sample, window: int, now: int)
    ensures CountInWindow(history + [h], window, now)
            == CountInWindow(history, window, now) + if InWindow(h, window, now) then 1 else 0
  {
    assert (history + [h])[..|history|] == history;
  }

  lemma {:induction false} RetainedCounts(history: seq<Sample>, retain: int, at: int, window: int, now: int)
    ensures CountInWindow(Retained(history, retain, at), window, now) <= CountInWindow(history, window, now)
  {
    if history != [] {
      var n := |history| - 1;
      var kept := Retained(history[..n], retain, at);
      RetainedCounts(history[..n], retain, at, window, now);
      CountAppend(kept, history[n], window, now);
      assert kept + [] == kept;
    }
  }

  // ---- One step

  function Kept(m: Moment): seq<Sample> {
    if Adopts(m) then [] else m.before.desiredHistory
  }

  lemma HistoryStep(c: Config, ms: seq<Moment>, k: nat)
    requires IsRun(c, ms) && k + 1 < |ms|
    ensures ms[k + 1].before.desiredHistory
            == if Computes(ms[k])
               then Retained(Kept(ms[k]) + [SampleOf(ms[k])], c.window * HISTORY_RETENTION, ms[k].x.now)
               else Kept(ms[k])
  {
    MemoryAt(c, ms, k);
  }

  /** Where a sample in memory can have come from, one reconcile back. */
  lemma SampleStep(c: Config, ms: seq<Moment>, m: nat, h: Sample)
    requires IsRun(c, ms) && m + 1 < |ms| && h in ms[m + 1].before.desiredHistory
    ensures (Computes(ms[m]) && h == SampleOf(ms[m])) || (h in ms[m].before.desiredHistory && !Adopts(ms[m]))
    ensures Computes(ms[m]) ==> ms[m].x.now - h.at <= 2 * c.window
  {
    HistoryStep(c, ms, m);
    if Computes(ms[m]) {
      RetainedKeeps(Kept(ms[m]) + [SampleOf(ms[m])], c.window * HISTORY_RETENTION, ms[m].x.now, h);
    }
  }

  // ---- Runs

  /**
   * Every sample in memory was computed by an earlier reconcile, no later one having adopted another actor's count or
   * computed demand more than two windows after it.
   */
  lemma {:induction false} SamplesHaveSources(c: Config, ms: seq<Moment>, j: nat, h: Sample) returns (i: nat)
    requires IsRun(c, ms) && j < |ms| && h in ms[j].before.desiredHistory
    ensures i < j && Computes(ms[i]) && SampleOf(ms[i]) == h
    ensures forall k :: i < k < j ==> !Adopts(ms[k])
    ensures forall k :: i < k < j && Computes(ms[k]) ==> ms[k].x.now - h.at <= 2 * c.window
  {
    SampleStep(c, ms, j - 1, h);
    if Computes(ms[j - 1]) && h == SampleOf(ms[j - 1]) {
      return j - 1;
    }
    i := SamplesHaveSources(c, ms, j - 1, h);
  }

  lemma StepKeeps(c: Config, ms: seq<Moment>, m: nat, h: Sample)
    requires IsRun(c, ms) && m + 1 < |ms| && ms[m].x.now - h.at <= 2 * c.window
    requires (h in ms[m].before.desiredHistory && !Adopts(ms[m])) || (Computes(ms[m]) && h == SampleOf(ms[m]))
    ensures h in ms[m + 1].before.desiredHistory
  {
    HistoryStep(c, ms, m);
    if Computes(ms[m]) {
      RetainedKeeps(Kept(ms[m]) + [SampleOf(ms[m])], c.window * HISTORY_RETENTION, ms[m].x.now, h);
    }
  }

  /** A sample stays in memory for two windows, unless a later reconcile adopts another actor's count. */
  lemma {:induction false} SamplesSurvive(c: Config, ms: seq<Moment>, i: nat, j: nat)
    requires IsRun(c, ms) && Monotone(ms) && i < j < |ms| && Computes(ms[i])
    requires ms[j - 1].x.now - ms[i].x.now <= 2 * c.window
    requires forall k :: i < k < j ==> !Adopts(ms[k])
    ensures SampleOf(ms[i]) in ms[j].before.desiredHistory
  {
    if i < j - 1 {
      assert ms[j - 2].x.now <= ms[j - 1].x.now;
      SamplesSurvive(c, ms, i, j - 1);
    }
    StepKeeps(c, ms, j - 1, SampleOf(ms[i]));
  }

  lemma {:induction false} SamplesAreComputed(c: Config, ms: seq<Moment>, j: nat, now: int)
    requires IsRun(c, ms) && j < |ms|
    ensures CountInWindow(ms[j].before.desiredHistory, c.window, now) <= ComputedCount(ms, j, c.window, now)
  {
    if j > 0 {
      var m := j - 1;
      SamplesAreComputed(c, ms, m, now);
      HistoryStep(c, ms, m);
      if Computes(ms[m]) {
        CountAppend(Kept(ms[m]), SampleOf(ms[m]), c.window, now);
        RetainedCounts(Kept(ms[m]) + [SampleOf(ms[m])], c.window * HISTORY_RETENTION, ms[m].x.now, c.window, now);
      }
    }
  }

  /** What justifies a demand scale-down from `count` at reconcile j. */
  ghost predicate Justified(c: Config, ms: seq<Moment>, j: nat, count: Int32)
    requires j < |ms|
  {
    // every demand-computing reconcile of the last window wanted fewer
    && (forall i :: 0 <= i < j && Computes(ms[i]) && ms[j].x.now - ms[i].x.now <= c.window ==>
          SampleOf(ms[i]).desired < count)
    // the reconciles that computed demand within it account, an interval each, for the configured share of it
    && ComputedCount(ms, j, c.window, ms[j].x.now) * 1000 * c.interval >= c.coverageMilli * c.window
    // demand has been observed for a whole window
    && (exists i :: 0 <= i < j && Computes(ms[i]) && ms[j].x.now - ms[i].x.now >= c.window)
    // and no earlier reconcile adopted another actor's count inside it
    && (forall k :: 0 <= k < j && Adopts(ms[k]) ==> ms[j].x.now - ms[k].x.now >= c.window)
  }

  lemma CoveredMeansUndisturbed(c: Config, ms: seq<Moment>, j: nat) returns (first: nat)
    requires IsRun(c, ms) && Monotone(ms) && j < |ms|
    requires WindowCovered(ms[j].before.desiredHistory, c.window, c.interval, c.coverageMilli, ms[j].x.now)
    ensures first < j && Computes(ms[first]) && ms[j].x.now - ms[first].x.now >= c.window
    ensures forall k :: 0 <= k < j && Adopts(ms[k]) ==> ms[j].x.now - ms[k].x.now >= c.window
  {
    var history := ms[j].before.desiredHistory;
    var o :| 0 <= o < |history| && ms[j].x.now - history[o].at >= c.window;
    first := SamplesHaveSources(c, ms, j, history[o]);
  }

  lemma RecentIsBelow(c: Config, ms: seq<Moment>, i: nat, j: nat, count: Int32)
    requires IsRun(c, ms) && Increasing(ms) && i < j < |ms|
    requires Computes(ms[i]) && ms[j].x.now - ms[i].x.now <= c.window
    requires QuietBelow(ms[j].before.desiredHistory, c.window, ms[j].x.now, count)
    requires forall k :: 0 <= k < j && Adopts(ms[k]) ==> ms[j].x.now - ms[k].x.now >= c.window
    ensures SampleOf(ms[i]).desired < count
  {
    forall k | i < k < j
      ensures !Adopts(ms[k])
    {
      assert ms[i].x.now < ms[k].x.now;
    }
    assert ms[j - 1].x.now <= ms[j].x.now;
    SamplesSurvive(c, ms, i, j);
  }

  /** Outages never count as quiet: every demand scale-down is justified by what was observed. */
  lemma ScaleDownIsJustified(c: Config, ms: seq<Moment>, j: nat)
    requires IsRun(c, ms) && Increasing(ms) && j < |ms| && ms[j].d.reason.ScaleDown?
    ensures Justified(c, ms, j, ms[j].d.current)
  {
    var count := ms[j].d.current;
    ShapeAt(c, ms, j);
    SnapshotAt(c, ms, j);
    assert Decided(c, ms[j]);
    DownWrite(ms[j].s, c, ms[j].x.now);
    SamplesAreComputed(c, ms, j, ms[j].x.now);
    ExpectedCovers(c.window, c.interval);
    ShareOfWindow(ComputedCount(ms, j, c.window, ms[j].x.now), c.coverageMilli,
                  ExpectedSamples(c.window, c.interval), c.window, c.interval);
    var first := CoveredMeansUndisturbed(c, ms, j);
    forall i | 0 <= i < j && Computes(ms[i]) && ms[j].x.now - ms[i].x.now <= c.window
      ensures SampleOf(ms[i]).desired < count
    {
      RecentIsBelow(c, ms, i, j, count);
    }
  }

  /**
   * Exactly when a reconcile that adopts another actor's count scales down at once: its gates, window and cooldown
   * are judged by the memory from before the adoption, against the count just adopted.
   */
  lemma AdoptionScalesDownExactly(c: Config, ms: seq<Moment>, j: nat)
    requires IsRun(c, ms) && j < |ms| && Adopts(ms[j]) && ms[j].x.seen.CountsOk()
    ensures var s, before, now := ms[j].s, ms[j].before, ms[j].x.now;
            var demand, count := DemandOf(s, c, now), ms[j].x.seen.target.current;
            ms[j].d.reason.ScaleDown? <==>
              && DemandKnown(s, c, now) && demand.clamped <= count
              && !WithinTolerance(demand.clamped, count, c.tolerancePercent) && !HeldByBounds(s, c, demand.raw)
              && s.readyReplicas == count
              && !CoolingDown(before.lastScaleDown, c.scaleDownCooldown, now)
              && WindowCovered(before.desiredHistory, c.window, c.interval, c.coverageMilli, now)
              && QuietBelow(before.desiredHistory, c.window, now, count)
  {
    SnapshotAt(c, ms, j);
    assert Decided(c, ms[j]);
    WritesExactly(ms[j].s, c, ms[j].x.now);
  }
}
