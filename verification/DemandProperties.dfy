/** What the demand numbers mean: the least count that covers the work, until a conversion loses bits. */
module DemandProperties {
  import opened GoInt
  import opened Wrappers
  import opened Scaling
  import opened Engine
  import opened EngineProperties
  import opened GuardOrder
  import opened Marks

  /** n is the least count of shares of size `share` that covers `work`. */
  predicate LeastCover(n: int, work: int, share: int) {
    n * share >= work && (n - 1) * share < work
  }

  lemma CeilingCovers(work: int, share: int)
    requires 0 < work && 0 < share
    ensures var q := (work + share - 1) / share;
            0 < q && LeastCover(q, work, share) && (q <= MAX_INT32 <==> work <= MAX_INT32 * share)
  {
    var n := work + share - 1;
    var q := n / share;
    assert n == q * share + n % share;
    assert (q - 1) * share == q * share - share;
    if q <= 0 {
      Scale(q, 0, share);
    }
    if q <= MAX_INT32 {
      Scale(q, MAX_INT32, share);
    } else {
      Scale(MAX_INT32, q - 1, share);
    }
  }

  /**
   * The converted ceiling quotient is the least cover exactly when neither the 64-bit sum nor the 32-bit conversion
   * loses bits.
   */
  lemma QuotientCoversExactly(work: Int64, share: Int64)
    requires 0 < work && 0 < share
    ensures LeastCover(Wrap32(CeilDiv(work, share)), work, share)
            <==> work + share - 1 <= MAX_INT64 && work <= MAX_INT32 * share
  {
    var n := Wrap32(CeilDiv(work, share));
    if work > MAX_INT32 * share {
      Scale(n, MAX_INT32, share);
    } else if work + share - 1 > MAX_INT64 {
      WrappedQuotient(work, share);
      Scale(n, 0, share);
    } else {
      ExactQuotient(work, share);
    }
  }

  lemma ExactQuotient(work: Int64, share: Int64)
    requires 0 < work && 0 < share && work + share - 1 <= MAX_INT64 && work <= MAX_INT32 * share
    ensures LeastCover(Wrap32(CeilDiv(work, share)), work, share)
  {
    CeilingCovers(work, share);
  }

  lemma QuotientAtMost(x: int, share: nat, k: int)
    requires 0 < share && 0 <= x <= k * share
    ensures x / share <= k
  {
    assert (k + 1) * share == k * share + share;
    if k < x / share {
      Scale(k + 1, x / share, share);
    }
  }

  lemma WrappedQuotient(work: Int64, share: Int64)
    requires 0 < work <= MAX_INT32 * share && 0 < share && work + share - 1 > MAX_INT64
    ensures Wrap32(CeilDiv(work, share)) <= 0
  {
    var n := Wrap64(work + share - 1);
    assert n == work + share - 1 - 0x1_0000_0000_0000_0000 < 0;
    QuotientAtMost(-n, share, 0x8000_0000);
    assert CeilDiv(work, share) == -((-n) / share);
  }

  /** Demand from the backlog is the least count that covers it, exactly when the arithmetic keeps its bits. */
  lemma BacklogDemandExactly(s: Snapshot, c: Config)
    requires 0 < s.backlog.value
    ensures LeastCover(DesiredBacklog(s, c), s.backlog.value, c.itemsPerReplica)
            <==> && s.backlog.value + c.itemsPerReplica - 1 <= MAX_INT64
                 && s.backlog.value <= MAX_INT32 * c.itemsPerReplica
  {
    QuotientCoversExactly(s.backlog.value, c.itemsPerReplica);
  }

  // ---- Both signals together

  /** The work CPU reports: the ready replicas' usage in milli-percent, while it is fresh and there are any. */
  function CpuWork(s: Snapshot, c: Config, now: int): int {
    if IsRecent(s.cpu, c.metricsStaleAfter, now) && 0 < s.readyReplicas then s.readyReplicas * s.cpu.value else 0
  }

  /** One replica's share of it. */
  function CpuShare(c: Config): (share: Int64)
    ensures 0 < share
  {
    c.targetCpuPercent * 1000
  }

  lemma ProductSign(n: nat, x: nat)
    ensures 0 <= n * x
  {
  }

  /** For work of any size: beyond what 32-bit counts can cover, nothing covers it. */
  lemma TooMuchIsNotCovered(n: Int32, work: int, share: Int64)
    requires 0 < share && MAX_INT32 * share < work
    ensures n * share < work
  {
    Scale(n, MAX_INT32, share);
  }

  lemma NothingIsCovered(share: Int64)
    requires 0 < share
    ensures LeastCover(0, 0, share)
  {
  }

  /** CPU demand is the least count that brings the replicas' usage to the target, exactly when that fits 32 bits. */
  lemma CpuDemandExactly(s: Snapshot, c: Config, now: int)
    requires 0 <= s.cpu.value
    ensures LeastCover(DesiredUtilization(s, c, now), CpuWork(s, c, now), CpuShare(c))
            <==> CpuWork(s, c, now) <= MAX_INT32 * CpuShare(c)
    ensures 0 <= CpuWork(s, c, now)
  {
    var work, share := CpuWork(s, c, now), CpuShare(c);
    if 0 < s.readyReplicas {
      ProductSign(s.readyReplicas, s.cpu.value);
    }
    if work == 0 {
      NothingIsCovered(share);
    } else if MAX_INT32 * share < work {
      TooMuchIsNotCovered(DesiredUtilization(s, c, now), work, share);
    } else {
      QuotientCoversExactly(work, share);
    }
  }

  /** n covers the backlog and brings CPU usage to the target. */
  predicate CoversBoth(n: int, s: Snapshot, c: Config, now: int) {
    n * c.itemsPerReplica >= s.backlog.value && n * CpuShare(c) >= CpuWork(s, c, now)
  }

  predicate LeastForBoth(n: int, s: Snapshot, c: Config, now: int) {
    CoversBoth(n, s, c, now) && !CoversBoth(n - 1, s, c, now)
  }

  lemma LargerCovers(m: int, n: int, work: int, share: int)
    requires m <= n && 0 < share && m * share >= work
    ensures n * share >= work
  {
    Scale(m, n, share);
  }

  lemma LargestIsLeast(a: int, b: int, s: Snapshot, c: Config, now: int)
    requires LeastCover(a, s.backlog.value, c.itemsPerReplica) && LeastCover(b, CpuWork(s, c, now), CpuShare(c))
    ensures LeastForBoth(Max(a, b), s, c, now)
  {
    if a <= b {
      LargerCovers(a, b, s.backlog.value, c.itemsPerReplica);
    } else {
      LargerCovers(b, a, CpuWork(s, c, now), CpuShare(c));
    }
  }

  lemma BacklogDemandCovers(s: Snapshot, c: Config)
    requires 0 <= s.backlog.value <= MAX_INT32 * c.itemsPerReplica
    requires s.backlog.value + c.itemsPerReplica - 1 <= MAX_INT64
    ensures LeastCover(DesiredBacklog(s, c), s.backlog.value, c.itemsPerReplica)
  {
    if s.backlog.value == 0 {
      NothingIsCovered(c.itemsPerReplica);
    } else {
      BacklogDemandExactly(s, c);
    }
  }

  /** A backlog whose 64-bit sum wraps asks for nothing, so the count that CPU asks for has to cover it. */
  lemma WrappedBacklog(s: Snapshot, c: Config, now: int)
    requires 0 < s.backlog.value <= MAX_INT32 * c.itemsPerReplica
    requires MAX_INT64 < s.backlog.value + c.itemsPerReplica - 1
    requires LeastCover(DesiredUtilization(s, c, now), CpuWork(s, c, now), CpuShare(c)) && 0 <= CpuWork(s, c, now)
    ensures DemandOf(s, c, now).raw == DesiredUtilization(s, c, now)
    ensures LeastForBoth(DemandOf(s, c, now).raw, s, c, now)
            <==> DesiredUtilization(s, c, now) * c.itemsPerReplica >= s.backlog.value
  {
    WrappedQuotient(s.backlog.value, c.itemsPerReplica);
    var n := DesiredUtilization(s, c, now);
    if n < 0 {
      Scale(n, 0, CpuShare(c));
      Scale(n, -1, CpuShare(c));
    }
  }

  /**
   * Raw demand is the least count that covers the backlog and brings CPU usage to the target, if and only if both fit
   * 32-bit counts and the backlog's 64-bit sum does not wrap, or the count for CPU alone covers the backlog too.
   */
  lemma RawDemandExactly(s: Snapshot, c: Config, now: int)
    requires 0 <= s.backlog.value && 0 <= s.cpu.value
    ensures LeastForBoth(DemandOf(s, c, now).raw, s, c, now) <==>
              && s.backlog.value <= MAX_INT32 * c.itemsPerReplica
              && CpuWork(s, c, now) <= MAX_INT32 * CpuShare(c)
              && (|| s.backlog.value + c.itemsPerReplica - 1 <= MAX_INT64
                  || forall n :: LeastCover(n, CpuWork(s, c, now), CpuShare(c)) ==>
                       n * c.itemsPerReplica >= s.backlog.value)
  {
    var raw := DemandOf(s, c, now).raw;
    CpuDemandExactly(s, c, now);
    if MAX_INT32 * c.itemsPerReplica < s.backlog.value {
      TooMuchIsNotCovered(raw, s.backlog.value, c.itemsPerReplica);
    } else if MAX_INT32 * CpuShare(c) < CpuWork(s, c, now) {
      TooMuchIsNotCovered(raw, CpuWork(s, c, now), CpuShare(c));
    } else if s.backlog.value + c.itemsPerReplica - 1 <= MAX_INT64 {
      BacklogDemandCovers(s, c);
      LargestIsLeast(DesiredBacklog(s, c), DesiredUtilization(s, c, now), s, c, now);
    } else {
      WrappedBacklog(s, c, now);
      OneLeastCover(DesiredUtilization(s, c, now), CpuWork(s, c, now), CpuShare(c));
    }
  }

  lemma OneLeastCover(n: int, work: int, share: int)
    requires 0 < share && LeastCover(n, work, share)
    ensures forall m :: LeastCover(m, work, share) ==> m == n
  {
    forall m | LeastCover(m, work, share)
      ensures m == n
    {
      if m < n {
        LargerCovers(m, n - 1, work, share);
      } else if n < m {
        LargerCovers(n, m - 1, work, share);
      }
    }
  }

  /** Clamped demand is the raw demand inside the bounds, the nearer bound outside them. */
  lemma ClampedIsNearest(s: Snapshot, c: Config, now: int)
    ensures var d := DemandOf(s, c, now);
            && c.minReplicas <= d.clamped <= c.maxReplicas
            && (c.minReplicas <= d.raw <= c.maxReplicas ==> d.clamped == d.raw)
            && (d.raw < c.minReplicas ==> d.clamped == c.minReplicas)
            && (c.maxReplicas < d.raw ==> d.clamped == c.maxReplicas)
  {
  }

  // ---- A scale-down requires both to be low

  /** There is more backlog than the current count covers, and demand for it keeps its bits. */
  predicate BacklogExceeds(s: Snapshot, c: Config) {
    && s.currentReplicas * c.itemsPerReplica < s.backlog.value <= MAX_INT32 * c.itemsPerReplica
    && s.backlog.value + c.itemsPerReplica - 1 <= MAX_INT64
  }

  /** The ready replicas use more CPU than the target allows the current count, and demand for it keeps its bits. */
  predicate UsageExceeds(s: Snapshot, c: Config, now: int) {
    s.currentReplicas * CpuShare(c) < CpuWork(s, c, now) <= MAX_INT32 * CpuShare(c)
  }

  lemma CoverExceeds(n: int, current: int, work: int, share: Int64)
    requires 0 < share && LeastCover(n, work, share) && current * share < work
    ensures current < n
  {
    if n <= current {
      Scale(n, current, share);
    }
  }

  lemma BusyWantsMore(s: Snapshot, c: Config, now: int)
    requires 0 <= s.currentReplicas && (BacklogExceeds(s, c) || UsageExceeds(s, c, now))
    ensures s.currentReplicas < DemandOf(s, c, now).raw
  {
    if BacklogExceeds(s, c) {
      ProductSign(s.currentReplicas, c.itemsPerReplica);
      BacklogDemandExactly(s, c);
      CoverExceeds(DesiredBacklog(s, c), s.currentReplicas, s.backlog.value, c.itemsPerReplica);
    } else {
      ProductSign(s.currentReplicas, CpuShare(c));
      if s.cpu.value < 0 {
        Scale(s.cpu.value, 0, s.readyReplicas);
      }
      CpuDemandExactly(s, c, now);
      CoverExceeds(DesiredUtilization(s, c, now), s.currentReplicas, CpuWork(s, c, now), CpuShare(c));
    }
  }

  /**
   * While the backlog or the CPU usage is more than the current count covers, no demand scale-down is decided, unless
   * someone else has put the count above maxReplicas.
   */
  lemma BusyIsNotShrunk(s: Snapshot, c: Config, now: int)
    requires s.CountsOk() && (BacklogExceeds(s, c) || UsageExceeds(s, c, now))
    ensures Decide(s, c, now).reason.ScaleDown? ==> c.maxReplicas < s.currentReplicas
  {
    BusyWantsMore(s, c, now);
    WritesExactly(s, c, now);
  }

  /** In particular with every replica ready and CPU above its target, whatever the backlog says. */
  lemma HotIsNotShrunk(s: Snapshot, c: Config, now: int)
    requires s.CountsOk() && 0 < s.readyReplicas == s.currentReplicas <= c.maxReplicas
    requires IsRecent(s.cpu, c.metricsStaleAfter, now) && c.targetCpuPercent * 1000 < s.cpu.value
    requires CpuWork(s, c, now) <= MAX_INT32 * CpuShare(c)
    ensures !Decide(s, c, now).reason.ScaleDown?
  {
    Scale(CpuShare(c) + 1, s.cpu.value, s.readyReplicas);
    BusyIsNotShrunk(s, c, now);
  }

  // ---- A scale-up requires one of them to be high

  lemma PositiveWrap(q: nat)
    ensures Wrap32(q) <= q
  {
  }

  lemma QuotientTimes(m: nat, share: nat)
    requires 0 < share
    ensures m / share * share <= m
  {
    assert m == share * (m / share) + m % share;
  }

  lemma NegatedSum(work: Int64, share: Int64) returns (m: nat)
    requires 0 < work && 0 < share && MAX_INT64 < work + share - 1
    ensures Wrap64(work + share - 1) == -(m as int) && 0 < m <= 0x8000_0000_0000_0000
  {
    var sum: int := Wrap64(work + share - 1);
    m := -sum;
  }

  lemma NegatedQuotient(work: Int64, share: Int64, m: nat, k: nat)
    requires 0 < work && 0 < share && Wrap64(work + share - 1) == -(m as int) && 0 < m && k == m / share
    ensures CeilDiv(work, share) == -(k as int)
  {
  }

  /** A wrapped sum has a quotient that is not positive, and whose product with the share is at most 2^63. */
  lemma WrappedCeil(work: Int64, share: Int64) returns (k: nat)
    requires 0 < work && 0 < share && MAX_INT64 < work + share - 1
    ensures CeilDiv(work, share) == -(k as int) && k * share <= 0x8000_0000_0000_0000
  {
    var m := NegatedSum(work, share);
    k := m / share;
    NegatedQuotient(work, share, m, k);
    QuotientTimes(m, share);
  }

  lemma WrappedUp(k: int, current: nat)
    requires 0 <= k && current < Wrap32(-k)
    ensures 0x8000_0000 <= k && current <= MAX_INT32 - 1
  {
  }

  /** A wrapped sum can only convert to a positive count for a share of at most 2^32, and then the work is huge. */
  lemma WrappedIsNeeded(work: Int64, share: Int64, current: nat)
    requires 0 < work && 0 < share && MAX_INT64 < work + share - 1 && current < Wrap32(CeilDiv(work, share))
    ensures current * share < work
  {
    var k := WrappedCeil(work, share);
    WrappedUp(k, current);
    Scale(0x8000_0000, k, share);
    Scale(current, MAX_INT32 - 1, share);
  }

  lemma QuotientIsNeeded(work: Int64, share: Int64, current: nat)
    requires 0 < share && current < Wrap32(CeilDiv(work, share))
    ensures current * share < work
  {
    assert 0 < work;
    if MAX_INT64 < work + share - 1 {
      WrappedIsNeeded(work, share, current);
    } else {
      CeilingCovers(work, share);
      var q := (work + share - 1) / share;
      PositiveWrap(q);
      Scale(current, q - 1, share);
    }
  }

  /**
   * Raw demand exceeds the count only when the backlog or the CPU usage exceeds what the count covers, whatever wraps
   * on the way, short of a negative usage so large that its product wraps.
   */
  lemma WantsMoreOnlyIfBusy(s: Snapshot, c: Config, now: int)
    requires 0 <= s.currentReplicas < DemandOf(s, c, now).raw && -0x8000_0000_0000_0000 <= CpuWork(s, c, now)
    ensures s.currentReplicas * c.itemsPerReplica < s.backlog.value
            || s.currentReplicas * CpuShare(c) < CpuWork(s, c, now)
  {
    if s.currentReplicas < DesiredBacklog(s, c) {
      QuotientIsNeeded(s.backlog.value, c.itemsPerReplica, s.currentReplicas);
    } else if CpuWork(s, c, now) <= MAX_INT64 {
      QuotientIsNeeded(CpuWork(s, c, now), CpuShare(c), s.currentReplicas);
    } else {
      Scale(s.currentReplicas, MAX_INT32, CpuShare(c));
    }
  }
}
