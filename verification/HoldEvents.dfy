/** How often a repeating hold is announced: each key keeps its own cadence on the hold-backoff schedule. */
module HoldEvents {
  import opened GoInt
  import opened Scaling
  import opened Engine
  import opened Marks

  datatype Cadence = Cadence(lastSeen: int, lastEmitted: int, emitted: nat)

  type Schedule = cfg: HoldBackoffConfig | cfg.Valid() witness DEFAULTS.holdBackoff

  method Cycle(n: int, cfg: Schedule) returns (interval: int)
    ensures interval == BackoffInterval(n, cfg)
  {
    interval := cfg.initial;
    var i := 1;
    while i < n && interval < cfg.max
      invariant 1 <= i <= Max(n, 1)
      invariant Min(GrownInterval(interval, Max(n - i, 0), cfg), cfg.max) == BackoffInterval(n, cfg)
    {
      var grown := Grown(interval, cfg);
      if grown <= interval {
        break;
      }
      interval := grown;
      i := i + 1;
    }
    interval := Min(interval, cfg.max);
  }

  /** A key not seen for longer than max starts over. */
  predicate StartsOver(cadences: map<string, Cadence>, key: string, now: int, cfg: Schedule) {
    key !in cadences || now - cadences[key].lastSeen > cfg.max
  }

  predicate IsDue(cadences: map<string, Cadence>, key: string, now: int, cfg: Schedule) {
    || StartsOver(cadences, key, now, cfg)
    || now - cadences[key].lastEmitted >= BackoffInterval(cadences[key].emitted, cfg)
  }

  function Noted(cadences: map<string, Cadence>, key: string, now: int, cfg: Schedule): map<string, Cadence> {
    if StartsOver(cadences, key, now, cfg) then cadences[key := Cadence(now, now, 1)]
    else if IsDue(cadences, key, now, cfg) then cadences[key := Cadence(now, now, cadences[key].emitted + 1)]
    else cadences[key := cadences[key].(lastSeen := now)]
  }

  class HoldEventLimiter {
    var cadences: map<string, Cadence>

    constructor ()
      ensures cadences == map[]
    {
      cadences := map[];
    }

    method Due(key: string, now: int, cfg: Schedule) returns (due: bool)
      modifies this
      ensures due == IsDue(old(cadences), key, now, cfg)
      ensures cadences == Noted(old(cadences), key, now, cfg)
    {
      if key !in cadences || now - cadences[key].lastSeen > cfg.max {
        cadences := cadences[key := Cadence(now, now, 1)];
        return true;
      }
      var cadence := cadences[key].(lastSeen := now);
      var wait := Cycle(cadence.emitted, cfg);
      if now - cadence.lastEmitted < wait {
        cadences := cadences[key := cadence];
        return false;
      }
      cadences := cadences[key := Cadence(now, now, cadence.emitted + 1)];
      return true;
    }
  }

  // ---- The schedule

  lemma {:induction false} GrowthIsMonotone(interval: int, steps: nat, cfg: Schedule)
    ensures interval <= GrownInterval(interval, steps, cfg) <= GrownInterval(interval, steps + 1, cfg)
    decreases steps
  {
    var grown := Grown(interval, cfg);
    if interval < cfg.max && grown > interval && steps > 0 {
      GrowthIsMonotone(grown, steps - 1, cfg);
    }
  }

  lemma {:induction false} CycleIsMonotone(m: int, n: int, cfg: Schedule)
    requires m <= n
    ensures BackoffInterval(m, cfg) <= BackoffInterval(n, cfg)
    decreases n - m
  {
    if m < n {
      GrowthIsMonotone(cfg.initial, Max(n - 2, 0), cfg);
      CycleIsMonotone(m, n - 1, cfg);
    }
  }

  /** The waits never shrink, start at the initial interval and stop at the maximum. */
  lemma CycleBounds(m: int, n: int, cfg: Schedule)
    requires m <= n
    ensures cfg.initial <= BackoffInterval(m, cfg) <= BackoffInterval(n, cfg) <= cfg.max
    ensures BackoffInterval(1, cfg) == cfg.initial
  {
    CycleIsMonotone(m, n, cfg);
    GrowthIsMonotone(cfg.initial, Max(m - 1, 0), cfg);
  }

  /** The factor applied to a wait, rounded down. */
  function Multiplied(wait: nat, cfg: Schedule): nat {
    wait * cfg.factorNum / cfg.factorDen
  }

  lemma FactorGrows(wait: nat, cfg: Schedule)
    ensures wait <= Multiplied(wait, cfg) && Grown(wait, cfg) == Multiplied(wait, cfg)
  {
    var product := wait * cfg.factorNum;
    Scale(cfg.factorDen, cfg.factorNum, wait);
    QuotientAtLeast(product, cfg.factorDen, wait);
  }

  lemma QuotientAtLeast(x: nat, d: nat, k: nat)
    requires 0 < d && k * d <= x
    ensures k <= x / d
  {
    assert x == d * (x / d) + x % d;
    if x / d < k {
      Scale(x / d + 1, k, d);
    }
  }

  /** One more growth step, seen from the other end. */
  lemma {:induction false} GrownOnce(interval: nat, steps: nat, cfg: Schedule)
    ensures var last := GrownInterval(interval, steps, cfg);
            && interval <= last
            && GrownInterval(interval, steps + 1, cfg) == if last >= cfg.max then last else Multiplied(last, cfg)
    decreases steps
  {
    FactorGrows(interval, cfg);
    if steps > 0 && interval < cfg.max && interval < Grown(interval, cfg) {
      GrownOnce(Grown(interval, cfg), steps - 1, cfg);
    }
  }

  /** Each wait is the one before it multiplied by the factor, rounded down and capped. */
  lemma WaitsMultiply(n: nat, cfg: Schedule)
    requires 1 <= n
    ensures BackoffInterval(1, cfg) == cfg.initial
    ensures 0 < BackoffInterval(n, cfg)
    ensures BackoffInterval(n + 1, cfg) == Min(BackoffInterval(n, cfg) * cfg.factorNum / cfg.factorDen, cfg.max)
  {
    GrownOnce(cfg.initial, n - 1, cfg);
    FactorGrows(cfg.max, cfg);
  }

  function Power(base: nat, n: nat): nat {
    if n == 0 then 1 else Power(base, n - 1) * base
  }

  lemma CappedProduct(x: nat, cap: nat, factor: nat)
    requires 1 <= factor
    ensures Min(Min(x, cap) * factor, cap) == Min(x * factor, cap)
  {
    Scale(1, factor, cap);
    if cap < x {
      Scale(cap, x, factor);
    }
  }

  lemma Regroup(a: nat, b: nat, c: nat)
    ensures a * b * c == a * (b * c)
  {
  }

  lemma WholeFactor(n: nat, cfg: Schedule)
    requires 1 <= n && cfg.factorDen == 1
    ensures BackoffInterval(n + 1, cfg) == Min(BackoffInterval(n, cfg) * cfg.factorNum, cfg.max)
  {
    WaitsMultiply(n, cfg);
  }

  /** For a whole factor the n-th wait is the initial one times the factor to the power n - 1, capped. */
  lemma {:induction false} WaitsAreGeometric(n: nat, cfg: Schedule)
    requires 1 <= n && cfg.factorDen == 1
    ensures BackoffInterval(n, cfg) == Min(cfg.initial * Power(cfg.factorNum, n - 1), cfg.max)
    decreases n
  {
    if n == 1 {
      WaitsMultiply(n, cfg);
    } else {
      var power := Power(cfg.factorNum, n - 2);
      var before: nat := cfg.initial * power;
      WaitsAreGeometric(n - 1, cfg);
      WholeFactor(n - 1, cfg);
      CappedProduct(before, cfg.max, cfg.factorNum);
      Regroup(cfg.initial, power, cfg.factorNum);
    }
  }

  // ---- Sequences of calls

  datatype Call = Call(key: string, now: int)

  function Cadences(calls: seq<Call>, cfg: Schedule): map<string, Cadence> {
    if calls == [] then map[]
    else
      var n := |calls| - 1;
      Noted(Cadences(calls[..n], cfg), calls[n].key, calls[n].now, cfg)
  }

  predicate Announced(calls: seq<Call>, k: nat, cfg: Schedule)
    requires k < |calls|
  {
    IsDue(Cadences(calls[..k], cfg), calls[k].key, calls[k].now, cfg)
  }

  /** How many announcements in a row, without a quiet period between them, end with call k. */
  function InARow(calls: seq<Call>, k: nat, cfg: Schedule): nat
    requires k < |calls|
  {
    var before := Cadences(calls[..k + 1], cfg);
    if calls[k].key in before then before[calls[k].key].emitted else 0
  }

  predicate NonDecreasing(calls: seq<Call>) {
    forall i, j :: 0 <= i < j < |calls| ==> calls[i].now <= calls[j].now
  }

  /** Call h is the last one for `key` before position n. */
  predicate LastCall(calls: seq<Call>, key: string, h: nat, n: nat)
    requires n <= |calls|
  {
    h < n && calls[h].key == key && forall m :: h < m < n ==> calls[m].key != key
  }

  /** Call i is the last announcement for `key` before position n. */
  predicate LastAnnouncement(calls: seq<Call>, key: string, i: nat, n: nat, cfg: Schedule)
    requires n <= |calls|
  {
    && i < n && calls[i].key == key && Announced(calls, i, cfg)
    && forall m :: i < m < n && calls[m].key == key ==> !Announced(calls, m, cfg)
  }

  lemma CadencesStep(calls: seq<Call>, k: nat, cfg: Schedule)
    requires k < |calls|
    ensures Cadences(calls[..k + 1], cfg) == Noted(Cadences(calls[..k], cfg), calls[k].key, calls[k].now, cfg)
  {
    assert calls[..k + 1][..k] == calls[..k];
  }

  lemma {:induction false} SeenIsLastCall(calls: seq<Call>, key: string, h: nat, n: nat, cfg: Schedule)
    requires n <= |calls| && LastCall(calls, key, h, n)
    ensures key in Cadences(calls[..n], cfg) && Cadences(calls[..n], cfg)[key].lastSeen == calls[h].now
  {
    CadencesStep(calls, n - 1, cfg);
    if h < n - 1 {
      SeenIsLastCall(calls, key, h, n - 1, cfg);
    }
  }

  lemma {:induction false} NeverSeen(calls: seq<Call>, key: string, n: nat, cfg: Schedule)
    requires n <= |calls| && forall m :: 0 <= m < n ==> calls[m].key != key
    ensures key !in Cadences(calls[..n], cfg)
  {
    if n > 0 {
      CadencesStep(calls, n - 1, cfg);
      NeverSeen(calls, key, n - 1, cfg);
    }
  }

  lemma {:induction false} EmittedIsLast(calls: seq<Call>, key: string, i: nat, n: nat, cfg: Schedule)
    requires n <= |calls| && LastAnnouncement(calls, key, i, n, cfg)
    ensures key in Cadences(calls[..n], cfg)
    ensures Cadences(calls[..n], cfg)[key].lastEmitted == calls[i].now
    ensures Cadences(calls[..n], cfg)[key].emitted == InARow(calls, i, cfg)
  {
    CadencesStep(calls, n - 1, cfg);
    if i < n - 1 {
      EmittedIsLast(calls, key, i, n - 1, cfg);
    }
  }

  /** The first call for a key is announced at once, as the first in a row. */
  lemma FirstIsAnnounced(calls: seq<Call>, j: nat, cfg: Schedule)
    requires j < |calls| && forall m :: 0 <= m < j ==> calls[m].key != calls[j].key
    ensures Announced(calls, j, cfg) && InARow(calls, j, cfg) == 1
  {
    NeverSeen(calls, calls[j].key, j, cfg);
    CadencesStep(calls, j, cfg);
  }

  /**
   * Exactly when a later call is announced: after a quiet period longer than max, or once the wait that follows
   * the k-th announcement in a row has passed. A quiet period starts the row again.
   */
  lemma AnnouncedExactly(calls: seq<Call>, h: nat, i: nat, j: nat, cfg: Schedule)
    requires j < |calls|
    requires LastCall(calls, calls[j].key, h, j) && LastAnnouncement(calls, calls[j].key, i, j, cfg)
    ensures Announced(calls, j, cfg) <==>
              || calls[j].now - calls[h].now > cfg.max
              || calls[j].now - calls[i].now >= BackoffInterval(InARow(calls, i, cfg), cfg)
    ensures Announced(calls, j, cfg) ==>
              InARow(calls, j, cfg) == if calls[j].now - calls[h].now > cfg.max then 1 else InARow(calls, i, cfg) + 1
  {
    SeenIsLastCall(calls, calls[j].key, h, j, cfg);
    EmittedIsLast(calls, calls[j].key, i, j, cfg);
    CadencesStep(calls, j, cfg);
  }

  /** The k-th announcement in a row is followed by the next no sooner than cycle(k), quiet restarts included. */
  lemma AnnouncementsAreSpaced(calls: seq<Call>, i: nat, j: nat, cfg: Schedule)
    requires NonDecreasing(calls) && j < |calls| && Announced(calls, j, cfg)
    requires LastAnnouncement(calls, calls[j].key, i, j, cfg)
    ensures calls[j].now - calls[i].now >= BackoffInterval(InARow(calls, i, cfg), cfg)
  {
    var h := FindLastCall(calls, calls[j].key, i, j);
    AnnouncedExactly(calls, h, i, j, cfg);
    CycleBounds(InARow(calls, i, cfg), InARow(calls, i, cfg), cfg);
  }

  lemma {:induction false} FindLastCall(calls: seq<Call>, key: string, i: nat, n: nat) returns (h: nat)
    requires i < n <= |calls| && calls[i].key == key
    ensures i <= h && LastCall(calls, key, h, n)
  {
    if calls[n - 1].key == key {
      h := n - 1;
    } else {
      h := FindLastCall(calls, key, i, n - 1);
    }
  }
}
