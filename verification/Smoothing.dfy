/** The fixed-point moving average of the pressure signal, in 64-bit milli-items. */
module Smoothing {
  import opened GoInt

  const MILLI := 1000
  const HALF := 500

  /** Raw values up to here cannot make the 64-bit products wrap. */
  const SAFE := 9_223_372_036_854

  predicate Safe(raw: int) {
    -SAFE <= raw <= SAFE
  }

  /** A validated weight: alpha in (0, 1], cut to thousandths, so it can be 0. */
  type Weight = a: int | 0 <= a <= MILLI

  // ---- The arithmetic as written

  function Blended(a: Weight, raw: Int64, state: Int64): Int64 {
    var total := Wrap64(Wrap64(a * Wrap64(raw * MILLI)) + Wrap64((MILLI - a) * state));
    TruncBound(total);
    TruncDiv(total, MILLI)
  }

  function Rounded(state: Int64): Int64 {
    TruncBound(Wrap64(state + HALF));
    TruncDiv(Wrap64(state + HALF), MILLI)
  }

  lemma TruncBound(n: Int64)
    ensures -0x8000_0000_0000_0000 <= TruncDiv(n, MILLI) <= MAX_INT64
  {
  }

  /** The state after the raw values seen since the last reset. */
  function StateAfter(a: Weight, raws: seq<Int64>): Int64
    requires raws != []
  {
    if |raws| == 1 then Wrap64(raws[0] * MILLI)
    else Blended(a, raws[|raws| - 1], StateAfter(a, raws[..|raws| - 1]))
  }

  function OutputAfter(a: Weight, raws: seq<Int64>): Int64
    requires raws != []
  {
    if |raws| == 1 then raws[0] else Rounded(StateAfter(a, raws))
  }

  class Smoother {
    const ewma: bool
    const alphaMilli: Weight
    var primed: bool
    var stateMilli: Int64
    ghost var raws: seq<Int64>

    constructor (ewma: bool, alphaMilli: Weight)
      ensures this.ewma == ewma && this.alphaMilli == alphaMilli && Valid() && raws == []
    {
      this.ewma, this.alphaMilli := ewma, alphaMilli;
      primed, stateMilli, raws := false, 0, [];
    }

    ghost predicate Valid()
      reads this
    {
      (primed <==> raws != []) && (primed ==> stateMilli == StateAfter(alphaMilli, raws))
    }

    method Apply(raw: Int64) returns (smoothed: Int64)
      requires Valid()
      modifies this
      ensures Valid() && raws == if ewma then old(raws) + [raw] else old(raws)
      ensures smoothed == if ewma then OutputAfter(alphaMilli, raws) else raw
      ensures old(raws) == [] ==> smoothed == raw
    {
      if !ewma {
        return raw;
      }
      raws := raws + [raw];
      assert raws[..|raws| - 1] == old(raws);
      var rawMilli := Wrap64(raw * MILLI);
      if !primed {
        primed := true;
        stateMilli := rawMilli;
        return raw;
      }
      var total := Wrap64(Wrap64(alphaMilli * rawMilli) + Wrap64((MILLI - alphaMilli) * stateMilli));
      TruncBound(total);
      stateMilli := TruncDiv(total, MILLI);
      return Rounded(stateMilli);
    }

    method Reset()
      requires Valid()
      modifies this
      ensures Valid() && raws == [] && !primed
    {
      primed, stateMilli, raws := false, 0, [];
    }
  }

  // ---- Without wrapping

  lemma Mix(a: Weight, x: int, y: int, lo: int, hi: int)
    requires lo <= x <= hi && lo <= y <= hi
    ensures MILLI * lo <= a * x + (MILLI - a) * y <= MILLI * hi
  {
    Weigh(a, lo, x);
    Weigh(a, x, hi);
    Weigh(MILLI - a, lo, y);
    Weigh(MILLI - a, y, hi);
    assert a * lo + (MILLI - a) * lo == MILLI * lo;
    assert a * hi + (MILLI - a) * hi == MILLI * hi;
  }

  lemma Weigh(a: nat, x: int, y: int)
    requires x <= y
    ensures a * x <= a * y
  {
  }

  lemma Products(a: Weight, x: int)
    requires -MILLI * SAFE <= x <= MILLI * SAFE
    ensures Wrap64(a * x) == a * x
  {
    Mix(a, x, 0, -MILLI * SAFE, MILLI * SAFE);
  }

  lemma BlendIsExact(a: Weight, raw: Int64, state: Int64)
    requires Safe(raw) && -MILLI * SAFE <= state <= MILLI * SAFE
    ensures Blended(a, raw, state) == TruncDiv(a * (MILLI * raw) + (MILLI - a) * state, MILLI)
  {
    Products(a, MILLI * raw);
    Products(MILLI - a, state);
    Mix(a, MILLI * raw, state, -MILLI * SAFE, MILLI * SAFE);
  }

  /** While nothing is negative the next state is the weighted mean of sample and state, in thousandths, cut off. */
  lemma BlendIsWeightedMean(a: Weight, raw: Int64, state: Int64)
    requires 0 <= raw <= SAFE && 0 <= state <= 1000 * SAFE
    ensures var mean := a * (1000 * raw) + (1000 - a) * state;
            1000 * Blended(a, raw, state) <= mean < 1000 * Blended(a, raw, state) + 1000
  {
    BlendIsExact(a, raw, state);
    Mix(a, MILLI * raw, state, 0, MILLI * SAFE);
  }

  /** The reported value is the item nearest to the state, the upper of two equally near; above a negative state. */
  lemma RoundsToNearest(state: Int64)
    requires -1000 * SAFE <= state <= 1000 * SAFE
    ensures 0 <= state ==> state - 500 < 1000 * Rounded(state) <= state + 500
    ensures state < -500 ==> state + 500 <= 1000 * Rounded(state) < state + 1500
    ensures -500 <= state < 0 ==> Rounded(state) == 0
  {
  }

  lemma TruncKeepsBounds(n: int, lo: int, hi: int)
    requires MILLI * lo <= n <= MILLI * hi
    ensures lo <= TruncDiv(n, MILLI) <= hi
  {
  }

  lemma {:induction false} StateStaysBetween(a: Weight, raws: seq<Int64>, lo: int, hi: int)
    requires raws != [] && Safe(lo) && Safe(hi) && forall k :: 0 <= k < |raws| ==> lo <= raws[k] <= hi
    ensures MILLI * lo <= StateAfter(a, raws) <= MILLI * hi
  {
    if |raws| > 1 {
      var before, raw := raws[..|raws| - 1], raws[|raws| - 1];
      StateStaysBetween(a, before, lo, hi);
      BlendIsExact(a, raw, StateAfter(a, before));
      Mix(a, MILLI * raw, StateAfter(a, before), MILLI * lo, MILLI * hi);
      TruncKeepsBounds(a * (MILLI * raw) + (MILLI - a) * StateAfter(a, before), MILLI * lo, MILLI * hi);
    }
  }

  /**
   * Between resets no output falls below the smallest raw value, and an output stays within the largest one
   * exactly when that is not negative or the state is at least half an item under it: the rounding truncates
   * toward zero, which lifts negative values.
   */
  lemma OutputBetweenExtremes(a: Weight, raws: seq<Int64>, lo: int, hi: int)
    requires raws != [] && Safe(lo) && Safe(hi) && forall k :: 0 <= k < |raws| ==> lo <= raws[k] <= hi
    ensures lo <= OutputAfter(a, raws)
    ensures 1 < |raws| ==>
              (OutputAfter(a, raws) <= hi <==> 0 <= hi || StateAfter(a, raws) <= MILLI * hi - HALF)
    ensures 0 <= hi ==> OutputAfter(a, raws) <= hi
  {
    StateStaysBetween(a, raws, lo, hi);
    RoundingBetween(StateAfter(a, raws), lo, hi);
  }

  lemma RoundingBetween(state: Int64, lo: int, hi: int)
    requires Safe(lo) && Safe(hi) && MILLI * lo <= state <= MILLI * hi
    ensures lo <= Rounded(state)
    ensures Rounded(state) <= hi <==> 0 <= hi || state <= MILLI * hi - HALF
  {
  }

  /** A constant negative signal is reported one item too high from its second sample on. */
  lemma NegativeConstantRises(a: Weight, r: Int64)
    requires Safe(r) && r < 0
    ensures OutputAfter(a, [r, r]) == r + 1
  {
    var raws := [r, r];
    assert raws[..1] == [r];
    assert StateAfter(a, [r]) == MILLI * r;
    BlendIsExact(a, r, MILLI * r);
    MixOfEqual(a, MILLI * r);
    assert StateAfter(a, raws) == MILLI * r;
  }

  lemma MixOfEqual(a: Weight, x: int)
    ensures TruncDiv(a * x + (MILLI - a) * x, MILLI) == x
  {
    assert a * x + (MILLI - a) * x == MILLI * x;
  }

  predicate Within(raws: seq<Int64>, lo: int, hi: int) {
    forall k :: 0 <= k < |raws| ==> lo <= raws[k] <= hi
  }

  /**
   * A range of raw values bounds every output from both sides, whatever the sequence, if and only if its upper end
   * is not negative; from below it always does.
   */
  lemma RangeBoundsOutputExactly(a: Weight, lo: Int64, hi: Int64)
    requires Safe(lo) && Safe(hi) && lo <= hi
    ensures forall raws: seq<Int64> :: raws != [] && Within(raws, lo, hi) ==> lo <= OutputAfter(a, raws)
    ensures (forall raws: seq<Int64> :: raws != [] && Within(raws, lo, hi) ==> OutputAfter(a, raws) <= hi) <==> 0 <= hi
  {
    forall raws: seq<Int64> | raws != [] && Within(raws, lo, hi)
      ensures lo <= OutputAfter(a, raws) && (0 <= hi ==> OutputAfter(a, raws) <= hi)
    {
      OutputBetweenExtremes(a, raws, lo, hi);
    }
    if hi < 0 {
      NegativeConstantRises(a, hi);
      assert Within([hi, hi], lo, hi);
    }
  }

  // ---- A constant signal

  function Iterated(a: Weight, r: Int64, state: Int64, n: nat): Int64 {
    if n == 0 then state else Blended(a, r, Iterated(a, r, state, n - 1))
  }

  function Distance(x: int, y: int): nat {
    if x < y then y - x else x - y
  }

  lemma ApproachUp(a: Weight, target: int, state: int)
    requires state <= target
    ensures var next := TruncDiv(a * target + (MILLI - a) * state, MILLI);
            && state <= next <= target
            && (2 <= a && target - state >= HALF ==> next > state)
            && (a <= 1 && 0 <= state && target - state < MILLI ==> next == state)
            && (a <= 1 && 0 <= state && target - state <= MILLI ==> next <= state + 1)
  {
    var gap := a * (target - state);
    assert a * target + (MILLI - a) * state == MILLI * state + gap;
    Weigh(a, 0, target - state);
    Mix(a, target, state, state, target);
    TruncKeepsBounds(MILLI * state + gap, state, target);
    if 2 <= a {
      Weigh(target - state, 2, a);
    } else {
      Weigh(target - state, a, 1);
    }
    Quotient(state, gap);
  }

  lemma ApproachDown(a: Weight, target: int, state: int)
    requires 0 <= target < state
    ensures var next := TruncDiv(a * target + (MILLI - a) * state, MILLI);
            && target <= next <= state
            && (1 <= a ==> next < state)
  {
    var gap := a * (target - state);
    assert a * target + (MILLI - a) * state == MILLI * state + gap;
    Weigh(a, target - state, -1);
    Mix(a, target, state, target, state);
    TruncKeepsBounds(MILLI * state + gap, target, state);
    Quotient(state, gap);
  }

  /** One step on a constant signal moves the state toward it, and never past it. */
  lemma StepApproaches(a: Weight, r: Int64, state: Int64)
    requires 0 <= r <= SAFE && -MILLI * SAFE <= state <= MILLI * SAFE
    ensures var next := Blended(a, r, state);
            && (state <= MILLI * r ==> state <= next <= MILLI * r)
            && (state > MILLI * r ==> MILLI * r <= next <= state)
            && (2 <= a && MILLI * r - state >= HALF ==> next > state)
            && (1 <= a && state > MILLI * r ==> next < state)
            && (a <= 1 && 0 <= state && 0 <= MILLI * r - state < MILLI ==> next == state)
            && (a <= 1 && 0 <= state && 0 <= MILLI * r - state <= MILLI ==> next <= state + 1)
  {
    BlendIsExact(a, r, state);
    if state <= MILLI * r {
      ApproachUp(a, MILLI * r, state);
    } else {
      ApproachDown(a, MILLI * r, state);
    }
  }

  lemma Quotient(state: int, gap: int)
    ensures gap >= MILLI ==> TruncDiv(MILLI * state + gap, MILLI) > state
    ensures 0 <= gap <= MILLI && 0 <= state ==> TruncDiv(MILLI * state + gap, MILLI) <= state + 1
    ensures 0 <= gap < MILLI && 0 <= state ==> TruncDiv(MILLI * state + gap, MILLI) == state
    ensures gap < 0 && MILLI * state + gap >= 0 ==> TruncDiv(MILLI * state + gap, MILLI) < state
  {
  }

  lemma {:induction false} IterationStaysSafe(a: Weight, r: Int64, state: Int64, n: nat)
    requires 0 <= r <= SAFE && -MILLI * SAFE <= state <= MILLI * SAFE
    ensures -MILLI * SAFE <= Iterated(a, r, state, n) <= MILLI * SAFE
  {
    if n > 0 {
      IterationStaysSafe(a, r, state, n - 1);
      StepApproaches(a, r, Iterated(a, r, state, n - 1));
    }
  }

  /** On a constant signal the error of the reported value never grows. */
  lemma ErrorNeverGrows(a: Weight, r: Int64, state: Int64, n: nat)
    requires 0 <= r <= SAFE && -MILLI * SAFE <= state <= MILLI * SAFE
    ensures Distance(Rounded(Iterated(a, r, state, n + 1)), r) <= Distance(Rounded(Iterated(a, r, state, n)), r)
  {
    var now := Iterated(a, r, state, n);
    IterationStaysSafe(a, r, state, n);
    StepApproaches(a, r, now);
    RoundingApproaches(now, Blended(a, r, now), r);
  }

  lemma RoundingApproaches(now: Int64, next: Int64, r: Int64)
    requires 0 <= r <= SAFE && -MILLI * SAFE <= now <= MILLI * SAFE
    requires now <= next <= MILLI * r || MILLI * r <= next <= now
    ensures Distance(Rounded(next), r) <= Distance(Rounded(now), r)
  {
  }

  lemma {:induction false} Closes(a: Weight, r: Int64, state: Int64, n: nat)
    requires 2 <= a && 0 <= r <= SAFE && -MILLI * SAFE <= state <= MILLI * SAFE
    ensures var now := Iterated(a, r, state, n);
            || MILLI * r - HALF <= now <= MILLI * r
            || (now < MILLI * r && MILLI * r - now <= Distance(state, MILLI * r) - n)
            || (MILLI * r < now && now - MILLI * r <= Distance(state, MILLI * r) - n)
  {
    if n > 0 {
      Closes(a, r, state, n - 1);
      IterationStaysSafe(a, r, state, n - 1);
      StepApproaches(a, r, Iterated(a, r, state, n - 1));
    }
  }

  lemma {:induction false} StaysLow(a: Weight, n: nat)
    requires a <= 1
    ensures 0 <= Iterated(a, 1, 0, n) <= 1
  {
    if n > 0 {
      StaysLow(a, n - 1);
      StepApproaches(a, 1, Iterated(a, 1, 0, n - 1));
    }
  }

  // ---- A signal that becomes constant

  function Repeat(r: Int64, n: nat): seq<Int64> {
    if n == 0 then [] else Repeat(r, n - 1) + [r]
  }

  lemma {:induction false} ConstantTail(a: Weight, raws: seq<Int64>, r: Int64, n: nat)
    requires raws != []
    ensures StateAfter(a, raws + Repeat(r, n)) == Iterated(a, r, StateAfter(a, raws), n)
    ensures |Repeat(r, n)| == n
  {
    if n == 0 {
      assert raws + [] == raws;
    } else {
      ConstantTail(a, raws, r, n - 1);
      assert raws + Repeat(r, n) == (raws + Repeat(r, n - 1)) + [r];
      assert ((raws + Repeat(r, n - 1)) + [r])[..|raws| + n - 1] == raws + Repeat(r, n - 1);
    }
  }

  /** After the raw values `raws`, n more samples of r, and any number after those, the reported value is r. */
  ghost predicate SettledBy(a: Weight, raws: seq<Int64>, r: Int64, n: nat)
    requires raws != []
  {
    forall m: nat :: n <= m ==> OutputAfter(a, raws + Repeat(r, m)) == r
  }

  ghost predicate Settles(a: Weight, raws: seq<Int64>, r: Int64)
    requires raws != []
  {
    exists n: nat :: SettledBy(a, raws, r, n)
  }

  predicate AllSafe(raws: seq<Int64>) {
    forall k :: 0 <= k < |raws| ==> Safe(raws[k])
  }

  /** With a weight of at least two thousandths the output is r after at most the initial distance, and stays r. */
  lemma SettlesInTime(a: Weight, raws: seq<Int64>, r: Int64, m: nat)
    requires 2 <= a && raws != [] && AllSafe(raws) && 0 <= r <= SAFE
    requires Distance(StateAfter(a, raws), MILLI * r) < m
    ensures OutputAfter(a, raws + Repeat(r, m)) == r
  {
    StateStaysBetween(a, raws, -SAFE, SAFE);
    Closes(a, r, StateAfter(a, raws), m);
    ConstantTail(a, raws, r, m);
  }

  /** A signal that rose from 0 to 1 is then reported as 0, however long it stays. */
  lemma RiseIsLost(a: Weight, zero: Int64, n: nat)
    requires a <= 1 && zero == 0 && 0 < n
    ensures OutputAfter(a, [zero] + Repeat(1, n)) == 0
  {
    StaysLow(a, n);
    assert StateAfter(a, [zero]) == 0;
    ConstantTail(a, [zero], 1, n);
  }

  lemma NeverSettles(a: Weight)
    requires a <= 1
    ensures !Settles(a, [0], 1)
  {
    forall n: nat
      ensures !SettledBy(a, [0], 1, n)
    {
      RiseIsLost(a, 0, n + 1);
    }
  }

  /**
   * Whatever came before, a signal that becomes constant is eventually reported exactly, if and only if the weight
   * is at least two thousandths.
   */
  lemma SettlesExactly(a: Weight)
    ensures (forall raws: seq<Int64>, r: Int64 :: raws != [] && AllSafe(raws) && 0 <= r <= SAFE ==> Settles(a, raws, r))
            <==> 2 <= a
  {
    if 2 <= a {
      forall raws: seq<Int64>, r: Int64 | raws != [] && AllSafe(raws) && 0 <= r <= SAFE
        ensures Settles(a, raws, r)
      {
        var n := Distance(StateAfter(a, raws), MILLI * r) + 1;
        forall m: nat | n <= m
          ensures OutputAfter(a, raws + Repeat(r, m)) == r
        {
          SettlesInTime(a, raws, r, m);
        }
        assert SettledBy(a, raws, r, n);
      }
    } else {
      NeverSettles(a);
      assert AllSafe([0]);
    }
  }
}
