/** Timed sequences of marks: how many fit into a span when they are spaced. */
module Marks {
  predicate Ordered(times: seq<int>) {
    forall i, j :: 0 <= i < j < |times| ==> times[i] <= times[j]
  }

  predicate Spaced(marks: seq<bool>, times: seq<int>, gap: int)
    requires |marks| == |times|
  {
    forall i, j :: 0 <= i < j < |marks| && marks[i] && marks[j] ==> times[j] - times[i] >= gap
  }

  function Count(marks: seq<bool>, i: nat, j: nat): nat
    requires i <= j <= |marks|
  {
    if i == j then 0 else Count(marks, i, j - 1) + if marks[j - 1] then 1 else 0
  }

  function Total(marks: seq<bool>, amounts: seq<int>, i: nat, j: nat): int
    requires i <= j <= |marks| == |amounts|
  {
    if i == j then 0 else Total(marks, amounts, i, j - 1) + if marks[j - 1] then amounts[j - 1] else 0
  }

  lemma {:induction false} TotalIsStepped(marks: seq<bool>, amounts: seq<int>, step: nat, i: nat, j: nat)
    requires i <= j <= |marks| == |amounts|
    requires forall k :: i <= k < j && marks[k] ==> amounts[k] <= step
    ensures Total(marks, amounts, i, j) <= step * Count(marks, i, j)
  {
    if i < j {
      TotalIsStepped(marks, amounts, step, i, j - 1);
      assert step * (Count(marks, i, j - 1) + 1) == step * Count(marks, i, j - 1) + step;
    }
  }

  lemma {:induction false} Spread(marks: seq<bool>, times: seq<int>, gap: nat, i: nat, j: nat)
    returns (first: nat, last: nat)
    requires i <= j <= |marks| == |times| && Spaced(marks, times, gap) && Count(marks, i, j) > 0
    ensures i <= first <= last < j && marks[last]
    ensures (Count(marks, i, j) - 1) * gap <= times[last] - times[first]
  {
    if !marks[j - 1] {
      first, last := Spread(marks, times, gap, i, j - 1);
    } else if Count(marks, i, j - 1) == 0 {
      first, last := j - 1, j - 1;
    } else {
      var before: nat;
      first, before := Spread(marks, times, gap, i, j - 1);
      last := j - 1;
      var n := Count(marks, i, j - 1);
      assert n * gap == (n - 1) * gap + gap;
    }
  }

  lemma Quotient(n: int, gap: int, span: int)
    requires gap > 0 && n * gap <= span
    ensures n <= span / gap
  {
    var q := span / gap;
    assert span < (q + 1) * gap;
    if q + 1 <= n {
      Scale(q + 1, n, gap);
    }
  }

  lemma Scale(a: int, b: int, k: nat)
    requires a <= b
    ensures a * k <= b * k && k * a <= k * b
  {
  }

  /** Spaced marks bounded by a step add at most step * (1 + span / gap) over a span. */
  lemma SpacedTotal(marks: seq<bool>, times: seq<int>, amounts: seq<int>,
                    step: nat, gap: int, i: nat, j: nat, span: nat)
    requires i < j <= |marks| == |times| == |amounts|
    requires Ordered(times) && 0 < gap && Spaced(marks, times, gap)
    requires forall k :: i <= k < j && marks[k] ==> amounts[k] <= step
    requires times[j - 1] - times[i] <= span
    ensures Total(marks, amounts, i, j) <= step * (1 + span / gap)
  {
    TotalIsStepped(marks, amounts, step, i, j);
    var n := Count(marks, i, j);
    var most := 1 + span / gap;
    assert 0 <= most;
    if n > 0 {
      var first, last := Spread(marks, times, gap, i, j);
      Quotient(n - 1, gap, span);
    }
    Scale(n, most, step);
  }
}
