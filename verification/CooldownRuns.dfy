/** Cooldowns over whole runs: spacing of acknowledged writes and the growth it allows. */
module CooldownRuns {
  import opened GoInt
  import opened Wrappers
  import opened Scaling
  import opened Engine
  import opened EngineProperties
  import opened Controller
  import opened Runs
  import opened Marks

  predicate AtLeast(stamp: Option<int>, at: int) {
    stamp.Some? && stamp.value >= at
  }

  /** Before reconcile j the stamps are no older than any earlier acknowledged write. */
  lemma {:induction false} StampsRemember(c: Config, ms: seq<Moment>, i: nat, j: nat)
    requires IsRun(c, ms) && Monotone(ms) && i < j < |ms|
    ensures Ups(ms[i]) ==> AtLeast(ms[j].before.lastScaleUp, ms[i].x.now)
    ensures Downs(ms[i]) ==> AtLeast(ms[j].before.lastScaleDown, ms[i].x.now)
  {
    MemoryAt(c, ms, j - 1);
    if i < j - 1 {
      StampsRemember(c, ms, i, j - 1);
    }
  }

  /** No scale-up is even decided within the cooldown of an acknowledged one. */
  lemma UpsAreSpaced(c: Config, ms: seq<Moment>, i: nat, j: nat)
    requires IsRun(c, ms) && Monotone(ms) && i < j < |ms| && Ups(ms[i]) && IsUp(ms[j].d)
    ensures ms[j].x.now - ms[i].x.now >= c.scaleUpCooldown
  {
    StampsRemember(c, ms, i, j);
    SnapshotAt(c, ms, j);
    assert Decided(c, ms[j]);
    UpIsGated(ms[j].s, c, ms[j].x.now);
  }

  /** A demand scale-down waits out the cooldown after every acknowledged down-write, reverts included. */
  lemma DownsAreSpaced(c: Config, ms: seq<Moment>, i: nat, j: nat)
    requires IsRun(c, ms) && Monotone(ms) && i < j < |ms| && Downs(ms[i]) && ms[j].d.reason.ScaleDown?
    ensures ms[j].x.now - ms[i].x.now >= c.scaleDownCooldown
  {
    StampsRemember(c, ms, i, j);
    SnapshotAt(c, ms, j);
    assert Decided(c, ms[j]);
    DownWrite(ms[j].s, c, ms[j].x.now);
  }

  lemma UpIsStepped(c: Config, ms: seq<Moment>, k: nat)
    requires IsRun(c, ms) && k < |ms| && ms[k].x.seen.CountsOk() && Ups(ms[k])
    ensures ms[k].d.Delta() <= c.maxScaleUpStep
  {
    SnapshotAt(c, ms, k);
    assert Decided(c, ms[k]);
    ShapeAt(c, ms, k);
    var gain := UpGain(ms[k].s, c, ms[k].x.now);
    WrapIsBelow(ms[k].s.currentReplicas + gain);
  }

  lemma WrapIsBelow(x: nat)
    ensures Wrap32(x) <= x
  {
  }

  function UpMarks(ms: seq<Moment>): seq<bool> {
    seq(|ms|, k requires 0 <= k < |ms| => Ups(ms[k]))
  }

  function Times(ms: seq<Moment>): seq<int> {
    seq(|ms|, k requires 0 <= k < |ms| => ms[k].x.now)
  }

  function Deltas(ms: seq<Moment>): seq<int> {
    seq(|ms|, k requires 0 <= k < |ms| => ms[k].d.Delta())
  }

  /** Over any stretch of a run lasting T, the acknowledged scale-ups add at most step * (1 + T / cooldown). */
  lemma GrowthIsRateLimited(c: Config, ms: seq<Moment>, i: nat, j: nat, span: nat)
    requires IsRun(c, ms) && Monotone(ms) && CountsOk(ms) && 0 < c.scaleUpCooldown
    requires i < j <= |ms| && ms[j - 1].x.now - ms[i].x.now <= span
    ensures Total(UpMarks(ms), Deltas(ms), i, j) <= c.maxScaleUpStep * (1 + span / c.scaleUpCooldown)
  {
    var ups, times, deltas := UpMarks(ms), Times(ms), Deltas(ms);
    forall a, b | 0 <= a < b < |ms| && ups[a] && ups[b]
      ensures times[b] - times[a] >= c.scaleUpCooldown
    {
      UpsAreSpaced(c, ms, a, b);
    }
    forall k | i <= k < j && ups[k]
      ensures deltas[k] <= c.maxScaleUpStep
    {
      UpIsStepped(c, ms, k);
    }
    SpacedTotal(ups, times, deltas, c.maxScaleUpStep, c.scaleUpCooldown, i, j, span);
  }
}
