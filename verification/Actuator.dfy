/** The actuator: validate, then read, check, write conditionally, and retry transient failures inside a budget. */
module Actuator {
  import opened GoInt
  import opened Wrappers
  import opened Scaling
  import opened Protocol

  const RETRY_INITIAL_DELAY := 100_000_000

  // ---- Errors

  datatype ApiError = ConflictError | Forbidden | Unauthorized | NotFound | Invalid | BadRequest | OtherError
  {
    /** A permission, a target or an object that will be as wrong the next time. */
    predicate Lasts() {
      Forbidden? || Unauthorized? || NotFound? || Invalid? || BadRequest?
    }
  }

  /** How one Apply, or one attempt inside it, ends. Transient is any error that is not one of the other four. */
  datatype Outcome = Done | Conflict | Stale | Rejected | Fatal | Transient

  /** Anything unrecognised is transient. */
  function Classify(err: ApiError): Outcome {
    match err
    case ConflictError => Conflict
    case Forbidden | Unauthorized | NotFound | Invalid | BadRequest => Fatal
    case OtherError => Transient
  }

  function Validate(l: Limits, d: Decision): Outcome {
    if d.target < l.lo || d.target > l.hi || d.target == d.current then Rejected else Done
  }

  datatype Reply<T> = Ok(value: T) | Fail(error: ApiError)

  /** None models a server that reports no version. */
  datatype ScaleState = ScaleState(replicas: Int32, version: Option<nat>)

  /** What the API server said in one attempt: to the live read, and to the conditional write if one was sent. */
  datatype Exchange = Exchange(read: Reply<ScaleState>, write: Option<Reply<()>>)
  {
    /** The error that ended the attempt, if the server reported one. */
    function Error(): Option<ApiError> {
      if read.Fail? then Some(read.error)
      else if write.Some? && write.value.Fail? then Some(write.value.error)
      else None
    }

    /** A read that still shows the planned count and reports a version is followed by a write, no other is. */
    predicate Follows(d: Decision) {
      write.Some? <==> read.Ok? && read.value.replicas == d.current && read.value.version.Some?
    }

    /** An error that may pass, or a read without the version that a conditional write needs. */
    predicate MayPass(d: Decision) {
      || Error() == Some(OtherError)
      || (read.Ok? && read.value.replicas == d.current && read.value.version.None?)
    }

    /** The cluster has changed since the decision: another write came first, or the count is another one. */
    predicate Outdated(d: Decision) {
      Error() == Some(ConflictError) || (read.Ok? && read.value.replicas != d.current)
    }
  }

  /** How a write ends, by what the server said to it. */
  predicate Answers(reply: Reply<()>, outcome: Outcome) {
    && (outcome == Done <==> reply.Ok?)
    && (outcome == Transient <==> reply == Fail(OtherError))
    && (outcome == Conflict <==> reply == Fail(ConflictError))
    && (outcome == Fatal <==> reply.Fail? && reply.error.Lasts())
    && outcome != Stale && outcome != Rejected
  }

  /** How an attempt ends, by what the server said in it. */
  predicate EndsAs(x: Exchange, d: Decision, outcome: Outcome) {
    && x.Follows(d)
    && (outcome == Done <==> x.write == Some(Ok(())))
    && (outcome == Transient <==> x.MayPass(d))
    && (outcome == Conflict <==> x.Error() == Some(ConflictError))
    && (outcome == Stale <==> x.read.Ok? && x.read.value.replicas != d.current)
    && (outcome == Fatal <==> x.Error().Some? && x.Error().value.Lasts())
    && outcome != Rejected
  }

  /** Whether an event is a step that only the Apply call `id` can take. */
  predicate StepOf(e: Event, id: nat) {
    (e.Begin? && e.id == id) || (e.Send? && e.request.id == id)
  }

  /** later extends earlier: nothing that happened is undone. */
  predicate Extends(earlier: World, later: World) {
    && earlier.history <= later.history
    && (forall id :: id in earlier.plans ==> id in later.plans && later.plans[id] == earlier.plans[id])
  }

  /** A write of the Apply call `id` took effect after version `since`. */
  ghost predicate Landed(w: World, id: nat, since: nat) {
    exists k :: since <= k < |w.history| && w.history[k].author.Apply? && w.history[k].author.id == id
  }

  // ---- The environment: the API server, its other clients, the clock and the context

  class Cluster {
    const limits: Limits
    var world: World
    var now: int
    var cancelled: bool

    constructor (limits: Limits, count: Int32)
      ensures Valid() && this.limits == limits && world == Start(count)
    {
      this.limits := limits;
      world := Start(count);
      now := 0;
      cancelled := false;
      new;
      ReachableStart(limits, count);
    }

    ghost predicate Valid()
      reads this
    {
      Reachable(limits, world)
    }

    /** One protocol step. */
    method Take(e: Event)
      requires Valid() && Enabled(limits, world, e)
      modifies this`world
      ensures Valid() && world == Do(limits, old(world), e) && Extends(old(world), world)
    {
      ReachableStep(limits, world, e);
      world := Do(limits, world, e);
    }

    /** A name no Apply call has used yet. */
    method FreshId() returns (id: nat)
      ensures id !in world.plans
    {
      id := 0;
      var used := world.plans.Keys;
      while used != {}
        invariant forall n :: n in world.plans && n !in used ==> n < id
        decreases used
      {
        var n :| n in used;
        used := used - {n};
        id := Max(id, n + 1);
      }
    }

    /** Any number of steps of anyone but the Apply call `id`, which may see its own sent writes land. */
    method Interfere(id: nat)
      requires Valid()
      modifies this
      ensures Valid() && Extends(old(world), world)
      ensures id in world.plans <==> id in old(world).plans
      ensures old(now) <= now && (old(cancelled) ==> cancelled)
    {
      var steps: int := *;
      while steps > 0
        invariant Valid() && Extends(old(world), world)
        invariant id in world.plans <==> id in old(world).plans
        invariant now == old(now) && cancelled == old(cancelled)
      {
        var e: Event := *;
        if Enabled(limits, world, e) && !StepOf(e, id) {
          Take(e);
        }
        steps := steps - 1;
      }
      var elapsed: int := *;
      now := now + Max(elapsed, 0);
      var cancel: bool := *;
      cancelled := cancelled || cancel;
    }

    /** A live read takes time, may fail, and may return any version the object has had. */
    method GetScale(id: nat) returns (reply: Reply<ScaleState>)
      requires Valid()
      modifies this
      ensures Valid() && Extends(old(world), world)
      ensures id in world.plans <==> id in old(world).plans
      ensures old(now) < now && (old(cancelled) ==> cancelled)
      ensures reply.Ok? && reply.value.version.Some? ==>
                var v := reply.value.version.value;
                v < |world.history| && world.history[v].count == reply.value.replicas
    {
      Interfere(id);
      now := now + 1;
      var fails: bool := *;
      if fails {
        var err: ApiError := *;
        return Fail(err);
      }
      ReachableInv(limits, world);
      var any: int := *;
      var version := if 0 <= any < |world.history| then any else |world.history| - 1;
      var reported: bool := *;
      reply := Ok(ScaleState(world.history[version].count, if reported then Some(version) else None));
    }

    /** A conditional write: it may land, be refused, stay in flight, or land with its reply lost. */
    method UpdateScale(id: nat, target: Int32, version: nat) returns (reply: Reply<()>)
      requires Valid() && id in world.plans && world.plans[id].target == target
      requires version < |world.history| && world.history[version].count == world.plans[id].from
      modifies this
      ensures Valid() && Extends(old(world), world)
      ensures old(now) <= now && (old(cancelled) ==> cancelled)
      ensures reply.Ok? ==> Landed(world, id, |old(world).history|)
    {
      var r := Request(id, version);
      Take(Send(r));
      Interfere(id);
      if r !in world.inflight {
        return Fail(OtherError);
      }
      if version != |world.history| - 1 {
        Take(Drop(r));
        return Fail(ConflictError);
      }
      var arrives: bool := *;
      if !arrives {
        var err: ApiError := *;
        return Fail(err);
      }
      ghost var k := |world.history|;
      Take(Land(r));
      assert world.history[k].author == Apply(id, version);
      assert old(world).history <= world.history;
      Interfere(id);
      assert world.history[k].author == Apply(id, version);
      var lost: bool := *;
      if lost {
        return Fail(OtherError);
      }
      reply := Ok(());
    }

    /** Full jitter: uniform over (0, d], and no wait at all when d is not positive. */
    method Jitter(d: Int64) returns (wait: int)
      ensures if d <= 0 then wait == 0 else 0 < wait <= d
    {
      if d <= 0 {
        return 0;
      }
      var r: int := *;
      wait := r % d + 1;
    }

    method Sleep(id: nat, d: nat) returns (woken: bool)
      requires Valid()
      modifies this
      ensures Valid() && Extends(old(world), world)
      ensures id in world.plans <==> id in old(world).plans
      ensures old(now) <= now && (old(cancelled) ==> cancelled)
      ensures woken ==> old(now) + d <= now
      ensures !woken ==> cancelled
    {
      Interfere(id);
      var early: bool := *;
      if cancelled && early {
        return false;
      }
      now := now + d;
      woken := true;
    }
  }

  // ---- The writer bound to one Deployment

  class ScaleWriter {
    const cluster: Cluster

    constructor (cluster: Cluster)
      ensures this.cluster == cluster
    {
      this.cluster := cluster;
    }

    /** An unconditional write is refused before anything is sent; `reply` is what the server said to one that is. */
    method Write(id: nat, target: Int32, version: Option<nat>)
      returns (outcome: Outcome, ghost reply: Option<Reply<()>>)
      requires cluster.Valid() && id in cluster.world.plans && cluster.world.plans[id].target == target
      requires version.Some? ==>
                 && version.value < |cluster.world.history|
                 && cluster.world.history[version.value].count == cluster.world.plans[id].from
      modifies cluster
      ensures cluster.Valid() && Extends(old(cluster.world), cluster.world)
      ensures old(cluster.now) <= cluster.now && (old(cluster.cancelled) ==> cluster.cancelled)
      ensures outcome == Done ==> Landed(cluster.world, id, |old(cluster.world).history|)
      ensures reply.Some? <==> version.Some?
      ensures version.None? ==> outcome == Transient && cluster.world == old(cluster.world)
      ensures version.Some? ==> Answers(reply.value, outcome)
    {
      if version.None? {
        return Transient, None;
      }
      var answer := cluster.UpdateScale(id, target, version.value);
      reply := Some(answer);
      match answer
      case Ok(_) => outcome := Done;
      case Fail(err) => outcome := Classify(err);
    }
  }

  class ScaleActuator {
    const limits: Limits
    const retryBudget: int
    const cluster: Cluster
    const writer: ScaleWriter

    constructor (cluster: Cluster, retryBudget: int)
      requires 0 < retryBudget
      ensures this.cluster == cluster && this.retryBudget == retryBudget && WellFormed()
    {
      this.limits := cluster.limits;
      this.retryBudget := retryBudget;
      this.cluster := cluster;
      this.writer := new ScaleWriter(cluster);
    }

    ghost predicate WellFormed() {
      limits == cluster.limits && 0 < retryBudget && writer.cluster == cluster
    }

    /** One read-check-write cycle; `x` is what the server said in it. */
    method Attempt(d: Decision, id: nat) returns (outcome: Outcome, ghost x: Exchange)
      requires WellFormed() && cluster.Valid()
      requires id in cluster.world.plans && cluster.world.plans[id] == Plan(d.current, d.target)
      modifies cluster
      ensures cluster.Valid() && Extends(old(cluster.world), cluster.world)
      ensures old(cluster.now) < cluster.now && (old(cluster.cancelled) ==> cluster.cancelled)
      ensures outcome == Done ==> Landed(cluster.world, id, |old(cluster.world).history|)
      ensures EndsAs(x, d, outcome)
    {
      var live := cluster.GetScale(id);
      x := Exchange(live, None);
      if live.Fail? {
        return Classify(live.error), x;
      }
      if live.value.replicas != d.current {
        return Stale, x;
      }
      ghost var reply: Option<Reply<()>>;
      outcome, reply := writer.Write(id, d.target, live.value.version);
      x := Exchange(live, reply);
      assert reply.Some? && reply.value.Ok? ==> reply.value.value == ();
    }

    /**
     * Applies a decision. `xs` are the attempts in order and `waits` the sleeps between them: the i-th is drawn from
     * (0, DelayAfter(i)], and is no wait at all once that is not positive. An attempt is followed by another exactly
     * when its failure may pass, until the call is cancelled or the next wait does not fit the budget; no error means
     * that this call's own conditional write took effect.
     */
    method Apply(d: Decision, id: nat) returns (outcome: Outcome, ghost xs: seq<Exchange>, ghost waits: seq<int>)
      requires WellFormed() && cluster.Valid() && id !in cluster.world.plans
      modifies cluster
      ensures cluster.Valid() && Extends(old(cluster.world), cluster.world)
      ensures !d.Writes() ==> outcome == Done && xs == [] && cluster.world == old(cluster.world)
      ensures d.Writes() ==>
                (outcome == Rejected <==> !d.MovesInside(limits.lo, limits.hi))
      ensures outcome == Rejected ==> xs == [] && cluster.world == old(cluster.world)
      ensures d.Writes() && outcome != Rejected ==>
                && id in cluster.world.plans && cluster.world.plans[id] == Plan(d.current, d.target)
                && Tried(d, xs, outcome)
      ensures d.Writes() && outcome == Done ==> Landed(cluster.world, id, |old(cluster.world).history|)
      ensures d.Writes() && outcome == Transient ==>
                cluster.cancelled || retryBudget <= cluster.now - old(cluster.now) + Max(DelayAfter(|waits|), 0)
      ensures |waits| == Max(|xs| - 1, 0) && Drawn(waits)
      ensures 0 <= Total(waits) < retryBudget
      ensures Total(waits) <= cluster.now - old(cluster.now)
    {
      xs, waits := [], [];
      if !d.Writes() {
        return Done, xs, waits;
      }
      outcome := Validate(limits, d);
      if outcome == Rejected {
        return;
      }
      cluster.Take(Begin(id, Plan(d.current, d.target)));
      outcome, xs, waits := Retry(d, id);
    }

    /** The retry loop, inside the budget that starts with it. */
    method Retry(d: Decision, id: nat) returns (outcome: Outcome, ghost xs: seq<Exchange>, ghost waits: seq<int>)
      requires WellFormed() && cluster.Valid()
      requires id in cluster.world.plans && cluster.world.plans[id] == Plan(d.current, d.target)
      modifies cluster
      ensures cluster.Valid() && Extends(old(cluster.world), cluster.world)
      ensures Tried(d, xs, outcome)
      ensures outcome == Done ==> Landed(cluster.world, id, |old(cluster.world).history|)
      ensures outcome == Transient ==>
                cluster.cancelled || retryBudget <= cluster.now - old(cluster.now) + Max(DelayAfter(|waits|), 0)
      ensures |waits| == |xs| - 1 && Drawn(waits)
      ensures 0 <= Total(waits) < retryBudget
      ensures Total(waits) <= cluster.now - old(cluster.now)
    {
      xs, waits := [], [];
      var deadline := cluster.now + retryBudget;
      var delay: Int64 := RETRY_INITIAL_DELAY;
      while true
        invariant cluster.Valid() && Extends(old(cluster.world), cluster.world)
        invariant id in cluster.world.plans && cluster.world.plans[id] == Plan(d.current, d.target)
        invariant AllPass(d, xs)
        invariant |waits| == |xs| && Drawn(waits) && delay == DelayAfter(|waits|)
        invariant 0 <= Total(waits) <= cluster.now - old(cluster.now) && Total(waits) < retryBudget
        decreases deadline - cluster.now
      {
        ghost var before := |cluster.world.history|;
        ghost var x: Exchange;
        var waited: Option<int>;
        outcome, x, waited := Round(d, id, delay, deadline);
        TryPush(d, xs, x, outcome);
        xs := xs + [x];
        if waited.None? {
          assert before >= |old(cluster.world).history|;
          return;
        }
        WaitPush(waits, waited.value);
        waits := waits + [waited.value];
        delay := Wrap64(delay * 2);
      }
    }

    /** One attempt, and after a failure that may pass the sleep before the next one; None when there is none. */
    method Round(d: Decision, id: nat, delay: Int64, deadline: int)
      returns (outcome: Outcome, ghost x: Exchange, waited: Option<int>)
      requires WellFormed() && cluster.Valid()
      requires id in cluster.world.plans && cluster.world.plans[id] == Plan(d.current, d.target)
      modifies cluster
      ensures cluster.Valid() && Extends(old(cluster.world), cluster.world) && old(cluster.now) < cluster.now
      ensures EndsAs(x, d, outcome)
      ensures outcome == Done ==> Landed(cluster.world, id, |old(cluster.world).history|)
      ensures waited.Some? ==>
                && outcome == Transient
                && (if delay <= 0 then waited.value == 0 else 0 < waited.value <= delay)
                && waited.value < deadline - old(cluster.now)
                && waited.value <= cluster.now - old(cluster.now)
      ensures waited.None? && outcome == Transient ==> cluster.cancelled || deadline - cluster.now <= Max(delay, 0)
    {
      outcome, x := Attempt(d, id);
      if outcome == Done || outcome == Conflict || outcome == Stale || outcome == Fatal {
        return outcome, x, None;
      }
      waited := Pause(id, delay, deadline);
    }

    /** The jittered sleep before the next attempt; None when cancelled or when it would not fit the budget. */
    method Pause(id: nat, delay: Int64, deadline: int) returns (waited: Option<int>)
      requires WellFormed() && cluster.Valid()
      modifies cluster
      ensures cluster.Valid() && Extends(old(cluster.world), cluster.world)
      ensures id in cluster.world.plans <==> id in old(cluster.world).plans
      ensures old(cluster.now) <= cluster.now
      ensures waited.Some? ==>
                && (if delay <= 0 then waited.value == 0 else 0 < waited.value <= delay)
                && waited.value < deadline - old(cluster.now)
                && waited.value <= cluster.now - old(cluster.now)
      ensures waited.None? ==> cluster.cancelled || deadline - cluster.now <= Max(delay, 0)
    {
      if cluster.cancelled {
        return None;
      }
      var wait := cluster.Jitter(delay);
      if deadline - cluster.now <= wait {
        return None;
      }
      var woken := cluster.Sleep(id, wait);
      waited := if woken then Some(wait) else None;
    }
  }

  // ---- The attempts of one call

  /** Every one of them failed in a way that may pass. */
  predicate AllPass(d: Decision, xs: seq<Exchange>) {
    forall i :: 0 <= i < |xs| ==> xs[i].Follows(d) && xs[i].MayPass(d)
  }

  /** At least one attempt, the last one ending the call and all before it having failed in a way that may pass. */
  predicate Tried(d: Decision, xs: seq<Exchange>, outcome: Outcome) {
    xs != [] && AllPass(d, xs[..|xs| - 1]) && EndsAs(xs[|xs| - 1], d, outcome)
  }

  lemma TryPush(d: Decision, xs: seq<Exchange>, x: Exchange, outcome: Outcome)
    requires AllPass(d, xs) && EndsAs(x, d, outcome)
    ensures Tried(d, xs + [x], outcome)
    ensures outcome == Transient ==> AllPass(d, xs + [x])
  {
    assert (xs + [x])[..|xs|] == xs;
  }

  /** A conflict, a moved count and a refusal each end the call that meets them: none is followed by another attempt. */
  lemma NoSecondTry(d: Decision, xs: seq<Exchange>, outcome: Outcome, i: nat)
    requires Tried(d, xs, outcome) && i < |xs|
    ensures xs[i].Outdated(d) ==> i == |xs| - 1 && outcome in {Conflict, Stale}
    ensures xs[i].Error().Some? && xs[i].Error().value.Lasts() ==>
              i == |xs| - 1 && outcome == Fatal
    ensures xs[i].write == Some(Ok(())) ==> i == |xs| - 1 && outcome == Done
  {
    if i < |xs| - 1 {
      assert xs[..|xs| - 1][i] == xs[i];
    }
  }

  // ---- The doubling delay is a 64-bit value

  function DelayAfter(retries: nat): Int64 {
    if retries == 0 then RETRY_INITIAL_DELAY else Wrap64(DelayAfter(retries - 1) * 2)
  }

  function Total(waits: seq<int>): int {
    if waits == [] then 0 else Total(waits[..|waits| - 1]) + waits[|waits| - 1]
  }

  /** Each wait is a jittered draw from its own delay. */
  predicate Drawn(waits: seq<int>) {
    forall i :: 0 <= i < |waits| ==> if DelayAfter(i) <= 0 then waits[i] == 0 else 0 < waits[i] <= DelayAfter(i)
  }

  lemma WaitPush(waits: seq<int>, wait: int)
    requires Drawn(waits)
    requires if DelayAfter(|waits|) <= 0 then wait == 0 else 0 < wait <= DelayAfter(|waits|)
    ensures Drawn(waits + [wait]) && Total(waits + [wait]) == Total(waits) + wait
  {
    assert (waits + [wait])[..|waits|] == waits;
  }

  function Pow2(n: nat): nat {
    if n == 0 then 1 else 2 * Pow2(n - 1)
  }

  lemma Pow2Plus8(n: nat)
    ensures Pow2(n + 8) == 256 * Pow2(n)
  {
    assert Pow2(n + 4) == 16 * Pow2(n) by {
      assert Pow2(n + 2) == 4 * Pow2(n);
    }
    assert Pow2(n + 6) == 4 * Pow2(n + 4);
  }

  lemma {:induction false} Pow2Grows(m: nat, n: nat)
    requires m <= n
    ensures Pow2(m) <= Pow2(n)
  {
    if m < n {
      Pow2Grows(m, n - 1);
    }
  }

  const TWO_64 := 0x1_0000_0000_0000_0000

  lemma WrapIsUnique(y: int, k: int, r: Int64)
    requires r == y - TWO_64 * k
    ensures Wrap64(y) == r
  {
  }

  lemma WrapDoubled(x: int)
    ensures Wrap64(Wrap64(x) * 2) == Wrap64(x * 2)
  {
    var k := if Wrap64(x) == x then 0 else (x + TWO_64 / 2) / TWO_64;
    var y := x * 2 - TWO_64 * (2 * k);
    assert Wrap64(x) * 2 == y;
    var m := if Wrap64(y) == y then 0 else (y + TWO_64 / 2) / TWO_64;
    WrapIsUnique(x * 2, 2 * k + m, Wrap64(y));
  }

  lemma {:induction false} DelayIsWrapped(retries: nat)
    ensures DelayAfter(retries) == Wrap64(RETRY_INITIAL_DELAY * Pow2(retries))
  {
    if retries > 0 {
      DelayIsWrapped(retries - 1);
      WrapDoubled(RETRY_INITIAL_DELAY * Pow2(retries - 1));
    }
  }

  const LAST_DOUBLING := 36
  const VANISHING := 56

  lemma Pow2Of(n: nat)
    ensures n == 8 ==> Pow2(n) == 0x100
    ensures n == 32 ==> Pow2(n) == 0x1_0000_0000
    ensures n == 36 ==> Pow2(n) == 0x10_0000_0000
    ensures n == 55 ==> Pow2(n) == 0x80_0000_0000_0000
  {
    var z := 0;
    Pow2Plus8(z);
    Pow2Plus8(z + 8);
    Pow2Plus8(z + 16);
    Pow2Plus8(z + 24);
    Pow2Plus8(z + 32);
    Pow2Plus8(z + 40);
    Pow2Plus8(z + 48);
    assert Pow2(z + 34) == 4 * Pow2(z + 32) && Pow2(z + 36) == 4 * Pow2(z + 34);
    assert Pow2(z + 56) == 2 * Pow2(z + 55);
  }

  /** The delay is the initial one doubled once a retry, exactly up to the 36th doubling. */
  lemma DelayDoublesExactly(retries: nat)
    ensures DelayAfter(retries) == 100_000_000 * Pow2(retries) <==> retries <= 36
  {
    DelayIsWrapped(retries);
    Pow2Of(LAST_DOUBLING);
    if retries <= LAST_DOUBLING {
      Pow2Grows(retries, LAST_DOUBLING);
    } else {
      Pow2Grows(LAST_DOUBLING + 1, retries);
    }
  }

  lemma {:induction false} ZeroStays(m: nat, n: nat)
    requires m <= n && DelayAfter(m) == 0
    ensures DelayAfter(n) == 0
  {
    if m < n {
      ZeroStays(m, n - 1);
    }
  }

  /** One doubling before it vanishes the delay is the most negative 64-bit value. */
  lemma LastDelay(retries: nat)
    requires retries == VANISHING - 1
    ensures DelayAfter(retries) == -0x8000_0000_0000_0000 && DelayAfter(retries + 1) == 0
  {
    Pow2Of(retries);
    DelayIsWrapped(retries);
    WrapIsUnique(RETRY_INITIAL_DELAY * Pow2(retries), 195313, -0x8000_0000_0000_0000);
  }

  /**
   * The delay is 0 exactly from the 56th doubling on. The wait is then 0 as well, and only the advance of the clock
   * itself ends the retries: the budget, not the growing delay, is what bounds them.
   */
  lemma DelayVanishesExactly(retries: nat)
    ensures DelayAfter(retries) == 0 <==> 56 <= retries
  {
    LastDelay(VANISHING - 1);
    if VANISHING <= retries {
      ZeroStays(VANISHING, retries);
    } else if DelayAfter(retries) == 0 {
      ZeroStays(retries, VANISHING - 1);
    }
  }
}
