/** From the decision to the nodes: what a scale-up asks for can be placed in full. */
module ScaleUpPlacement {
  import opened GoInt
  import opened Scaling
  import opened Engine
  import opened EngineProperties
  import opened Kube
  import opened Fit
  import opened Placement

  /** The capacity the snapshot carries was calculated from this cluster, with a margin that is one. */
  predicate CapacityOf(fit: Int32, nodes: seq<Node>, pods: seq<Pod>, t: Target)
    requires t.Valid()
  {
    0 <= t.opts.marginPods && fit == Estimate(nodes, pods, t).fitCapacity
  }

  /**
   * Exactly which margins keep the capacity within the sum whatever the sum is, its 32-bit conversion included: all
   * that are not negative, and the one whose subtraction always wraps.
   */
  lemma MarginKeepsCapacityExactly(margin: Int32)
    ensures (forall raw: nat :: AfterMargin(Wrap32(raw), margin) <= raw) <==> 0 <= margin || margin == -0x8000_0000
  {
    if 0 <= margin || margin == -0x8000_0000 {
      forall raw: nat
        ensures AfterMargin(Wrap32(raw), margin) <= raw
      {
        MarginKeeps(raw, margin);
      }
    } else {
      var nothing: nat := 0;
      assert AfterMargin(Wrap32(nothing), margin) == -margin;
    }
  }

  lemma MarginKeeps(raw: nat, margin: Int32)
    ensures 0 <= margin && 0 < AfterMargin(Wrap32(raw), margin) ==> AfterMargin(Wrap32(raw), margin) <= raw - margin
    ensures 0 <= margin || margin == -0x8000_0000 ==> AfterMargin(Wrap32(raw), margin) <= raw
  {
  }

  /** A capacity is what the margin leaves of the sum, or less of it when the sum leaves 32 bits, or nothing. */
  lemma CapacityIsBacked(fit: Int32, nodes: seq<Node>, pods: seq<Pod>, t: Target)
    requires t.Valid() && CapacityOf(fit, nodes, pods, t) && 0 < fit
    ensures fit <= RawFit(nodes, pods, t) - t.opts.marginPods
  {
    RoomsAreNonNegative(nodes, pods, t);
    MarginKeeps(RawFit(nodes, pods, t), t.opts.marginPods);
  }

  /** A scale-up that raises the count adds no more than capacity covers. */
  lemma DeltaIsCovered(s: Snapshot, c: Config, now: int)
    requires s.CountsOk() && IsUp(Decide(s, c, now)) && s.currentReplicas < Decide(s, c, now).target
    ensures 0 < Decide(s, c, now).Delta() <= s.fitCapacity
  {
    HoldsMoveNothing(s, c, now);
    var gain := UpGain(s, c, now);
    UnwrappedSum(s.currentReplicas, gain);
  }

  lemma UnwrappedSum(current: Int32, gain: Int32)
    requires 0 <= current < Wrap32(current + gain) && 0 < gain
    ensures Wrap32(current + gain) == current + gain
  {
  }

  lemma GainHasAPlacement(gain: nat, fit: Int32, nodes: seq<Node>, pods: seq<Pod>, t: Target)
    returns (sites: seq<string>)
    requires t.Valid() && Distinct(nodes) && CapacityOf(fit, nodes, pods, t) && 0 < gain <= fit
    ensures |sites| == gain && Feasible(nodes, pods, t, sites)
    ensures RawFit(nodes, Placed(pods, t, sites), t) >= t.opts.marginPods
  {
    CapacityIsBacked(fit, nodes, pods, t);
    sites := PlaceMany(nodes, pods, t, gain);
    FeasibleCosts(nodes, pods, t, sites);
  }

  /** Some placement of every new replica respects every node's limits, and leaves the margin unused. */
  lemma ScaleUpHasAPlacement(s: Snapshot, c: Config, now: int, nodes: seq<Node>, pods: seq<Pod>, t: Target)
    returns (sites: seq<string>)
    requires t.Valid() && Distinct(nodes) && s.CountsOk() && IsUp(Decide(s, c, now))
    requires s.currentReplicas < Decide(s, c, now).target
    requires CapacityOf(s.fitCapacity, nodes, pods, t)
    ensures |sites| == Decide(s, c, now).Delta() && Feasible(nodes, pods, t, sites)
    ensures RawFit(nodes, Placed(pods, t, sites), t) >= t.opts.marginPods
  {
    DeltaIsCovered(s, c, now);
    sites := GainHasAPlacement(Decide(s, c, now).Delta(), s.fitCapacity, nodes, pods, t);
  }

  lemma GainNeverGetsStuck(gain: nat, fit: Int32, nodes: seq<Node>, pods: seq<Pod>, t: Target, sites: seq<string>)
    returns (k: nat)
    requires t.Valid() && Distinct(nodes) && CapacityOf(fit, nodes, pods, t) && 0 < gain <= fit
    requires forall w :: w in sites ==> w != ""
    requires |sites| < gain + t.opts.marginPods
    ensures k < |nodes| && Hosts(nodes[k], Placed(pods, t, sites + [nodes[k].name]), t)
  {
    CapacityIsBacked(fit, nodes, pods, t);
    k := SchedulerNeverStuck(nodes, pods, t, sites);
  }

  /**
   * Wherever the scheduler has already put some of the new replicas, and even if other pods of the same shape
   * took up to the margin meanwhile, some node still takes the next one.
   */
  lemma ScaleUpNeverGetsStuck(s: Snapshot, c: Config, now: int, nodes: seq<Node>, pods: seq<Pod>, t: Target,
                              sites: seq<string>)
    returns (k: nat)
    requires t.Valid() && Distinct(nodes) && s.CountsOk() && IsUp(Decide(s, c, now))
    requires s.currentReplicas < Decide(s, c, now).target
    requires CapacityOf(s.fitCapacity, nodes, pods, t)
    requires forall w :: w in sites ==> w != ""
    requires |sites| < Decide(s, c, now).Delta() + t.opts.marginPods
    ensures k < |nodes| && Hosts(nodes[k], Placed(pods, t, sites + [nodes[k].name]), t)
  {
    DeltaIsCovered(s, c, now);
    k := GainNeverGetsStuck(Decide(s, c, now).Delta(), s.fitCapacity, nodes, pods, t, sites);
  }
}
