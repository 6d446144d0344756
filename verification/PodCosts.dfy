/** The deletion cost of each Ready pod, from its own outstanding work: all of them or none. */
module PodCosts {
  import opened GoInt
  import opened Wrappers
  import opened IntText
  import opened DeletionCost

  /** annotation is the deletion cost the pod carries. */
  datatype TargetPod = TargetPod(name: string, ip: string, deleting: bool, ready: bool, annotation: Option<string>) {
    predicate Ordered() {
      !deleting && ready
    }
  }

  datatype PodCost = PodCost(pod: string, cost: Int32, changed: bool)

  datatype CostsResult = Costs(costs: seq<PodCost>) | NoPerPodWork | NotScraped(pod: string) | NoReadyPods

  type Work = map<string, Int64>

  predicate Known(p: TargetPod, work: Work) {
    p.ip != "" && p.ip in work
  }

  function CostOf(work: Int64): Int32 {
    Min(Max(work, 0), MAX_INT32)
  }

  function ReadyPods(pods: seq<TargetPod>): seq<TargetPod> {
    if pods == [] then []
    else
      var p := pods[|pods| - 1];
      ReadyPods(pods[..|pods| - 1]) + if p.Ordered() then [p] else []
  }

  predicate AllKnown(pods: seq<TargetPod>, work: Work) {
    forall k :: 0 <= k < |pods| ==> Known(pods[k], work)
  }

  /** One cost for every pod, in order; changed says that the pod carries another value. */
  predicate CostsMatch(pods: seq<TargetPod>, work: Work, costs: seq<PodCost>) {
    && |costs| == |pods|
    && AllKnown(pods, work)
    && forall k :: 0 <= k < |pods| ==>
         && costs[k].pod == pods[k].name
         && costs[k].cost == CostOf(work[pods[k].ip])
         && (costs[k].changed <==> pods[k].annotation != Some(FormatInt(costs[k].cost)))
  }

  method DeletionCosts(pods: seq<TargetPod>, work: Option<Work>) returns (r: CostsResult)
    ensures r.NoPerPodWork? <==> work.None?
    ensures r.Costs? <==> work.Some? && ReadyPods(pods) != [] && AllKnown(ReadyPods(pods), work.value)
    ensures r.Costs? ==> CostsMatch(ReadyPods(pods), work.value, r.costs)
    ensures r.NotScraped? ==>
              work.Some? && exists p :: p in pods && p.Ordered() && !Known(p, work.value) && p.name == r.pod
    ensures r.NoReadyPods? <==> work.Some? && ReadyPods(pods) == []
  {
    if work.None? {
      return NoPerPodWork;
    }
    var costs: seq<PodCost> := [];
    for i := 0 to |pods|
      invariant CostsMatch(ReadyPods(pods[..i]), work.value, costs)
    {
      assert pods[..i + 1][..i] == pods[..i];
      var pod := pods[i];
      if pod.deleting || !pod.ready {
        continue;
      }
      if pod.ip == "" || pod.ip !in work.value {
        UnknownStays(pods, i, work.value);
        return NotScraped(pod.name);
      }
      var cost: Int32 := Min(Max(work.value[pod.ip], 0), MAX_INT32);
      FormatNatNotEmpty(cost);
      costs := costs + [PodCost(pod.name, cost, pod.annotation.GetOr("") != FormatInt(cost))];
    }
    assert pods[..|pods|] == pods;
    if |costs| == 0 {
      return NoReadyPods;
    }
    return Costs(costs);
  }

  lemma FormatNatNotEmpty(n: nat)
    ensures FormatInt(n) != ""
  {
  }

  lemma {:induction false} ReadyPrefix(pods: seq<TargetPod>, i: nat)
    requires i <= |pods|
    ensures ReadyPods(pods[..i]) <= ReadyPods(pods)
  {
    if i < |pods| {
      var n := |pods| - 1;
      ReadyPrefix(pods[..n], i);
      assert pods[..n][..i] == pods[..i];
    } else {
      assert pods[..i] == pods;
    }
  }

  lemma UnknownStays(pods: seq<TargetPod>, i: nat, work: Work)
    requires i < |pods| && pods[i].Ordered() && !Known(pods[i], work)
    ensures ReadyPods(pods) != [] && !AllKnown(ReadyPods(pods), work)
  {
    ReadyPrefix(pods, i + 1);
    assert pods[..i + 1][..i] == pods[..i];
    var k := |ReadyPods(pods[..i])|;
    assert ReadyPods(pods[..i + 1])[k] == pods[i];
    assert ReadyPods(pods)[k] == pods[i];
  }

  /** The pods that get a cost are those that are Ready and stay. */
  lemma {:induction false} ReadyExactly(pods: seq<TargetPod>, p: TargetPod)
    ensures p in ReadyPods(pods) <==> p in pods && p.ready && !p.deleting
  {
    if pods != [] {
      ReadyExactly(pods[..|pods| - 1], p);
      assert pods == pods[..|pods| - 1] + [pods[|pods| - 1]];
    }
  }

  /** A cost is the pod's own outstanding work, reported under its address, as far as a 32-bit cost can hold it. */
  lemma CostIsWork(pods: seq<TargetPod>, work: Work, costs: seq<PodCost>, i: nat)
    requires CostsMatch(pods, work, costs) && i < |pods|
    ensures pods[i].ip != "" && pods[i].ip in work
    ensures 0 <= work[pods[i].ip] <= MAX_INT32 ==> costs[i].cost == work[pods[i].ip]
    ensures work[pods[i].ip] < 0 ==> costs[i].cost == 0
    ensures MAX_INT32 < work[pods[i].ip] ==> costs[i].cost == 0x7fff_ffff
  {
    assert Known(pods[i], work) && costs[i].cost == CostOf(work[pods[i].ip]);
  }

  /** The costs order the pods as their work does, and tell apart any two amounts a cost can hold. */
  lemma CostsFollowWork(pods: seq<TargetPod>, work: Work, costs: seq<PodCost>, i: nat, j: nat)
    requires CostsMatch(pods, work, costs) && i < |pods| && j < |pods|
    ensures work[pods[i].ip] <= work[pods[j].ip] ==> costs[i].cost <= costs[j].cost
    ensures 0 <= work[pods[i].ip] < work[pods[j].ip] && work[pods[i].ip] < MAX_INT32 ==> costs[i].cost < costs[j].cost
    ensures 0 <= costs[i].cost
  {
    assert costs[i].cost == CostOf(work[pods[i].ip]) && costs[j].cost == CostOf(work[pods[j].ip]);
  }

  /** Patching a pod with its cost settles it: the next pass over the same work leaves it alone. */
  lemma WrittenCostIsSettled(pods: seq<TargetPod>, work: Work, costs: seq<PodCost>, again: seq<PodCost>, k: nat)
    requires CostsMatch(pods, work, costs) && k < |pods|
    requires CostsMatch(pods[k := pods[k].(annotation := Some(FormatInt(costs[k].cost)))], work, again)
    ensures !again[k].changed
    ensures forall i :: 0 <= i < |pods| && i != k ==> again[i] == costs[i]
  {
    var pods' := pods[k := pods[k].(annotation := Some(FormatInt(costs[k].cost)))];
    assert pods'[k].ip == pods[k].ip && costs[k].cost == CostOf(work[pods[k].ip]);
    forall i | 0 <= i < |pods| && i != k
      ensures again[i] == costs[i]
    {
      assert pods'[i] == pods[i];
    }
  }
}
