/** The capacity estimate as a packing theorem: what it counts can really be placed, in any order, and no more. */
module Placement {
  import opened GoInt
  import opened Wrappers
  import opened Kube
  import opened Sums
  import opened PodRequests
  import opened Candidates
  import opened Fit
  import opened Marks
  import opened NodeOrder

  // ---- Placing pods of the target's shape

  function NewPod(t: Target, name: string): Pod {
    Pod(name, Pending, t.spec)
  }

  /** The cluster's pods after placing one pod of the target on each node named in `sites`, in order. */
  function Placed(pods: seq<Pod>, t: Target, sites: seq<string>): seq<Pod> {
    if sites == [] then pods else Placed(pods, t, sites[..|sites| - 1]) + [NewPod(t, sites[|sites| - 1])]
  }

  /** A pod holds what it has requested, and a slot, from its assignment to a node until it has finished. */
  predicate Occupies(p: Pod, name: string) {
    p.nodeName == name != "" && match p.phase case Pending | Running | Unknown => true case Succeeded | Failed => false
  }

  /** What the pods that occupy a node have requested of it. */
  function Held(pods: seq<Pod>, name: string, dim: Dimension): int {
    if pods == [] then 0
    else
      var p := pods[|pods| - 1];
      Held(pods[..|pods| - 1], name, dim) + if Occupies(p, name) then Amount(PodRequest(p.spec), dim) else 0
  }

  function Occupants(pods: seq<Pod>, name: string): nat {
    if pods == [] then 0
    else Occupants(pods[..|pods| - 1], name) + if Occupies(pods[|pods| - 1], name) then 1 else 0
  }

  /** The node may host the target, and what its pods hold respects its CPU, memory, reserve and pod slots. */
  predicate Hosts(node: Node, pods: seq<Pod>, t: Target) {
    && StaticExclusion(node, t.spec, t.opts, t.now).None?
    && Held(pods, node.name, Cpu) + t.opts.reserve.cpu <= node.allocatable.cpu
    && Held(pods, node.name, Memory) + t.opts.reserve.memory <= node.allocatable.memory
    && Occupants(pods, node.name) <= node.allocatablePods
  }

  lemma SumOnLast(pods: seq<Pod>, name: string, f: Pod -> int)
    requires pods != []
    ensures var p, before := pods[|pods| - 1], pods[..|pods| - 1];
            Sum(PodsOn(pods, name), f) == Sum(PodsOn(before, name), f) + if p.nodeName == name != "" then f(p) else 0
  {
    var p, before := pods[|pods| - 1], pods[..|pods| - 1];
    SumPush(PodsOn(before, name), p, f);
    assert PodsOn(before, name) + [] == PodsOn(before, name);
  }

  lemma {:induction false} ChargeIsHeld(pods: seq<Pod>, name: string, dim: Dimension)
    ensures Sum(PodsOn(pods, name), Charge(dim)) == Held(pods, name, dim)
  {
    if pods != [] {
      ChargeIsHeld(pods[..|pods| - 1], name, dim);
      SumOnLast(pods, name, Charge(dim));
    }
  }

  lemma {:induction false} SlotsAreOccupied(pods: seq<Pod>, name: string)
    ensures Sum(PodsOn(pods, name), SLOT) == Occupants(pods, name)
  {
    if pods != [] {
      SlotsAreOccupied(pods[..|pods| - 1], name);
      SumOnLast(pods, name, SLOT);
    }
  }

  /** The charges that the estimate sums are what the pods hold. */
  lemma ChargesAreHeld(pods: seq<Pod>, name: string)
    ensures Sum(PodsOn(pods, name), Charge(Cpu)) == Held(pods, name, Cpu)
    ensures Sum(PodsOn(pods, name), Charge(Memory)) == Held(pods, name, Memory)
    ensures Sum(PodsOn(pods, name), SLOT) == Occupants(pods, name)
  {
    ChargeIsHeld(pods, name, Cpu);
    ChargeIsHeld(pods, name, Memory);
    SlotsAreOccupied(pods, name);
  }

  predicate Distinct(nodes: seq<Node>) {
    && (forall i, j :: 0 <= i < j < |nodes| ==> nodes[i].name != nodes[j].name)
    && (forall i :: 0 <= i < |nodes| ==> nodes[i].name != "")
  }

  predicate Names(nodes: seq<Node>, name: string) {
    exists i :: 0 <= i < |nodes| && nodes[i].name == name
  }

  /** Placing one pod on each named node leaves every one of those nodes within its limits. */
  predicate Feasible(nodes: seq<Node>, pods: seq<Pod>, t: Target, sites: seq<string>) {
    && (forall w :: w in sites ==> Names(nodes, w))
    && (forall i :: 0 <= i < |nodes| && nodes[i].name in sites ==> Hosts(nodes[i], Placed(pods, t, sites), t))
  }

  // ---- One placement on one node

  /** One more pod takes its request and a slot from the node it is assigned to while it occupies it, else nothing. */
  lemma OneMorePod(pods: seq<Pod>, p: Pod, name: string)
    ensures var pods' := pods + [p];
            && Held(pods', name, Cpu)
               == Held(pods, name, Cpu) + (if Occupies(p, name) then PodRequest(p.spec).cpu else 0)
            && Held(pods', name, Memory)
               == Held(pods, name, Memory) + (if Occupies(p, name) then PodRequest(p.spec).memory else 0)
            && Occupants(pods', name) == Occupants(pods, name) + if Occupies(p, name) then 1 else 0
  {
    assert (pods + [p])[..|pods|] == pods;
  }

  lemma DivStep(a: int, r: int)
    requires r > 0
    ensures a >= r ==> (a - r) / r == a / r - 1
    ensures 0 <= a ==> (a / r >= 1 <==> a >= r)
    ensures 0 <= a ==> a / r >= 0
  {
    assert a == r * (a / r) + a % r;
    if a >= r {
      assert a - r == r * (a / r - 1) + a % r;
      DivUnique(a - r, r, a / r - 1, a % r);
      QuotientSign(a - r, r);
    } else if 0 <= a {
      DivUnique(a, r, 0, a);
    }
  }

  lemma QuotientSign(a: int, r: int)
    requires r > 0 && a >= 0
    ensures a / r >= 0
  {
  }

  lemma DivUnique(a: int, r: int, q: int, m: int)
    requires r > 0 && a == r * q + m && 0 <= m < r
    ensures a / r == q
  {
    assert a == r * (a / r) + a % r;
    assert r * (a / r - q) == m - a % r;
    SmallMultiple(r, a / r - q);
  }

  lemma SmallMultiple(r: int, d: int)
    requires -r < r * d < r
    ensures d == 0
  {
    if d > 0 {
      Scale(1, d, r);
    } else if d < 0 {
      Scale(d, -1, r);
    }
  }

  /** The estimate for one node as a function of what is left of it; negative means overcommitted. */
  function FitLeft(cpu: int, memory: int, slots: int, req: Request): int
    requires req.cpu > 0 && req.memory > 0
  {
    if slots <= 0 then 0 else FitOn(Max(cpu, 0), Max(memory, 0), slots, req)
  }

  function CpuLeft(node: Node, pods: seq<Pod>, t: Target): int {
    node.allocatable.cpu - Held(pods, node.name, Cpu) - t.opts.reserve.cpu
  }

  function MemoryLeft(node: Node, pods: seq<Pod>, t: Target): int {
    node.allocatable.memory - Held(pods, node.name, Memory) - t.opts.reserve.memory
  }

  function SlotsLeft(node: Node, pods: seq<Pod>): int {
    node.allocatablePods - Occupants(pods, node.name)
  }

  predicate Excluded(node: Node, t: Target) {
    StaticExclusion(node, t.spec, t.opts, t.now).Some?
  }

  function RoomLeft(excluded: bool, cpu: int, memory: int, slots: int, req: Request): int
    requires req.cpu > 0 && req.memory > 0
  {
    if excluded then 0 else FitLeft(cpu, memory, slots, req)
  }

  predicate WithinLimits(excluded: bool, cpu: int, memory: int, slots: int) {
    !excluded && cpu >= 0 && memory >= 0 && slots >= 0
  }

  lemma RoomIsLeft(node: Node, pods: seq<Pod>, t: Target)
    requires t.Valid()
    ensures var cpu, memory, slots := CpuLeft(node, pods, t), MemoryLeft(node, pods, t), SlotsLeft(node, pods);
            && Room(node, pods, t) == RoomLeft(Excluded(node, t), cpu, memory, slots, t.Req())
            && (Hosts(node, pods, t) <==> WithinLimits(Excluded(node, t), cpu, memory, slots))
  {
    ChargesAreHeld(pods, node.name);
  }

  /**
   * A pod assigned to a node takes its request and a slot from what is left there while it is Pending, Running or
   * Unknown, and nothing once it has Succeeded or Failed; to the estimate as to the scheduler.
   */
  lemma PodsHoldTheirNodes(node: Node, pods: seq<Pod>, p: Pod, t: Target)
    requires t.Valid() && p.nodeName == node.name != ""
    ensures var pods' := pods + [p];
            var holds := p.phase.Pending? || p.phase.Running? || p.phase.Unknown?;
            var cpu := CpuLeft(node, pods, t) - if holds then PodRequest(p.spec).cpu else 0;
            var memory := MemoryLeft(node, pods, t) - if holds then PodRequest(p.spec).memory else 0;
            var slots := SlotsLeft(node, pods) - if holds then 1 else 0;
            && Room(node, pods', t) == RoomLeft(Excluded(node, t), cpu, memory, slots, t.Req())
            && (Hosts(node, pods', t) <==> WithinLimits(Excluded(node, t), cpu, memory, slots))
  {
    LeftBy(node, pods, p, t);
    RoomIsLeft(node, pods + [p], t);
  }

  lemma LeftBy(node: Node, pods: seq<Pod>, p: Pod, t: Target)
    requires p.nodeName == node.name != ""
    ensures var pods' := pods + [p];
            var holds := p.phase.Pending? || p.phase.Running? || p.phase.Unknown?;
            && CpuLeft(node, pods', t) == CpuLeft(node, pods, t) - (if holds then PodRequest(p.spec).cpu else 0)
            && MemoryLeft(node, pods', t)
               == MemoryLeft(node, pods, t) - (if holds then PodRequest(p.spec).memory else 0)
            && SlotsLeft(node, pods') == SlotsLeft(node, pods) - (if holds then 1 else 0)
  {
    OneMorePod(pods, p, node.name);
  }

  lemma FitLeftStep(cpu: int, memory: int, slots: int, req: Request)
    requires req.cpu > 0 && req.memory > 0
    ensures var before := FitLeft(cpu, memory, slots, req);
            var after := FitLeft(cpu - req.cpu, memory - req.memory, slots - 1, req);
            && (before >= 1 <==> cpu >= req.cpu && memory >= req.memory && slots >= 1)
            && after == (if before >= 1 then before - 1 else 0)
            && before >= 0
  {
    DivStep(Max(cpu, 0), req.cpu);
    DivStep(Max(memory, 0), req.memory);
    DivStep(Max(cpu - req.cpu, 0), req.cpu);
    DivStep(Max(memory - req.memory, 0), req.memory);
  }

  /** A pod placed elsewhere changes nothing on this node. */
  lemma PlaceElsewhere(node: Node, pods: seq<Pod>, t: Target, at: string)
    requires t.Valid() && at != "" && at != node.name
    ensures var pods' := pods + [NewPod(t, at)];
            Room(node, pods', t) == Room(node, pods, t) && (Hosts(node, pods', t) <==> Hosts(node, pods, t))
  {
    OneMorePod(pods, NewPod(t, at), node.name);
    RoomIsLeft(node, pods, t);
    RoomIsLeft(node, pods + [NewPod(t, at)], t);
  }

  /** The arithmetic of one placement: what is left before it decides both whether it fits and what room remains. */
  lemma RoomStep(excluded: bool, cpu: int, memory: int, slots: int, req: Request)
    requires req.cpu > 0 && req.memory > 0
    ensures var room := RoomLeft(excluded, cpu, memory, slots, req);
            var cpu', memory', slots' := cpu - req.cpu, memory - req.memory, slots - 1;
            && (WithinLimits(excluded, cpu', memory', slots') <==> room >= 1)
            && RoomLeft(excluded, cpu', memory', slots', req) == Max(room - 1, 0)
            && (WithinLimits(excluded, cpu', memory', slots') ==> WithinLimits(excluded, cpu, memory, slots))
  {
    FitLeftStep(cpu, memory, slots, req);
  }

  lemma RoomAfterCharge(node: Node, pods: seq<Pod>, pods': seq<Pod>, t: Target)
    requires t.Valid()
    requires CpuLeft(node, pods', t) == CpuLeft(node, pods, t) - t.Req().cpu
    requires MemoryLeft(node, pods', t) == MemoryLeft(node, pods, t) - t.Req().memory
    requires SlotsLeft(node, pods') == SlotsLeft(node, pods) - 1
    ensures (Hosts(node, pods', t) <==> Room(node, pods, t) >= 1)
    ensures Room(node, pods', t) == Max(Room(node, pods, t) - 1, 0)
    ensures Hosts(node, pods', t) ==> Hosts(node, pods, t)
  {
    RoomIsLeft(node, pods, t);
    RoomIsLeft(node, pods', t);
    RoomStep(Excluded(node, t), CpuLeft(node, pods, t), MemoryLeft(node, pods, t), SlotsLeft(node, pods), t.Req());
  }

  /** A node takes one more pod within its limits exactly when its room is positive; the pod uses up one of it. */
  lemma PlaceHere(node: Node, pods: seq<Pod>, t: Target)
    requires t.Valid() && node.name != ""
    ensures var pods' := pods + [NewPod(t, node.name)];
            && (Hosts(node, pods', t) <==> Room(node, pods, t) >= 1)
            && Room(node, pods', t) == Max(Room(node, pods, t) - 1, 0)
            && (Hosts(node, pods', t) ==> Hosts(node, pods, t))
  {
    LeftBy(node, pods, NewPod(t, node.name), t);
    RoomAfterCharge(node, pods, pods + [NewPod(t, node.name)], t);
  }

  // ---- One placement and the whole sum

  lemma {:induction false} SumUnchanged(nodes: seq<Node>, pods: seq<Pod>, t: Target, at: string)
    requires t.Valid() && at != "" && !Names(nodes, at)
    ensures RawFit(nodes, pods + [NewPod(t, at)], t) == RawFit(nodes, pods, t)
  {
    var pods' := pods + [NewPod(t, at)];
    forall n | n in nodes
      ensures Room(n, pods', t) == Room(n, pods, t)
    {
      PlaceElsewhere(n, pods, t, at);
    }
    SumCongruence(nodes, (n: Node) => Room(n, pods', t), (n: Node) => Room(n, pods, t));
  }

  /** A placement on node k changes that node's term alone. */
  lemma SumAfter(nodes: seq<Node>, pods: seq<Pod>, t: Target, k: nat)
    requires t.Valid() && Distinct(nodes) && k < |nodes|
    ensures RawFit(nodes, pods + [NewPod(t, nodes[k].name)], t)
            == RawFit(nodes, pods, t) - (if Room(nodes[k], pods, t) >= 1 then 1 else 0)
  {
    var at := nodes[k].name;
    var pods' := pods + [NewPod(t, at)];
    SumSplit(nodes, k, (n: Node) => Room(n, pods, t));
    SumSplit(nodes, k, (n: Node) => Room(n, pods', t));
    SumUnchanged(nodes[..k], pods, t, at);
    SumUnchanged(nodes[k + 1..], pods, t, at);
    PlaceHere(nodes[k], pods, t);
    RoomIsNonNegative(nodes[k], pods, t);
  }

  lemma RoomIsNonNegative(node: Node, pods: seq<Pod>, t: Target)
    requires t.Valid()
    ensures Room(node, pods, t) >= 0
  {
  }

  /** Each placement of a target pod, on any node at all, lowers the recomputed sum by at most one. */
  lemma PlacementCostsAtMostOne(nodes: seq<Node>, pods: seq<Pod>, t: Target, at: string)
    requires t.Valid() && Distinct(nodes) && at != ""
    ensures RawFit(nodes, pods, t) - 1 <= RawFit(nodes, pods + [NewPod(t, at)], t) <= RawFit(nodes, pods, t)
  {
    if k: nat :| k < |nodes| && nodes[k].name == at {
      SumAfter(nodes, pods, t, k);
    } else {
      SumUnchanged(nodes, pods, t, at);
    }
  }

  lemma {:induction false} PlacementsCostAtMostOneEach(nodes: seq<Node>, pods: seq<Pod>, t: Target, sites: seq<string>)
    requires t.Valid() && Distinct(nodes) && forall w :: w in sites ==> w != ""
    ensures RawFit(nodes, Placed(pods, t, sites), t) >= RawFit(nodes, pods, t) - |sites|
  {
    if sites != [] {
      var n := |sites| - 1;
      assert sites[n] in sites;
      assert forall w :: w in sites[..n] ==> w in sites;
      PlacementsCostAtMostOneEach(nodes, pods, t, sites[..n]);
      PlacementCostsAtMostOne(nodes, Placed(pods, t, sites[..n]), t, sites[n]);
    }
  }

  /**
   * A scheduler that places pods one at a time, on whatever nodes and in whatever order, never gets stuck before
   * RawFit of them are placed: some node still takes the next one within its limits.
   */
  lemma SchedulerNeverStuck(nodes: seq<Node>, pods: seq<Pod>, t: Target, sites: seq<string>) returns (k: nat)
    requires t.Valid() && Distinct(nodes) && forall w :: w in sites ==> w != ""
    requires |sites| < RawFit(nodes, pods, t)
    ensures k < |nodes|
    ensures Hosts(nodes[k], Placed(pods, t, sites + [nodes[k].name]), t)
  {
    PlacementsCostAtMostOneEach(nodes, pods, t, sites);
    var now := Placed(pods, t, sites);
    k := PositiveTerm(nodes, (n: Node) => Room(n, now, t));
    PlaceHere(nodes[k], now, t);
    assert (sites + [nodes[k].name])[..|sites|] == sites;
  }

  // ---- Exactly RawFit pods can be placed

  /** A feasible placement stays feasible without its last pod, whose node had room for it. */
  lemma FeasibleWithoutLast(nodes: seq<Node>, pods: seq<Pod>, t: Target, sites: seq<string>) returns (k: nat)
    requires t.Valid() && Distinct(nodes) && sites != [] && Feasible(nodes, pods, t, sites)
    ensures var n := |sites| - 1;
            && Feasible(nodes, pods, t, sites[..n])
            && k < |nodes| && nodes[k].name == sites[n]
            && Room(nodes[k], Placed(pods, t, sites[..n]), t) >= 1
  {
    var n := |sites| - 1;
    var before := Placed(pods, t, sites[..n]);
    assert sites[n] in sites && Names(nodes, sites[n]);
    k :| 0 <= k < |nodes| && nodes[k].name == sites[n];
    PlaceHere(nodes[k], before, t);
    forall i | 0 <= i < |nodes| && nodes[i].name in sites[..n]
      ensures Hosts(nodes[i], before, t)
    {
      assert nodes[i].name in sites;
      if i != k {
        PlaceElsewhere(nodes[i], before, t, sites[n]);
      }
    }
  }

  lemma {:induction false} FeasibleCosts(nodes: seq<Node>, pods: seq<Pod>, t: Target, sites: seq<string>)
    requires t.Valid() && Distinct(nodes) && Feasible(nodes, pods, t, sites)
    ensures RawFit(nodes, Placed(pods, t, sites), t) == RawFit(nodes, pods, t) - |sites|
  {
    if sites != [] {
      var n := |sites| - 1;
      var k := FeasibleWithoutLast(nodes, pods, t, sites);
      FeasibleCosts(nodes, pods, t, sites[..n]);
      SumAfter(nodes, Placed(pods, t, sites[..n]), t, k);
    }
  }

  lemma FeasibleExtends(nodes: seq<Node>, pods: seq<Pod>, t: Target, sites: seq<string>, k: nat)
    requires t.Valid() && Distinct(nodes) && Feasible(nodes, pods, t, sites) && k < |nodes|
    requires Hosts(nodes[k], Placed(pods, t, sites + [nodes[k].name]), t)
    ensures Feasible(nodes, pods, t, sites + [nodes[k].name])
  {
    var longer := sites + [nodes[k].name];
    var before := Placed(pods, t, sites);
    assert longer[..|sites|] == sites;
    forall i | 0 <= i < |nodes| && nodes[i].name in longer
      ensures Hosts(nodes[i], Placed(pods, t, longer), t)
    {
      if i != k {
        assert nodes[i].name in sites;
        PlaceElsewhere(nodes[i], before, t, nodes[k].name);
      }
    }
  }

  lemma {:induction false} PlaceMany(nodes: seq<Node>, pods: seq<Pod>, t: Target, n: nat) returns (sites: seq<string>)
    requires t.Valid() && Distinct(nodes) && n <= RawFit(nodes, pods, t)
    ensures |sites| == n && Feasible(nodes, pods, t, sites)
  {
    if n == 0 {
      sites := [];
    } else {
      sites := PlaceMany(nodes, pods, t, n - 1);
      assert forall w :: w in sites ==> Names(nodes, w);
      var k := SchedulerNeverStuck(nodes, pods, t, sites);
      FeasibleExtends(nodes, pods, t, sites, k);
      sites := sites + [nodes[k].name];
    }
  }

  /** n pods of the target's shape can be placed within every node's limits if and only if n <= RawFit. */
  lemma PlaceableExactly(nodes: seq<Node>, pods: seq<Pod>, t: Target, n: nat)
    requires t.Valid() && Distinct(nodes)
    ensures (exists sites :: |sites| == n && Feasible(nodes, pods, t, sites)) <==> n <= RawFit(nodes, pods, t)
  {
    if n <= RawFit(nodes, pods, t) {
      var sites := PlaceMany(nodes, pods, t, n);
      assert Feasible(nodes, pods, t, sites);
    } else if sites :| |sites| == n && Feasible(nodes, pods, t, sites) {
      FeasibleCosts(nodes, pods, t, sites);
      RoomsAreNonNegative(nodes, Placed(pods, t, sites), t);
    }
  }

  /** A template whose request validates is one the packing theorem holds for. */
  lemma AcceptedTemplatePacks(spec: PodSpec, opts: Options, now: int, nodes: seq<Node>, pods: seq<Pod>, n: nat)
    requires EffectivePodRequest(spec).Effective? && Distinct(nodes)
    ensures var t := Target(spec, opts, now);
            && t.Valid()
            && ((exists sites :: |sites| == n && Feasible(nodes, pods, t, sites)) <==> n <= RawFit(nodes, pods, t))
  {
    PlaceableExactly(nodes, pods, Target(spec, opts, now), n);
  }

  // ---- What the estimate reports of each node

  lemma {:induction false} TourReports(nodes: seq<Node>, pods: seq<Pod>, t: Target, f: NodeFit)
    requires t.Valid()
    ensures f in Toured(nodes, pods, t).fits <==>
              exists n :: n in nodes && Judge(n, PodsOn(pods, n.name), t) == Candidate(f)
  {
    if nodes != [] {
      var n := nodes[|nodes| - 1];
      TourReports(nodes[..|nodes| - 1], pods, t, f);
      assert nodes == nodes[..|nodes| - 1] + [n];
      if f in Toured(nodes, pods, t).fits && f !in Toured(nodes[..|nodes| - 1], pods, t).fits {
        assert Judge(n, PodsOn(pods, n.name), t) == Candidate(f);
      }
    }
  }

  /** A node is a candidate when the target may be scheduled onto it and a slot is left there. */
  predicate IsCandidate(n: Node, pods: seq<Pod>, t: Target) {
    !Excluded(n, t) && 0 < SlotsLeft(n, pods)
  }

  /** What is reported of a candidate: what its pods hold, what is left, how many pods that takes, and what runs out. */
  predicate Describes(f: NodeFit, n: Node, pods: seq<Pod>, t: Target)
    requires t.Valid()
  {
    && f.name == n.name && f.allocatable == n.allocatable
    && f.requested == Request(Held(pods, n.name, Cpu), Held(pods, n.name, Memory))
    && f.free == Request(Max(CpuLeft(n, pods, t), 0), Max(MemoryLeft(n, pods, t), 0))
    && f.freeSlots == SlotsLeft(n, pods)
    && f.fit == Wrap32(Room(n, pods, t))
    && f.binding == Scarcest(f.free.cpu / t.Req().cpu, f.free.memory / t.Req().memory, f.freeSlots)
  }

  lemma JudgeDescribes(n: Node, pods: seq<Pod>, t: Target, f: NodeFit)
    requires t.Valid()
    ensures Judge(n, PodsOn(pods, n.name), t) == Candidate(f) <==> IsCandidate(n, pods, t) && Describes(f, n, pods, t)
  {
    ChargesAreHeld(pods, n.name);
  }

  /** The report lists exactly the candidates, each with what it offers. */
  lemma CandidatesAreReported(nodes: seq<Node>, pods: seq<Pod>, t: Target, f: NodeFit)
    requires t.Valid()
    ensures f in Estimate(nodes, pods, t).nodes <==>
              exists n :: n in nodes && IsCandidate(n, pods, t) && Describes(f, n, pods, t)
  {
    var ordered := SortedByName(nodes);
    SortedByNameSorts(nodes);
    TourReports(ordered, pods, t, f);
    forall n
      ensures n in ordered <==> n in nodes
      ensures Judge(n, PodsOn(pods, n.name), t) == Candidate(f) <==> IsCandidate(n, pods, t) && Describes(f, n, pods, t)
    {
      assert n in ordered <==> n in multiset(ordered);
      assert n in nodes <==> n in multiset(nodes);
      JudgeDescribes(n, pods, t, f);
    }
  }

  // ---- Order independence

  lemma {:induction false} SumOn(pods: seq<Pod>, name: string, f: Pod -> int)
    ensures Sum(PodsOn(pods, name), f)
            == Sum(pods, (p: Pod) => if p.nodeName != "" && p.nodeName == name then f(p) else 0)
  {
    if pods != [] {
      var n := |pods| - 1;
      SumOn(pods[..n], name, f);
      SumPush(PodsOn(pods[..n], name), pods[n], f);
      assert PodsOn(pods[..n], name) + [] == PodsOn(pods[..n], name);
    }
  }

  lemma ChargesIgnoreOrder(pods: seq<Pod>, others: seq<Pod>, name: string, f: Pod -> int)
    requires multiset(pods) == multiset(others)
    ensures Sum(PodsOn(pods, name), f) == Sum(PodsOn(others, name), f)
  {
    SumOn(pods, name, f);
    SumOn(others, name, f);
    SumPermutation(pods, others, (p: Pod) => if p.nodeName != "" && p.nodeName == name then f(p) else 0);
  }

  lemma FreeIgnoresOrder(node: Node, pods: seq<Pod>, others: seq<Pod>, opts: Options, dim: Dimension)
    requires multiset(pods) == multiset(others)
    ensures Free(node, PodsOn(pods, node.name), opts, dim) == Free(node, PodsOn(others, node.name), opts, dim)
    ensures FreeSlots(node, PodsOn(pods, node.name)) == FreeSlots(node, PodsOn(others, node.name))
    ensures Sum(PodsOn(pods, node.name), Charge(dim)) == Sum(PodsOn(others, node.name), Charge(dim))
  {
    ChargesIgnoreOrder(pods, others, node.name, Charge(dim));
    ChargesIgnoreOrder(pods, others, node.name, SLOT);
  }

  lemma RoomIgnoresOrder(node: Node, pods: seq<Pod>, others: seq<Pod>, t: Target)
    requires t.Valid() && multiset(pods) == multiset(others)
    ensures Room(node, pods, t) == Room(node, others, t)
  {
    FreeIgnoresOrder(node, pods, others, t.opts, Cpu);
    FreeIgnoresOrder(node, pods, others, t.opts, Memory);
  }

  /** The estimate depends on the nodes and pods, not on the order in which the caches list them. */
  lemma RawFitIgnoresOrder(nodes: seq<Node>, otherNodes: seq<Node>, pods: seq<Pod>, otherPods: seq<Pod>, t: Target)
    requires t.Valid() && multiset(nodes) == multiset(otherNodes) && multiset(pods) == multiset(otherPods)
    ensures RawFit(nodes, pods, t) == RawFit(otherNodes, otherPods, t)
  {
    forall n | n in nodes
      ensures Room(n, pods, t) == Room(n, otherPods, t)
    {
      RoomIgnoresOrder(n, pods, otherPods, t);
    }
    SumCongruence(nodes, (n: Node) => Room(n, pods, t), (n: Node) => Room(n, otherPods, t));
    SumPermutation(nodes, otherNodes, (n: Node) => Room(n, otherPods, t));
  }

  lemma VerdictIgnoresOrder(node: Node, pods: seq<Pod>, others: seq<Pod>, t: Target)
    requires t.Valid() && multiset(pods) == multiset(others)
    ensures Judge(node, PodsOn(pods, node.name), t) == Judge(node, PodsOn(others, node.name), t)
  {
    FreeIgnoresOrder(node, pods, others, t.opts, Cpu);
    FreeIgnoresOrder(node, pods, others, t.opts, Memory);
  }

  lemma {:induction false} WalkIgnoresOrder(nodes: seq<Node>, pods: seq<Pod>, others: seq<Pod>, t: Target)
    requires t.Valid() && multiset(pods) == multiset(others)
    ensures Toured(nodes, pods, t) == Toured(nodes, others, t)
  {
    if nodes != [] {
      WalkIgnoresOrder(nodes[..|nodes| - 1], pods, others, t);
      VerdictIgnoresOrder(nodes[|nodes| - 1], pods, others, t);
    }
  }

  /** Two listings of the same nodes and pods give the same estimate, node by node and to the last field. */
  lemma EstimateIgnoresOrder(nodes: seq<Node>, otherNodes: seq<Node>, pods: seq<Pod>, otherPods: seq<Pod>, t: Target)
    requires t.Valid() && NamesDiffer(nodes)
    requires multiset(nodes) == multiset(otherNodes) && multiset(pods) == multiset(otherPods)
    ensures Estimate(nodes, pods, t) == Estimate(otherNodes, otherPods, t)
  {
    RawFitIgnoresOrder(nodes, otherNodes, pods, otherPods, t);
    SortedByNameSorts(nodes);
    SortedByNameSorts(otherNodes);
    SortedNamesDiffer(nodes);
    SameLength(nodes, otherNodes);
    SortedOrderIsUnique(SortedByName(nodes), SortedByName(otherNodes));
    WalkIgnoresOrder(SortedByName(nodes), pods, otherPods, t);
  }

  lemma SortedNamesDiffer(nodes: seq<Node>)
    requires NamesDiffer(nodes)
    ensures NamesDiffer(SortedByName(nodes))
  {
    SortedByNameSorts(nodes);
    forall n | n in SortedByName(nodes)
      ensures n in nodes
    {
      assert n in multiset(SortedByName(nodes));
    }
  }
}
