/** The capacity estimate: how many more pods of the target's shape the candidate nodes can take. */
module Fit {
  import opened GoInt
  import opened Wrappers
  import opened Kube
  import opened Sums
  import opened PodRequests
  import opened Candidates
  import opened NodeOrder

  /** The target's template with its validated request, and the settings of one calculation. */
  datatype Target = Target(spec: PodSpec, opts: Options, now: int) {
    function Req(): Request {
      PodRequest(spec)
    }

    predicate Valid() {
      Req().cpu > 0 && Req().memory > 0
    }
  }

  // ---- One node

  function Charge(dim: Dimension): Pod -> int {
    (p: Pod) => if Chargeable(p) then Amount(PodRequest(p.spec), dim) else 0
  }

  function Free(node: Node, podsOnNode: seq<Pod>, opts: Options, dim: Dimension): int {
    Max(Amount(node.allocatable, dim) - Sum(podsOnNode, Charge(dim)) - Amount(opts.reserve, dim), 0)
  }

  /** What one candidate node can take: the minimum over the three dimensions. */
  function FitOn(freeCpu: int, freeMemory: int, slots: int, req: Request): int
    requires req.cpu > 0 && req.memory > 0
  {
    Max(Min(Min(freeCpu / req.cpu, freeMemory / req.memory), slots), 0)
  }

  function RoomOn(node: Node, podsOnNode: seq<Pod>, t: Target): int
    requires t.Valid()
  {
    if Evaluate(node, podsOnNode, t.spec, t.opts, t.now).Some? then 0
    else FitOn(Free(node, podsOnNode, t.opts, Cpu), Free(node, podsOnNode, t.opts, Memory),
               FreeSlots(node, podsOnNode), t.Req())
  }

  function Room(node: Node, pods: seq<Pod>, t: Target): int
    requires t.Valid()
  {
    RoomOn(node, PodsOn(pods, node.name), t)
  }

  /** The sum over all nodes, before the margin and before any 32-bit conversion. */
  function RawFit(nodes: seq<Node>, pods: seq<Pod>, t: Target): int
    requires t.Valid()
  {
    Sum(nodes, (n: Node) => Room(n, pods, t))
  }

  // ---- The binding dimension

  datatype Binding = BindCpu | BindMemory | BindPodSlots | BindNone

  const PRECEDENCE := [BindCpu, BindMemory, BindPodSlots]

  /** The scarcest dimension, ties resolved by precedence. */
  function Scarcest(cpuFit: int, memoryFit: int, slots: int): Binding {
    if cpuFit <= memoryFit && cpuFit <= slots then BindCpu
    else if memoryFit <= slots then BindMemory
    else BindPodSlots
  }

  method FitOnNode(freeCpu: int, freeMemory: int, slots: int, req: Request) returns (fit: Int32, binding: Binding)
    requires req.cpu > 0 && req.memory > 0 && 0 <= freeCpu && 0 <= freeMemory && 0 <= slots
    ensures fit == Wrap32(FitOn(freeCpu, freeMemory, slots, req))
    ensures binding == Scarcest(freeCpu / req.cpu, freeMemory / req.memory, slots)
  {
    var cpuFit := freeCpu / req.cpu;
    var counts := Counts(freeCpu, freeMemory, slots, req);
    var lowest := cpuFit;
    for i := 0 to |PRECEDENCE|
      invariant lowest <= cpuFit
      invariant forall k :: 0 <= k < i ==> lowest <= counts[PRECEDENCE[k]]
      invariant lowest == counts[BindCpu] || lowest == counts[BindMemory] || lowest == counts[BindPodSlots]
    {
      if counts[PRECEDENCE[i]] < lowest {
        lowest := counts[PRECEDENCE[i]];
      }
    }
    assert forall dim :: dim in counts ==> dim == PRECEDENCE[0] || dim == PRECEDENCE[1] || dim == PRECEDENCE[2];
    binding := BindCpu;
    for i := 0 to |PRECEDENCE|
      invariant binding == BindCpu
      invariant forall k :: 0 <= k < i ==> lowest < counts[PRECEDENCE[k]]
    {
      if counts[PRECEDENCE[i]] == lowest {
        binding := PRECEDENCE[i];
        assert forall k :: 0 <= k < i ==> lowest < counts[PRECEDENCE[k]];
        break;
      }
    }
    if lowest < 0 {
      lowest := 0;
    }
    fit := Wrap32(lowest);
  }

  function Counts(freeCpu: int, freeMemory: int, slots: int, req: Request): map<Binding, int>
    requires req.cpu > 0 && req.memory > 0
  {
    map[BindCpu := freeCpu / req.cpu, BindMemory := freeMemory / req.memory, BindPodSlots := slots]
  }

  // ---- The walk over the cluster

  datatype NodeFit = NodeFit(
    name: string, allocatable: Request, requested: Request, free: Request, freeSlots: int, fit: Int32, binding: Binding)

  /** Node counts are unbounded here. */
  datatype Feasibility = Feasibility(
    podRequest: Request,
    totalNodes: nat,
    fitCapacity: Int32,
    rawFitSum: Int32,
    candidateNodes: nat,
    exclusions: map<Exclusion, nat>,
    blocking: Binding,
    freeCpu: int,
    freeMemory: int,
    nodes: seq<NodeFit>)

  method ByNode(pods: seq<Pod>) returns (index: map<string, seq<Pod>>)
    ensures forall name :: (if name in index then index[name] else []) == PodsOn(pods, name)
  {
    index := map[];
    for i := 0 to |pods|
      invariant forall name :: (if name in index then index[name] else []) == PodsOn(pods[..i], name)
    {
      assert pods[..i + 1][..i] == pods[..i];
      var p := pods[i];
      if p.nodeName == "" {
        continue;
      }
      index := index[p.nodeName := (if p.nodeName in index then index[p.nodeName] else []) + [p]];
    }
    assert pods[..|pods|] == pods;
  }

  /** What the chargeable pods on a node have requested. */
  function Requested(podsOnNode: seq<Pod>): Request {
    Request(Sum(podsOnNode, Charge(Cpu)), Sum(podsOnNode, Charge(Memory)))
  }

  function FreeOf(node: Node, podsOnNode: seq<Pod>, opts: Options): Request {
    Request(Free(node, podsOnNode, opts, Cpu), Free(node, podsOnNode, opts, Memory))
  }

  method NodeFree(node: Node, podsOnNode: seq<Pod>, opts: Options) returns (free: Request, requested: Request)
    ensures free == FreeOf(node, podsOnNode, opts)
    ensures requested == Requested(podsOnNode)
  {
    var cpu, memory := 0, 0;
    for i := 0 to |podsOnNode|
      invariant cpu == Sum(podsOnNode[..i], Charge(Cpu))
      invariant memory == Sum(podsOnNode[..i], Charge(Memory))
    {
      assert podsOnNode[..i + 1][..i] == podsOnNode[..i];
      if !Chargeable(podsOnNode[i]) {
        continue;
      }
      var r := ComputePodRequest(podsOnNode[i].spec);
      cpu := cpu + r.cpu;
      memory := memory + r.memory;
    }
    assert podsOnNode[..|podsOnNode|] == podsOnNode;
    requested := Request(cpu, memory);
    free := Request(Max(node.allocatable.cpu - cpu - opts.reserve.cpu, 0),
                    Max(node.allocatable.memory - memory - opts.reserve.memory, 0));
  }

  function Tally(nodes: seq<NodeFit>, b: Binding): nat {
    if nodes == [] then 0 else Tally(nodes[..|nodes| - 1], b) + if nodes[|nodes| - 1].binding == b then 1 else 0
  }

  /** The dimension that binds on the most candidate nodes, ties resolved by precedence. */
  function MostBinding(nodes: seq<NodeFit>): Binding {
    var cpu, memory, slots := Tally(nodes, BindCpu), Tally(nodes, BindMemory), Tally(nodes, BindPodSlots);
    if cpu == 0 && memory == 0 && slots == 0 then BindNone
    else if cpu >= memory && cpu >= slots then BindCpu
    else if memory >= slots then BindMemory
    else BindPodSlots
  }

  method AggregateBinding(nodes: seq<NodeFit>) returns (best: Binding)
    ensures best == MostBinding(nodes)
  {
    if nodes == [] {
      return BindNone;
    }
    var tally: map<Binding, nat> := map[];
    for i := 0 to |nodes|
      invariant forall b :: (if b in tally then tally[b] else 0) == Tally(nodes[..i], b)
    {
      assert nodes[..i + 1][..i] == nodes[..i];
      var b := nodes[i].binding;
      tally := tally[b := (if b in tally then tally[b] else 0) + 1];
    }
    assert nodes[..|nodes|] == nodes;
    best := BindNone;
    var bestCount := 0;
    for k := 0 to |PRECEDENCE|
      invariant best == BindNone ==> bestCount == 0
      invariant best != BindNone ==> bestCount == Tally(nodes, best) > 0
      invariant best == BindNone || exists m :: 0 <= m < k && best == PRECEDENCE[m]
      invariant forall m :: 0 <= m < k ==> Tally(nodes, PRECEDENCE[m]) <= bestCount
      invariant forall i, m :: 0 <= i < m < |PRECEDENCE| && best == PRECEDENCE[m] ==>
                  Tally(nodes, PRECEDENCE[i]) < bestCount
    {
      var dim := PRECEDENCE[k];
      var count := if dim in tally then tally[dim] else 0;
      if count > bestCount {
        best, bestCount := dim, count;
      }
    }
    var cpu, memory, slots := PRECEDENCE[0], PRECEDENCE[1], PRECEDENCE[2];
    assert Tally(nodes, cpu) <= bestCount && Tally(nodes, memory) <= bestCount && Tally(nodes, slots) <= bestCount;
    assert best == memory ==> Tally(nodes, cpu) < bestCount;
    assert best == slots ==> Tally(nodes, cpu) < bestCount && Tally(nodes, memory) < bestCount;
  }

  /** What a node has for each dimension, in pods. */
  function AmountFor(b: Binding, cpuFit: int, memoryFit: int, slots: int): int
    requires b != BindNone
  {
    match b case BindCpu => cpuFit case BindMemory => memoryFit case BindPodSlots => slots
  }

  /** The reported dimension takes the fewest pods, and those before it in precedence take more. */
  lemma ScarcestIsLeast(cpuFit: int, memoryFit: int, slots: int, i: nat)
    requires i < |PRECEDENCE|
    ensures var b := Scarcest(cpuFit, memoryFit, slots);
            && b in PRECEDENCE
            && AmountFor(b, cpuFit, memoryFit, slots) <= AmountFor(PRECEDENCE[i], cpuFit, memoryFit, slots)
            && (PRECEDENCE[i] != b && b in PRECEDENCE[i..] ==>
                  AmountFor(b, cpuFit, memoryFit, slots) < AmountFor(PRECEDENCE[i], cpuFit, memoryFit, slots))
  {
    assert PRECEDENCE[0..] == [BindCpu, BindMemory, BindPodSlots];
    assert PRECEDENCE[1..] == [BindMemory, BindPodSlots] && PRECEDENCE[2..] == [BindPodSlots];
    assert PRECEDENCE[0] in PRECEDENCE && PRECEDENCE[1] in PRECEDENCE && PRECEDENCE[2] in PRECEDENCE;
  }

  function BoundBy(b: Binding): NodeFit -> int {
    (f: NodeFit) => if f.binding == b then 1 else 0
  }

  lemma {:induction false} TallyIsSum(nodes: seq<NodeFit>, b: Binding)
    ensures Tally(nodes, b) == Sum(nodes, BoundBy(b))
  {
    if nodes != [] {
      TallyIsSum(nodes[..|nodes| - 1], b);
    }
  }

  /**
   * The reported dimension binds on the most candidate nodes, and those before it in precedence bind on fewer; none
   * is reported exactly when none binds anywhere.
   */
  lemma MostBindingIsMost(nodes: seq<NodeFit>, i: nat)
    requires i < |PRECEDENCE|
    ensures var b := MostBinding(nodes);
            && (b != BindNone ==>
                  && Sum(nodes, BoundBy(PRECEDENCE[i])) <= Sum(nodes, BoundBy(b))
                  && 0 < Sum(nodes, BoundBy(b))
                  && (PRECEDENCE[i] != b && b in PRECEDENCE[i..] ==>
                        Sum(nodes, BoundBy(PRECEDENCE[i])) < Sum(nodes, BoundBy(b))))
            && (b == BindNone ==> Sum(nodes, BoundBy(PRECEDENCE[i])) == 0)
  {
    TallyIsSum(nodes, BindCpu);
    TallyIsSum(nodes, BindMemory);
    TallyIsSum(nodes, BindPodSlots);
    assert PRECEDENCE[1..] == [BindMemory, BindPodSlots] && PRECEDENCE[2..] == [BindPodSlots];
  }

  /** Wrapping every addition is wrapping the true sum once. */
  lemma WrapSum(total: int, fit: int)
    ensures Wrap32(Wrap32(total) + Wrap32(fit)) == Wrap32(total + fit)
  {
    Wrap32OfSum(total, Wrap32(fit));
    Wrap32OfSum(fit, total);
  }

  // ---- The whole estimate

  /** What the walk finds at one node. */
  datatype Verdict = Excluded(reason: Exclusion) | Candidate(fit: NodeFit)

  function Judge(node: Node, podsOnNode: seq<Pod>, t: Target): Verdict
    requires t.Valid()
  {
    Report(node, Evaluate(node, podsOnNode, t.spec, t.opts, t.now), Requested(podsOnNode),
           FreeOf(node, podsOnNode, t.opts), FreeSlots(node, podsOnNode), t.Req())
  }

  function Report(node: Node, excluded: Option<Exclusion>, requested: Request, free: Request, slots: int, req: Request):
    Verdict
    requires req.cpu > 0 && req.memory > 0
  {
    if excluded.Some? then Excluded(excluded.value)
    else
      Candidate(NodeFit(node.name, node.allocatable, requested, free, slots,
                        Wrap32(FitOn(free.cpu, free.memory, slots, req)),
                        Scarcest(free.cpu / req.cpu, free.memory / req.memory, slots)))
  }

  /** What the walk accumulates besides the 32-bit sum. */
  datatype Tour = Tour(fits: seq<NodeFit>, exclusions: map<Exclusion, nat>, freeCpu: int, freeMemory: int)

  const NO_TOUR := Tour([], map[], 0, 0)

  function CountOf(exclusions: map<Exclusion, nat>, reason: Exclusion): nat {
    if reason in exclusions then exclusions[reason] else 0
  }

  function Visited(tour: Tour, v: Verdict): Tour {
    match v
    case Excluded(reason) =>
      tour.(exclusions := tour.exclusions[reason := CountOf(tour.exclusions, reason) + 1])
    case Candidate(fit) =>
      Tour(tour.fits + [fit], tour.exclusions, tour.freeCpu + fit.free.cpu, tour.freeMemory + fit.free.memory)
  }

  function Toured(nodes: seq<Node>, pods: seq<Pod>, t: Target): Tour
    requires t.Valid()
  {
    if nodes == [] then NO_TOUR
    else
      var n := nodes[|nodes| - 1];
      Visited(Toured(nodes[..|nodes| - 1], pods, t), Judge(n, PodsOn(pods, n.name), t))
  }

  function AfterMargin(raw: Int32, margin: Int32): Int32 {
    Max(Wrap32(raw - margin), 0)
  }

  function Summary(t: Target, total: nat, raw: Int32, tour: Tour): Feasibility {
    Feasibility(t.Req(), total, AfterMargin(raw, t.opts.marginPods), raw, |tour.fits|, tour.exclusions,
                MostBinding(tour.fits), tour.freeCpu, tour.freeMemory, tour.fits)
  }

  function Estimate(nodes: seq<Node>, pods: seq<Pod>, t: Target): Feasibility
    requires t.Valid()
  {
    Summary(t, |nodes|, Wrap32(RawFit(nodes, pods, t)), Toured(SortedByName(nodes), pods, t))
  }

  // ---- Every node is accounted for

  function ExcludedFor(reason: Option<Exclusion>, pods: seq<Pod>, t: Target): Node -> int {
    (n: Node) => if Evaluate(n, PodsOn(pods, n.name), t.spec, t.opts, t.now) == reason then 1 else 0
  }

  function ExcludedNodes(exclusions: map<Exclusion, nat>): nat {
    CountOf(exclusions, NotReady) + CountOf(exclusions, StaleHeartbeat) + CountOf(exclusions, Cordoned)
    + CountOf(exclusions, TaintNotTolerated) + CountOf(exclusions, NodeSelectorMismatch)
    + CountOf(exclusions, AffinityMismatch) + CountOf(exclusions, OperatorRestricted)
    + CountOf(exclusions, PodSlotsFull)
  }

  lemma OneMoreExcluded(exclusions: map<Exclusion, nat>, reason: Exclusion)
    ensures ExcludedNodes(exclusions[reason := CountOf(exclusions, reason) + 1]) == ExcludedNodes(exclusions) + 1
  {
    OneMoreOf(exclusions, reason, NotReady);
    OneMoreOf(exclusions, reason, StaleHeartbeat);
    OneMoreOf(exclusions, reason, Cordoned);
    OneMoreOf(exclusions, reason, TaintNotTolerated);
    OneMoreOf(exclusions, reason, NodeSelectorMismatch);
    OneMoreOf(exclusions, reason, AffinityMismatch);
    OneMoreOf(exclusions, reason, OperatorRestricted);
    OneMoreOf(exclusions, reason, PodSlotsFull);
  }

  lemma OneMoreOf(exclusions: map<Exclusion, nat>, reason: Exclusion, q: Exclusion)
    ensures CountOf(exclusions[reason := CountOf(exclusions, reason) + 1], q)
            == CountOf(exclusions, q) + if q == reason then 1 else 0
  {
  }

  lemma {:induction false} TourCountsAll(nodes: seq<Node>, pods: seq<Pod>, t: Target)
    requires t.Valid()
    ensures var tour := Toured(nodes, pods, t);
            && |tour.fits| + ExcludedNodes(tour.exclusions) == |nodes|
            && tour.freeCpu == Sum(tour.fits, (f: NodeFit) => f.free.cpu)
            && tour.freeMemory == Sum(tour.fits, (f: NodeFit) => f.free.memory)
  {
    if nodes != [] {
      var n := nodes[|nodes| - 1];
      var before := Toured(nodes[..|nodes| - 1], pods, t);
      TourCountsAll(nodes[..|nodes| - 1], pods, t);
      match Judge(n, PodsOn(pods, n.name), t)
      case Excluded(reason) => OneMoreExcluded(before.exclusions, reason);
      case Candidate(fit) =>
        SumPush(before.fits, fit, (f: NodeFit) => f.free.cpu);
        SumPush(before.fits, fit, (f: NodeFit) => f.free.memory);
    }
  }

  lemma {:induction false} TourCountsReasons(nodes: seq<Node>, pods: seq<Pod>, t: Target, reason: Exclusion)
    requires t.Valid()
    ensures CountOf(Toured(nodes, pods, t).exclusions, reason) == Sum(nodes, ExcludedFor(Some(reason), pods, t))
  {
    if nodes != [] {
      TourCountsReasons(nodes[..|nodes| - 1], pods, t, reason);
    }
  }

  /**
   * Every node is a candidate or excluded, for its first failing check and no other; the free totals are those of
   * the candidates.
   */
  lemma EveryNodeIsAccounted(nodes: seq<Node>, pods: seq<Pod>, t: Target, reason: Exclusion)
    requires t.Valid()
    ensures var e := Estimate(nodes, pods, t);
            && e.candidateNodes + ExcludedNodes(e.exclusions) == e.totalNodes == |nodes|
            && CountOf(e.exclusions, reason) == Sum(nodes, ExcludedFor(Some(reason), pods, t))
            && e.freeCpu == Sum(e.nodes, (f: NodeFit) => f.free.cpu)
            && e.freeMemory == Sum(e.nodes, (f: NodeFit) => f.free.memory)
  {
    var ordered := SortedByName(nodes);
    SortedByNameSorts(nodes);
    SameLength(ordered, nodes);
    TourCountsAll(ordered, pods, t);
    TourCountsReasons(ordered, pods, t, reason);
    SumPermutation(ordered, nodes, ExcludedFor(Some(reason), pods, t));
  }

  // ---- The capacity it reports

  /** The 32-bit sum is the true sum exactly when that fits; the margin is subtracted after the sum. */
  lemma EstimateIsCapacity(nodes: seq<Node>, pods: seq<Pod>, t: Target)
    requires t.Valid()
    ensures var e, raw := Estimate(nodes, pods, t), RawFit(nodes, pods, t);
            && (e.rawFitSum == raw <==> raw <= MAX_INT32)
            && (raw <= MAX_INT32 && 0 <= t.opts.marginPods ==> e.fitCapacity == Max(raw - t.opts.marginPods, 0))
            && 0 <= e.fitCapacity
  {
    RoomsAreNonNegative(nodes, pods, t);
  }

  lemma RawFitIgnoresNodeOrder(nodes: seq<Node>, others: seq<Node>, pods: seq<Pod>, t: Target)
    requires t.Valid() && multiset(nodes) == multiset(others)
    ensures RawFit(nodes, pods, t) == RawFit(others, pods, t)
  {
    SumPermutation(nodes, others, (n: Node) => Room(n, pods, t));
  }

  method Calculate(t: Target, nodes: seq<Node>, pods: seq<Pod>) returns (result: Feasibility)
    requires t.Valid()
    ensures result == Estimate(nodes, pods, t)
  {
    var ordered := SortedByName(nodes);
    var raw, tour := Walk(t, ordered, pods);
    SortedByNameSorts(nodes);
    RawFitIgnoresNodeOrder(ordered, nodes, pods, t);
    result := Summarise(t, |nodes|, raw, tour);
  }

  /** What follows the walk: the margin, then the binding dimension. */
  method Summarise(t: Target, total: nat, raw: Int32, tour: Tour) returns (result: Feasibility)
    ensures result == Summary(t, total, raw, tour)
  {
    var capacity := Wrap32(raw - t.opts.marginPods);
    if capacity <= 0 {
      capacity := 0;
    }
    var blocking := AggregateBinding(tour.fits);
    result := Feasibility(t.Req(), total, capacity, raw, |tour.fits|, tour.exclusions, blocking,
                          tour.freeCpu, tour.freeMemory, tour.fits);
  }

  /** The capacity part of an observation: a template without a positive request gets no estimate. */
  method ObserveCapacity(spec: PodSpec, opts: Options, nodes: seq<Node>, pods: seq<Pod>, now: int)
    returns (result: Option<Feasibility>)
    ensures var t := Target(spec, opts, now);
            && (result.Some? <==> t.Valid())
            && (t.Valid() ==> result == Some(Estimate(nodes, pods, t)))
  {
    var effective := EffectivePodRequest(spec);
    if effective.Missing? {
      return None;
    }
    var estimate := Calculate(Target(spec, opts, now), nodes, pods);
    result := Some(estimate);
  }

  method Walk(t: Target, nodes: seq<Node>, pods: seq<Pod>) returns (raw: Int32, tour: Tour)
    requires t.Valid()
    ensures raw == Wrap32(RawFit(nodes, pods, t))
    ensures tour == Toured(nodes, pods, t)
  {
    var index := ByNode(pods);
    ghost var total := 0;
    raw, tour := 0, NO_TOUR;
    for i := 0 to |nodes|
      invariant raw == Wrap32(total) && total == RawFit(nodes[..i], pods, t)
      invariant tour == Toured(nodes[..i], pods, t)
    {
      var node := nodes[i];
      RawFitPush(nodes, pods, t, i);
      assert nodes[..i + 1][..i] == nodes[..i];
      var verdict, room := WalkNode(node, if node.name in index then index[node.name] else [], pods, t);
      WrapSum(total, room);
      total := total + room;
      raw, tour := Add(raw, tour, verdict);
    }
    assert nodes[..|nodes|] == nodes;
  }

  /** One turn of the walk's accumulators. */
  method Add(raw: Int32, tour: Tour, verdict: Verdict) returns (raw': Int32, tour': Tour)
    ensures raw' == if verdict.Candidate? then Wrap32(raw + verdict.fit.fit) else raw
    ensures tour' == Visited(tour, verdict)
  {
    raw', tour' := raw, tour;
    match verdict
    case Excluded(reason) =>
      tour' := tour'.(exclusions := tour.exclusions[reason := CountOf(tour.exclusions, reason) + 1]);
    case Candidate(fit) =>
      raw' := Wrap32(raw + fit.fit);
      tour' := tour'.(freeCpu := tour.freeCpu + fit.free.cpu, freeMemory := tour.freeMemory + fit.free.memory,
                      fits := tour.fits + [fit]);
  }

  lemma RawFitPush(nodes: seq<Node>, pods: seq<Pod>, t: Target, i: nat)
    requires t.Valid() && i < |nodes|
    ensures RawFit(nodes[..i + 1], pods, t) == RawFit(nodes[..i], pods, t) + Room(nodes[i], pods, t)
  {
    assert nodes[..i + 1] == nodes[..i] + [nodes[i]];
    SumPush(nodes[..i], nodes[i], (n: Node) => Room(n, pods, t));
  }

  method WalkNode(node: Node, podsOnNode: seq<Pod>, ghost pods: seq<Pod>, t: Target)
    returns (verdict: Verdict, ghost room: int)
    requires t.Valid() && podsOnNode == PodsOn(pods, node.name)
    ensures room == Room(node, pods, t)
    ensures verdict == Judge(node, podsOnNode, t)
    ensures verdict.Excluded? ==> room == 0
    ensures verdict.Candidate? ==> verdict.fit.fit == Wrap32(room)
  {
    room := Room(node, pods, t);
    var excluded := Evaluate(node, podsOnNode, t.spec, t.opts, t.now);
    if excluded.Some? {
      return Excluded(excluded.value), room;
    }
    var slots := CountFreeSlots(node, podsOnNode);
    var free, requested := NodeFree(node, podsOnNode, t.opts);
    var fit, binding := FitOnNode(free.cpu, free.memory, slots, t.Req());
    verdict := Candidate(NodeFit(node.name, node.allocatable, requested, free, slots, fit, binding));
  }

  lemma RoomsAreNonNegative(nodes: seq<Node>, pods: seq<Pod>, t: Target)
    requires t.Valid()
    ensures RawFit(nodes, pods, t) >= 0
  {
    SumNonNegative(nodes, (n: Node) => Room(n, pods, t));
  }
}
