/** The request the scheduler charges for one pod. */
module PodRequests {
  import opened GoInt
  import opened Kube
  import opened Sums

  datatype Dimension = Cpu | Memory

  function Amount(r: Request, dim: Dimension): int {
    match dim case Cpu => r.cpu case Memory => r.memory
  }

  /** What one container asks for in one dimension. */
  function Cost(dim: Dimension): Container -> int {
    (c: Container) => Amount(c.request, dim)
  }

  // ---- The one-pass computation

  function SidecarSum(inits: seq<Container>, dim: Dimension): int {
    if inits == [] then 0
    else
      var c := inits[|inits| - 1];
      SidecarSum(inits[..|inits| - 1], dim) + if c.restartAlways then Amount(c.request, dim) else 0
  }

  function InitPeak(inits: seq<Container>, dim: Dimension): int {
    if inits == [] then 0
    else
      var c, before := inits[|inits| - 1], inits[..|inits| - 1];
      if c.restartAlways then InitPeak(before, dim)
      else Max(InitPeak(before, dim), Amount(c.request, dim) + SidecarSum(before, dim))
  }

  function DimensionRequest(spec: PodSpec, dim: Dimension): int {
    Max(Sum(spec.containers, Cost(dim)) + SidecarSum(spec.initContainers, dim), InitPeak(spec.initContainers, dim))
    + Amount(spec.overhead, dim)
  }

  function PodRequest(spec: PodSpec): Request {
    Request(DimensionRequest(spec, Cpu), DimensionRequest(spec, Memory))
  }

  method ComputePodRequest(spec: PodSpec) returns (r: Request)
    ensures r == PodRequest(spec)
  {
    var appCpu, appMemory := 0, 0;
    for i := 0 to |spec.containers|
      invariant appCpu == Sum(spec.containers[..i], Cost(Cpu))
      invariant appMemory == Sum(spec.containers[..i], Cost(Memory))
    {
      assert spec.containers[..i + 1][..i] == spec.containers[..i];
      appCpu := appCpu + spec.containers[i].request.cpu;
      appMemory := appMemory + spec.containers[i].request.memory;
    }
    assert spec.containers[..|spec.containers|] == spec.containers;

    var inits := spec.initContainers;
    var sidecarCpu, sidecarMemory, peakCpu, peakMemory := 0, 0, 0, 0;
    for i := 0 to |inits|
      invariant sidecarCpu == SidecarSum(inits[..i], Cpu) && sidecarMemory == SidecarSum(inits[..i], Memory)
      invariant peakCpu == InitPeak(inits[..i], Cpu) && peakMemory == InitPeak(inits[..i], Memory)
    {
      assert inits[..i + 1][..i] == inits[..i];
      var c := inits[i];
      if c.restartAlways {
        sidecarCpu := sidecarCpu + c.request.cpu;
        sidecarMemory := sidecarMemory + c.request.memory;
        continue;
      }
      peakCpu := Max(peakCpu, c.request.cpu + sidecarCpu);
      peakMemory := Max(peakMemory, c.request.memory + sidecarMemory);
    }
    assert inits[..|inits|] == inits;
    r := Request(Max(appCpu + sidecarCpu, peakCpu) + spec.overhead.cpu,
                 Max(appMemory + sidecarMemory, peakMemory) + spec.overhead.memory);
  }

  // ---- The start-up sequence it stands for

  function Sidecars(inits: seq<Container>): seq<Container> {
    if inits == [] then []
    else
      var c := inits[|inits| - 1];
      Sidecars(inits[..|inits| - 1]) + if c.restartAlways then [c] else []
  }

  /** The containers running together in phase i: init containers one by one, then the application. */
  function RunningIn(spec: PodSpec, i: nat): seq<Container>
    requires i <= |spec.initContainers|
  {
    if i < |spec.initContainers| then Sidecars(spec.initContainers[..i]) + [spec.initContainers[i]]
    else Sidecars(spec.initContainers) + spec.containers
  }

  function PhaseLoad(spec: PodSpec, i: nat, dim: Dimension): int
    requires i <= |spec.initContainers|
  {
    Sum(RunningIn(spec, i), Cost(dim))
  }

  predicate NonNegative(cs: seq<Container>) {
    forall c :: c in cs ==> c.request.cpu >= 0 && c.request.memory >= 0
  }

  lemma {:induction false} SidecarsSum(inits: seq<Container>, dim: Dimension)
    ensures Sum(Sidecars(inits), Cost(dim)) == SidecarSum(inits, dim)
  {
    if inits != [] {
      var before := inits[..|inits| - 1];
      SidecarsSum(before, dim);
      SumPush(Sidecars(before), inits[|inits| - 1], Cost(dim));
      assert Sidecars(before) + [] == Sidecars(before);
    }
  }

  lemma LoadOf(spec: PodSpec, i: nat, dim: Dimension)
    requires i <= |spec.initContainers|
    ensures PhaseLoad(spec, i, dim) ==
            if i < |spec.initContainers|
            then SidecarSum(spec.initContainers[..i], dim) + Amount(spec.initContainers[i].request, dim)
            else SidecarSum(spec.initContainers, dim) + Sum(spec.containers, Cost(dim))
  {
    if i < |spec.initContainers| {
      SidecarsSum(spec.initContainers[..i], dim);
      SumPush(Sidecars(spec.initContainers[..i]), spec.initContainers[i], Cost(dim));
    } else {
      SidecarsSum(spec.initContainers, dim);
      SumConcat(Sidecars(spec.initContainers), spec.containers, Cost(dim));
    }
  }

  /** The init peak is reached by some one-shot init container, or nothing is above zero. */
  lemma {:induction false} InitPeakReached(inits: seq<Container>, dim: Dimension) returns (i: nat)
    ensures InitPeak(inits, dim) != 0 ==>
              && i < |inits| && !inits[i].restartAlways
              && InitPeak(inits, dim) == SidecarSum(inits[..i], dim) + Amount(inits[i].request, dim)
  {
    i := 0;
    if inits != [] {
      var n := |inits| - 1;
      i := InitPeakReached(inits[..n], dim);
      if InitPeak(inits, dim) != InitPeak(inits[..n], dim) {
        i := n;
      } else if i < n {
        assert inits[..n][..i] == inits[..i];
      }
    }
  }

  lemma {:induction false} InitPeakBounds(inits: seq<Container>, dim: Dimension, i: nat)
    requires i < |inits| && !inits[i].restartAlways
    ensures SidecarSum(inits[..i], dim) + Amount(inits[i].request, dim) <= InitPeak(inits, dim)
  {
    var n := |inits| - 1;
    if i < n {
      InitPeakBounds(inits[..n], dim, i);
      assert inits[..n][..i] == inits[..i];
    }
  }

  lemma {:induction false} SidecarsGrow(inits: seq<Container>, dim: Dimension, i: nat)
    requires i <= |inits| && NonNegative(inits)
    ensures 0 <= SidecarSum(inits[..i], dim) <= SidecarSum(inits, dim)
  {
    if inits != [] {
      var n := |inits| - 1;
      assert inits == inits[..n] + [inits[n]];
      if i <= n {
        SidecarsGrow(inits[..n], dim, i);
        assert inits[..n][..i] == inits[..i];
      } else {
        SidecarsGrow(inits[..n], dim, n);
        assert inits[..n][..n] == inits[..n] && inits[..i] == inits;
      }
    }
  }

  lemma SidecarPhaseBelow(inits: seq<Container>, dim: Dimension, i: nat)
    requires i < |inits| && inits[i].restartAlways && NonNegative(inits)
    ensures SidecarSum(inits[..i], dim) + Amount(inits[i].request, dim) <= SidecarSum(inits, dim)
  {
    SidecarsGrow(inits, dim, i + 1);
    assert inits[..i + 1][..i] == inits[..i];
  }

  /**
   * The one-pass computation is the peak, over the pod's whole start-up sequence, of the requests of the
   * containers running together, plus the overhead.
   */
  lemma RequestIsStartupPeak(spec: PodSpec, dim: Dimension)
    requires NonNegative(spec.containers) && NonNegative(spec.initContainers)
    ensures forall i: nat :: i <= |spec.initContainers| ==>
              PhaseLoad(spec, i, dim) + Amount(spec.overhead, dim) <= DimensionRequest(spec, dim)
    ensures exists i: nat :: i <= |spec.initContainers|
              && PhaseLoad(spec, i, dim) + Amount(spec.overhead, dim) == DimensionRequest(spec, dim)
  {
    var inits := spec.initContainers;
    var last := |inits|;
    LoadOf(spec, last, dim);
    forall i: nat | i <= last
      ensures PhaseLoad(spec, i, dim) + Amount(spec.overhead, dim) <= DimensionRequest(spec, dim)
    {
      LoadOf(spec, i, dim);
      SumNonNegative(spec.containers, Cost(dim));
      if i < last && inits[i].restartAlways {
        SidecarPhaseBelow(inits, dim, i);
      } else if i < last {
        InitPeakBounds(inits, dim, i);
      }
    }
    SidecarsGrow(inits, dim, last);
    SumNonNegative(spec.containers, Cost(dim));
    var i := InitPeakReached(inits, dim);
    if PhaseLoad(spec, last, dim) + Amount(spec.overhead, dim) != DimensionRequest(spec, dim) {
      LoadOf(spec, i, dim);
      assert PhaseLoad(spec, i, dim) + Amount(spec.overhead, dim) == DimensionRequest(spec, dim);
    }
  }

  // ---- Validation of the target's own request

  datatype EffectiveResult = Effective(request: Request) | Missing(cpu: bool, memory: bool)

  function EffectivePodRequest(spec: PodSpec): (r: EffectiveResult)
    ensures r.Effective? <==> PodRequest(spec).cpu > 0 && PodRequest(spec).memory > 0
    ensures r.Effective? ==> r.request == PodRequest(spec)
    ensures r.Missing? ==> (r.cpu <==> PodRequest(spec).cpu <= 0) && (r.memory <==> PodRequest(spec).memory <= 0)
  {
    var req := PodRequest(spec);
    if req.cpu <= 0 || req.memory <= 0 then Missing(req.cpu <= 0, req.memory <= 0) else Effective(req)
  }
}
