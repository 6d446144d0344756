/** Which nodes may host the target's pods, by the modelled subset of the scheduler's checks. */
module Candidates {
  import opened GoInt
  import opened Wrappers
  import opened Kube
  import opened Sums
  import opened IntText

  /** Ten minutes, in nanoseconds. */
  const HEARTBEAT_GRACE := 600_000_000_000

  /** selector is None when the operator restricts nothing. */
  datatype Options = Options(
    reserve: Request,
    marginPods: Int32,
    respectNodeSelector: bool,
    respectNodeAffinity: bool,
    respectTaints: bool,
    selector: Option<map<string, string> -> bool>)

  datatype Exclusion =
    | NotReady | StaleHeartbeat | Cordoned | TaintNotTolerated
    | NodeSelectorMismatch | AffinityMismatch | OperatorRestricted | PodSlotsFull

  // ---- Taints

  predicate ToleratesTaint(t: Toleration, taint: Taint) {
    && (t.effect == "" || t.effect == taint.effect)
    && if t.key == "" then t.operator.Exists?
       else
         && t.key == taint.key
         && match t.operator
            case Exists => true
            case Equal | Unset => t.value == taint.value
            case OtherOperator => false
  }

  /** PreferNoSchedule ranks nodes and is ignored here. */
  predicate ToleratesAllTaints(taints: seq<Taint>, tolerations: seq<Toleration>) {
    forall i :: 0 <= i < |taints| && taints[i].effect in {"NoSchedule", "NoExecute"} ==>
      exists j :: 0 <= j < |tolerations| && ToleratesTaint(tolerations[j], taints[i])
  }

  // ---- Labels

  predicate MatchesNodeSelector(labels: map<string, string>, selector: map<string, string>) {
    forall key :: key in selector ==> key in labels && labels[key] == selector[key]
  }

  predicate CompareNumeric(op: SelectorOp, value: string, values: seq<string>) {
    && |values| == 1
    && var have := ParseInt(value, -MAX_INT64 - 1, MAX_INT64);
       var want := ParseInt(values[0], -MAX_INT64 - 1, MAX_INT64);
       have.Some? && want.Some? && if op.OpGt? then have.value > want.value else have.value < want.value
  }

  /** An operator that is not modelled accepts the node. */
  predicate MatchesExpression(labels: map<string, string>, r: Requirement) {
    var present := r.key in labels;
    match r.op
    case OpExists => present
    case OpDoesNotExist => !present
    case OpIn => present && labels[r.key] in r.values
    case OpNotIn => !present || labels[r.key] !in r.values
    case OpGt | OpLt => present && CompareNumeric(r.op, labels[r.key], r.values)
    case OpUnknown => true
  }

  /** An empty term matches nothing. */
  predicate MatchesTerm(labels: map<string, string>, term: SelectorTerm) {
    && (term.expressions != [] || term.hasFields)
    && forall i :: 0 <= i < |term.expressions| ==> MatchesExpression(labels, term.expressions[i])
  }

  predicate MatchesRequiredAffinity(labels: map<string, string>, terms: Option<seq<SelectorTerm>>) {
    terms.None? || terms.value == [] || exists i :: 0 <= i < |terms.value| && MatchesTerm(labels, terms.value[i])
  }

  // ---- Pods already on the node

  /** Succeeded and Failed pods have released their node; everything else still holds it. */
  predicate Chargeable(p: Pod) {
    !p.phase.Succeeded? && !p.phase.Failed?
  }

  function PodsOn(pods: seq<Pod>, name: string): seq<Pod> {
    if pods == [] then []
    else
      var p := pods[|pods| - 1];
      PodsOn(pods[..|pods| - 1], name) + if p.nodeName != "" && p.nodeName == name then [p] else []
  }

  const SLOT: Pod -> int := (p: Pod) => if Chargeable(p) then 1 else 0

  function FreeSlots(node: Node, podsOnNode: seq<Pod>): int {
    Max(node.allocatablePods - Sum(podsOnNode, SLOT), 0)
  }

  method CountFreeSlots(node: Node, podsOnNode: seq<Pod>) returns (free: int)
    ensures free == FreeSlots(node, podsOnNode)
  {
    var used := 0;
    for i := 0 to |podsOnNode|
      invariant used == Sum(podsOnNode[..i], SLOT)
    {
      assert podsOnNode[..i + 1][..i] == podsOnNode[..i];
      if Chargeable(podsOnNode[i]) {
        used := used + 1;
      }
    }
    assert podsOnNode[..|podsOnNode|] == podsOnNode;
    if node.allocatablePods - used > 0 {
      return node.allocatablePods - used;
    }
    return 0;
  }

  // ---- The checks in order

  /** The first failing check that does not depend on the pods already placed. */
  function StaticExclusion(node: Node, spec: PodSpec, opts: Options, now: int): Option<Exclusion> {
    if node.ready != Some(true) then Some(NotReady)
    else if node.heartbeat.Some? && now - node.heartbeat.value > HEARTBEAT_GRACE then Some(StaleHeartbeat)
    else if node.unschedulable then Some(Cordoned)
    else if opts.respectTaints && !ToleratesAllTaints(node.taints, spec.tolerations) then Some(TaintNotTolerated)
    else if opts.respectNodeSelector && !MatchesNodeSelector(node.labels, spec.nodeSelector) then
      Some(NodeSelectorMismatch)
    else if opts.respectNodeAffinity && !MatchesRequiredAffinity(node.labels, spec.requiredTerms) then
      Some(AffinityMismatch)
    else if opts.selector.Some? && !opts.selector.value(node.labels) then Some(OperatorRestricted)
    else None
  }

  function Evaluate(node: Node, podsOnNode: seq<Pod>, spec: PodSpec, opts: Options, now: int): Option<Exclusion> {
    var unfit := StaticExclusion(node, spec, opts, now);
    if unfit.Some? then unfit
    else if FreeSlots(node, podsOnNode) <= 0 then Some(PodSlotsFull)
    else None
  }
}
