/** The parts of the cluster's objects that the capacity estimate reads, with quantities already parsed. */
module Kube {
  import opened Wrappers

  /** CPU in millicores, memory in bytes. */
  datatype Request = Request(cpu: int, memory: int)

  datatype Container = Container(request: Request, restartAlways: bool)

  datatype Operator = Exists | Equal | Unset | OtherOperator

  datatype Toleration = Toleration(key: string, operator: Operator, value: string, effect: string)

  datatype Taint = Taint(key: string, value: string, effect: string)

  datatype SelectorOp = OpExists | OpDoesNotExist | OpIn | OpNotIn | OpGt | OpLt | OpUnknown

  datatype Requirement = Requirement(key: string, op: SelectorOp, values: seq<string>)

  datatype SelectorTerm = SelectorTerm(expressions: seq<Requirement>, hasFields: bool)

  /** requiredTerms is None when no required node affinity is declared. */
  datatype PodSpec = PodSpec(
    containers: seq<Container>,
    initContainers: seq<Container>,
    overhead: Request,
    tolerations: seq<Toleration>,
    nodeSelector: map<string, string>,
    requiredTerms: Option<seq<SelectorTerm>>)

  datatype Phase = Pending | Running | Succeeded | Failed | Unknown

  /** nodeName is empty while the pod is assigned to no node. */
  datatype Pod = Pod(nodeName: string, phase: Phase, spec: PodSpec)

  /** ready is None for a node that never reported; heartbeat is None when the condition carries no time. */
  datatype Node = Node(
    name: string,
    ready: Option<bool>,
    heartbeat: Option<int>,
    unschedulable: bool,
    taints: seq<Taint>,
    labels: map<string, string>,
    allocatable: Request,
    allocatablePods: int)
}
