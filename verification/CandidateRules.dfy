/** The scheduling rules a node must meet, as the API documents them, and the exclusion reported for each. */
module CandidateRules {
  import opened GoInt
  import opened Wrappers
  import opened Kube
  import opened Sums
  import opened IntText
  import opened Candidates

  // ---- The rules

  /** Taints that keep pods off a node; the others only rank it. */
  predicate Repels(taint: Taint) {
    taint.effect == "NoSchedule" || taint.effect == "NoExecute"
  }

  /** Same effect or any, and the same key or any by existence, or the same key and value by equality. */
  predicate Covers(t: Toleration, taint: Taint) {
    && t.effect in {"", taint.effect}
    && (|| (t.operator.Exists? && t.key in {"", taint.key})
        || (t.operator in {Equal, Unset} && t.key != "" && (t.key, t.value) == (taint.key, taint.value)))
  }

  ghost predicate Covered(taint: Taint, tolerations: seq<Toleration>) {
    exists t :: t in tolerations && Covers(t, taint)
  }

  function Label(labels: map<string, string>, key: string): Option<string> {
    if key in labels then Some(labels[key]) else None
  }

  /** The 64-bit integer a label's text stands for. */
  function Number(text: string): Option<int> {
    ParseInt(text, -0x8000_0000_0000_0000, 0x7fff_ffff_ffff_ffff)
  }

  /** Both the label and the one listed value are integers, the label's on the required side. */
  ghost predicate Compares(text: Option<string>, r: Requirement) {
    && text.Some? && |r.values| == 1
    && exists have, want :: Number(text.value) == Some(have) && Number(r.values[0]) == Some(want)
                            && if r.op.OpGt? then have > want else have < want
  }

  ghost predicate Satisfies(labels: map<string, string>, r: Requirement) {
    var text := Label(labels, r.key);
    match r.op
    case OpExists => text != None
    case OpDoesNotExist => text == None
    case OpIn => exists v :: v in r.values && text == Some(v)
    case OpNotIn => forall v :: v in r.values ==> text != Some(v)
    case OpGt | OpLt => Compares(text, r)
    case OpUnknown => true
  }

  ghost predicate Selects(labels: map<string, string>, term: SelectorTerm) {
    && !(term.expressions == [] && !term.hasFields)
    && forall r :: r in term.expressions ==> Satisfies(labels, r)
  }

  /** The pods assigned to the node that have not finished. */
  function Unfinished(pods: seq<Pod>): seq<Pod> {
    if pods == [] then []
    else
      var p := pods[|pods| - 1];
      Unfinished(pods[..|pods| - 1]) + if p.phase in {Pending, Running, Unknown} then [p] else []
  }

  /** The rule behind each exclusion is broken. */
  ghost predicate Breaks(e: Exclusion, node: Node, podsOnNode: seq<Pod>, spec: PodSpec, opts: Options, now: int) {
    match e
    case NotReady => node.ready.None? || !node.ready.value
    case StaleHeartbeat => node.heartbeat.Some? && node.heartbeat.value + 600 * 1_000_000_000 < now
    case Cordoned => node.unschedulable
    case TaintNotTolerated =>
      && opts.respectTaints
      && exists taint :: taint in node.taints && Repels(taint) && !Covered(taint, spec.tolerations)
    case NodeSelectorMismatch => opts.respectNodeSelector && !(spec.nodeSelector.Items <= node.labels.Items)
    case AffinityMismatch =>
      && opts.respectNodeAffinity && spec.requiredTerms.Some? && spec.requiredTerms.value != []
      && forall term :: term in spec.requiredTerms.value ==> !Selects(node.labels, term)
    case OperatorRestricted => opts.selector.Some? && !opts.selector.value(node.labels)
    case PodSlotsFull => node.allocatablePods <= |Unfinished(podsOnNode)|
  }

  /** The order in which the checks are documented. */
  function Place(e: Exclusion): nat {
    match e
    case NotReady => 0
    case StaleHeartbeat => 1
    case Cordoned => 2
    case TaintNotTolerated => 3
    case NodeSelectorMismatch => 4
    case AffinityMismatch => 5
    case OperatorRestricted => 6
    case PodSlotsFull => 7
  }

  // ---- The checks meet them

  lemma ToleratesExactly(t: Toleration, taint: Taint)
    ensures ToleratesTaint(t, taint) <==> Covers(t, taint)
  {
  }

  lemma CoveredExactly(taint: Taint, tolerations: seq<Toleration>)
    ensures Covered(taint, tolerations) <==>
              exists j :: 0 <= j < |tolerations| && ToleratesTaint(tolerations[j], taint)
  {
    if t :| t in tolerations && Covers(t, taint) {
      var j :| 0 <= j < |tolerations| && tolerations[j] == t;
      ToleratesExactly(tolerations[j], taint);
    }
    if j :| 0 <= j < |tolerations| && ToleratesTaint(tolerations[j], taint) {
      ToleratesExactly(tolerations[j], taint);
      assert tolerations[j] in tolerations;
    }
  }

  lemma TaintsExactly(taints: seq<Taint>, tolerations: seq<Toleration>)
    ensures ToleratesAllTaints(taints, tolerations) <==>
              forall taint :: taint in taints && Repels(taint) ==> Covered(taint, tolerations)
  {
    forall i | 0 <= i < |taints|
      ensures Covered(taints[i], tolerations) <==>
                exists j :: 0 <= j < |tolerations| && ToleratesTaint(tolerations[j], taints[i])
    {
      CoveredExactly(taints[i], tolerations);
    }
    if !ToleratesAllTaints(taints, tolerations) {
      var i :| 0 <= i < |taints| && Repels(taints[i])
               && !exists j :: 0 <= j < |tolerations| && ToleratesTaint(tolerations[j], taints[i]);
      assert taints[i] in taints;
    }
  }

  lemma SelectorExactly(labels: map<string, string>, selector: map<string, string>)
    ensures MatchesNodeSelector(labels, selector) <==> selector.Items <= labels.Items
  {
    if MatchesNodeSelector(labels, selector) {
      forall item | item in selector.Items
        ensures item in labels.Items
      {
        assert item.0 in selector && selector[item.0] == item.1;
      }
    } else {
      var key :| key in selector && !(key in labels && labels[key] == selector[key]);
      assert (key, selector[key]) in selector.Items;
    }
  }

  lemma ComparesExactly(labels: map<string, string>, r: Requirement)
    requires r.op.OpGt? || r.op.OpLt?
    ensures (r.key in labels && CompareNumeric(r.op, labels[r.key], r.values)) <==> Compares(Label(labels, r.key), r)
  {
    if r.key in labels && CompareNumeric(r.op, labels[r.key], r.values) {
      var have, want := Number(labels[r.key]).value, Number(r.values[0]).value;
      assert Number(labels[r.key]) == Some(have) && Number(r.values[0]) == Some(want);
    }
  }

  lemma ExpressionExactly(labels: map<string, string>, r: Requirement)
    ensures MatchesExpression(labels, r) <==> Satisfies(labels, r)
  {
    if r.op.OpGt? || r.op.OpLt? {
      ComparesExactly(labels, r);
    }
  }

  lemma TermExactly(labels: map<string, string>, term: SelectorTerm)
    ensures MatchesTerm(labels, term) <==> Selects(labels, term)
  {
    forall r
      ensures MatchesExpression(labels, r) <==> Satisfies(labels, r)
    {
      ExpressionExactly(labels, r);
    }
    if MatchesTerm(labels, term) {
      forall r | r in term.expressions
        ensures Satisfies(labels, r)
      {
        var i :| 0 <= i < |term.expressions| && term.expressions[i] == r;
        assert MatchesExpression(labels, term.expressions[i]);
      }
    }
  }

  lemma AffinityExactly(labels: map<string, string>, terms: Option<seq<SelectorTerm>>)
    ensures MatchesRequiredAffinity(labels, terms) <==>
              terms.None? || terms.value == [] || exists term :: term in terms.value && Selects(labels, term)
  {
    forall term
      ensures MatchesTerm(labels, term) <==> Selects(labels, term)
    {
      TermExactly(labels, term);
    }
    if terms.Some? && (exists term :: term in terms.value && Selects(labels, term)) {
      var term :| term in terms.value && Selects(labels, term);
      var i :| 0 <= i < |terms.value| && terms.value[i] == term;
      assert MatchesTerm(labels, terms.value[i]);
    }
  }

  lemma {:induction false} SlotsExactly(podsOnNode: seq<Pod>)
    ensures Sum(podsOnNode, SLOT) == |Unfinished(podsOnNode)|
  {
    if podsOnNode != [] {
      SlotsExactly(podsOnNode[..|podsOnNode| - 1]);
    }
  }

  /** Integer labels compare as integers. */
  lemma NumbersCompare(labels: map<string, string>, r: Requirement, have: Int64, want: Int64)
    requires Label(labels, r.key) == Some(FormatInt(have)) && r.values == [FormatInt(want)]
    ensures r.op.OpGt? ==> (MatchesExpression(labels, r) <==> have > want)
    ensures r.op.OpLt? ==> (MatchesExpression(labels, r) <==> have < want)
  {
    ParseFormat(have, -MAX_INT64 - 1, MAX_INT64);
    ParseFormat(want, -MAX_INT64 - 1, MAX_INT64);
  }

  /** The taints, the labels and the slots, read as the rules. */
  lemma RulesRead(node: Node, podsOnNode: seq<Pod>, spec: PodSpec, opts: Options, now: int)
    ensures Breaks(TaintNotTolerated, node, podsOnNode, spec, opts, now) <==>
              opts.respectTaints && !ToleratesAllTaints(node.taints, spec.tolerations)
    ensures Breaks(NodeSelectorMismatch, node, podsOnNode, spec, opts, now) <==>
              opts.respectNodeSelector && !MatchesNodeSelector(node.labels, spec.nodeSelector)
    ensures Breaks(AffinityMismatch, node, podsOnNode, spec, opts, now) <==>
              opts.respectNodeAffinity && !MatchesRequiredAffinity(node.labels, spec.requiredTerms)
    ensures Breaks(PodSlotsFull, node, podsOnNode, spec, opts, now) <==> FreeSlots(node, podsOnNode) <= 0
  {
    TaintsExactly(node.taints, spec.tolerations);
    SelectorExactly(node.labels, spec.nodeSelector);
    AffinityExactly(node.labels, spec.requiredTerms);
    SlotsExactly(podsOnNode);
  }

  lemma ChecksInOrder(q: Exclusion, node: Node, podsOnNode: seq<Pod>, spec: PodSpec, opts: Options, now: int)
    ensures var e := Evaluate(node, podsOnNode, spec, opts, now);
            && (e.None? ==> !Breaks(q, node, podsOnNode, spec, opts, now))
            && (e.Some? ==>
                  && Breaks(e.value, node, podsOnNode, spec, opts, now)
                  && (Place(q) < Place(e.value) ==> !Breaks(q, node, podsOnNode, spec, opts, now)))
  {
    RulesRead(node, podsOnNode, spec, opts, now);
  }

  /**
   * A node is excluded for e if and only if it breaks the rule behind e and none before it, so it is a candidate if
   * and only if it breaks none.
   */
  lemma ExcludedExactly(node: Node, podsOnNode: seq<Pod>, spec: PodSpec, opts: Options, now: int, e: Exclusion)
    ensures Evaluate(node, podsOnNode, spec, opts, now) == Some(e) <==>
              && Breaks(e, node, podsOnNode, spec, opts, now)
              && forall q :: Place(q) < Place(e) ==> !Breaks(q, node, podsOnNode, spec, opts, now)
    ensures Evaluate(node, podsOnNode, spec, opts, now) == None <==>
              forall q :: !Breaks(q, node, podsOnNode, spec, opts, now)
  {
    var found := Evaluate(node, podsOnNode, spec, opts, now);
    forall q
      ensures found.None? ==> !Breaks(q, node, podsOnNode, spec, opts, now)
      ensures found.Some? && Place(q) < Place(found.value) ==> !Breaks(q, node, podsOnNode, spec, opts, now)
    {
      ChecksInOrder(q, node, podsOnNode, spec, opts, now);
    }
    ChecksInOrder(e, node, podsOnNode, spec, opts, now);
    if found.Some? && found.value != e {
      assert Place(found.value) < Place(e) || Place(e) < Place(found.value);
    }
  }
}
