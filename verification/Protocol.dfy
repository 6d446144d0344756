/**
 * The scale object as every actor sees it: a history of counts, one version each. Any number of Apply calls read
 * some version, which may be stale, and send writes conditional on it; others write freely; a sent write may land
 * late, be refused, or have its reply lost.
 */
module Protocol {
  import opened GoInt

  datatype Limits = Limits(lo: Int32, hi: Int32) {
    /** What the actuator accepts: a change, inside the bounds. */
    predicate Accepts(p: Plan) {
      lo <= p.target <= hi && p.target != p.from
    }
  }

  /** What one Apply call was asked to do: replace `from` by `target`. */
  datatype Plan = Plan(from: Int32, target: Int32)

  /** readAt is the version the write was conditional on. */
  datatype Author = Outside | Apply(id: nat, readAt: nat)

  datatype Entry = Entry(count: Int32, author: Author)

  datatype Request = Request(id: nat, version: nat)

  datatype World = World(history: seq<Entry>, plans: map<nat, Plan>, inflight: set<Request>)

  datatype Event =
    | OutsideWrite(count: Int32)
    | Begin(id: nat, plan: Plan)
    | Send(request: Request)
    | Land(request: Request)
    | Drop(request: Request)

  function Start(count: Int32): World {
    World([Entry(count, Outside)], map[], {})
  }

  predicate Enabled(l: Limits, w: World, e: Event) {
    match e
    case OutsideWrite(_) => true
    case Begin(id, plan) => id !in w.plans && l.Accepts(plan)
    case Send(r) => r.id in w.plans && r.version < |w.history| && w.history[r.version].count == w.plans[r.id].from
    case Land(r) => r in w.inflight && r.id in w.plans && r.version == |w.history| - 1
    case Drop(r) => r in w.inflight
  }

  function Do(l: Limits, w: World, e: Event): World
    requires Enabled(l, w, e)
  {
    match e
    case OutsideWrite(count) => w.(history := w.history + [Entry(count, Outside)])
    case Begin(id, plan) => w.(plans := w.plans[id := plan])
    case Send(r) => w.(inflight := w.inflight + {r})
    case Land(r) =>
      w.(history := w.history + [Entry(w.plans[r.id].target, Apply(r.id, r.version))], inflight := w.inflight - {r})
    case Drop(r) => w.(inflight := w.inflight - {r})
  }

  /** The worlds that a sequence of events leads through. */
  ghost predicate IsExecution(l: Limits, ws: seq<World>, es: seq<Event>) {
    && |ws| == |es| + 1
    && (exists count :: ws[0] == Start(count))
    && (forall k :: 0 <= k < |es| ==> Enabled(l, ws[k], es[k]) && ws[k + 1] == Do(l, ws[k], es[k]))
  }

  ghost predicate Reachable(l: Limits, w: World) {
    exists ws, es :: IsExecution(l, ws, es) && ws[|ws| - 1] == w
  }

  lemma ReachableStart(l: Limits, count: Int32)
    ensures Reachable(l, Start(count))
  {
    assert IsExecution(l, [Start(count)], []);
  }

  lemma ReachableStep(l: Limits, w: World, e: Event)
    requires Reachable(l, w) && Enabled(l, w, e)
    ensures Reachable(l, Do(l, w, e))
  {
    var ws, es :| IsExecution(l, ws, es) && ws[|ws| - 1] == w;
    var w' := Do(l, w, e);
    var ws', es' := ws + [w'], es + [e];
    assert forall k :: 0 <= k < |es| ==> Enabled(l, ws'[k], es'[k]) && ws'[k + 1] == Do(l, ws'[k], es'[k]);
    assert IsExecution(l, ws', es');
    assert ws'[|ws'| - 1] == w';
  }

  // ---- The invariant

  predicate PlansOk(l: Limits, w: World) {
    forall id :: id in w.plans ==> l.Accepts(w.plans[id])
  }

  predicate RequestOk(w: World, r: Request) {
    r.id in w.plans && r.version < |w.history| && w.history[r.version].count == w.plans[r.id].from
  }

  /** A count an Apply call wrote replaced the count it planned from, at the version it had just read. */
  predicate EffectOk(w: World, k: int)
    requires 0 <= k < |w.history|
  {
    var author := w.history[k].author;
    author.Apply? ==>
      && author.id in w.plans
      && author.readAt == k - 1
      && k > 0
      && w.history[k - 1].count == w.plans[author.id].from
      && w.history[k].count == w.plans[author.id].target
  }

  predicate Inv(l: Limits, w: World) {
    && |w.history| > 0
    && PlansOk(l, w)
    && (forall r :: r in w.inflight ==> RequestOk(w, r))
    && (forall k :: 0 <= k < |w.history| ==> EffectOk(w, k))
  }

  lemma StepKeepsEffects(l: Limits, w: World, e: Event)
    requires Inv(l, w) && Enabled(l, w, e)
    ensures var w' := Do(l, w, e); forall k :: 0 <= k < |w'.history| ==> EffectOk(w', k)
  {
    var w' := Do(l, w, e);
    assert forall id :: id in w.plans ==> id in w'.plans && w'.plans[id] == w.plans[id];
    forall k | 0 <= k < |w'.history|
      ensures EffectOk(w', k)
    {
      if k < |w.history| {
        assert EffectOk(w, k);
      } else if e.Land? {
        assert RequestOk(w, e.request);
      }
    }
  }

  lemma StepKeepsInv(l: Limits, w: World, e: Event)
    requires Inv(l, w) && Enabled(l, w, e)
    ensures Inv(l, Do(l, w, e))
  {
    StepKeepsEffects(l, w, e);
    var w' := Do(l, w, e);
    forall r | r in w'.inflight
      ensures RequestOk(w', r)
    {
      if r in w.inflight {
        assert RequestOk(w, r);
      }
    }
  }

  lemma {:induction false} ExecutionKeepsInv(l: Limits, ws: seq<World>, es: seq<Event>, k: nat)
    requires IsExecution(l, ws, es) && k < |ws|
    ensures Inv(l, ws[k])
  {
    if k > 0 {
      ExecutionKeepsInv(l, ws, es, k - 1);
      StepKeepsInv(l, ws[k - 1], es[k - 1]);
    }
  }

  lemma ReachableInv(l: Limits, w: World)
    requires Reachable(l, w)
    ensures Inv(l, w)
  {
    var ws, es :| IsExecution(l, ws, es) && ws[|ws| - 1] == w;
    ExecutionKeepsInv(l, ws, es, |ws| - 1);
  }

  // ---- What it means for the cluster

  /**
   * Whatever the other actors do and whichever replies are lost: every write of an Apply call that takes effect
   * replaces exactly the count its decision was computed from, at the version just read, by a different count
   * inside the bounds.
   */
  lemma EffectsAreExact(l: Limits, w: World, k: nat)
    requires Reachable(l, w) && k < |w.history| && w.history[k].author.Apply?
    ensures var id := w.history[k].author.id;
            && id in w.plans && k > 0
            && w.history[k].author.readAt == k - 1
            && w.history[k - 1].count == w.plans[id].from
            && w.history[k].count == w.plans[id].target
            && l.lo <= w.history[k].count <= l.hi
            && w.history[k].count != w.history[k - 1].count
  {
    ReachableInv(l, w);
    assert EffectOk(w, k);
  }

  /** An Apply call takes effect a second time only after another actor restored the count it started from. */
  lemma TwiceOnlyAfterRestore(l: Limits, w: World, i: nat, k: nat) returns (m: nat)
    requires Reachable(l, w) && i < k < |w.history|
    requires w.history[i].author.Apply? && w.history[k].author.Apply?
    requires w.history[i].author.id == w.history[k].author.id
    ensures i < m < k && w.history[i].author.id in w.plans
    ensures w.history[m].count == w.plans[w.history[i].author.id].from
    ensures !(w.history[m].author.Apply? && w.history[m].author.id == w.history[i].author.id)
  {
    m := k - 1;
    EffectsAreExact(l, w, i);
    EffectsAreExact(l, w, k);
    if w.history[m].author.Apply? && w.history[m].author.id == w.history[i].author.id {
      EffectsAreExact(l, w, m);
    }
  }
}
