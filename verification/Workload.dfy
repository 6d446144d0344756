/** The scaled workload as the caches show it: its current ReplicaSet, its pods' health, and the replicas it lacks. */
module Workload {
  import opened GoInt
  import opened Wrappers
  import opened Kube
  import opened Sums
  import opened IntText
  import opened Controller

  datatype Deployment = Deployment(
    uid: string, specReplicas: Option<Int32>, ready: Int32, updated: Int32,
    generation: Int64, observedGeneration: Int64)
  {
    /** The API's default is one replica. */
    function Replicas(): Int32 {
      specReplicas.GetOr(1)
    }
  }

  /** revision is the raw annotation. */
  datatype ReplicaSet = ReplicaSet(
    uid: string, owners: seq<string>, revision: Option<string>, created: int,
    specReplicas: Option<Int32>, statusReplicas: Int32)
  {
    function Revision(): int {
      if revision.None? then -1 else ParseInt(revision.value, -MAX_INT64 - 1, MAX_INT64).GetOr(-1)
    }

    predicate Holds() {
      statusReplicas > 0 || (specReplicas.Some? && specReplicas.value > 0)
    }
  }

  /** scheduled is the PodScheduled condition with its transition time; ready is the Ready condition. */
  datatype WorkloadPod = WorkloadPod(
    owners: seq<string>, deleting: bool, phase: Phase, nodeName: string,
    scheduled: Option<(bool, Option<int>)>, ready: Option<bool>, created: int)
  {
    /** Without a condition the node name is the truth. */
    predicate Scheduled() {
      if scheduled.Some? then scheduled.value.0 else nodeName != ""
    }

    /** When the condition last changed, the creation time when that is unknown. */
    function Since(): int {
      if scheduled.Some? then scheduled.value.1.GetOr(created) else created
    }

    predicate Active() {
      !deleting && !phase.Succeeded? && !phase.Failed?
    }

    /** Waiting for a node. */
    predicate IsPending() {
      !deleting && !Scheduled() && phase.Pending?
    }

    /** On a node and not Ready. */
    predicate IsUnhealthy() {
      !deleting && Scheduled() && ready != Some(true) && !phase.Succeeded?
    }

    /** Counted by the ReplicaSet controller, and on a node. */
    predicate ActivePlaced() {
      Active() && Scheduled()
    }
  }

  // ---- The current ReplicaSet

  predicate OwnedBy(owners: seq<string>, uid: string) {
    uid in owners
  }

  predicate Later(a: ReplicaSet, b: ReplicaSet) {
    a.Revision() > b.Revision() || (a.Revision() == b.Revision() && a.created > b.created)
  }

  function Newest(d: Deployment, sets: seq<ReplicaSet>): Option<ReplicaSet> {
    if sets == [] then None
    else
      var best, rs := Newest(d, sets[..|sets| - 1]), sets[|sets| - 1];
      if OwnedBy(rs.owners, d.uid) && (best.None? || Later(rs, best.value)) then Some(rs) else best
  }

  /** a precedes b by revision, or by creation where the revisions are equal. */
  predicate IsOlder(a: ReplicaSet, b: ReplicaSet) {
    a.Revision() < b.Revision() || (a.Revision() == b.Revision() && a.created < b.created)
  }

  /** Position k holds one of the Deployment's own, with its own before it all older and none after it newer. */
  predicate IsPick(d: Deployment, sets: seq<ReplicaSet>, k: nat)
    requires k < |sets|
  {
    && d.uid in sets[k].owners
    && (forall i :: 0 <= i < k && d.uid in sets[i].owners ==> IsOlder(sets[i], sets[k]))
    && (forall i :: k < i < |sets| && d.uid in sets[i].owners ==> !IsOlder(sets[k], sets[i]))
  }

  /**
   * The current ReplicaSet exists if the Deployment owns any; it has the highest revision of those and the latest
   * creation among equal ones, and is the first listed of those that are equal in both.
   */
  lemma {:induction false} NewestIsLatest(d: Deployment, sets: seq<ReplicaSet>)
    ensures Newest(d, sets).None? <==> forall i :: 0 <= i < |sets| ==> d.uid !in sets[i].owners
    ensures Newest(d, sets).Some? ==>
              exists k: nat :: k < |sets| && IsPick(d, sets, k) && Newest(d, sets).value == sets[k]
  {
    if sets != [] {
      var n := |sets| - 1;
      NewestIsLatest(d, sets[..n]);
      if Newest(d, sets[..n]).Some? {
        var k: nat :| k < n && IsPick(d, sets[..n], k) && Newest(d, sets[..n]).value == sets[..n][k];
        PickGoesOn(d, sets, k);
      } else if d.uid in sets[n].owners {
        assert IsPick(d, sets, n) by {
          assert forall i :: 0 <= i < n ==> sets[..n][i] == sets[i];
        }
      } else {
        assert forall i :: 0 <= i < n ==> sets[..n][i] == sets[i];
      }
    }
  }

  lemma PickGoesOn(d: Deployment, sets: seq<ReplicaSet>, k: nat)
    requires sets != [] && k < |sets| - 1 && IsPick(d, sets[..|sets| - 1], k)
    ensures var n := |sets| - 1;
            if d.uid in sets[n].owners && IsOlder(sets[k], sets[n]) then IsPick(d, sets, n) else IsPick(d, sets, k)
  {
    var n := |sets| - 1;
    assert forall i :: 0 <= i < n ==> sets[..n][i] == sets[i];
  }

  /** A ReplicaSet's revision is its annotation as a 64-bit integer, and -1 without one or with any other text. */
  lemma RevisionExactly(rs: ReplicaSet, n: Int64)
    ensures rs.revision == Some(FormatInt(n)) ==> rs.Revision() == n
    ensures rs.revision == None ==> rs.Revision() == -1
    ensures rs.revision.Some? && ParseInt(rs.revision.value, -0x8000_0000_0000_0000, 0x7fff_ffff_ffff_ffff).None? ==>
              rs.Revision() == -1
  {
    ParseFormat(n, -MAX_INT64 - 1, MAX_INT64);
  }

  method CurrentReplicaSet(d: Deployment, sets: seq<ReplicaSet>) returns (best: Option<ReplicaSet>)
    ensures best == Newest(d, sets)
  {
    best := None;
    var bestRevision := -1;
    for i := 0 to |sets|
      invariant best == Newest(d, sets[..i])
      invariant best.Some? ==> bestRevision == best.value.Revision()
    {
      assert sets[..i + 1][..i] == sets[..i];
      var rs := sets[i];
      if !OwnedBy(rs.owners, d.uid) {
        continue;
      }
      var revision := rs.Revision();
      if best.None? || revision > bestRevision || (revision == bestRevision && rs.created > best.value.created) {
        best, bestRevision := Some(rs), revision;
      }
    }
    assert sets[..|sets|] == sets;
  }

  /** No other ReplicaSet of the Deployment holds or wants replicas. */
  predicate OthersAreEmpty(d: Deployment, current: ReplicaSet, sets: seq<ReplicaSet>) {
    forall rs :: rs in sets && rs.uid != current.uid && OwnedBy(rs.owners, d.uid) ==> !rs.Holds()
  }

  /** The only shortfall is replicas the current ReplicaSet has not turned into pods yet. */
  predicate ScaleIsAhead(d: Deployment, current: ReplicaSet, sets: seq<ReplicaSet>) {
    d.generation == d.observedGeneration && d.updated < d.Replicas() && OthersAreEmpty(d, current, sets)
  }

  method ScaleAheadOfPods(d: Deployment, current: ReplicaSet, sets: seq<ReplicaSet>) returns (ahead: bool)
    ensures ahead == ScaleIsAhead(d, current, sets)
  {
    if d.generation != d.observedGeneration {
      return false;
    }
    if d.updated >= d.Replicas() {
      return false;
    }
    for i := 0 to |sets|
      invariant OthersAreEmpty(d, current, sets[..i])
    {
      var rs := sets[i];
      if rs.uid == current.uid || !OwnedBy(rs.owners, d.uid) {
        continue;
      }
      if rs.Holds() {
        assert rs in sets;
        return false;
      }
    }
    assert sets[..|sets|] == sets;
    return true;
  }

  // ---- Pod health

  const ACTIVE: WorkloadPod -> int := (p: WorkloadPod) => if p.Active() then 1 else 0
  const PENDING: WorkloadPod -> int := (p: WorkloadPod) => if p.IsPending() then 1 else 0
  const PLACED: WorkloadPod -> int := (p: WorkloadPod) => if p.ActivePlaced() then 1 else 0

  function OldestPending(pods: seq<WorkloadPod>, now: int): int {
    if pods == [] then 0
    else
      var p, before := pods[|pods| - 1], OldestPending(pods[..|pods| - 1], now);
      if p.IsPending() then Max(now - p.Since(), before) else before
  }

  function OldestUnhealthy(pods: seq<WorkloadPod>, now: int): int {
    if pods == [] then 0
    else
      var p, before := pods[|pods| - 1], OldestUnhealthy(pods[..|pods| - 1], now);
      if p.IsUnhealthy() then Max(now - p.Since(), before) else before
  }

  datatype Health = Health(active: Int32, pending: Int32, oldestPendingAge: int, unhealthyPodAge: int)

  /** The counts are kept in 32 bits. */
  function HealthOf(pods: seq<WorkloadPod>, now: int): Health {
    Health(Wrap32(Sum(pods, ACTIVE)), Wrap32(Sum(pods, PENDING)), OldestPending(pods, now), OldestUnhealthy(pods, now))
  }

  method SummarisePodHealth(pods: seq<WorkloadPod>, now: int) returns (h: Health)
    ensures h == HealthOf(pods, now)
  {
    h := Health(0, 0, 0, 0);
    for i := 0 to |pods|
      invariant h == HealthOf(pods[..i], now)
    {
      var pod := pods[i];
      assert pods[..i + 1][..i] == pods[..i];
      Wrap32OfSum(Sum(pods[..i], ACTIVE), 1);
      Wrap32OfSum(Sum(pods[..i], PENDING), 1);
      if pod.deleting {
        continue;
      }
      if !pod.phase.Succeeded? && !pod.phase.Failed? {
        h := h.(active := Wrap32(h.active + 1));
      }
      if !pod.Scheduled() && pod.phase.Pending? {
        h := h.(pending := Wrap32(h.pending + 1), oldestPendingAge := Max(now - pod.Since(), h.oldestPendingAge));
      } else if pod.Scheduled() && pod.ready != Some(true) && !pod.phase.Succeeded? {
        h := h.(unhealthyPodAge := Max(now - pod.Since(), h.unhealthyPodAge));
      }
    }
    assert pods[..|pods|] == pods;
  }

  // ---- Which pods are pending and unhealthy, and since when

  /** The scheduler has said no, or has said nothing and assigned no node. */
  predicate LacksNode(p: WorkloadPod) {
    match p.scheduled
    case Some((done, _)) => !done
    case None => p.nodeName == ""
  }

  predicate Lives(p: WorkloadPod) {
    !p.deleting && (p.phase.Pending? || p.phase.Running? || p.phase.Unknown?)
  }

  predicate WaitsForNode(p: WorkloadPod) {
    !p.deleting && p.phase == Pending && LacksNode(p)
  }

  predicate WaitsToBeReady(p: WorkloadPod) {
    !p.deleting && p.phase != Succeeded && !LacksNode(p) && (p.ready.None? || !p.ready.value)
  }

  /** When the scheduler last spoke of the pod, its creation when that is unknown. */
  function WaitingSince(p: WorkloadPod): int {
    match p.scheduled
    case Some((_, Some(at))) => at
    case Some((_, None)) | None => p.created
  }

  lemma ClassifiesExactly(p: WorkloadPod)
    ensures p.Active() <==> Lives(p)
    ensures p.IsPending() <==> WaitsForNode(p)
    ensures p.IsUnhealthy() <==> WaitsToBeReady(p)
    ensures p.ActivePlaced() <==> Lives(p) && !LacksNode(p)
    ensures p.Since() == WaitingSince(p)
  {
  }

  /** The positions of the pods for which f holds. */
  function Positions(pods: seq<WorkloadPod>, f: WorkloadPod -> bool): set<nat> {
    set k: nat | k < |pods| && f(pods[k])
  }

  lemma {:induction false} SumCounts(pods: seq<WorkloadPod>, f: WorkloadPod -> bool, g: WorkloadPod -> int)
    requires forall p :: g(p) == if f(p) then 1 else 0
    ensures Sum(pods, g) == |Positions(pods, f)|
  {
    if pods != [] {
      var n := |pods| - 1;
      SumCounts(pods[..n], f, g);
      assert n !in Positions(pods[..n], f);
      if f(pods[n]) {
        assert Positions(pods, f) == Positions(pods[..n], f) + {n};
      } else {
        assert Positions(pods, f) == Positions(pods[..n], f);
      }
    }
  }

  /** The longest wait among the pods for which f holds, 0 if there is none. */
  predicate IsLongest(age: int, pods: seq<WorkloadPod>, f: WorkloadPod -> bool, now: int) {
    && 0 <= age
    && (forall k :: 0 <= k < |pods| && f(pods[k]) ==> now - WaitingSince(pods[k]) <= age)
    && (age > 0 ==> exists k :: 0 <= k < |pods| && f(pods[k]) && age == now - WaitingSince(pods[k]))
  }

  lemma LongestPush(age: int, pods: seq<WorkloadPod>, f: WorkloadPod -> bool, now: int)
    requires pods != [] && IsLongest(age, pods[..|pods| - 1], f, now)
    ensures var p := pods[|pods| - 1];
            IsLongest(if f(p) then Max(now - WaitingSince(p), age) else age, pods, f, now)
  {
    var n := |pods| - 1;
    assert forall k :: 0 <= k < n ==> pods[..n][k] == pods[k];
    if age > 0 {
      var k :| 0 <= k < n && f(pods[..n][k]) && age == now - WaitingSince(pods[..n][k]);
      assert f(pods[k]);
    }
  }

  lemma {:induction false} AgesExactly(pods: seq<WorkloadPod>, now: int)
    ensures IsLongest(OldestPending(pods, now), pods, WaitsForNode, now)
    ensures IsLongest(OldestUnhealthy(pods, now), pods, WaitsToBeReady, now)
  {
    if pods != [] {
      var n := |pods| - 1;
      AgesExactly(pods[..n], now);
      ClassifiesExactly(pods[n]);
      LongestPush(OldestPending(pods[..n], now), pods, WaitsForNode, now);
      LongestPush(OldestUnhealthy(pods[..n], now), pods, WaitsToBeReady, now);
    }
  }

  /** The counts are those of the live pods and of those waiting for a node, the ages the longest waits. */
  lemma HealthExactly(pods: seq<WorkloadPod>, now: int)
    ensures var h := HealthOf(pods, now);
            && h.active == Wrap32(|Positions(pods, Lives)|)
            && h.pending == Wrap32(|Positions(pods, WaitsForNode)|)
            && IsLongest(h.oldestPendingAge, pods, WaitsForNode, now)
            && IsLongest(h.unhealthyPodAge, pods, WaitsToBeReady, now)
  {
    forall p: WorkloadPod
      ensures ACTIVE(p) == if Lives(p) then 1 else 0
      ensures PENDING(p) == if WaitsForNode(p) then 1 else 0
    {
      ClassifiesExactly(p);
    }
    SumCounts(pods, Lives, ACTIVE);
    SumCounts(pods, WaitsForNode, PENDING);
    AgesExactly(pods, now);
  }

  // ---- The observation

  function PodsOf(pods: seq<WorkloadPod>, uid: string): seq<WorkloadPod> {
    if pods == [] then []
    else
      var p := pods[|pods| - 1];
      PodsOf(pods[..|pods| - 1], uid) + if OwnedBy(p.owners, uid) then [p] else []
  }

  method PodsOwnedBy(pods: seq<WorkloadPod>, uid: string) returns (owned: seq<WorkloadPod>)
    ensures owned == PodsOf(pods, uid)
  {
    owned := [];
    for i := 0 to |pods|
      invariant owned == PodsOf(pods[..i], uid)
    {
      assert pods[..i + 1][..i] == pods[..i];
      if OwnedBy(pods[i].owners, uid) {
        owned := owned + [pods[i]];
      }
    }
    assert pods[..|pods|] == pods;
  }

  predicate Converging(d: Deployment) {
    d.generation != d.observedGeneration || d.updated != d.Replicas()
  }

  /** The pods of the current generation only. */
  function OwnPods(d: Deployment, sets: seq<ReplicaSet>, pods: seq<WorkloadPod>): seq<WorkloadPod> {
    var current := Newest(d, sets);
    if current.None? then [] else PodsOf(pods, current.value.uid)
  }

  predicate RollingOut(d: Deployment, sets: seq<ReplicaSet>) {
    var current := Newest(d, sets);
    Converging(d) && (current.None? || !ScaleIsAhead(d, current.value, sets))
  }

  function Unmaterialised(d: Deployment, sets: seq<ReplicaSet>, pods: seq<WorkloadPod>): Int32 {
    var active := Wrap32(Sum(OwnPods(d, sets, pods), ACTIVE));
    if Newest(d, sets).Some? && !RollingOut(d, sets) && d.Replicas() > active then Wrap32(d.Replicas() - active) else 0
  }

  function ViewOf(d: Deployment, sets: seq<ReplicaSet>, pods: seq<WorkloadPod>, now: int): TargetView {
    var h := HealthOf(OwnPods(d, sets, pods), now);
    TargetView(d.Replicas(), d.ready, RollingOut(d, sets), h.pending, h.oldestPendingAge, h.unhealthyPodAge,
               Unmaterialised(d, sets, pods))
  }

  method ObserveTarget(d: Deployment, sets: seq<ReplicaSet>, pods: seq<WorkloadPod>, now: int)
    returns (view: TargetView)
    ensures view == ViewOf(d, sets, pods, now)
  {
    view := TargetView(d.Replicas(), d.ready, Converging(d), 0, 0, 0, 0);
    var current := CurrentReplicaSet(d, sets);
    if current.None? {
      return;
    }
    var own := PodsOwnedBy(pods, current.value.uid);
    var h := SummarisePodHealth(own, now);
    view := view.(pending := h.pending, oldestPendingAge := h.oldestPendingAge, unhealthyPodAge := h.unhealthyPodAge);
    var ahead := ScaleAheadOfPods(d, current.value, sets);
    if view.rollout && ahead {
      view := view.(rollout := false);
    }
    if !view.rollout && view.current > h.active {
      view := view.(unmaterialised := Wrap32(view.current - h.active));
    }
  }

  /** Another ReplicaSet of the Deployment has pods, or wants some. */
  predicate OlderSetRemains(d: Deployment, current: ReplicaSet, sets: seq<ReplicaSet>) {
    exists rs :: rs in sets && d.uid in rs.owners && rs.uid != current.uid
                 && (0 < rs.statusReplicas || (rs.specReplicas.Some? && 0 < rs.specReplicas.value))
  }

  /**
   * A rollout is in progress exactly while the spec is unobserved, or too many replicas are updated, or too few and it
   * is not the current ReplicaSet alone that lags.
   */
  lemma RolloutExactly(d: Deployment, sets: seq<ReplicaSet>)
    ensures RollingOut(d, sets) <==>
              || d.generation != d.observedGeneration
              || d.Replicas() < d.updated
              || (d.updated < d.Replicas()
                  && (Newest(d, sets).None? || OlderSetRemains(d, Newest(d, sets).value, sets)))
  {
    if Newest(d, sets).Some? {
      OthersExactly(d, Newest(d, sets).value, sets);
    }
  }

  /** Outside a rollout the replicas missing are those asked for less the current ReplicaSet's live pods. */
  lemma ViewExactly(d: Deployment, sets: seq<ReplicaSet>, pods: seq<WorkloadPod>, now: int)
    ensures var t, current := ViewOf(d, sets, pods, now), Newest(d, sets);
            && t.current == (if d.specReplicas.None? then 1 else d.specReplicas.value)
            && t.ready == d.ready
            && (t.rollout <==> RollingOut(d, sets))
            && (current.None? || t.rollout ==> t.unmaterialised == 0)
            && (current.Some? && !t.rollout ==>
                  var live := HealthOf(PodsOf(pods, current.value.uid), now).active;
                  t.unmaterialised == if live < t.current then Wrap32(t.current - live) else 0)
  {
  }

  lemma OthersExactly(d: Deployment, current: ReplicaSet, sets: seq<ReplicaSet>)
    ensures OthersAreEmpty(d, current, sets) <==> !OlderSetRemains(d, current, sets)
  {
  }

  /** The health reported is that of the pods the current ReplicaSet owns. */
  lemma ViewedPods(d: Deployment, sets: seq<ReplicaSet>, pods: seq<WorkloadPod>, now: int, p: WorkloadPod)
    ensures var t, own := ViewOf(d, sets, pods, now), OwnPods(d, sets, pods);
            && t.pending == Wrap32(|Positions(own, WaitsForNode)|)
            && IsLongest(t.oldestPendingAge, own, WaitsForNode, now)
            && IsLongest(t.unhealthyPodAge, own, WaitsToBeReady, now)
            && (p in own <==> Newest(d, sets).Some? && p in pods && Newest(d, sets).value.uid in p.owners)
  {
    HealthExactly(OwnPods(d, sets, pods), now);
    if Newest(d, sets).Some? {
      OwnedExactly(pods, Newest(d, sets).value.uid, p);
    }
  }

  lemma {:induction false} OwnedExactly(pods: seq<WorkloadPod>, uid: string, p: WorkloadPod)
    ensures p in PodsOf(pods, uid) <==> p in pods && uid in p.owners
  {
    if pods != [] {
      OwnedExactly(pods[..|pods| - 1], uid, p);
      assert pods == pods[..|pods| - 1] + [pods[|pods| - 1]];
    }
  }

  // ---- What the engine may rely on

  lemma {:induction false} PodsAreCountedOnce(pods: seq<WorkloadPod>)
    ensures 0 <= Sum(pods, PENDING) && 0 <= Sum(pods, PLACED)
    ensures Sum(pods, PENDING) + Sum(pods, PLACED) <= Sum(pods, ACTIVE) <= |pods|
  {
    if pods != [] {
      PodsAreCountedOnce(pods[..|pods| - 1]);
    }
  }

  lemma {:induction false} FewerPods(pods: seq<WorkloadPod>, uid: string)
    ensures |PodsOf(pods, uid)| <= |pods|
  {
    if pods != [] {
      FewerPods(pods[..|pods| - 1], uid);
    }
  }

  /** Pods the current generation has on nodes. */
  function PlacedPods(d: Deployment, sets: seq<ReplicaSet>, pods: seq<WorkloadPod>): int {
    Sum(OwnPods(d, sets, pods), PLACED)
  }

  function ActivePods(d: Deployment, sets: seq<ReplicaSet>, pods: seq<WorkloadPod>): int {
    Sum(OwnPods(d, sets, pods), ACTIVE)
  }

  lemma OwnCounts(d: Deployment, sets: seq<ReplicaSet>, pods: seq<WorkloadPod>, now: int)
    requires |pods| <= MAX_INT32
    ensures var own := OwnPods(d, sets, pods);
            && ViewOf(d, sets, pods, now).pending == Sum(own, PENDING)
            && Wrap32(Sum(own, ACTIVE)) == Sum(own, ACTIVE)
            && 0 <= Sum(own, PENDING) && 0 <= Sum(own, PLACED)
            && Sum(own, PENDING) + Sum(own, PLACED) <= Sum(own, ACTIVE)
  {
    var own := OwnPods(d, sets, pods);
    PodsAreCountedOnce(own);
    if Newest(d, sets).Some? {
      FewerPods(pods, Newest(d, sets).value.uid);
    }
  }

  /** Every observation gives the engine counts it can add without leaving 32 bits. */
  lemma ViewCountsAreOk(d: Deployment, sets: seq<ReplicaSet>, pods: seq<WorkloadPod>, now: int)
    requires |pods| <= MAX_INT32 && 0 <= d.Replicas()
    ensures ViewOf(d, sets, pods, now).CountsOk()
  {
    OwnCounts(d, sets, pods, now);
  }

  /**
   * Outside a rollout the replicas that are not stuck are never fewer than the active pods on nodes, less the
   * pods the Deployment still has to remove.
   */
  lemma StuckSparesPlaced(d: Deployment, sets: seq<ReplicaSet>, pods: seq<WorkloadPod>, now: int)
    requires |pods| <= MAX_INT32 && 0 <= d.Replicas()
    requires var t := ViewOf(d, sets, pods, now); !t.rollout && t.pending + t.unmaterialised > 0
    ensures var t := ViewOf(d, sets, pods, now);
            t.current - (t.pending + t.unmaterialised)
            >= PlacedPods(d, sets, pods) - Max(ActivePods(d, sets, pods) - t.current, 0)
  {
    OwnCounts(d, sets, pods, now);
  }
}
