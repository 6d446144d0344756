/** The controller's memory between reconciles, and one reconcile as a step over it. */
module Controller {
  import opened GoInt
  import opened Wrappers
  import opened Scaling
  import opened Engine

  /** Retained history, as a multiple of the stabilization window. */
  const HISTORY_RETENTION := 2

  datatype State = State(
    lastScaleUp: Option<int>,
    lastScaleDown: Option<int>,
    desiredHistory: seq<Sample>,
    backoff: BackoffState,
    lastGoodReplicas: Int32,
    observedReplicas: Int32,
    hasBaseline: bool,
    externalDriftAt: seq<int>,
    lastWrittenReplicas: Int32,
    hasWritten: bool,
    unmaterialisedSince: Option<int>,
    remediationCounted: bool,
    remediations: seq<OnPendingTimeout>)

  const INITIAL := State(None, None, [], CLEARED, 0, 0, false, [], 0, false, None, false, [])

  // ---- What the environment supplies to one reconcile

  datatype TargetView = TargetView(
    current: Int32, ready: Int32, rollout: bool, pending: Int32, oldestPendingAge: int,
    unhealthyPodAge: int, unmaterialised: Int32)
  {
    predicate CountsOk() {
      0 <= current && 0 <= pending && 0 <= unmaterialised && pending + unmaterialised <= MAX_INT32
    }
  }

  datatype ClusterView = ClusterView(fit: Int32, hpa: bool, backlog: Signal, cpu: Signal)

  /** How far the observation got: nothing readable, the target alone, or everything. */
  datatype Observation =
    | Unreadable
    | TargetOnly(target: TargetView)
    | Complete(target: TargetView, cluster: ClusterView)
  {
    predicate CountsOk() {
      && (!Unreadable? ==> target.CountsOk())
      && (Complete? ==> 0 <= cluster.fit)
    }
  }

  /** acked says that the actuator returned no error. */
  datatype Input = Input(now: int, seen: Observation, acked: bool)

  // ---- Tracking other actors and replicas that never became pods

  function Recent(times: seq<int>, window: int, now: int): seq<int> {
    if times == [] then []
    else
      var at := times[|times| - 1];
      Recent(times[..|times| - 1], window, now) + if now - at <= window then [at] else []
  }

  /** The observed count is neither the previous one nor the one this controller last wrote. */
  predicate IsDrift(st: State, observed: Int32) {
    st.hasBaseline && observed != st.observedReplicas && !(st.hasWritten && observed == st.lastWrittenReplicas)
  }

  function TrackDrift(c: Config, st: State, observed: Int32, now: int): State {
    if !st.hasBaseline then
      st.(hasBaseline := true, observedReplicas := observed, lastGoodReplicas := observed)
    else if IsDrift(st, observed) then
      st.(observedReplicas := observed,
          externalDriftAt := Recent(st.externalDriftAt + [now], c.window, now),
          desiredHistory := [],
          lastGoodReplicas := observed)
    else
      st.(observedReplicas := observed, externalDriftAt := Recent(st.externalDriftAt, c.window, now))
  }

  /** The number of drifts the engine is told about. */
  function Drifts(before: State, after: State): Int32 {
    if !before.hasBaseline then 0 else Wrap32(|after.externalDriftAt|)
  }

  function UnmaterialisedSince(st: State, unmaterialised: Int32, now: int): Option<int> {
    if unmaterialised <= 0 then None
    else if st.unmaterialisedSince.None? then Some(now)
    else st.unmaterialisedSince
  }

  // ---- Observation

  function Tracked(c: Config, st: State, now: int, seen: Observation): State {
    if seen.Unreadable? then st
    else
      var st1 := st.(unmaterialisedSince := UnmaterialisedSince(st, seen.target.unmaterialised, now));
      TrackDrift(c, st1, seen.target.current, now)
  }

  const NO_SIGNAL := Signal(0, None, false)

  /** The snapshot takes its history and floor from before the tracking, its drift count from after. */
  function SnapshotOf(c: Config, st: State, now: int, seen: Observation): Snapshot {
    if seen.Unreadable? then
      Snapshot(false, 0, 0, NO_SIGNAL, NO_SIGNAL, 0, false, false, 0, st.lastScaleUp, st.lastScaleDown,
               st.desiredHistory, st.backoff, st.lastGoodReplicas, 0, 0, 0, 0, 0)
    else
      var t := seen.target;
      var after := Tracked(c, st, now, seen);
      var cluster := if seen.Complete? then seen.cluster else ClusterView(0, false, NO_SIGNAL, NO_SIGNAL);
      var since := UnmaterialisedSince(st, t.unmaterialised, now);
      Snapshot(seen.Complete?, t.current, t.ready, cluster.backlog, cluster.cpu, cluster.fit, t.rollout, cluster.hpa,
               Drifts(st, after), st.lastScaleUp, st.lastScaleDown, st.desiredHistory, st.backoff, st.lastGoodReplicas,
               t.pending, t.oldestPendingAge, t.unhealthyPodAge, t.unmaterialised,
               if since.Some? then now - since.value else 0)
  }

  // ---- Folding the decision back

  function Retained(history: seq<Sample>, retain: int, now: int): seq<Sample> {
    if history == [] then []
    else
      var sample := history[|history| - 1];
      Retained(history[..|history| - 1], retain, now) + if now - sample.at <= retain then [sample] else []
  }

  function HistoryAfter(c: Config, history: seq<Sample>, d: Decision, now: int): seq<Sample> {
    if d.demand.Some? then
      Retained(history + [Sample(now, d.demand.value.raw)], c.window * HISTORY_RETENTION, now)
    else history
  }

  function ApplyDecisionState(c: Config, st: State, d: Decision, now: int): State {
    st.(desiredHistory := HistoryAfter(c, st.desiredHistory, d, now),
        backoff := if d.backoff.action == Unchanged then st.backoff else d.backoff.state)
  }

  function ApplyWriteState(st: State, d: Decision, now: int): State {
    if !d.Writes() then st
    else
      var st1 := st.(lastWrittenReplicas := d.target, hasWritten := true);
      match d.direction
      case Up => st1.(lastScaleUp := Some(now), lastGoodReplicas := d.current)
      case Down => st1.(lastScaleDown := Some(now))
      case NoDirection => st1
  }

  /** Under revert with nothing of ours to take back, scale-ups are held, and that is recorded as a freeze. */
  function RemedyOf(c: Config, d: Decision): OnPendingTimeout {
    if !d.reason.RevertPendingPods? && c.onPendingTimeout == Revert then Freeze else c.onPendingTimeout
  }

  /** One remediation is recorded per stuck episode, a revert only once it has been applied. */
  function RecordRemediation(c: Config, st: State, d: Decision, acked: bool): State {
    if !d.pendingTimedOut then st.(remediationCounted := false)
    else if st.remediationCounted || (d.reason == RevertPendingPods && !acked) then st
    else st.(remediationCounted := true, remediations := st.remediations + [RemedyOf(c, d)])
  }

  predicate Wrote(d: Decision, dir: Direction, acked: bool) {
    acked && d.Writes() && d.direction == dir
  }

  /** All three folds at once, field by field. */
  function Fold(c: Config, st: State, d: Decision, now: int, acked: bool): State {
    var counted := RecordRemediation(c, st, d, acked);
    State(
      if Wrote(d, Up, acked) then Some(now) else st.lastScaleUp,
      if Wrote(d, Down, acked) then Some(now) else st.lastScaleDown,
      HistoryAfter(c, st.desiredHistory, d, now),
      if d.backoff.action == Unchanged then st.backoff else d.backoff.state,
      if Wrote(d, Up, acked) then d.current else st.lastGoodReplicas,
      st.observedReplicas,
      st.hasBaseline,
      st.externalDriftAt,
      if acked && d.Writes() then d.target else st.lastWrittenReplicas,
      st.hasWritten || (acked && d.Writes()),
      st.unmaterialisedSince,
      counted.remediationCounted,
      counted.remediations)
  }

  lemma FoldIsSequential(c: Config, st: State, d: Decision, now: int, acked: bool)
    ensures var st1 := ApplyDecisionState(c, st, d, now);
            var st2 := if acked then ApplyWriteState(st1, d, now) else st1;
            Fold(c, st, d, now, acked) == RecordRemediation(c, st2, d, acked)
  {
  }

  // ---- One reconcile, and runs of them

  /** One reconcile: its input, the memory before, the snapshot, the decision and the memory after. */
  datatype Moment = Moment(x: Input, before: State, s: Snapshot, d: Decision, after: State)

  predicate Observed(c: Config, m: Moment) {
    m.s == SnapshotOf(c, m.before, m.x.now, m.x.seen)
  }

  predicate Decided(c: Config, m: Moment) {
    m.d == Decide(m.s, c, m.x.now)
  }

  predicate Folded(c: Config, m: Moment) {
    m.after == Fold(c, Tracked(c, m.before, m.x.now, m.x.seen), m.d, m.x.now, m.x.acked)
  }

  predicate Follows(ms: seq<Moment>, k: int) {
    0 <= k < |ms| - 1 && ms[k + 1].before == ms[k].after
  }

  function Reconciled(c: Config, st: State, x: Input): Moment {
    var s := SnapshotOf(c, st, x.now, x.seen);
    var d := Decide(s, c, x.now);
    Moment(x, st, s, d, Fold(c, Tracked(c, st, x.now, x.seen), d, x.now, x.acked))
  }

  /** Everything one process can do from its start, for any input at each reconcile. */
  predicate IsRun(c: Config, ms: seq<Moment>) {
    && (ms != [] ==> ms[0].before == INITIAL)
    && (forall k {:trigger Observed(c, ms[k])} :: 0 <= k < |ms| ==> Observed(c, ms[k]))
    && (forall k {:trigger Decided(c, ms[k])} :: 0 <= k < |ms| ==> Decided(c, ms[k]))
    && (forall k {:trigger Folded(c, ms[k])} :: 0 <= k < |ms| ==> Folded(c, ms[k]))
    && (forall k {:trigger Follows(ms, k)} :: 0 <= k < |ms| - 1 ==> Follows(ms, k))
  }

  function StateAfter(ms: seq<Moment>): State {
    if ms == [] then INITIAL else ms[|ms| - 1].after
  }

  /** A run goes on with whatever the next reconcile makes of its input. */
  ghost function Extended(c: Config, ms: seq<Moment>, x: Input): (longer: seq<Moment>)
    requires IsRun(c, ms)
    ensures IsRun(c, longer)
    ensures |longer| == |ms| + 1 && longer[..|ms|] == ms && longer[|ms|].x == x
    ensures StateAfter(longer) == Reconciled(c, StateAfter(ms), x).after
  {
    var longer := ms + [Reconciled(c, StateAfter(ms), x)];
    RunExtends(c, ms, x);
    longer
  }

  lemma RunExtends(c: Config, ms: seq<Moment>, x: Input)
    requires IsRun(c, ms)
    ensures IsRun(c, ms + [Reconciled(c, StateAfter(ms), x)])
  {
    MomentConsistent(c, StateAfter(ms), x);
    OneMore(c, ms, Reconciled(c, StateAfter(ms), x));
  }

  /** Any consistent moment that starts from the memory left by a run extends it. */
  lemma OneMore(c: Config, ms: seq<Moment>, m: Moment)
    requires IsRun(c, ms) && m.before == StateAfter(ms) && Observed(c, m) && Decided(c, m) && Folded(c, m)
    ensures IsRun(c, ms + [m])
  {
    var longer := ms + [m];
    forall k | 0 <= k < |longer|
      ensures Observed(c, longer[k]) && Decided(c, longer[k]) && Folded(c, longer[k])
    {
      if k < |ms| {
        assert longer[k] == ms[k];
        assert Observed(c, ms[k]) && Decided(c, ms[k]) && Folded(c, ms[k]);
      }
    }
    OneMoreFollows(ms, m);
  }

  lemma OneMoreFollows(ms: seq<Moment>, m: Moment)
    requires m.before == StateAfter(ms) && forall k {:trigger Follows(ms, k)} :: 0 <= k < |ms| - 1 ==> Follows(ms, k)
    ensures var longer := ms + [m];
            forall k {:trigger Follows(longer, k)} :: 0 <= k < |longer| - 1 ==> Follows(longer, k)
  {
    var longer := ms + [m];
    forall k | 0 <= k < |longer| - 1
      ensures Follows(longer, k)
    {
      if k < |ms| - 1 {
        assert Follows(ms, k);
      }
    }
  }

  lemma MomentConsistent(c: Config, st: State, x: Input)
    ensures var m := Reconciled(c, st, x);
            m.x == x && m.before == st && Observed(c, m) && Decided(c, m) && Folded(c, m)
  {
  }

  predicate Monotone(ms: seq<Moment>) {
    forall i, j :: 0 <= i < j < |ms| ==> ms[i].x.now <= ms[j].x.now
  }

  predicate Increasing(ms: seq<Moment>) {
    forall i, j :: 0 <= i < j < |ms| ==> ms[i].x.now < ms[j].x.now
  }

  predicate CountsOk(ms: seq<Moment>) {
    forall i :: 0 <= i < |ms| ==> ms[i].x.seen.CountsOk()
  }

  /** The reconcile read the target and adopted another actor's change. */
  predicate Adopts(m: Moment) {
    !m.x.seen.Unreadable? && IsDrift(m.before, m.x.seen.target.current)
  }
}
