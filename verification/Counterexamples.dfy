/** Inputs at the edges of the general results: each shows that a condition stated elsewhere cannot be dropped. */
module Counterexamples {
  import opened GoInt
  import opened Wrappers
  import opened Scaling
  import opened Engine
  import opened Controller
  import opened Runs
  import Admission
  import Protocol
  import SoleWriter
  import Fit
  import Sums

  /** Defaults, with a window of one interval so that one sample fills it. */
  const BRISK: Settings := DEFAULTS.(window := DEFAULTS.interval)

  const NO_TOLERANCE: Config := BRISK.(tolerancePercent := 0)
  const HIGH_FLOOR: Config := DEFAULTS.(minReplicas := 10)
  const WIDE: Config := DEFAULTS.(maxReplicas := 0x7fff_ffff, maxScaleUpStep := 0x7fff_ffff)

  const NO_LIMIT: Config := DEFAULTS.(externalChangeTolerance := 0x8000_0000)

  const NOW := 1000 * SECOND

  function Backlog(items: Int64): Signal {
    Signal(items, Some(NOW), true)
  }

  function Steady(count: Int32, items: Int64, history: seq<Sample>): Snapshot {
    Snapshot(true, count, count, Backlog(items), NO_SIGNAL, 100, false, false, 0, None, None, history, CLEARED,
             0, 0, 0, 0, 0, 0)
  }

  /** Without a deadband, demand equal to the count reaches a scale-down that changes nothing. */
  lemma NoOpScaleDown() returns (s: Snapshot)
    ensures s.CountsOk() && NO_TOLERANCE.Valid()
    ensures var d := Decide(s, NO_TOLERANCE, NOW); d.reason.ScaleDown? && d.target == s.currentReplicas
  {
    var history := [Sample(NOW - BRISK.window, 1)];
    s := Steady(2, 100, history);
    assert history[..0] == [];
    assert CountInWindow(history, BRISK.window, NOW) == 1;
    assert InWindow(history[0], BRISK.window, NOW);
    assert Quiet(s, NO_TOLERANCE, NOW);
  }

  /** One step from far below minReplicas stays below it: only the actuator stops that write. */
  lemma ScaleUpBelowMinimum() returns (s: Snapshot)
    ensures s.CountsOk() && HIGH_FLOOR.Valid()
    ensures var d := Decide(s, HIGH_FLOOR, NOW); d.reason.ScaleUp? && d.target < HIGH_FLOOR.minReplicas
  {
    s := Steady(1, 100, []);
  }

  /** The step can leave the 32-bit range, and the decision then asks for a negative count. */
  lemma ScaleUpWraps() returns (s: Snapshot)
    ensures s.CountsOk() && WIDE.Valid()
    ensures var d := Decide(s, WIDE, NOW); d.reason.ScaleUp? && d.target < 0
  {
    s := Steady(2, 1_000_000, []).(fitCapacity := 0x7fff_ffff);
  }

  /**
   * The same step with less capacity than it: the partial scale-up takes all the capacity whatever demand is, and
   * since it stays inside the bounds the actuator lets it through.
   */
  lemma PartialScaleUpOvershootsDemand() returns (s: Snapshot)
    ensures s.CountsOk() && WIDE.Valid()
    ensures var d := Decide(s, WIDE, NOW);
            && d.reason.ScaleUpPartial? && DemandOf(s, WIDE, NOW).clamped == 5
            && d.target == 102 && d.MovesInside(WIDE.minReplicas, WIDE.maxReplicas)
  {
    s := Steady(2, 250, []);
  }

  /** A backlog of 2^32 times one replica's share converts to a demand of nothing. */
  lemma HugeBacklogWrapsToNothing() returns (s: Snapshot)
    ensures s.CountsOk() && DEFAULTS.Valid()
    ensures s.backlog.value > 0 && DesiredBacklog(s, DEFAULTS) == 0
  {
    s := Steady(2, DEFAULTS.itemsPerReplica * 0x1_0000_0000, []);
  }

  /** A tolerance meant as no limit turns negative: the controller stands back from changes nobody made. */
  lemma HugeToleranceFreezes() returns (s: Snapshot)
    ensures s.CountsOk() && NO_LIMIT.Valid() && s.externalDrifts == 0
    ensures Decide(s, NO_LIMIT, NOW).reason.HoldExternalChange?
  {
    s := Steady(2, 100, []);
  }

  /** A revert from above maxReplicas removes more than the one stuck replica. */
  lemma RevertRemovesMoreThanStuck() returns (s: Snapshot)
    ensures s.CountsOk() && DEFAULTS.Valid()
    ensures var d := Decide(s, DEFAULTS, NOW);
            d.reason.RevertPendingPods? && d.current - d.target > s.Stuck()
  {
    s := Steady(20, 100, []).(pendingOurPods := 1, oldestPendingAge := 1000 * SECOND);
  }

  /** A margin meant as prohibitive turns negative: an empty cluster is reported to have room. */
  lemma HugeMarginPromisesCapacity(t: Fit.Target)
    requires t.Valid() && t.opts.marginPods == Wrap32(0xFFFF_FFFF)
    ensures Fit.Estimate([], [], t).fitCapacity == 1 && Fit.RawFit([], [], t) == 0
  {
  }

  // ---- The reconcile that adopts another actor's change decides on what it remembered before

  const BEFORE := NOW - BRISK.window

  function Reading(count: Int32, at: int): Observation {
    Complete(TargetView(count, count, false, 0, 0, 0, 0), ClusterView(100, false, Signal(1, Some(at), true), NO_SIGNAL))
  }

  const FIRST := Input(BEFORE, Reading(5, BEFORE), true)
  const SECOND_READING := Input(NOW, Reading(6, NOW), true)

  lemma OneSampleRetained(h: Sample, retain: int, now: int)
    requires now - h.at <= retain
    ensures Retained([] + [h], retain, now) == [h]
  {
    var history := [] + [h];
    assert history == [h] && history[..0] == [];
  }

  lemma FirstReconcile(c: Config)
    requires c == BRISK
    ensures var m := Reconciled(c, INITIAL, FIRST);
            && m.after.hasBaseline && m.after.observedReplicas == 5 && !m.after.hasWritten
            && m.after.desiredHistory == [Sample(BEFORE, 1)]
            && m.after.lastScaleDown == None && m.after.externalDriftAt == []
  {
    OneSampleRetained(Sample(BEFORE, 1), c.window * HISTORY_RETENTION, BEFORE);
    var s := SnapshotOf(c, INITIAL, BEFORE, FIRST.seen);
    assert DemandOf(s, c, BEFORE).raw == 1;
    assert Decide(s, c, BEFORE).demand == Some(DemandOf(s, c, BEFORE));
  }

  lemma QuietAfterOne(s: Snapshot, c: Config)
    requires c == BRISK && s.desiredHistory == [Sample(BEFORE, 1)] && s.currentReplicas == 6
    ensures Quiet(s, c, NOW)
  {
    assert s.desiredHistory[..0] == [];
    assert CountInWindow(s.desiredHistory, c.window, NOW) == 1;
    assert InWindow(s.desiredHistory[0], c.window, NOW);
  }

  lemma AdoptsAndScalesDown(c: Config, st: State)
    requires c == BRISK && st.hasBaseline && st.observedReplicas == 5 && !st.hasWritten
    requires st.desiredHistory == [Sample(BEFORE, 1)] && st.lastScaleDown == None && st.externalDriftAt == []
    ensures var m := Reconciled(c, st, SECOND_READING); Adopts(m) && m.d.reason.ScaleDown?
  {
    var s := SnapshotOf(c, st, NOW, SECOND_READING.seen);
    var times := [] + [NOW];
    assert times[..0] == [] && Recent(times, c.window, NOW) == [NOW];
    assert s.externalDrifts == 1;
    QuietAfterOne(s, c);
    assert DemandOf(s, c, NOW).clamped == 1;
  }

  /** A run whose second reconcile adopts another actor's change and scales down on the history from before it. */
  lemma AdoptionScalesDownAtOnce(c: Config) returns (ms: seq<Moment>)
    requires c == BRISK
    ensures IsRun(c, ms) && Increasing(ms) && |ms| == 2
    ensures Adopts(ms[1]) && ms[1].d.reason.ScaleDown?
  {
    FirstReconcile(c);
    ms := Extended(c, [], FIRST);
    AdoptsAndScalesDown(c, StateAfter(ms));
    var m := Reconciled(c, StateAfter(ms), SECOND_READING);
    var longer := Extended(c, ms, SECOND_READING);
    SameMoment(c, ms, longer, SECOND_READING);
    ms := longer;
  }

  lemma SameMoment(c: Config, ms: seq<Moment>, longer: seq<Moment>, x: Input)
    requires ms != [] && IsRun(c, longer) && |longer| == |ms| + 1 && longer[..|ms|] == ms && longer[|ms|].x == x
    ensures longer[|ms|].before == StateAfter(ms)
    ensures longer[|ms|].d == Reconciled(c, StateAfter(ms), x).d
    ensures Adopts(longer[|ms|]) <==> Adopts(Reconciled(c, StateAfter(ms), x))
  {
    var k := |ms| - 1;
    assert longer[k] == ms[k];
    assert Follows(longer, k);
    assert Observed(c, longer[|ms|]) && Decided(c, longer[|ms|]);
  }

  // ---- The first reconcile has no floor

  const STUCK := TargetView(5, 1, false, 4, 1000 * SECOND, 0, 0)
  const FIRST_STUCK := Input(NOW, Complete(STUCK, ClusterView(0, false, NO_SIGNAL, NO_SIGNAL)), true)

  /** A run of one reconcile that takes back four of the five replicas it has only just read. */
  lemma FirstReconcileReverts(c: Config) returns (ms: seq<Moment>)
    requires c == DEFAULTS
    ensures IsRun(c, ms) && |ms| == 1
    ensures ms[0].d.reason.RevertPendingPods? && ms[0].d.current == 5 && ms[0].d.target == 1
  {
    ms := Extended(c, [], FIRST_STUCK);
    assert Observed(c, ms[0]) && Decided(c, ms[0]);
    assert Reconciled(c, INITIAL, FIRST_STUCK).d.reason.RevertPendingPods?;
  }

  // ---- A write that lands with its reply lost looks like another actor's

  const LATER := NOW + 15 * SECOND

  function Seeing(count: Int32, at: int): Observation {
    Complete(TargetView(count, count, false, 0, 0, 0, 0),
             ClusterView(100, false, Signal(100, Some(at), true), NO_SIGNAL))
  }

  const UNANSWERED := Input(NOW, Seeing(1, NOW), false)
  const NEXT_READING := Input(LATER, Seeing(2, LATER), true)

  lemma UnansweredScaleUp(c: Config)
    requires c == DEFAULTS
    ensures var m := Reconciled(c, INITIAL, UNANSWERED);
            && m.d.reason.ScaleUp? && m.d.current == 1 && m.d.target == 2
            && m.after.hasBaseline && m.after.observedReplicas == 1 && !m.after.hasWritten
  {
  }

  lemma NothingMoreToDo(c: Config, st: State)
    requires c == DEFAULTS && st.hasBaseline && st.observedReplicas == 1 && !st.hasWritten
    ensures var m := Reconciled(c, st, NEXT_READING); Adopts(m) && !m.d.Writes()
  {
    var s := SnapshotOf(c, st, LATER, NEXT_READING.seen);
    assert DemandOf(s, c, LATER).clamped == 2;
  }

  const ALONE := Protocol.Start(1)
  const SENT := Protocol.World(ALONE.history, map[0 := Protocol.Plan(1, 2)], {Protocol.Request(0, 0)})
  const LANDED := Protocol.World(ALONE.history + [Protocol.Entry(2, Protocol.Apply(0, 0))], SENT.plans, {})

  lemma ScaleUpLands(l: Protocol.Limits)
    requires l.lo <= 2 <= l.hi
    ensures Protocol.Reachable(l, ALONE) && Protocol.Reachable(l, LANDED)
  {
    Protocol.ReachableStart(l, 1);
    var begun := Protocol.World(ALONE.history, map[0 := Protocol.Plan(1, 2)], {});
    Protocol.ReachableStep(l, ALONE, Protocol.Begin(0, Protocol.Plan(1, 2)));
    assert Protocol.Do(l, ALONE, Protocol.Begin(0, Protocol.Plan(1, 2))) == begun;
    Protocol.ReachableStep(l, begun, Protocol.Send(Protocol.Request(0, 0)));
    assert Protocol.Do(l, begun, Protocol.Send(Protocol.Request(0, 0))) == SENT;
    Protocol.ReachableStep(l, SENT, Protocol.Land(Protocol.Request(0, 0)));
    assert Protocol.Do(l, SENT, Protocol.Land(Protocol.Request(0, 0))) == LANDED;
  }

  /** Two reconciles around that write, the first one's call being the only one. */
  lemma AloneWith(c: Config, first: Moment, second: Moment)
    returns (ws: seq<Protocol.World>, ss: seq<SoleWriter.Step>)
    requires IsRun(c, [first, second]) && c.minReplicas <= 2 <= c.maxReplicas
    requires first.d.Writes() && first.d.current == 1 && first.d.target == 2 && !first.x.acked
    requires !second.d.Writes()
    requires first.x.seen == Seeing(1, NOW) && second.x.seen == Seeing(2, LATER)
    ensures SoleWriter.IsSoleRun(c, ws, ss)
    ensures ws == [ALONE, LANDED, LANDED]
    ensures ss == [SoleWriter.Step(first, 0, 0), SoleWriter.Step(second, 1, 1)]
  {
    ws := [ALONE, LANDED, LANDED];
    ss := [SoleWriter.Step(first, 0, 0), SoleWriter.Step(second, 1, 1)];
    assert SoleWriter.MomentsOf(ss) == [first, second];
    ScaleUpLands(SoleWriter.Bounds(c));
    OneCount();
    LandedByCall(ws, ss);
    assert SoleWriter.StepOk(ws[0], ws[1], ss[0]) && SoleWriter.StepOk(ws[1], ws[2], ss[1]);
  }

  /**
   * A controller alone on the cluster: its first write lands with the reply lost, and its second reconcile takes
   * that write for another actor's.
   */
  lemma LostReplyLooksExternal(c: Config) returns (ws: seq<Protocol.World>, ss: seq<SoleWriter.Step>)
    requires c == DEFAULTS
    ensures SoleWriter.IsSoleRun(c, ws, ss) && |ss| == 2
    ensures ws[1].history == ws[0].history + [Protocol.Entry(2, Protocol.Apply(0, 0))] && !ss[0].m.x.acked
    ensures Adopts(ss[1].m)
  {
    UnansweredScaleUp(c);
    MomentConsistent(c, INITIAL, UNANSWERED);
    var first := Reconciled(c, INITIAL, UNANSWERED);
    NothingMoreToDo(c, first.after);
    MomentConsistent(c, first.after, NEXT_READING);
    TwoReconciles(c, UNANSWERED, NEXT_READING);
    ws, ss := AloneWith(c, first, Reconciled(c, first.after, NEXT_READING));
  }

  lemma OneCount()
    ensures |SoleWriter.Counts(ALONE.history)| == 1
  {
    assert ALONE.history[..0] == [];
  }

  lemma LandedByCall(ws: seq<Protocol.World>, ss: seq<SoleWriter.Step>)
    requires ws == [ALONE, LANDED, LANDED] && |ss| == 2 && ss[0].id == 0
    ensures SoleWriter.Alone(ws, ss, 0) && SoleWriter.Alone(ws, ss, 1)
  {
    assert SoleWriter.WrittenBy(ws, ss, LANDED.history[1], 0);
    assert SoleWriter.FromCalls(ws, ss, LANDED.history[1], 0);
  }

  lemma TwoReconciles(c: Config, x: Input, y: Input)
    ensures var m := Reconciled(c, INITIAL, x); IsRun(c, [m, Reconciled(c, m.after, y)])
  {
    var m := Reconciled(c, INITIAL, x);
    RunExtends(c, [], x);
    assert [] + [m] == [m];
    RunExtends(c, [m], y);
    assert [m] + [Reconciled(c, m.after, y)] == [m, Reconciled(c, m.after, y)];
  }

  // ---- One Apply call takes effect twice

  /** One call's write, another actor's that restores the count, and the call's write again. */
  const TWICE := [
    Protocol.Entry(1, Protocol.Outside), Protocol.Entry(2, Protocol.Apply(0, 0)),
    Protocol.Entry(1, Protocol.Outside), Protocol.Entry(2, Protocol.Apply(0, 2))]

  lemma Reaches(l: Protocol.Limits, w: Protocol.World, e: Protocol.Event, w': Protocol.World)
    requires Protocol.Reachable(l, w) && Protocol.Enabled(l, w, e) && w' == Protocol.Do(l, w, e)
    ensures Protocol.Reachable(l, w')
  {
    Protocol.ReachableStep(l, w, e);
  }

  /** A call that retries takes effect a second time once another actor has restored the count it started from. */
  lemma TakesEffectTwice(l: Protocol.Limits) returns (w: Protocol.World)
    requires l.lo <= 2 <= l.hi
    ensures Protocol.Reachable(l, w) && |w.history| == 4
    ensures w.history[1].author == Protocol.Apply(0, 0) && w.history[3].author == Protocol.Apply(0, 2)
    ensures w.history[2] == Protocol.Entry(1, Protocol.Outside)
  {
    ScaleUpLands(l);
    var plans := map[0 := Protocol.Plan(1, 2)];
    var restored := Protocol.World(TWICE[..3], plans, {});
    Reaches(l, LANDED, Protocol.OutsideWrite(1), restored);
    var again := Protocol.Request(0, 2);
    var sent := Protocol.World(TWICE[..3], plans, {again});
    Reaches(l, restored, Protocol.Send(again), sent);
    w := Protocol.World(TWICE, plans, {});
    Reaches(l, sent, Protocol.Land(again), w);
  }

  // ---- A record is turned away from an empty queue

  const ONE_EACH := Admission.Limits(1, 1)

  lemma Happens(w: Admission.World, e: Admission.Event, w': Admission.World)
    requires Admission.Reachable(ONE_EACH, w) && Admission.Enabled(ONE_EACH, w, e)
    requires w' == Admission.Do(ONE_EACH, w, e)
    ensures Admission.Reachable(ONE_EACH, w')
  {
    Admission.ReachableStep(ONE_EACH, w, e);
  }

  /** Another record arrives, parses and finds the one slot taken. */
  lemma AnotherFindsItFull(w: Admission.World) returns (w': Admission.World)
    requires Admission.Reachable(ONE_EACH, w) && w.slots == 1
    ensures Admission.Reachable(ONE_EACH, w') && w' == w.(records := w.records + [Admission.Full])
  {
    var i := |w.records|;
    var w1 := w.(records := w.records + [Admission.Received]);
    var w2 := w.(records := w.records + [Admission.Parsed]);
    w' := w.(records := w.records + [Admission.Full]);
    assert w1.records[i := Admission.Parsed] == w2.records && w2.records[i := Admission.Full] == w'.records;
    Happens(w, Admission.Arrive, w1);
    Happens(w1, Admission.Parse(i, true), w2);
    Happens(w2, Admission.TrySlot(i), w');
  }

  lemma FirstTakesSlot() returns (w: Admission.World)
    ensures Admission.Reachable(ONE_EACH, w) && w == Admission.World(1, 0, [Admission.Working], [])
  {
    Admission.ReachableStart(ONE_EACH);
    var w1 := Admission.World(0, 0, [Admission.Received], []);
    var w2 := Admission.World(0, 0, [Admission.Parsed], []);
    w := Admission.World(1, 0, [Admission.Working], []);
    Happens(Admission.EMPTY, Admission.Arrive, w1);
    Happens(w1, Admission.Parse(0, true), w2);
    Happens(w2, Admission.TrySlot(0), w);
  }

  /**
   * With one slot and a queue of one, a record is turned away although nobody is queued: the counter still holds
   * another record on its way out of the door.
   */
  lemma TurnedAwayFromEmptyQueue() returns (w: Admission.World)
    ensures Admission.Reachable(ONE_EACH, w) && ONE_EACH.Valid()
    ensures Admission.Admitted(w) == 0 < ONE_EACH.queueLimit
    ensures Admission.Enabled(ONE_EACH, w, Admission.Enqueue(3))
    ensures Admission.Do(ONE_EACH, w, Admission.Enqueue(3)).records[3].Bouncing?
  {
    w := FirstTakesSlot();
    w := AnotherFindsItFull(w);
    w := AnotherFindsItFull(w);
    w := AnotherFindsItFull(w);
    w := OneQueuesOneBounces(w);
    w := QueueEmpties(w);
    CountsInQueue(w);
    Admission.TurnedAwayExactly(ONE_EACH, w, 3);
  }

  const ALL_FULL := [Admission.Working, Admission.Full, Admission.Full, Admission.Full]
  const ONE_QUEUED := [Admission.Working, Admission.Waiting, Admission.Full, Admission.Full]
  const ONE_BOUNCING := [Admission.Working, Admission.Waiting, Admission.Bouncing, Admission.Full]

  /** One record queues, the next is over the limit. */
  lemma OneQueuesOneBounces(w: Admission.World) returns (w': Admission.World)
    requires Admission.Reachable(ONE_EACH, w) && w.waiting == 0 && w.records == ALL_FULL
    ensures Admission.Reachable(ONE_EACH, w') && w'.records == ONE_BOUNCING
  {
    w' := Enqueues(w, 1, ONE_QUEUED);
    w' := Enqueues(w', 2, ONE_BOUNCING);
  }

  lemma Enqueues(w: Admission.World, i: nat, records: seq<Admission.Place>) returns (w': Admission.World)
    requires Admission.Reachable(ONE_EACH, w) && i < |w.records| && w.records[i].Full?
    requires records == w.records[i := if w.waiting + 1 > 1 then Admission.Bouncing else Admission.Waiting]
    ensures Admission.Reachable(ONE_EACH, w') && w'.waiting == w.waiting + 1 && w'.records == records
  {
    w' := w.(waiting := w.waiting + 1, records := records);
    Happens(w, Admission.Enqueue(i), w');
  }

  /** The queued record gives up before the other has uncounted itself. */
  lemma QueueEmpties(w: Admission.World) returns (w': Admission.World)
    requires Admission.Reachable(ONE_EACH, w)
    requires w.records == ONE_BOUNCING
    ensures Admission.Reachable(ONE_EACH, w')
    ensures w'.records == [Admission.Working, Admission.Refused, Admission.Bouncing, Admission.Full]
  {
    var left := [Admission.Working, Admission.LeavingWithout, Admission.Bouncing, Admission.Full];
    var w1 := w.(records := left);
    w' := w.(waiting := w.waiting - 1, records := left[1 := Admission.Refused]);
    Happens(w, Admission.GiveUp(1), w1);
    Happens(w1, Admission.Uncount(1), w');
  }

  lemma CountsInQueue(w: Admission.World)
    requires w.records == [Admission.Working, Admission.Refused, Admission.Bouncing, Admission.Full]
    ensures Admission.Admitted(w) == 0 && Admission.Bouncers(w) >= 1
  {
    Sums.SumNonNegative(w.records, Admission.QUEUED);
    if Admission.Admitted(w) > 0 {
      var k := Sums.PositiveTerm(w.records, Admission.QUEUED);
    }
    Sums.SumSplit(w.records, 2, Admission.BOUNCES);
    Sums.SumNonNegative(w.records[..2], Admission.BOUNCES);
    Sums.SumNonNegative(w.records[3..], Admission.BOUNCES);
  }
}
