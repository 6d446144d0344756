/** The controller object: each method updates the memory in place and is proved against the step above. */
module ControllerObject {
  import opened GoInt
  import opened Wrappers
  import opened Scaling
  import opened Engine
  import opened Controller
  import opened Protocol
  import opened Actuator
  import opened OwnWrites
  import Smoothing
  import opened SoleWriter

  /** Another actor's change, waiting to be announced. */
  datatype Change = Change(before: Int32, after: Int32)

  /** The observation with its backlog, when there is one, reported as `value`. */
  function Reported(raw: Observation, value: Int64): Observation {
    if raw.Complete? && raw.cluster.backlog.available then
      raw.(cluster := raw.cluster.(backlog := raw.cluster.backlog.(value := value)))
    else raw
  }

  /** seen is raw with some value for the backlog. */
  ghost predicate Reports(raw: Observation, seen: Observation) {
    exists value :: seen == Reported(raw, value)
  }

  lemma ReportsItself(raw: Observation)
    ensures Reports(raw, raw)
  {
    assert raw == Reported(raw, if raw.Complete? then raw.cluster.backlog.value else 0);
  }

  /** The snapshot and the memory depend on the target as read and on the cluster as reported. */
  lemma SnapshotFromParts(c: Config, st: State, now: int, raw: Observation, seen: Observation)
    requires Reports(raw, seen)
    ensures Tracked(c, st, now, seen) == Tracked(c, st, now, raw)
    ensures var s := SnapshotOf(c, st, now, raw);
            SnapshotOf(c, st, now, seen) == if seen.Complete? then s.(backlog := seen.cluster.backlog) else s
  {
  }

  class ReconcileLoop {
    const cfg: Config
    const smoother: Smoothing.Smoother
    const cluster: Cluster
    // None is the dry-run actuator, which reports success and writes nothing
    const actuator: Option<ScaleActuator>
    var state: State
    var pending: Option<Change>

    constructor (cfg: Config, smoother: Smoothing.Smoother, cluster: Cluster, actuator: Option<ScaleActuator>)
      ensures this.cfg == cfg && this.smoother == smoother && this.cluster == cluster && this.actuator == actuator
      ensures state == INITIAL && pending == None
    {
      this.cfg := cfg;
      this.smoother := smoother;
      this.cluster := cluster;
      this.actuator := actuator;
      state := INITIAL;
      pending := None;
    }

    ghost predicate WellFormed() {
      actuator.Some? ==>
        && actuator.value.WellFormed()
        && actuator.value.cluster == cluster
        && cluster.limits == Limits(cfg.minReplicas, cfg.maxReplicas)
    }

    method TrackUnmaterialised(unmaterialised: Int32, now: int) returns (age: int)
      modifies this`state
      ensures var since := UnmaterialisedSince(old(state), unmaterialised, now);
              && state == old(state).(unmaterialisedSince := since)
              && age == if since.Some? then now - since.value else 0
    {
      if unmaterialised <= 0 {
        state := state.(unmaterialisedSince := None);
        return 0;
      }
      if state.unmaterialisedSince.None? {
        state := state.(unmaterialisedSince := Some(now));
      }
      return now - state.unmaterialisedSince.value;
    }

    /** An adopted change also resets the smoothed average and is kept to be announced. */
    method TrackExternalDrift(observed: Int32, now: int) returns (drifts: Int32)
      requires smoother.Valid()
      modifies this`state, this`pending, smoother
      ensures state == TrackDrift(cfg, old(state), observed, now)
      ensures drifts == Drifts(old(state), state)
      ensures smoother.Valid() && smoother.raws == if IsDrift(old(state), observed) then [] else old(smoother.raws)
      ensures pending ==
              if IsDrift(old(state), observed) then Some(Change(old(state).observedReplicas, observed))
              else old(pending)
    {
      if !state.hasBaseline {
        state := state.(hasBaseline := true, observedReplicas := observed, lastGoodReplicas := observed);
        return 0;
      }
      if observed == state.observedReplicas {
      } else if state.hasWritten && observed == state.lastWrittenReplicas {
        state := state.(observedReplicas := observed);
      } else {
        smoother.Reset();
        pending := Some(Change(state.observedReplicas, observed));
        state := state.(
          observedReplicas := observed,
          externalDriftAt := state.externalDriftAt + [now],
          desiredHistory := [],
          lastGoodReplicas := observed);
      }
      var kept := PruneDrifts(state.externalDriftAt, now);
      state := state.(externalDriftAt := kept);
      return Wrap32(|kept|);
    }

    method PruneDrifts(times: seq<int>, now: int) returns (kept: seq<int>)
      ensures kept == Recent(times, cfg.window, now)
    {
      kept := [];
      for i := 0 to |times|
        invariant kept == Recent(times[..i], cfg.window, now)
      {
        assert times[..i + 1][..i] == times[..i];
        if now - times[i] <= cfg.window {
          kept := kept + [times[i]];
        }
      }
      assert times[..|times|] == times;
    }

    method PruneHistory(history: seq<Sample>, retain: int, now: int) returns (kept: seq<Sample>)
      ensures kept == Retained(history, retain, now)
    {
      kept := [];
      for i := 0 to |history|
        invariant kept == Retained(history[..i], retain, now)
      {
        assert history[..i + 1][..i] == history[..i];
        if now - history[i].at <= retain {
          kept := kept + [history[i]];
        }
      }
      assert history[..|history|] == history;
    }

    method FoldDecision(d: Decision, now: int)
      modifies this`state
      ensures state == ApplyDecisionState(cfg, old(state), d, now)
    {
      if d.demand.Some? {
        var history := state.desiredHistory + [Sample(now, d.demand.value.raw)];
        history := PruneHistory(history, cfg.window * HISTORY_RETENTION, now);
        state := state.(desiredHistory := history);
      }
      match d.backoff.action
      case Arm | Reset | Carry => state := state.(backoff := d.backoff.state);
      case Unchanged =>
    }

    method FoldWrite(d: Decision, now: int)
      modifies this`state
      ensures state == ApplyWriteState(old(state), d, now)
    {
      if !d.Writes() {
        return;
      }
      state := state.(lastWrittenReplicas := d.target, hasWritten := true);
      match d.direction
      case Up => state := state.(lastScaleUp := Some(now), lastGoodReplicas := d.current);
      case Down => state := state.(lastScaleDown := Some(now));
      case NoDirection =>
    }

    method CountRemediation(d: Decision, acked: bool)
      modifies this`state
      ensures state == RecordRemediation(cfg, old(state), d, acked)
    {
      if !d.pendingTimedOut {
        state := state.(remediationCounted := false);
        return;
      }
      if state.remediationCounted {
        return;
      }
      var action := cfg.onPendingTimeout;
      if d.reason == RevertPendingPods {
        if !acked {
          return;
        }
      } else if cfg.onPendingTimeout == Revert {
        action := Freeze;
      }
      state := state.(remediationCounted := true, remediations := state.remediations + [action]);
    }

    /** The backlog as the engine sees it: smoothed when there is a sample. */
    method CollectPressure(backlog: Signal) returns (sample: Signal)
      requires smoother.Valid()
      modifies smoother
      ensures smoother.Valid()
      ensures !backlog.available ==> sample == backlog && smoother.raws == old(smoother.raws)
      ensures backlog.available && smoother.ewma ==>
                && smoother.raws == old(smoother.raws) + [backlog.value]
                && sample == backlog.(value := Smoothing.OutputAfter(smoother.alphaMilli, smoother.raws))
      ensures backlog.available && !smoother.ewma ==> sample == backlog && smoother.raws == old(smoother.raws)
      ensures old(smoother.raws) == [] ==> sample == backlog
      ensures sample == backlog.(value := sample.value)
    {
      if !backlog.available {
        return backlog;
      }
      var smoothed := smoother.Apply(backlog.value);
      sample := backlog.(value := smoothed);
    }

    /** What the target shows, with both trackers run on it. */
    method ObserveTarget(now: int, raw: Observation) returns (s: Snapshot)
      requires smoother.Valid() && !raw.Unreadable?
      modifies this`state, this`pending, smoother
      ensures smoother.Valid() && state == Tracked(cfg, old(state), now, raw)
      ensures s == SnapshotOf(cfg, old(state), now, TargetOnly(raw.target))
      ensures var drift := IsDrift(old(state), raw.target.current);
              && smoother.raws == (if drift then [] else old(smoother.raws))
              && pending == if drift
                            then Some(Change(old(state).observedReplicas, raw.target.current))
                            else old(pending)
    {
      s := Snapshot(false, 0, 0, NO_SIGNAL, NO_SIGNAL, 0, false, false, 0, state.lastScaleUp, state.lastScaleDown,
                    state.desiredHistory, state.backoff, state.lastGoodReplicas, 0, 0, 0, 0, 0);
      var t := raw.target;
      s := s.(currentReplicas := t.current, readyReplicas := t.ready, rolloutInProgress := t.rollout,
              pendingOurPods := t.pending, oldestPendingAge := t.oldestPendingAge,
              unhealthyPodAge := t.unhealthyPodAge, unmaterialisedReplicas := t.unmaterialised);
      var age := TrackUnmaterialised(t.unmaterialised, now);
      var drifts := TrackExternalDrift(t.current, now);
      s := s.(unmaterialisedAge := age, externalDrifts := drifts);
    }

    /**
     * The history and the floor are copied before the target is read, as the source orders them. `seen` is `raw`
     * with the backlog smoothed; right after an adopted change it is reported as it was collected.
     */
    method Observe(now: int, raw: Observation) returns (s: Snapshot, ghost seen: Observation)
      requires smoother.Valid()
      modifies this`state, this`pending, smoother
      ensures smoother.Valid() && Reports(raw, seen)
      ensures state == Tracked(cfg, old(state), now, seen)
      ensures s == SnapshotOf(cfg, old(state), now, seen)
      ensures var drift := !raw.Unreadable? && IsDrift(old(state), raw.target.current);
              && (drift ==> seen == raw && pending == Some(Change(old(state).observedReplicas, raw.target.current)))
              && (!drift ==> pending == old(pending))
    {
      seen := raw;
      ReportsItself(raw);
      if raw.Unreadable? {
        s := Snapshot(false, 0, 0, NO_SIGNAL, NO_SIGNAL, 0, false, false, 0, state.lastScaleUp, state.lastScaleDown,
                      state.desiredHistory, state.backoff, state.lastGoodReplicas, 0, 0, 0, 0, 0);
        return;
      }
      s := ObserveTarget(now, raw);
      if raw.Complete? {
        var backlog := CollectPressure(raw.cluster.backlog);
        seen := Reported(raw, backlog.value);
        SnapshotFromParts(cfg, old(state), now, raw, seen);
        s := s.(fitCapacity := raw.cluster.fit, hpaPresent := raw.cluster.hpa, backlog := backlog,
                cpu := raw.cluster.cpu, valid := true);
      }
    }

    /** The change to announce, if this reconcile adopted one. */
    method Announce() returns (change: Option<Change>)
      modifies this`pending
      ensures change == old(pending) && pending == None
    {
      change := pending;
      pending := None;
    }

    /**
     * One observation, decision and actuation. The decision is folded before the write, the write only when the
     * actuator reports no error; a live write so reported has taken effect, as the write of the Apply call `id`.
     * A change is announced exactly when it was adopted.
     */
    method Reconcile(now: int, raw: Observation)
      returns (d: Decision, acked: bool, change: Option<Change>, ghost seen: Observation, ghost id: nat)
      requires WellFormed() && cluster.Valid() && smoother.Valid() && pending == None
      modifies this`state, this`pending, smoother, cluster
      ensures cluster.Valid() && smoother.Valid() && pending == None && Extends(old(cluster.world), cluster.world)
      ensures Reports(raw, seen)
      ensures var m := Reconciled(cfg, old(state), Input(now, seen, acked)); d == m.d && state == m.after
      ensures change.Some? <==> Adopts(Reconciled(cfg, old(state), Input(now, seen, acked)))
      ensures change.Some? ==> !raw.Unreadable? && seen == raw
                               && change.value == Change(old(state).observedReplicas, raw.target.current)
      ensures actuator.Some? && acked && d.Writes() ==>
                && d.MovesInside(cfg.minReplicas, cfg.maxReplicas)
                && id in cluster.world.plans && Landed(cluster.world, id, |old(cluster.world).history|)
      ensures actuator.Some? && id in cluster.world.plans ==>
                d.Writes() && cluster.world.plans[id] == Plan(d.current, d.target)
      ensures actuator.Some? ==> id !in old(cluster.world).plans
      ensures !d.Writes() ==> acked && cluster.world == old(cluster.world)
      ensures actuator.None? ==> acked && cluster.world == old(cluster.world)
    {
      var s;
      s, seen := Observe(now, raw);
      d, acked, id := Act(s, now);
      change := Announce();
      FoldIsSequential(cfg, Tracked(cfg, old(state), now, seen), d, now, acked);
    }

    /** The decision on a snapshot, its actuation and the folds around it. */
    method Act(s: Snapshot, now: int) returns (d: Decision, acked: bool, ghost id: nat)
      requires WellFormed() && cluster.Valid()
      modifies this`state, cluster
      ensures cluster.Valid() && Extends(old(cluster.world), cluster.world)
      ensures d == Decide(s, cfg, now)
      ensures var st := ApplyDecisionState(cfg, old(state), d, now);
              state == RecordRemediation(cfg, if acked then ApplyWriteState(st, d, now) else st, d, acked)
      ensures actuator.Some? && acked && d.Writes() ==>
                && d.MovesInside(cfg.minReplicas, cfg.maxReplicas)
                && id in cluster.world.plans && Landed(cluster.world, id, |old(cluster.world).history|)
      ensures actuator.Some? && id in cluster.world.plans ==>
                d.Writes() && cluster.world.plans[id] == Plan(d.current, d.target)
      ensures actuator.Some? ==> id !in old(cluster.world).plans
      ensures !d.Writes() ==> acked && cluster.world == old(cluster.world)
      ensures actuator.None? ==> acked && cluster.world == old(cluster.world)
    {
      d := Decide(s, cfg, now);
      FoldDecision(d, now);
      acked, id := true, 0;
      if actuator.Some? {
        var call := cluster.FreshId();
        id := call;
        var outcome, _, _ := actuator.value.Apply(d, call);
        acked := outcome == Done;
      }
      if acked {
        FoldWrite(d, now);
      }
      CountRemediation(d, acked);
    }

    /** A live reconcile that saw version `cache` is a step of the sole run, if nobody else writes. */
    method ReconcileLive(now: int, raw: Observation, ghost cache: nat) returns (d: Decision, ghost s: Step)
      requires WellFormed() && cluster.Valid() && smoother.Valid() && pending == None
      requires actuator.Some? && cache < |cluster.world.history|
      requires !raw.Unreadable? ==> raw.target.current == cluster.world.history[cache].count
      modifies this`state, this`pending, smoother, cluster
      ensures cluster.Valid() && smoother.Valid() && pending == None
      ensures StepOk(old(cluster.world), cluster.world, s)
      ensures s.m == Reconciled(cfg, old(state), s.m.x) && d == s.m.d && state == s.m.after
      ensures s.m.x.now == now && Reports(raw, s.m.x.seen)
      ensures s.cache == cache && s.id !in old(cluster.world).plans
    {
      ghost var st := state;
      var acked: bool;
      ghost var seen: Observation;
      ghost var id: nat;
      var change: Option<Change>;
      d, acked, change, seen, id := Reconcile(now, raw);
      MomentConsistent(cfg, st, Input(now, seen, acked));
      s := Step(Reconciled(cfg, st, Input(now, seen, acked)), id, cache);
    }

    method Tick(now: int, raw: Observation, ghost ms: seq<Moment>) returns (ghost longer: seq<Moment>)
      requires WellFormed() && cluster.Valid() && smoother.Valid() && pending == None
      requires IsRun(cfg, ms) && state == StateAfter(ms)
      modifies this`state, this`pending, smoother, cluster
      ensures cluster.Valid() && smoother.Valid() && pending == None && Extends(old(cluster.world), cluster.world)
      ensures IsRun(cfg, longer) && state == StateAfter(longer)
      ensures |longer| == |ms| + 1 && longer[..|ms|] == ms
      ensures longer[|ms|].x.now == now && Reports(raw, longer[|ms|].x.seen)
    {
      var d, acked, _, seen, _ := Reconcile(now, raw);
      longer := Extended(cfg, ms, Input(now, seen, acked));
    }

    /** What tick k brought is what the k-th reconcile of the run saw, the backlog smoothed. */
    ghost predicate Ran(ms: seq<Moment>, ticks: seq<(int, Observation)>) {
      && |ms| <= |ticks|
      && forall k :: 0 <= k < |ms| ==>
           ms[k].x.now == ticks[k].0 && Reports(ticks[k].1, ms[k].x.seen)
    }

    /** The loop over ticks: nothing is decided once the context is cancelled before a tick. */
    method Run(ticks: seq<(int, Observation)>, cancelledAt: nat) returns (ghost ms: seq<Moment>)
      requires WellFormed() && cluster.Valid() && smoother.Valid() && pending == None && state == INITIAL
      modifies this`state, this`pending, smoother, cluster
      ensures IsRun(cfg, ms) && |ms| == Min(cancelledAt, |ticks|) && Ran(ms, ticks)
      ensures state == StateAfter(ms)
      ensures cluster.Valid() && Extends(old(cluster.world), cluster.world)
    {
      ms := [];
      var done := 0;
      while done < |ticks|
        invariant |ms| == done <= Min(cancelledAt, |ticks|)
        invariant IsRun(cfg, ms) && state == StateAfter(ms) && Ran(ms, ticks)
        invariant cluster.Valid() && smoother.Valid() && pending == None
        invariant Extends(old(cluster.world), cluster.world)
      {
        if done == cancelledAt {
          return;
        }
        var (now, raw) := ticks[done];
        ms := Tick(now, raw, ms);
        done := done + 1;
      }
    }
  }
}
