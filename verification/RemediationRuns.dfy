/** Recording remediations of stuck replicas over whole runs. */
module RemediationRuns {
  import opened Scaling
  import opened Engine
  import opened EngineProperties
  import opened Controller

  /** The reconcile recorded a remediation. */
  predicate Remediates(m: Moment) {
    |m.after.remediations| == |m.before.remediations| + 1
  }

  lemma RemediationStep(c: Config, ms: seq<Moment>, k: nat)
    requires IsRun(c, ms) && k < |ms|
    ensures Remediates(ms[k]) <==>
              && ms[k].d.pendingTimedOut && !ms[k].before.remediationCounted
              && (ms[k].d.reason.RevertPendingPods? ==> ms[k].x.acked)
    ensures ms[k].after.remediations ==
            ms[k].before.remediations + if Remediates(ms[k]) then [RemedyOf(c, ms[k].d)] else []
    ensures ms[k].after.remediationCounted <==>
              ms[k].d.pendingTimedOut && (ms[k].before.remediationCounted || Remediates(ms[k]))
    ensures k + 1 < |ms| ==> ms[k + 1].before == ms[k].after
  {
    assert Folded(c, ms[k]);
    if k + 1 < |ms| {
      assert Follows(ms, k);
    }
  }

  lemma {:induction false} CountedStays(c: Config, ms: seq<Moment>, i: nat, j: nat)
    requires IsRun(c, ms) && i < j < |ms| && Remediates(ms[i])
    requires forall k :: i < k < j ==> ms[k].d.pendingTimedOut
    ensures ms[j].before.remediationCounted
  {
    RemediationStep(c, ms, i);
    if i + 1 < j {
      CountedStays(c, ms, i, j - 1);
      RemediationStep(c, ms, j - 1);
    }
  }

  /** One stuck episode is counted once: between two recorded remediations some reconcile saw nothing timed out. */
  lemma OneRemediationPerEpisode(c: Config, ms: seq<Moment>, i: nat, j: nat) returns (k: nat)
    requires IsRun(c, ms) && i < j < |ms| && Remediates(ms[i]) && Remediates(ms[j])
    ensures i < k < j && !ms[k].d.pendingTimedOut
  {
    if k' :| i < k' < j && !ms[k'].d.pendingTimedOut {
      k := k';
    } else {
      CountedStays(c, ms, i, j);
      RemediationStep(c, ms, j);
      k := j;
    }
  }

  lemma RevertsAreConfigured(s: Snapshot, c: Config, now: int)
    requires Decide(s, c, now).reason.RevertPendingPods?
    ensures c.onPendingTimeout == Revert
  {
    GuardsRevert(s, c, now, DemandOf(s, c, now), Quiet(s, c, now));
  }

  /** What is recorded is what happened: a revert exactly when one was decided and applied, else the holding back. */
  lemma RecordsWhatHappened(c: Config, ms: seq<Moment>, k: nat)
    requires IsRun(c, ms) && k < |ms| && Remediates(ms[k])
    ensures var m := ms[k];
            var action := m.after.remediations[|m.before.remediations|];
            && m.after.remediations == m.before.remediations + [action]
            && (action == Revert <==> m.d.reason.RevertPendingPods? && m.x.acked)
            && (action == Ignore <==> c.onPendingTimeout == Ignore)
  {
    RemediationStep(c, ms, k);
    assert Decided(c, ms[k]);
    if ms[k].d.reason.RevertPendingPods? {
      RevertsAreConfigured(ms[k].s, c, ms[k].x.now);
    }
  }
}
