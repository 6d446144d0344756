/**
 * Any number of processes running the leader loop under one lease: each has its main goroutine, its elector and its
 * contexts, and takes one step at a time. A lease changes hands by release, or is taken from a holder that failed to
 * renew it.
 */
module Leadership {
  import opened Wrappers

  /** How the leader function returns. */
  datatype Result = Clean | LostLeadership | NeverLed

  /**
   * The main goroutine. Reconciling is everything past the loop's context check; Returned is the loop having come
   * back, Releasing the wait for the elector after it.
   */
  datatype Main =
    | Campaign
    | Abandoning
    | Checking | Reconciling | Waiting
    | Returned
    | Releasing(lost: bool)
    | Exited(result: Result)

  datatype Elector = Campaigning | Leading | Ending | Stopped

  /**
   * lost is history, not state of the process: its lease was taken, or it failed to renew it. reconciles counts the
   * context checks that passed.
   */
  datatype Process = Process(
    main: Main,
    elector: Elector,
    shutdown: bool,
    stopped: bool,
    electionCancelled: bool,
    ended: bool,
    led: bool,
    delivered: bool,
    lost: bool,
    reconciles: nat)
  {
    /** The leading context is a child of the election's, and is also cancelled when the elector returns. */
    predicate LeadingCancelled() {
      electionCancelled || ended
    }

    predicate LoopCancelled() {
      LeadingCancelled() || stopped
    }

    predicate InLoop() {
      main.Checking? || main.Reconciling? || main.Waiting?
    }

    /** The lease must be held from the first step of the loop until it has returned. */
    predicate Acting() {
      InLoop() || main.Returned?
    }
  }

  const FRESH := Process(Campaign, Campaigning, false, false, false, false, false, false, false, 0)

  datatype World = World(holder: Option<nat>, procs: seq<Process>)

  datatype Event =
    | Spawn
    | Shutdown(i: nat)
    | StopLoop(i: nat)
    // the elector
    | Acquire(i: nat)
    | Take(i: nat)
    | Deliver(i: nat)
    | FailToRenew(i: nat)
    | EndElection(i: nat)
    | Release(i: nat)
    | Stop(i: nat)
    // the main goroutine
    | Abandon(i: nat)
    | GiveUp(i: nat)
    | Enter(i: nat)
    | Check(i: nat)
    | Finish(i: nat, failed: bool)
    | Tick(i: nat)
    | Quit(i: nat)
    | Return(i: nat)
    | Exit(i: nat)

  predicate Enabled(w: World, e: Event) {
    e.Spawn? || (e.i < |w.procs| && Ready(w, w.procs[e.i], e))
  }

  predicate Ready(w: World, p: Process, e: Event) {
    match e
    case Spawn => false
    case Shutdown(_) => true
    case StopLoop(_) => p.shutdown && p.Acting()
    case Acquire(_) => p.elector.Campaigning? && w.holder.None?
    case Take(i) => p.elector.Campaigning? && w.holder.Some? && w.holder.value != i
    case Deliver(_) => p.led && !p.delivered
    case FailToRenew(_) => p.elector.Leading?
    case EndElection(_) => p.elector.Leading? && p.electionCancelled
    case Release(i) => p.elector.Ending? && w.holder == Some(i)
    case Stop(_) => p.elector.Ending? || (p.elector.Campaigning? && p.electionCancelled)
    case Abandon(_) => p.main.Campaign? && p.shutdown
    case GiveUp(_) => p.main.Campaign? && p.elector.Stopped?
    case Enter(_) => p.main.Campaign? && p.delivered
    case Check(_) => p.main.Checking?
    case Finish(_, _) => p.main.Reconciling?
    case Tick(_) => p.main.Waiting?
    case Quit(_) => p.main.Waiting? && p.LoopCancelled()
    case Return(_) => p.main.Returned?
    case Exit(_) => (p.main.Abandoning? || p.main.Releasing?) && p.elector.Stopped?
  }

  /** The process the event happens to, after it. */
  function Moved(p: Process, e: Event): Process {
    match e
    case Spawn | Release(_) => p
    case Shutdown(_) => p.(shutdown := true)
    case StopLoop(_) => p.(stopped := true)
    case Acquire(_) | Take(_) => p.(elector := Leading, led := true)
    case Deliver(_) => p.(delivered := true)
    case FailToRenew(_) => p.(elector := Ending, lost := true)
    case EndElection(_) => p.(elector := Ending)
    case Stop(_) => p.(elector := Stopped, ended := true)
    case Abandon(_) => p.(main := Abandoning, electionCancelled := true)
    case GiveUp(_) => p.(main := Exited(NeverLed), electionCancelled := true)
    case Enter(_) => p.(main := Checking)
    case Check(_) =>
      if p.LoopCancelled() then p.(main := Returned) else p.(main := Reconciling, reconciles := p.reconciles + 1)
    case Finish(_, failed) => p.(main := if failed && p.LoopCancelled() then Returned else Waiting)
    case Tick(_) => p.(main := Checking)
    case Quit(_) => p.(main := Returned)
    case Return(_) => p.(main := Releasing(!p.shutdown && p.LeadingCancelled()), electionCancelled := true)
    case Exit(_) =>
      p.(main := Exited(if p.main.Releasing? && p.main.lost then LostLeadership else Clean))
  }

  function Holder(w: World, e: Event): Option<nat> {
    match e
    case Acquire(i) => Some(i)
    case Take(i) => Some(i)
    case Release(_) => None
    case _ => w.holder
  }

  function Robbed(w: World, e: Event): seq<Process> {
    if e.Take? && w.holder.Some? && w.holder.value < |w.procs| then
      w.procs[w.holder.value := w.procs[w.holder.value].(lost := true)]
    else w.procs
  }

  function Do(w: World, e: Event): World
    requires Enabled(w, e)
  {
    if e.Spawn? then w.(procs := w.procs + [FRESH])
    else World(Holder(w, e), Robbed(w, e)[e.i := Moved(w.procs[e.i], e)])
  }

  ghost predicate IsExecution(ws: seq<World>, es: seq<Event>) {
    && |ws| == |es| + 1
    && ws[0] == World(None, [])
    && (forall k :: 0 <= k < |es| ==> Enabled(ws[k], es[k]) && ws[k + 1] == Do(ws[k], es[k]))
  }

  ghost predicate Reachable(w: World) {
    exists ws, es :: IsExecution(ws, es) && ws[|ws| - 1] == w
  }

  lemma ReachableStart()
    ensures Reachable(World(None, []))
  {
    assert IsExecution([World(None, [])], []);
  }

  lemma ReachableStep(w: World, e: Event)
    requires Reachable(w) && Enabled(w, e)
    ensures Reachable(Do(w, e))
  {
    var ws, es :| IsExecution(ws, es) && ws[|ws| - 1] == w;
    var ws', es' := ws + [Do(w, e)], es + [e];
    assert forall k :: 0 <= k < |es| ==> Enabled(ws'[k], es'[k]) && ws'[k + 1] == Do(ws'[k], es'[k]);
    assert IsExecution(ws', es');
    assert ws'[|ws'| - 1] == Do(w, e);
  }

  // ---- The invariant

  /** What the process knows about itself. */
  predicate Local(p: Process) {
    && (p.Acting() ==> p.delivered)
    && (p.delivered ==> p.led)
    && (p.elector.Leading? || p.elector.Ending? ==> p.led)
    && (p.elector.Campaigning? ==> !p.led && !p.ended)
    && (p.elector.Ending? ==> p.lost || p.electionCancelled)
    && (p.elector.Stopped? ==> p.lost || p.electionCancelled)
    && (p.ended ==> p.lost || p.electionCancelled)
    && (p.main.Releasing? && p.main.lost ==> p.lost)
    && (p.main == Exited(LostLeadership) || p.main == Exited(NeverLed) ==> p.lost)
    && (p.main.Exited? ==> p.elector.Stopped?)
    && (p.stopped ==> p.shutdown)
    && (p.main.Returned? ==> p.LoopCancelled())
    && ((p.main.Abandoning? || p.main == Releasing(false) || p.main == Exited(Clean)) ==> p.shutdown)
    && (p.main.Abandoning? || p.main.Releasing? || p.main.Exited? <==> p.electionCancelled)
  }

  /** A leading elector whose lease was not lost is the holder. */
  predicate Holds(w: World, i: nat)
    requires i < |w.procs|
  {
    w.procs[i].elector.Leading? && !w.procs[i].lost ==> w.holder == Some(i)
  }

  predicate Inv(w: World) {
    && (w.holder.Some? ==> w.holder.value < |w.procs|)
    && (forall i :: 0 <= i < |w.procs| ==> Local(w.procs[i]) && Holds(w, i))
  }

  lemma MovedLocal(w: World, p: Process, e: Event)
    requires Ready(w, p, e) && Local(p)
    ensures Local(Moved(p, e))
  {
  }

  lemma StepKeepsHolds(w: World, e: Event, i: nat)
    requires Inv(w) && Enabled(w, e) && i < |Do(w, e).procs|
    ensures Holds(Do(w, e), i) && Local(Do(w, e).procs[i])
  {
    if e.Spawn? {
      if i < |w.procs| {
        assert Holds(w, i);
      }
    } else {
      MovedLocal(w, w.procs[e.i], e);
      assert Holds(w, i) && Holds(w, e.i);
    }
  }

  lemma StepKeepsInv(w: World, e: Event)
    requires Inv(w) && Enabled(w, e)
    ensures Inv(Do(w, e))
  {
    forall i | 0 <= i < |Do(w, e).procs|
      ensures Holds(Do(w, e), i) && Local(Do(w, e).procs[i])
    {
      StepKeepsHolds(w, e, i);
    }
  }

  lemma {:induction false} ExecutionKeepsInv(ws: seq<World>, es: seq<Event>, k: nat)
    requires IsExecution(ws, es) && k < |ws|
    ensures Inv(ws[k])
  {
    if k > 0 {
      ExecutionKeepsInv(ws, es, k - 1);
      StepKeepsInv(ws[k - 1], es[k - 1]);
    }
  }

  lemma ReachableInv(w: World)
    requires Reachable(w)
    ensures Inv(w)
  {
    var ws, es :| IsExecution(ws, es) && ws[|ws| - 1] == w;
    ExecutionKeepsInv(ws, es, |ws| - 1);
  }

  // ---- Mutual exclusion

  /** A process inside the loop still holds the lease, unless it was lost. */
  lemma ActingHolds(w: World, i: nat)
    requires Inv(w) && i < |w.procs| && w.procs[i].Acting()
    ensures w.procs[i].lost || w.holder == Some(i)
  {
    assert Local(w.procs[i]) && Holds(w, i);
  }

  lemma OneActs(w: World, i: nat, j: nat)
    requires Inv(w) && i < j < |w.procs|
    ensures w.procs[i].Acting() && w.procs[j].Acting() ==> w.procs[i].lost || w.procs[j].lost
  {
    if w.procs[i].Acting() && w.procs[j].Acting() {
      ActingHolds(w, i);
      ActingHolds(w, j);
    }
  }

  /** Two processes are inside the reconcile loop at once only when one of them has lost the lease. */
  lemma AtMostOneActs(w: World, i: nat, j: nat)
    requires Reachable(w) && i < j < |w.procs| && w.procs[i].Acting() && w.procs[j].Acting()
    ensures w.procs[i].lost || w.procs[j].lost
  {
    ReachableInv(w);
    OneActs(w, i, j);
  }

  /** The lease is only given up by a process that has stopped acting under it, or that had already lost it. */
  lemma ReleaseComesLast(w: World, i: nat)
    requires Reachable(w) && Enabled(w, Release(i)) && !w.procs[i].lost
    ensures !w.procs[i].Acting()
  {
    ReachableInv(w);
  }

  /** The loop returns without a shutdown only because leadership ended, and with one it is never called lost. */
  lemma ReturnIsExact(w: World, i: nat)
    requires Reachable(w) && Enabled(w, Return(i))
    ensures Do(w, Return(i)).procs[i].main == Releasing(!w.procs[i].shutdown)
    ensures !w.procs[i].shutdown ==> w.procs[i].lost
  {
    ReachableInv(w);
    assert Local(w.procs[i]);
  }

  /**
   * What the exit reports is true: lost leadership, or never having led, only of a process whose lease was lost, a
   * clean exit only of one that was shut down. So a process whose loop ended without a shutdown exits with the error.
   * None exits before its election is over.
   */
  lemma ExitIsReported(w: World, i: nat)
    requires Reachable(w) && i < |w.procs|
    ensures w.procs[i].main == Exited(LostLeadership) || w.procs[i].main == Exited(NeverLed) ==> w.procs[i].lost
    ensures w.procs[i].main == Exited(Clean) ==> w.procs[i].shutdown
    ensures w.procs[i].main.Exited? ==> w.procs[i].elector.Stopped?
  {
    ReachableInv(w);
    assert Local(w.procs[i]);
  }

  /** The lease is taken from its holder, or its holder fails to renew it and gives it up while still leading. */
  predicate Loses(e: Event) {
    e.Take? || e.FailToRenew?
  }

  lemma StepLoses(w: World, e: Event, i: nat)
    requires Enabled(w, e) && !Loses(e) && i < |Do(w, e).procs|
    requires forall j :: 0 <= j < |w.procs| ==> !w.procs[j].lost
    ensures !Do(w, e).procs[i].lost
  {
    if i < |w.procs| {
      assert !w.procs[i].lost;
    }
  }

  lemma {:induction false} NoneLost(ws: seq<World>, es: seq<Event>, k: nat)
    requires IsExecution(ws, es) && k < |ws| && forall m :: 0 <= m < |es| ==> !Loses(es[m])
    ensures forall i :: 0 <= i < |ws[k].procs| ==> !ws[k].procs[i].lost
  {
    if k > 0 {
      NoneLost(ws, es, k - 1);
      forall i | 0 <= i < |ws[k].procs|
        ensures !ws[k].procs[i].lost
      {
        StepLoses(ws[k - 1], es[k - 1], i);
      }
    }
  }

  /**
   * When no lease is taken and no renewal fails, so that it changes hands only by a process releasing it for itself,
   * at most one process is inside the loop at any time.
   */
  lemma ReleaseOnlyMeansExclusive(ws: seq<World>, es: seq<Event>, k: nat, i: nat, j: nat)
    requires IsExecution(ws, es) && k < |ws| && forall m :: 0 <= m < |es| ==> !Loses(es[m])
    requires i < j < |ws[k].procs|
    ensures !(ws[k].procs[i].Acting() && ws[k].procs[j].Acting())
  {
    NoneLost(ws, es, k);
    ExecutionKeepsInv(ws, es, k);
    OneActs(ws[k], i, j);
  }

  // ---- After the leading context is cancelled

  predicate Linked(ws: seq<World>, es: seq<Event>, k: int) {
    0 <= k < |es| && |ws| == |es| + 1 && Enabled(ws[k], es[k]) && ws[k + 1] == Do(ws[k], es[k])
  }

  predicate IsRunFrom(ws: seq<World>, es: seq<Event>) {
    |ws| == |es| + 1 && forall k {:trigger Linked(ws, es, k)} :: 0 <= k < |es| ==> Linked(ws, es, k)
  }

  lemma CancelledAt(ws: seq<World>, es: seq<Event>, k: nat, i: nat)
    requires IsRunFrom(ws, es) && k < |es| && i < |ws[k].procs| && ws[k].procs[i].LeadingCancelled()
    ensures i < |ws[k + 1].procs| && ws[k + 1].procs[i].LeadingCancelled()
    ensures ws[k + 1].procs[i].reconciles == ws[k].procs[i].reconciles
    ensures !ws[k].procs[i].main.Campaign? ==>
              && !ws[k + 1].procs[i].main.Campaign?
              && StepsLeft(ws[k + 1].procs[i]) + (if LoopStep(es[k], i) then 1 else 0) <= StepsLeft(ws[k].procs[i])
  {
    assert Linked(ws, es, k);
    CancelledStep(ws[k], es[k], i);
  }

  lemma CancelledStep(w: World, e: Event, i: nat)
    requires Enabled(w, e) && i < |w.procs| && w.procs[i].LeadingCancelled()
    ensures i < |Do(w, e).procs| && Do(w, e).procs[i].LeadingCancelled()
    ensures Do(w, e).procs[i].reconciles == w.procs[i].reconciles
    ensures !w.procs[i].main.Campaign? ==>
              && !Do(w, e).procs[i].main.Campaign?
              && StepsLeft(Do(w, e).procs[i]) + (if LoopStep(e, i) then 1 else 0) <= StepsLeft(w.procs[i])
  {
  }

  /** A reconcile ends the loop by itself exactly when it failed and the loop's context is cancelled. */
  lemma FailureEndsLoop(w: World, i: nat, failed: bool)
    requires Enabled(w, Finish(i, failed))
    ensures var p, q := w.procs[i], Do(w, Finish(i, failed)).procs[i];
            && (q.main.Returned? <==> failed && (p.electionCancelled || p.ended || p.stopped))
            && (!q.main.Returned? ==> Enabled(Do(w, Finish(i, failed)), Tick(i)))
  {
  }

  /** The old holder starts no further reconcile: no context check of its loop passes again. */
  lemma {:induction false} NoNewReconcile(ws: seq<World>, es: seq<Event>, i: nat, k: nat)
    requires IsRunFrom(ws, es) && k < |ws| && i < |ws[0].procs| && ws[0].procs[i].LeadingCancelled()
    ensures i < |ws[k].procs| && ws[k].procs[i].LeadingCancelled()
    ensures ws[k].procs[i].reconciles == ws[0].procs[i].reconciles
  {
    if k > 0 {
      NoNewReconcile(ws, es, i, k - 1);
      CancelledAt(ws, es, k - 1, i);
    }
  }

  /** Steps of the main goroutine left before the loop has returned. */
  function StepsLeft(p: Process): nat {
    match p.main
    case Reconciling => 3
    case Waiting => 2
    case Checking => 1
    case _ => 0
  }

  predicate LoopStep(e: Event, i: nat) {
    (e.Check? || e.Finish? || e.Tick? || e.Quit?) && e.i == i
  }

  function LoopSteps(es: seq<Event>, i: nat): nat {
    if es == [] then 0 else LoopSteps(es[..|es| - 1], i) + if LoopStep(es[|es| - 1], i) then 1 else 0
  }

  /** And the loop returns within three steps of its own. */
  lemma {:induction false} LoopEndsSoon(ws: seq<World>, es: seq<Event>, i: nat, k: nat)
    requires IsRunFrom(ws, es) && k < |ws| && i < |ws[0].procs|
    requires ws[0].procs[i].LeadingCancelled() && ws[0].procs[i].Acting()
    ensures i < |ws[k].procs|
    ensures LoopSteps(es[..k], i) + StepsLeft(ws[k].procs[i]) <= StepsLeft(ws[0].procs[i]) <= 3
    ensures !ws[k].procs[i].main.Campaign?
  {
    if k > 0 {
      LoopEndsSoon(ws, es, i, k - 1);
      NoNewReconcile(ws, es, i, k - 1);
      CancelledAt(ws, es, k - 1, i);
      assert es[..k][..k - 1] == es[..k - 1];
    }
  }

  // ---- Why a lost lease is different

  /** An execution goes on with any enabled event. */
  lemma Goes(ws: seq<World>, es: seq<Event>, e: Event) returns (ws': seq<World>, es': seq<Event>)
    requires IsExecution(ws, es) && Enabled(ws[|ws| - 1], e)
    ensures IsExecution(ws', es') && es' == es + [e] && ws'[|ws'| - 1] == Do(ws[|ws| - 1], e)
  {
    ws', es' := ws + [Do(ws[|ws| - 1], e)], es + [e];
  }

  lemma TwoFresh() returns (ws: seq<World>, es: seq<Event>)
    ensures IsExecution(ws, es) && es == [Spawn, Spawn] && ws[|ws| - 1] == World(None, [FRESH, FRESH])
  {
    ws, es := [World(None, [])], [];
    ws, es := Goes(ws, es, Spawn);
    ws, es := Goes(ws, es, Spawn);
  }

  const LEADER := FRESH.(elector := Leading, led := true)

  const BUSY := LEADER.(delivered := true, main := Reconciling, reconciles := 1)

  /** A fresh process gets the lease: acquired if it is free, taken if it is not. */
  lemma Wins(ws: seq<World>, es: seq<Event>, i: nat) returns (ws': seq<World>, es': seq<Event>)
    requires IsExecution(ws, es)
    requires var w := ws[|ws| - 1]; i < |w.procs| && w.procs[i] == FRESH && w.holder != Some(i)
    ensures IsExecution(ws', es')
    ensures var w, w' := ws[|ws| - 1], ws'[|ws'| - 1];
            && es' == es + [if w.holder.None? then Acquire(i) else Take(i)]
            && |w'.procs| == |w.procs| && w'.holder == Some(i) && w'.procs[i] == LEADER
            && forall j :: 0 <= j < |w.procs| && j != i ==>
                 w'.procs[j] == if w.holder == Some(j) then w.procs[j].(lost := true) else w.procs[j]
  {
    ws', es' := Goes(ws, es, if ws[|ws| - 1].holder.None? then Acquire(i) else Take(i));
  }

  /** A new leader passes its first context check. */
  lemma Begins(ws: seq<World>, es: seq<Event>, i: nat) returns (ws': seq<World>, es': seq<Event>)
    requires IsExecution(ws, es) && i < |ws[|ws| - 1].procs| && ws[|ws| - 1].procs[i] == LEADER
    ensures IsExecution(ws', es')
    ensures var w, w' := ws[|ws| - 1], ws'[|ws'| - 1];
            && es' == es + [Deliver(i), Enter(i), Check(i)]
            && w' == w.(procs := w.procs[i := BUSY])
  {
    ws', es' := Goes(ws, es, Deliver(i));
    ws', es' := Goes(ws', es', Enter(i));
    ws', es' := Goes(ws', es', Check(i));
  }

  /** A leader fails to renew, and its elector releases the lease while the leading context still stands. */
  lemma Fails(ws: seq<World>, es: seq<Event>, i: nat) returns (ws': seq<World>, es': seq<Event>)
    requires IsExecution(ws, es)
    requires var w := ws[|ws| - 1]; i < |w.procs| && w.procs[i].elector.Leading? && w.holder == Some(i)
    ensures IsExecution(ws', es')
    ensures var w, w' := ws[|ws| - 1], ws'[|ws'| - 1];
            && es' == es + [FailToRenew(i), Release(i)]
            && w' == World(None, w.procs[i := w.procs[i].(elector := Ending, lost := true)])
  {
    ws', es' := Goes(ws, es, FailToRenew(i));
    ws', es' := Goes(ws', es', Release(i));
  }

  /** Both processes are past their context checks, and the first has not been told to stop. */
  predicate Overlapping(w: World) {
    && |w.procs| == 2
    && w.procs[0].main.Reconciling? && w.procs[1].main.Reconciling?
    && !w.procs[0].LeadingCancelled()
  }

  /** Of two processes the first leads and reconciles. */
  lemma FirstLeads() returns (ws: seq<World>, es: seq<Event>)
    ensures IsExecution(ws, es) && ws[|ws| - 1] == World(Some(0), [BUSY, FRESH])
    ensures es == [Spawn, Spawn, Acquire(0), Deliver(0), Enter(0), Check(0)]
  {
    ws, es := TwoFresh();
    ws, es := Wins(ws, es, 0);
    ws, es := Begins(ws, es, 0);
  }

  /** A run in which a lease is taken, and no renewal fails, leaves two processes reconciling at once. */
  lemma TakenLeaseOverlaps() returns (ws: seq<World>, es: seq<Event>)
    ensures IsExecution(ws, es) && Overlapping(ws[|ws| - 1])
    ensures Take(1) in es && forall m :: 0 <= m < |es| ==> !es[m].FailToRenew?
  {
    ws, es := FirstLeads();
    ws, es := Wins(ws, es, 1);
    ws, es := Begins(ws, es, 1);
    assert es[6] == Take(1);
  }

  /**
   * So does one in which a renewal fails and no lease is taken: the elector releases the lease before the leading
   * context is cancelled, and the next process acquires a lease that is free.
   */
  lemma FailedRenewalOverlaps() returns (ws: seq<World>, es: seq<Event>)
    ensures IsExecution(ws, es) && Overlapping(ws[|ws| - 1])
    ensures FailToRenew(0) in es && forall m :: 0 <= m < |es| ==> !es[m].Take?
  {
    ws, es := FirstLeads();
    ws, es := Fails(ws, es, 0);
    ws, es := Wins(ws, es, 1);
    ws, es := Begins(ws, es, 1);
    assert es[6] == FailToRenew(0);
  }
}
