/** The leader function of one process, its goroutines and contexts among everyone else's. */
module LeaderProcess {
  import opened Wrappers
  import opened Leadership

  /** A step that only the main goroutine of process i takes. */
  predicate OfMain(e: Event, i: nat) {
    match e
    case Spawn | Shutdown(_) | StopLoop(_) | Acquire(_) | Take(_) | Deliver(_) | FailToRenew(_) => false
    case EndElection(_) | Release(_) | Stop(_) => false
    case _ => e.i == i
  }

  /** Later states of a process whose main goroutine has not moved; contexts are never restored. */
  predicate SameMain(p: Process, q: Process) {
    && q.main == p.main
    && q.reconciles == p.reconciles
    && q.electionCancelled == p.electionCancelled
    && (p.shutdown ==> q.shutdown)
    && (p.stopped ==> q.stopped)
    && (p.ended ==> q.ended)
    && (p.delivered ==> q.delivered)
    && (p.lost ==> q.lost)
    && (p.elector.Stopped? ==> q.elector.Stopped?)
  }

  /** A step of process i that is neither its main goroutine's nor a shutdown. */
  predicate Disturbs(e: Event, i: nat, calm: bool) {
    OfMain(e, i) || (calm && (e == Shutdown(i) || e == StopLoop(i)))
  }

  predicate NotStopped(p: Process, q: Process, calm: bool) {
    calm ==> q.shutdown == p.shutdown && q.stopped == p.stopped
  }

  lemma MainUntouched(w: World, e: Event, i: nat, calm: bool)
    requires Enabled(w, e) && i < |w.procs| && !Disturbs(e, i, calm)
    ensures i < |Do(w, e).procs|
    ensures SameMain(w.procs[i], Do(w, e).procs[i]) && NotStopped(w.procs[i], Do(w, e).procs[i], calm)
  {
  }

  /** The holder of the lease has led. */
  predicate HolderHasLed(w: World) {
    w.holder.Some? ==> w.holder.value < |w.procs| && w.procs[w.holder.value].led
  }

  lemma {:induction false} HolderLed(ws: seq<World>, es: seq<Event>, k: nat)
    requires IsExecution(ws, es) && k < |ws|
    ensures HolderHasLed(ws[k])
  {
    if k > 0 {
      HolderLed(ws, es, k - 1);
      StepKeepsHolder(ws[k - 1], es[k - 1]);
    }
  }

  lemma StepKeepsHolder(w: World, e: Event)
    requires HolderHasLed(w) && Enabled(w, e)
    ensures HolderHasLed(Do(w, e))
  {
  }

  /** A process that still campaigns does not hold the lease, so it may take it. */
  lemma MayObtain(w: World, i: nat)
    requires Reachable(w) && i < |w.procs|
    ensures w.procs[i].elector.Campaigning? ==> w.holder != Some(i)
    ensures !w.procs[i].elector.Campaigning? && w.procs[i].main.Campaign? ==>
              w.procs[i].led || w.procs[i].delivered || w.procs[i].lost
    ensures w.procs[i].ended ==> w.procs[i].lost || w.procs[i].electionCancelled
    ensures w.procs[i].InLoop() || w.procs[i].main.Returned? || w.procs[i].main.Campaign? ==>
              !w.procs[i].electionCancelled
    ensures w.procs[i].elector.Stopped? ==> w.procs[i].lost || w.procs[i].electionCancelled
    ensures w.procs[i].stopped ==> w.procs[i].shutdown
  {
    var ws, es :| IsExecution(ws, es) && ws[|ws| - 1] == w;
    HolderLed(ws, es, |ws| - 1);
    ReachableInv(w);
    assert Local(w.procs[i]);
  }

  /** What an elector does next once its election is cancelled: stop renewing, release, return. */
  function LastStep(w: World, p: Process, i: nat): Event {
    if p.elector.Leading? then EndElection(i)
    else if p.elector.Ending? && w.holder == Some(i) then Release(i)
    else Stop(i)
  }

  function ElectionLeft(w: World, p: Process, i: nat): nat {
    match p.elector
    case Leading => 3
    case Ending => if w.holder == Some(i) then 2 else 1
    case Campaigning => 1
    case Stopped => 0
  }

  lemma LastStepEnds(w: World, p: Process, i: nat)
    requires p.electionCancelled && !p.elector.Stopped?
    ensures var e := LastStep(w, p, i);
            && !e.Spawn? && e.i == i && Ready(w, p, e)
            && SameMain(p, Moved(p, e))
            && ElectionLeft(w.(holder := Holder(w, e)), Moved(p, e), i) < ElectionLeft(w, p, i)
  {
  }

  class Host {
    var world: World

    constructor ()
      ensures Valid() && world == World(None, [])
    {
      world := World(None, []);
      new;
      ReachableStart();
    }

    ghost predicate Valid()
      reads this
    {
      Reachable(world)
    }

    predicate Has(i: nat)
      reads this
    {
      i < |world.procs|
    }

    method Step(e: Event)
      requires Valid() && Enabled(world, e)
      modifies this
      ensures Valid() && world == Do(old(world), e)
    {
      ReachableStep(world, e);
      world := Do(world, e);
    }

    /** A step of process i itself. */
    method Own(i: nat, e: Event)
      requires Valid() && Has(i) && !e.Spawn? && e.i == i && Ready(world, world.procs[i], e)
      modifies this
      ensures Valid() && Has(i) && world.procs[i] == Moved(old(world).procs[i], e)
      ensures world.holder == Holder(old(world), e)
    {
      Step(e);
    }

    method AnyEvent() returns (e: Event) {
      e := *;
    }

    /** Steps of anyone and anything but the main goroutine of process i; a shutdown only when it is not calm. */
    method Interfere(i: nat, calm: bool)
      requires Valid() && Has(i)
      modifies this
      ensures Valid() && Has(i) && SameMain(old(world).procs[i], world.procs[i])
      ensures NotStopped(old(world).procs[i], world.procs[i], calm)
    {
      var steps: int := *;
      while steps > 0
        invariant Valid() && Has(i) && SameMain(old(world).procs[i], world.procs[i])
        invariant NotStopped(old(world).procs[i], world.procs[i], calm)
      {
        var e := AnyEvent();
        if Enabled(world, e) && !Disturbs(e, i, calm) {
          MainUntouched(world, e, i, calm);
          Step(e);
        }
        steps := steps - 1;
      }
    }

    /** Waits for a cancelled election to end; whatever of it is left then happens here. */
    method AwaitElection(i: nat)
      requires Valid() && Has(i) && world.procs[i].electionCancelled
      modifies this
      ensures Valid() && Has(i) && SameMain(old(world).procs[i], world.procs[i])
      ensures world.procs[i].elector.Stopped?
    {
      Interfere(i, false);
      while !world.procs[i].elector.Stopped?
        invariant Valid() && Has(i) && SameMain(old(world).procs[i], world.procs[i])
        decreases ElectionLeft(world, world.procs[i], i)
      {
        var e := LastStep(world, world.procs[i], i);
        LastStepEnds(world, world.procs[i], i);
        Own(i, e);
      }
    }

    method QuitLoop(i: nat)
      requires Valid() && Has(i) && world.procs[i].main.Waiting? && world.procs[i].LoopCancelled()
      modifies this
      ensures Valid() && Has(i) && world.procs[i] == old(world).procs[i].(main := Returned)
    {
      Own(i, Quit(i));
    }

    method NextTick(i: nat)
      requires Valid() && Has(i) && world.procs[i].main.Waiting?
      modifies this
      ensures Valid() && Has(i) && world.procs[i] == old(world).procs[i].(main := Checking)
    {
      Own(i, Tick(i));
    }

    /** The select between the ticker and the context, which quits only a loop whose context is cancelled. */
    method AwaitTick(i: nat, calm: bool)
      requires Valid() && Has(i) && world.procs[i].main.Waiting?
      modifies this
      ensures Valid() && Has(i) && (world.procs[i].main.Returned? || world.procs[i].main.Checking?)
      ensures world.procs[i].reconciles == old(world).procs[i].reconciles
      ensures NotStopped(old(world).procs[i], world.procs[i], calm)
      ensures world.procs[i].main.Returned? ==> world.procs[i].LoopCancelled()
    {
      Interfere(i, calm);
      var quits: bool := *;
      if world.procs[i].LoopCancelled() && quits {
        QuitLoop(i);
        return;
      }
      NextTick(i);
    }

    /** One turn of the loop: the context check, the reconcile, the wait for the next tick. */
    method Turn(i: nat, calm: bool)
      requires Valid() && Has(i) && world.procs[i].main.Checking?
      modifies this
      ensures Valid() && Has(i) && (world.procs[i].main.Returned? || world.procs[i].main.Checking?)
      ensures old(world).procs[i].reconciles <= world.procs[i].reconciles <= old(world).procs[i].reconciles + 1
      ensures old(world).procs[i].LoopCancelled() ==>
                world.procs[i].main.Returned? && world.procs[i].reconciles == old(world).procs[i].reconciles
      ensures NotStopped(old(world).procs[i], world.procs[i], calm)
      ensures world.procs[i].main.Returned? ==> world.procs[i].LoopCancelled()
      ensures world.procs[i].main.Checking? ==> world.procs[i].reconciles == old(world).procs[i].reconciles + 1
    {
      Interfere(i, calm);
      Own(i, Check(i));
      if world.procs[i].main.Returned? {
        return;
      }
      Interfere(i, calm);
      var failed: bool := *;
      Own(i, Finish(i, failed));
      if world.procs[i].main.Returned? {
        return;
      }
      AwaitTick(i, calm);
    }

    /** A shutdown between two reconciles, found by the next context check. */
    method EndLoop(i: nat)
      requires Valid() && Has(i) && world.procs[i].main.Checking?
      modifies this
      ensures Valid() && Has(i) && world.procs[i].main.Returned?
      ensures world.procs[i].reconciles == old(world).procs[i].reconciles
    {
      Own(i, Shutdown(i));
      Own(i, StopLoop(i));
      Own(i, Check(i));
    }

    /**
     * The reconcile loop, shut down after at most `ticks` reconciles. When no shutdown comes before that, it makes all
     * of them unless the lease is lost.
     */
    method Loop(i: nat, ticks: nat, calm: bool)
      requires Valid() && Has(i) && world.procs[i].main.Checking?
      modifies this
      ensures Valid() && Has(i) && world.procs[i].main.Returned?
      ensures old(world).procs[i].reconciles <= world.procs[i].reconciles <= old(world).procs[i].reconciles + ticks
      ensures old(world).procs[i].LoopCancelled() ==>
                world.procs[i].reconciles == old(world).procs[i].reconciles
      ensures calm && !old(world).procs[i].stopped ==>
                world.procs[i].lost || world.procs[i].reconciles == old(world).procs[i].reconciles + ticks
    {
      var left: nat := ticks;
      while left > 0
        invariant Valid() && Has(i) && world.procs[i].main.Checking?
        invariant old(world).procs[i].reconciles + ticks == world.procs[i].reconciles + left
        invariant left <= ticks && NotStopped(old(world).procs[i], world.procs[i], calm)
        invariant old(world).procs[i].LoopCancelled() ==> world.procs[i] == old(world).procs[i]
      {
        Turn(i, calm);
        MayObtain(world, i);
        if world.procs[i].main.Returned? {
          return;
        }
        left := left - 1;
      }
      EndLoop(i);
    }

    /** The loop under an acquired lease, then the hand-over. */
    method LeadLoop(i: nat, ticks: nat, calm: bool) returns (result: Result)
      requires Valid() && Has(i) && world.procs[i].main.Checking?
      modifies this
      ensures Valid() && Has(i) && world.procs[i].main == Exited(result)
      ensures world.procs[i].elector.Stopped?
      ensures result == LostLeadership ==> world.procs[i].lost
      ensures old(world).procs[i].reconciles <= world.procs[i].reconciles <= old(world).procs[i].reconciles + ticks
      ensures old(world).procs[i].ended ==> world.procs[i].reconciles == old(world).procs[i].reconciles
      ensures calm && !old(world).procs[i].stopped ==>
                world.procs[i].lost || world.procs[i].reconciles == old(world).procs[i].reconciles + ticks
    {
      Loop(i, ticks, calm);
      var lost := HandOver(i);
      Own(i, Exit(i));
      result := if lost then LostLeadership else Clean;
      ExitIsReported(world, i);
    }

    /** After the loop has returned: only now is the election cancelled. */
    method HandOver(i: nat) returns (lost: bool)
      requires Valid() && Has(i) && world.procs[i].main.Returned?
      modifies this
      ensures Valid() && Has(i) && world.procs[i].main == Releasing(lost)
      ensures world.procs[i].elector.Stopped? && world.procs[i].reconciles == old(world).procs[i].reconciles
      ensures old(world).procs[i].lost ==> world.procs[i].lost
    {
      Interfere(i, false);
      Own(i, Return(i));
      lost := world.procs[i].main.lost;
      AwaitElection(i);
    }

    /** Shut down while campaigning. */
    method Leave(i: nat)
      requires Valid() && Has(i) && world.procs[i].main.Campaign?
      modifies this
      ensures Valid() && Has(i) && world.procs[i].main == Exited(Clean)
      ensures world.procs[i].elector.Stopped? && world.procs[i].reconciles == old(world).procs[i].reconciles
    {
      Own(i, Shutdown(i));
      Own(i, Abandon(i));
      AwaitElection(i);
      Own(i, Exit(i));
    }

    /** The elector gets the lease and says so, unless it has had it already. */
    method Obtain(i: nat)
      requires Valid() && Has(i) && world.procs[i].main.Campaign? && !world.procs[i].elector.Stopped?
      modifies this
      ensures Valid() && Has(i) && world.procs[i].main.Campaign? && world.procs[i].delivered
      ensures world.procs[i].reconciles == old(world).procs[i].reconciles
      ensures NotStopped(old(world).procs[i], world.procs[i], true)
      ensures old(world).procs[i].ended ==> world.procs[i].ended
    {
      MayObtain(world, i);
      if world.procs[i].elector.Campaigning? {
        Own(i, if world.holder.None? then Leadership.Event.Acquire(i) else Take(i));
      }
      ReachableInv(world);
      assert Local(world.procs[i]);
      if !world.procs[i].delivered {
        Own(i, Deliver(i));
      }
    }

    /**
     * The select of a campaigning process: an election that ended, a shutdown, or the leading context. `wins` says that
     * it gets the lease; then it leads, unless its election ended first or a shutdown came.
     */
    method AwaitLease(i: nat, wins: bool, calm: bool) returns (result: Option<Result>)
      requires Valid() && Has(i) && world.procs[i].main.Campaign?
      modifies this
      ensures Valid() && Has(i)
      ensures world.procs[i].reconciles == old(world).procs[i].reconciles
      ensures result.None? && old(world).procs[i].ended ==> world.procs[i].ended
      ensures result.None? ==>
                world.procs[i].main.Checking? && NotStopped(old(world).procs[i], world.procs[i], calm)
      ensures result.Some? ==> result.value != LostLeadership
      ensures result.Some? ==> world.procs[i].main == Exited(result.value) && world.procs[i].elector.Stopped?
      ensures wins && calm && !old(world).procs[i].shutdown && result.Some? ==> world.procs[i].lost
    {
      Interfere(i, calm);
      MayObtain(world, i);
      var choice: int := *;
      if world.procs[i].shutdown && choice == 0 {
        Leave(i);
        return Some(Clean);
      }
      if world.procs[i].elector.Stopped? && (choice == 1 || !world.procs[i].delivered) {
        Own(i, GiveUp(i));
        return Some(NeverLed);
      }
      if !world.procs[i].delivered {
        if !wins {
          Leave(i);
          return Some(Clean);
        }
        Obtain(i);
      }
      Own(i, Enter(i));
      return None;
    }

    /**
     * Campaigns, leads while the lease is held, and gives the lease up only after the loop has returned. A process that
     * gets the lease makes all its reconciles, unless it is shut down or loses the lease.
     */
    method Lead(i: nat, ticks: nat, wins: bool, calm: bool) returns (result: Result)
      requires Valid() && Has(i) && world.procs[i].main.Campaign?
      modifies this
      ensures Valid() && Has(i) && world.procs[i].main == Exited(result)
      ensures world.procs[i].elector.Stopped?
      ensures result == LostLeadership ==> world.procs[i].lost
      ensures result == Clean ==> world.procs[i].shutdown
      ensures world.procs[i].reconciles <= old(world).procs[i].reconciles + ticks
      ensures old(world).procs[i].ended ==> world.procs[i].reconciles == old(world).procs[i].reconciles
      ensures wins && calm && !old(world).procs[i].shutdown ==>
                world.procs[i].lost || world.procs[i].reconciles == old(world).procs[i].reconciles + ticks
    {
      MayObtain(world, i);
      var early := AwaitLease(i, wins, calm);
      if early.Some? {
        result := early.value;
      } else {
        result := LeadLoop(i, ticks, calm);
      }
      ExitIsReported(world, i);
    }
  }
}
