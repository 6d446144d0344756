/** The Normalizer's request handler: each atomic operation is one step, and other records step in between. */
module NormalizerServer {
  import opened Admission
  import opened Sums

  /** Nothing that happened between the two is undone: records stay, and so does what was counted. */
  predicate Since(earlier: World, later: World) {
    |earlier.records| <= |later.records| && earlier.observed <= later.observed
  }

  /** Record i found every slot taken and as many records waiting or being turned away as may wait. */
  predicate TurnedAway(l: Limits, at: World, i: nat) {
    i < |at.records| && at.records[i].Full? && l.queueLimit <= Admitted(at) + Bouncers(at)
  }

  lemma MoverIsNotWaiting(w: World, i: nat, k: nat)
    requires i < |w.records| && w.records[i].Waiting? && k < |w.records| && HOLDS(w.records[k]) == 1
    ensures k != i && !Next(k, w.records[k]).Arrive? && !Next(k, w.records[k]).TakeSlot?
    ensures Next(k, w.records[k]).i == k
  {
  }

  class Server {
    const limits: Limits
    var world: World

    constructor (limits: Limits)
      requires limits.Valid()
      ensures Valid() && this.limits == limits && world == EMPTY
    {
      this.limits := limits;
      world := EMPTY;
      new;
      ReachableStart(limits);
    }

    ghost predicate Valid()
      reads this
    {
      limits.Valid() && Reachable(limits, world)
    }

    predicate Has(i: nat)
      reads this
    {
      i < |world.records|
    }

    method Step(e: Event)
      requires Valid() && Enabled(limits, world, e)
      modifies this`world
      ensures Valid() && world == Do(limits, old(world), e) && Since(old(world), world)
    {
      ReachableStep(limits, world, e);
      world := Do(limits, world, e);
    }

    method AnyEvent() returns (e: Event) {
      e := *;
    }

    /** Any number of steps of other records, new ones included. */
    method Interfere(i: nat)
      requires Valid() && Has(i)
      modifies this`world
      ensures Valid() && Has(i) && world.records[i] == old(world).records[i]
      ensures Since(old(world), world)
    {
      var steps: int := *;
      while steps > 0
        invariant Valid() && Has(i) && world.records[i] == old(world).records[i]
        invariant Since(old(world), world)
      {
        var e := AnyEvent();
        if Enabled(limits, world, e) && (e.Arrive? || e.i != i) {
          Step(e);
        }
        steps := steps - 1;
      }
    }

    /** The fast path: a slot is taken if and only if one is free. */
    method TryFast(i: nat) returns (acquired: bool)
      requires Valid() && Has(i) && world.records[i].Parsed?
      modifies this`world
      ensures Valid() && Has(i) && Since(old(world), world)
      ensures acquired <==> Holders(old(world)) < limits.maxConcurrent
      ensures world.records[i] == if acquired then Working else Full
    {
      LimitsHold(limits, world);
      Step(TrySlot(i));
      acquired := world.records[i].Working?;
    }

    /** Joins the queue, if there is room in it. */
    method Join(i: nat) returns (joined: bool)
      requires Valid() && Has(i) && world.records[i].Full?
      modifies this`world
      ensures Valid() && Has(i) && Since(old(world), world)
      ensures !joined <==> TurnedAway(limits, old(world), i)
      ensures world.records[i] == if joined then Waiting else Bouncing
    {
      TurnedAwayExactly(limits, world, i);
      Step(Enqueue(i));
      joined := world.records[i].Waiting?;
    }

    /**
     * Waits for a slot: the fast path, then admission to the queue, then slot, timeout or cancellation. A record whose
     * timer does not fire and whose client does not leave is refused only by being turned away, in the world `at`.
     */
    method Acquire(i: nat, patient: bool) returns (acquired: bool, ghost at: World)
      requires Valid() && Has(i) && world.records[i].Parsed?
      modifies this`world
      ensures Valid() && Has(i) && Since(old(world), at) && Since(at, world)
      ensures world.records[i] == if acquired then Working else Refused
      ensures !acquired && patient ==> Reachable(limits, at) && TurnedAway(limits, at, i)
    {
      acquired := TryFast(i);
      at := world;
      if acquired {
        return;
      }
      Interfere(i);
      at := world;
      var joined := Join(i);
      Interfere(i);
      if !joined {
        Step(Bounce(i));
        return;
      }
      acquired := AwaitSlot(i, patient);
    }

    /** The others go on until a slot is free. */
    method AwaitRoom(i: nat)
      requires Valid() && Has(i) && world.records[i].Waiting?
      modifies this`world
      ensures Valid() && Has(i) && world.records[i].Waiting? && Since(old(world), world)
      ensures world.slots < limits.maxConcurrent
    {
      while world.slots >= limits.maxConcurrent
        invariant Valid() && Has(i) && world.records[i].Waiting? && Since(old(world), world)
        decreases Work(world)
      {
        ghost var holder := FullMeansHeld(limits, world);
        var k: nat :| k < |world.records| && HOLDS(world.records[k]) == 1;
        NextIsEnabled(limits, world, k);
        MoverIsNotWaiting(world, i, k);
        var e := Next(k, world.records[k]);
        StepWorks(limits, world, e);
        SumNonNegative(world.records, RANK);
        Step(e);
      }
    }

    /**
     * The select between a free slot, the timer and the client, of which a patient record sees only the slot; the
     * deferred uncounting follows either way.
     */
    method AwaitSlot(i: nat, patient: bool) returns (acquired: bool)
      requires Valid() && Has(i) && world.records[i].Waiting?
      modifies this`world
      ensures Valid() && Has(i) && Since(old(world), world)
      ensures world.records[i] == if acquired then Working else Refused
      ensures patient ==> acquired
    {
      if patient {
        AwaitRoom(i);
      }
      var gaveUp: bool := *;
      acquired := patient || (!gaveUp && world.slots < limits.maxConcurrent);
      Step(if acquired then TakeSlot(i) else GiveUp(i));
      Interfere(i);
      Step(Uncount(i));
    }

    /** The work, the response and the deferred release. */
    method Serve(i: nat, clientStays: bool) returns (outcome: Outcome)
      requires Valid() && Has(i) && world.records[i].Working?
      modifies this`world
      ensures Valid() && Has(i) && Since(old(world), world)
      ensures world.records[i] == Finished(outcome)
      ensures outcome == if clientStays then Normalized else Error
    {
      outcome := if clientStays then Normalized else Error;
      Step(Respond(i, clientStays));
      Interfere(i);
      Step(Release(i));
    }

    /** The response: the work under a slot, or the refusal. */
    method Answer(i: nat, acquired: bool, clientStays: bool) returns (outcome: Outcome)
      requires Valid() && Has(i) && world.records[i] == if acquired then Working else Refused
      modifies this`world
      ensures Valid() && Has(i) && Since(old(world), world) && world.records[i] == Finished(outcome)
      ensures outcome == if !acquired then Overloaded else if clientStays then Normalized else Error
    {
      if acquired {
        outcome := Serve(i, clientStays);
      } else {
        Step(Refuse(i));
        outcome := Overloaded;
      }
    }

    /**
     * Handles one record. Whatever the others do, it ends in exactly one counted outcome: Invalid exactly when it
     * does not parse, and it holds no slot afterwards. A patient record that parses is turned away, in the world
     * `at`, or served.
     */
    method HandleNormalize(parses: bool, clientStays: bool, patient: bool)
      returns (i: nat, outcome: Outcome, ghost at: World)
      requires Valid()
      modifies this`world
      ensures Valid() && Has(i) && |old(world).records| <= i
      ensures world.records[i] == Finished(outcome) && OutcomesOf(world.observed, i) == [outcome]
      ensures outcome == Invalid <==> !parses
      ensures outcome == Error ==> !clientStays
      ensures outcome == Normalized ==> clientStays
      ensures Since(old(world), at) && Since(at, world)
      ensures outcome == Overloaded && patient ==> Reachable(limits, at) && TurnedAway(limits, at, i)
    {
      i := |world.records|;
      Step(Arrive);
      Interfere(i);
      Step(Parse(i, parses));
      at := world;
      if !parses {
        OneOutcomeEach(limits, world, i);
        return i, Invalid, at;
      }
      Interfere(i);
      var acquired: bool;
      acquired, at := Acquire(i, patient);
      Interfere(i);
      outcome := Answer(i, acquired, clientStays);
      OneOutcomeEach(limits, world, i);
    }
  }
}
