/**
 * The Normalizer's admission control as a transition system: any number of records, each at its own place in the
 * handler, sharing the slot channel and the waiting counter one atomic operation at a time.
 */
module Admission {
  import opened Sums

  datatype Limits = Limits(maxConcurrent: int, queueLimit: int) {
    predicate Valid() {
      1 <= maxConcurrent && 0 <= queueLimit
    }
  }

  datatype Outcome = Invalid | Overloaded | Normalized | Error

  /** Where one record is. Bouncing is counted although over the limit; the two Leaving states still have to uncount. */
  datatype Place =
    | Received | Parsed | Full
    | Bouncing | Waiting | LeavingWithSlot | LeavingWithout
    | Refused | Working
    | Releasing(outcome: Outcome) | Finished(outcome: Outcome)

  datatype Count = Count(record: nat, outcome: Outcome)

  /** observed lists every outcome counted, in order. */
  datatype World = World(slots: int, waiting: int, records: seq<Place>, observed: seq<Count>)

  const EMPTY := World(0, 0, [], [])

  datatype Event =
    | Arrive
    | Parse(i: nat, ok: bool)
    | TrySlot(i: nat)
    | Enqueue(i: nat)
    | Bounce(i: nat)
    | TakeSlot(i: nat)
    | GiveUp(i: nat)
    | Uncount(i: nat)
    | Refuse(i: nat)
    | Respond(i: nat, ok: bool)
    | Release(i: nat)

  /** The place a record must be at for the event to happen to it. */
  predicate At(p: Place, e: Event) {
    match e
    case Arrive => false
    case Parse(_, _) => p.Received?
    case TrySlot(_) => p.Parsed?
    case Enqueue(_) => p.Full?
    case Bounce(_) => p.Bouncing?
    case TakeSlot(_) | GiveUp(_) => p.Waiting?
    case Uncount(_) => p.LeavingWithSlot? || p.LeavingWithout?
    case Refuse(_) => p.Refused?
    case Respond(_, _) => p.Working?
    case Release(_) => p.Releasing?
  }

  /** A send on the slot channel waits for room; the timer and a cancellation can end the wait at any time. */
  predicate Enabled(l: Limits, w: World, e: Event) {
    e.Arrive? || (e.i < |w.records| && At(w.records[e.i], e) && (e.TakeSlot? ==> w.slots < l.maxConcurrent))
  }

  function Move(w: World, i: nat, p: Place, slots: int, waiting: int): World
    requires i < |w.records|
  {
    World(w.slots + slots, w.waiting + waiting, w.records[i := p], w.observed)
  }

  function Settle(w: World, i: nat, p: Place, o: Outcome): World
    requires i < |w.records|
  {
    World(w.slots, w.waiting, w.records[i := p], w.observed + [Count(i, o)])
  }

  function Do(l: Limits, w: World, e: Event): World
    requires Enabled(l, w, e)
  {
    match e
    case Arrive => w.(records := w.records + [Received])
    case Parse(i, ok) => if ok then Move(w, i, Parsed, 0, 0) else Settle(w, i, Finished(Invalid), Invalid)
    case TrySlot(i) => if w.slots < l.maxConcurrent then Move(w, i, Working, 1, 0) else Move(w, i, Full, 0, 0)
    case Enqueue(i) => if w.waiting + 1 > l.queueLimit then Move(w, i, Bouncing, 0, 1) else Move(w, i, Waiting, 0, 1)
    case Bounce(i) => Move(w, i, Refused, 0, -1)
    case TakeSlot(i) => Move(w, i, LeavingWithSlot, 1, 0)
    case GiveUp(i) => Move(w, i, LeavingWithout, 0, 0)
    case Uncount(i) => Move(w, i, if w.records[i].LeavingWithSlot? then Working else Refused, 0, -1)
    case Refuse(i) => Settle(w, i, Finished(Overloaded), Overloaded)
    case Respond(i, ok) =>
      var o := if ok then Normalized else Error;
      Settle(w, i, Releasing(o), o)
    case Release(i) => Move(w, i, Finished(w.records[i].outcome), -1, 0)
  }

  ghost predicate IsExecution(l: Limits, ws: seq<World>, es: seq<Event>) {
    && |ws| == |es| + 1
    && ws[0] == EMPTY
    && (forall k :: 0 <= k < |es| ==> Enabled(l, ws[k], es[k]) && ws[k + 1] == Do(l, ws[k], es[k]))
  }

  ghost predicate Reachable(l: Limits, w: World) {
    exists ws, es :: IsExecution(l, ws, es) && ws[|ws| - 1] == w
  }

  lemma ReachableStart(l: Limits)
    ensures Reachable(l, EMPTY)
  {
    assert IsExecution(l, [EMPTY], []);
  }

  lemma ReachableStep(l: Limits, w: World, e: Event)
    requires Reachable(l, w) && Enabled(l, w, e)
    ensures Reachable(l, Do(l, w, e))
  {
    var ws, es :| IsExecution(l, ws, es) && ws[|ws| - 1] == w;
    var ws', es' := ws + [Do(l, w, e)], es + [e];
    assert forall k :: 0 <= k < |es| ==> Enabled(l, ws'[k], es'[k]) && ws'[k + 1] == Do(l, ws'[k], es'[k]);
    assert IsExecution(l, ws', es');
    assert ws'[|ws'| - 1] == Do(l, w, e);
  }

  // ---- What is counted

  const HOLDS: Place -> int := (p: Place) => if p.LeavingWithSlot? || p.Working? || p.Releasing? then 1 else 0
  const QUEUED: Place -> int := (p: Place) => if p.Waiting? || p.LeavingWithSlot? || p.LeavingWithout? then 1 else 0
  const BOUNCES: Place -> int := (p: Place) => if p.Bouncing? then 1 else 0
  const SETTLED: Place -> int := (p: Place) => if p.Releasing? || p.Finished? then 1 else 0

  function Holders(w: World): int {
    Sum(w.records, HOLDS)
  }

  /** Admitted records that have not stopped waiting, or have not yet uncounted themselves. */
  function Admitted(w: World): int {
    Sum(w.records, QUEUED)
  }

  function Bouncers(w: World): int {
    Sum(w.records, BOUNCES)
  }

  /** The outcomes counted for one record. */
  function OutcomesOf(observed: seq<Count>, i: nat): seq<Outcome> {
    if observed == [] then []
    else
      var c := observed[|observed| - 1];
      OutcomesOf(observed[..|observed| - 1], i) + if c.record == i then [c.outcome] else []
  }

  function Expected(p: Place): seq<Outcome> {
    if p.Releasing? || p.Finished? then [p.outcome] else []
  }

  predicate Accounted(w: World) {
    && (forall i :: 0 <= i < |w.records| ==> OutcomesOf(w.observed, i) == Expected(w.records[i]))
    && (forall k :: 0 <= k < |w.observed| ==> w.observed[k].record < |w.records|)
    && |w.observed| == Sum(w.records, SETTLED)
  }

  predicate Counted(l: Limits, w: World) {
    && w.slots == Holders(w) <= l.maxConcurrent
    && w.waiting == Admitted(w) + Bouncers(w)
    && 0 <= Bouncers(w)
    && Admitted(w) <= l.queueLimit
  }

  predicate Inv(l: Limits, w: World) {
    Counted(l, w) && Accounted(w)
  }

  // ---- One step

  lemma StepShape(l: Limits, w: World, e: Event)
    requires Enabled(l, w, e) && !e.Arrive?
    ensures var w', i := Do(l, w, e), e.i;
            && |w'.records| == |w.records| && w'.records == w.records[i := w'.records[i]]
            && w'.slots - w.slots == HOLDS(w'.records[i]) - HOLDS(w.records[i])
            && w'.waiting - w.waiting
               == QUEUED(w'.records[i]) + BOUNCES(w'.records[i]) - QUEUED(w.records[i]) - BOUNCES(w.records[i])
            && (HOLDS(w'.records[i]) > HOLDS(w.records[i]) ==> w.slots < l.maxConcurrent)
            && (QUEUED(w'.records[i]) > QUEUED(w.records[i]) ==> w.waiting < l.queueLimit)
  {
  }

  lemma StepCounts(l: Limits, w: World, e: Event)
    requires Enabled(l, w, e) && !e.Arrive?
    ensures var w', i := Do(l, w, e), e.i;
            && Holders(w') - Holders(w) == w'.slots - w.slots
            && Admitted(w') + Bouncers(w') - Admitted(w) - Bouncers(w) == w'.waiting - w.waiting
            && Admitted(w') - Admitted(w) == QUEUED(w'.records[i]) - QUEUED(w.records[i])
  {
    StepShape(l, w, e);
    var p := Do(l, w, e).records[e.i];
    SumUpdate(w.records, e.i, p, HOLDS);
    SumUpdate(w.records, e.i, p, QUEUED);
    SumUpdate(w.records, e.i, p, BOUNCES);
  }

  lemma ArriveCounts(l: Limits, w: World)
    ensures var w' := Do(l, w, Arrive);
            && Holders(w') == Holders(w) && Admitted(w') == Admitted(w) && Bouncers(w') == Bouncers(w)
            && Sum(w'.records, SETTLED) == Sum(w.records, SETTLED)
  {
    SumPush(w.records, Received, HOLDS);
    SumPush(w.records, Received, QUEUED);
    SumPush(w.records, Received, BOUNCES);
    SumPush(w.records, Received, SETTLED);
  }

  lemma OutcomesPush(observed: seq<Count>, c: Count, i: nat)
    ensures OutcomesOf(observed + [c], i) == OutcomesOf(observed, i) + if c.record == i then [c.outcome] else []
  {
    assert (observed + [c])[..|observed|] == observed;
  }

  lemma {:induction false} NotYetObserved(observed: seq<Count>, i: nat)
    requires forall k :: 0 <= k < |observed| ==> observed[k].record != i
    ensures OutcomesOf(observed, i) == []
  {
    if observed != [] {
      NotYetObserved(observed[..|observed| - 1], i);
    }
  }

  lemma ObservedShape(l: Limits, w: World, e: Event)
    requires Enabled(l, w, e) && !e.Arrive?
    ensures var w', p, p' := Do(l, w, e), w.records[e.i], Do(l, w, e).records[e.i];
            || (w'.observed == w.observed && Expected(p') == Expected(p))
            || (Expected(p) == [] && |Expected(p')| == 1 && w'.observed == w.observed + [Count(e.i, Expected(p')[0])])
  {
  }

  lemma MovedAccounts(w: World, w': World, i: nat, p: Place)
    requires Accounted(w) && i < |w.records| && w'.records == w.records[i := p]
    requires w'.observed == w.observed && Expected(p) == Expected(w.records[i])
    ensures Accounted(w')
  {
    SumUpdate(w.records, i, p, SETTLED);
  }

  lemma SettledAccounts(w: World, w': World, i: nat, p: Place, o: Outcome)
    requires Accounted(w) && i < |w.records| && w'.records == w.records[i := p]
    requires Expected(w.records[i]) == [] && Expected(p) == [o] && w'.observed == w.observed + [Count(i, o)]
    ensures Accounted(w')
  {
    SumUpdate(w.records, i, p, SETTLED);
    forall k | 0 <= k < |w'.records|
      ensures OutcomesOf(w'.observed, k) == Expected(w'.records[k])
    {
      OutcomesPush(w.observed, Count(i, o), k);
      assert OutcomesOf(w.observed, k) == Expected(w.records[k]);
    }
  }

  lemma StepAccounts(l: Limits, w: World, e: Event)
    requires Accounted(w) && Enabled(l, w, e) && !e.Arrive?
    ensures Accounted(Do(l, w, e))
  {
    StepShape(l, w, e);
    ObservedShape(l, w, e);
    var w' := Do(l, w, e);
    var p := w'.records[e.i];
    if w'.observed == w.observed {
      MovedAccounts(w, w', e.i, p);
    } else {
      SettledAccounts(w, w', e.i, p, Expected(p)[0]);
    }
  }

  lemma ArriveAccounts(l: Limits, w: World)
    requires Accounted(w)
    ensures Accounted(Do(l, w, Arrive))
  {
    ArriveCounts(l, w);
    NotYetObserved(w.observed, |w.records|);
  }

  lemma StepKeepsCounts(l: Limits, w: World, e: Event)
    requires Counted(l, w) && Enabled(l, w, e) && !e.Arrive?
    ensures Counted(l, Do(l, w, e))
  {
    StepShape(l, w, e);
    StepCounts(l, w, e);
    SumNonNegative(Do(l, w, e).records, BOUNCES);
  }

  lemma StepKeepsInv(l: Limits, w: World, e: Event)
    requires Inv(l, w) && Enabled(l, w, e)
    ensures Inv(l, Do(l, w, e))
  {
    if e.Arrive? {
      ArriveCounts(l, w);
      ArriveAccounts(l, w);
    } else {
      StepKeepsCounts(l, w, e);
      StepAccounts(l, w, e);
    }
  }

  lemma {:induction false} ExecutionKeepsInv(l: Limits, ws: seq<World>, es: seq<Event>, k: nat)
    requires l.Valid() && IsExecution(l, ws, es) && k < |ws|
    ensures Inv(l, ws[k])
  {
    if k > 0 {
      ExecutionKeepsInv(l, ws, es, k - 1);
      StepKeepsInv(l, ws[k - 1], es[k - 1]);
    }
  }

  lemma ReachableInv(l: Limits, w: World)
    requires l.Valid() && Reachable(l, w)
    ensures Inv(l, w)
  {
    var ws, es :| IsExecution(l, ws, es) && ws[|ws| - 1] == w;
    ExecutionKeepsInv(l, ws, es, |ws| - 1);
  }

  // ---- What holds in every interleaving

  /** The channel holds exactly one token a slot holder, never too many, and no more than QueueLimit records wait. */
  lemma LimitsHold(l: Limits, w: World)
    requires l.Valid() && Reachable(l, w)
    ensures w.slots == Holders(w) <= l.maxConcurrent
    ensures Admitted(w) <= l.queueLimit
    ensures Admitted(w) <= w.waiting
  {
    ReachableInv(l, w);
  }

  /** Every record has at most one outcome, exactly one once it has left the handler, and none is invented. */
  lemma OneOutcomeEach(l: Limits, w: World, i: nat)
    requires l.Valid() && Reachable(l, w) && i < |w.records|
    ensures |OutcomesOf(w.observed, i)| <= 1
    ensures w.records[i].Finished? ==> OutcomesOf(w.observed, i) == [w.records[i].outcome]
    ensures |w.observed| <= |w.records|
  {
    ReachableInv(l, w);
    assert OutcomesOf(w.observed, i) == Expected(w.records[i]);
    SettledAtMostAll(w.records);
  }

  lemma {:induction false} SettledAtMostAll(records: seq<Place>)
    ensures Sum(records, SETTLED) <= |records|
    ensures (forall i :: 0 <= i < |records| ==> records[i].Finished?) ==>
              && Sum(records, SETTLED) == |records|
              && Sum(records, HOLDS) == 0 && Sum(records, QUEUED) == 0 && Sum(records, BOUNCES) == 0
  {
    if records != [] {
      SettledAtMostAll(records[..|records| - 1]);
    }
  }

  predicate AtRest(w: World) {
    forall i :: 0 <= i < |w.records| ==> w.records[i].Finished?
  }

  /** At rest both counters are back at zero and every record received has been counted. */
  lemma RestIsClean(l: Limits, w: World)
    requires l.Valid() && Reachable(l, w) && AtRest(w)
    ensures w.slots == 0 && w.waiting == 0 && |w.observed| == |w.records|
  {
    ReachableInv(l, w);
    SettledAtMostAll(w.records);
  }

  /**
   * A record finding the slots busy is turned away exactly when admitted records and records being turned away
   * together reach QueueLimit: the counter does not tell the two apart.
   */
  lemma TurnedAwayExactly(l: Limits, w: World, i: nat)
    requires l.Valid() && Reachable(l, w) && Enabled(l, w, Enqueue(i))
    ensures Do(l, w, Enqueue(i)).records[i].Bouncing? <==> Admitted(w) + Bouncers(w) >= l.queueLimit
  {
    ReachableInv(l, w);
  }

  // ---- Progress

  const RANK: Place -> int := (p: Place) =>
    match p
    case Received => 8
    case Parsed => 7
    case Full => 6
    case Waiting => 5
    case LeavingWithSlot => 4
    case LeavingWithout | Working => 3
    case Bouncing => 2
    case Refused | Releasing(_) => 1
    case Finished(_) => 0

  function Work(w: World): int {
    Sum(w.records, RANK)
  }

  lemma StepWorks(l: Limits, w: World, e: Event)
    requires Enabled(l, w, e) && !e.Arrive?
    ensures Work(Do(l, w, e)) < Work(w)
  {
    StepShape(l, w, e);
    SumUpdate(w.records, e.i, Do(l, w, e).records[e.i], RANK);
  }

  /** The event that moves a record on, with no timer firing and no client giving up. */
  function Next(i: nat, p: Place): Event {
    match p
    case Received => Parse(i, true)
    case Parsed => TrySlot(i)
    case Full => Enqueue(i)
    case Bouncing => Bounce(i)
    case Waiting => TakeSlot(i)
    case LeavingWithSlot | LeavingWithout => Uncount(i)
    case Refused => Refuse(i)
    case Working => Respond(i, true)
    case Releasing(_) => Release(i)
    case Finished(_) => Arrive
  }

  lemma NextIsEnabled(l: Limits, w: World, k: nat)
    requires k < |w.records| && !w.records[k].Finished? && (w.records[k].Waiting? ==> w.slots < l.maxConcurrent)
    ensures var e := Next(k, w.records[k]); !e.Arrive? && !e.GiveUp? && Enabled(l, w, e)
  {
  }

  lemma FullMeansHeld(l: Limits, w: World) returns (k: nat)
    requires l.Valid() && Reachable(l, w) && w.slots >= l.maxConcurrent
    ensures k < |w.records| && HOLDS(w.records[k]) == 1
  {
    ReachableInv(l, w);
    k := PositiveTerm(w.records, HOLDS);
  }

  /**
   * No slot is ever lost to the records that wait for one: while a record is unfinished, it or a record that holds
   * a slot can move on, without any timer firing and without any client giving up.
   */
  lemma SlotsComeBack(l: Limits, w: World, i: nat) returns (k: nat)
    requires l.Valid() && Reachable(l, w) && i < |w.records| && !w.records[i].Finished?
    ensures k < |w.records| && (k == i || HOLDS(w.records[k]) == 1)
    ensures var e := Next(k, w.records[k]); !e.Arrive? && !e.GiveUp? && Enabled(l, w, e)
  {
    k := i;
    if w.records[i].Waiting? && w.slots >= l.maxConcurrent {
      k := FullMeansHeld(l, w);
    }
    NextIsEnabled(l, w, k);
  }

  predicate IsDrain(l: Limits, ws: seq<World>, es: seq<Event>) {
    && |ws| == |es| + 1
    && (forall k :: 0 <= k < |es| ==> !es[k].Arrive? && Enabled(l, ws[k], es[k]) && ws[k + 1] == Do(l, ws[k], es[k]))
  }

  /** Once arrivals stop, every interleaving comes to rest after a bounded number of steps. */
  lemma {:induction false} DrainsAreBounded(l: Limits, ws: seq<World>, es: seq<Event>)
    requires IsDrain(l, ws, es)
    ensures |es| + Work(ws[|ws| - 1]) <= Work(ws[0])
    ensures 0 <= Work(ws[|ws| - 1])
    ensures Work(ws[|ws| - 1]) == 0 ==> AtRest(ws[|ws| - 1])
  {
    SumNonNegative(ws[|ws| - 1].records, RANK);
    if es == [] {
      NoWorkIsRest(ws[0].records);
    } else {
      var n := |es| - 1;
      StepWorks(l, ws[0], es[0]);
      DrainsAreBounded(l, ws[1..], es[1..]);
    }
  }

  lemma {:induction false} NoWorkIsRest(records: seq<Place>)
    ensures 0 <= Sum(records, RANK)
    ensures Sum(records, RANK) == 0 ==> forall i :: 0 <= i < |records| ==> records[i].Finished?
  {
    if records != [] {
      NoWorkIsRest(records[..|records| - 1]);
    }
  }
}
