/**
 * A controller alone on the cluster, as the protocol sees it: every count in the history was written by one of its
 * Apply calls, or repeats the count before it, as status updates do that move the version only. Such a run is a run
 * of the sole writer, so what those runs take for granted follows from the protocol and the actuator.
 */
module SoleWriter {
  import opened GoInt
  import opened Wrappers
  import opened Scaling
  import opened Controller
  import opened Protocol
  import opened Actuator
  import opened OwnWrites

  // ---- The counts an object has had, without repeats

  function Counts(history: seq<Entry>): (counts: seq<Int32>)
    ensures history != [] ==> counts != [] && counts[|counts| - 1] == history[|history| - 1].count
  {
    if history == [] then []
    else
      var before, count := Counts(history[..|history| - 1]), history[|history| - 1].count;
      if before != [] && before[|before| - 1] == count then before else before + [count]
  }

  lemma CountsPush(history: seq<Entry>, k: nat)
    requires 0 < k < |history|
    ensures Counts(history[..k + 1]) ==
            if history[k].count == history[k - 1].count then Counts(history[..k])
            else Counts(history[..k]) + [history[k].count]
  {
    assert history[..k + 1][..k] == history[..k];
  }

  lemma {:induction false} CountsGrow(history: seq<Entry>, n: nat)
    requires n <= |history|
    ensures Counts(history[..n]) <= Counts(history)
  {
    if n < |history| {
      CountsGrow(history[..|history| - 1], n);
      assert history[..|history| - 1][..n] == history[..n];
    } else {
      assert history[..n] == history;
    }
  }

  /** Where version v is among the counts. */
  function Position(history: seq<Entry>, v: nat): nat
    requires v < |history|
  {
    |Counts(history[..v + 1])| - 1
  }

  lemma PositionShows(history: seq<Entry>, v: nat)
    requires v < |history|
    ensures Position(history, v) < |Counts(history)| && Counts(history)[Position(history, v)] == history[v].count
  {
    CountsGrow(history, v + 1);
  }

  lemma PositionAdvances(history: seq<Entry>, later: seq<Entry>, u: nat, v: nat)
    requires history <= later && u < |history| && u <= v < |later|
    ensures Position(history, u) <= Position(later, v)
  {
    assert history[..u + 1] == later[..u + 1] == later[..v + 1][..u + 1];
    CountsGrow(later[..v + 1], u + 1);
  }

  // ---- Runs of the controller alone

  /** One reconcile, the name of its Apply call, and the version its cache showed. */
  datatype Step = Step(m: Moment, id: nat, cache: nat)

  function Bounds(c: Config): Limits {
    Limits(c.minReplicas, c.maxReplicas)
  }

  /** A version that brought no other count. */
  predicate Repeats(history: seq<Entry>, k: int) {
    0 < k < |history| && history[k].author.Outside? && history[k].count == history[k - 1].count
  }

  /** What a reconcile's contract says of the world after it, with w the world before. */
  ghost predicate StepOk(w: World, w': World, s: Step) {
    && Extends(w, w')
    && s.cache < |w.history|
    && (!s.m.x.seen.Unreadable? ==> s.m.x.seen.target.current == w.history[s.cache].count)
    && (s.id in w'.plans ==> s.m.d.Writes() && w'.plans[s.id] == Plan(s.m.d.current, s.m.d.target))
    && (s.m.x.acked && s.m.d.Writes() ==> Landed(w', s.id, |w.history|))
  }

  /** Entry k came from the Apply call of step j, which had read the count by the end of that step. */
  predicate WrittenBy(ws: seq<World>, ss: seq<Step>, e: Entry, j: int) {
    && 0 <= j < |ss| && |ws| == |ss| + 1
    && e.author.Apply? && e.author.id == ss[j].id
    && e.author.readAt < |ws[j + 1].history|
    && ss[j].id in ws[j + 1].plans
  }

  ghost predicate FromCalls(ws: seq<World>, ss: seq<Step>, e: Entry, i: int) {
    exists j :: j <= i && WrittenBy(ws, ss, e, j)
  }

  /** Entry k of the world after step i repeats the count, or was written by this step's call or an earlier one's. */
  ghost predicate Explained(ws: seq<World>, ss: seq<Step>, i: nat, k: int)
    requires i < |ss| && |ws| == |ss| + 1
  {
    var history := ws[i + 1].history;
    0 <= k < |history| && (Repeats(history, k) || FromCalls(ws, ss, history[k], i))
  }

  /** Nothing new at step i came from anyone else. */
  ghost predicate Alone(ws: seq<World>, ss: seq<Step>, i: nat)
    requires i < |ss| && |ws| == |ss| + 1
  {
    forall k {:trigger Explained(ws, ss, i, k)} ::
      |ws[i].history| <= k < |ws[i + 1].history| ==> Explained(ws, ss, i, k)
  }

  function MomentsOf(ss: seq<Step>): (ms: seq<Moment>)
    ensures |ms| == |ss|
  {
    seq(|ss|, k requires 0 <= k < |ss| => ss[k].m)
  }

  ghost predicate IsSoleRun(c: Config, ws: seq<World>, ss: seq<Step>) {
    && |ws| == |ss| + 1
    && IsRun(c, MomentsOf(ss))
    && |Counts(ws[0].history)| == 1
    && (forall i {:trigger Reachable(Bounds(c), ws[i])} :: 0 <= i < |ws| ==> Reachable(Bounds(c), ws[i]))
    && (forall i {:trigger StepOk(ws[i], ws[i + 1], ss[i])} :: 0 <= i < |ss| ==> StepOk(ws[i], ws[i + 1], ss[i]))
    && (forall i {:trigger Alone(ws, ss, i)} :: 0 <= i < |ss| ==> Alone(ws, ss, i))
    && (forall i, j :: 0 <= i < j < |ss| ==> ss[i].id != ss[j].id && ss[i].cache <= ss[j].cache)
  }

  lemma StepFacts(c: Config, ws: seq<World>, ss: seq<Step>, i: nat)
    requires IsSoleRun(c, ws, ss) && i < |ss|
    ensures StepOk(ws[i], ws[i + 1], ss[i]) && Alone(ws, ss, i)
    ensures Reachable(Bounds(c), ws[i]) && Reachable(Bounds(c), ws[i + 1])
  {
    assert StepOk(ws[i], ws[i + 1], ss[i]);
  }

  lemma {:induction false} WorldsExtend(c: Config, ws: seq<World>, ss: seq<Step>, i: nat, j: nat)
    requires IsSoleRun(c, ws, ss) && i <= j < |ws|
    ensures Extends(ws[i], ws[j])
  {
    if i < j {
      WorldsExtend(c, ws, ss, i, j - 1);
      StepFacts(c, ws, ss, j - 1);
    }
  }

  // ---- One step

  predicate ByCall(history: seq<Entry>, k: int, id: nat) {
    0 <= k < |history| && history[k].author.Apply? && history[k].author.id == id
  }

  /** The Apply call `id` wrote one of the entries from lo up to hi. */
  predicate WroteIn(history: seq<Entry>, id: nat, lo: nat, hi: nat) {
    exists k :: lo <= k < hi && ByCall(history, k, id)
  }

  /** The first new entry, when an earlier call wrote it. */
  function LateOf(w: World, w': World, id: nat): Option<Int32> {
    var n := |w.history|;
    if n < |w'.history| && w'.history[n].author.Apply? && w'.history[n].author.id != id then Some(w'.history[n].count)
    else None
  }

  /** Where the entries that are this call's or repeats begin. */
  function StartOf(w: World, w': World, id: nat): nat {
    |w.history| + if LateOf(w, w', id).Some? then 1 else 0
  }

  function TurnOf(w: World, w': World, s: Step): Turn
    requires s.cache < |w.history| <= |w'.history|
  {
    Turn(s.m, Counts(w.history), Position(w.history, s.cache), LateOf(w, w', s.id),
         WroteIn(w'.history, s.id, StartOf(w, w', s.id), |w'.history|))
  }

  predicate TurnIsDefined(ws: seq<World>, ss: seq<Step>, i: nat)
    requires i < |ss| && |ws| == |ss| + 1
  {
    ss[i].cache < |ws[i].history| <= |ws[i + 1].history|
  }

  /** A pending write of an earlier call can only be the first to land: after it the version has moved. */
  lemma LateIsFirst(c: Config, ws: seq<World>, ss: seq<Step>, i: nat, k: nat)
    requires IsSoleRun(c, ws, ss) && i < |ss| && |ws[i].history| < k < |ws[i + 1].history|
    ensures Repeats(ws[i + 1].history, k) || ByCall(ws[i + 1].history, k, ss[i].id)
  {
    StepFacts(c, ws, ss, i);
    assert Explained(ws, ss, i, k);
    if !Repeats(ws[i + 1].history, k) {
      var j :| j <= i && WrittenBy(ws, ss, ws[i + 1].history[k], j);
      EffectsAreExact(Bounds(c), ws[i + 1], k);
      if j < i {
        WorldsExtend(c, ws, ss, j + 1, i);
      }
    }
  }

  lemma NewEntry(c: Config, ws: seq<World>, ss: seq<Step>, i: nat, k: nat)
    requires IsSoleRun(c, ws, ss) && i < |ss| && StartOf(ws[i], ws[i + 1], ss[i].id) <= k < |ws[i + 1].history|
    ensures Repeats(ws[i + 1].history, k) || ByCall(ws[i + 1].history, k, ss[i].id)
  {
    if k > |ws[i].history| {
      LateIsFirst(c, ws, ss, i, k);
    } else {
      StepFacts(c, ws, ss, i);
      assert Explained(ws, ss, i, k);
    }
  }

  /** An entry of this call replaces the count its decision was computed from. */
  lemma OwnLands(c: Config, w: World, w': World, s: Step, k: nat)
    requires Reachable(Bounds(c), w') && StepOk(w, w', s) && ByCall(w'.history, k, s.id)
    ensures s.m.d.Writes() && s.m.d.MovesInside(c.minReplicas, c.maxReplicas)
    ensures Replaces(w'.history, k, s.m.d.current, s.m.d.target)
  {
    EffectsAreExact(Bounds(c), w', k);
  }

  predicate Replaces(history: seq<Entry>, k: int, current: Int32, target: Int32) {
    0 < k < |history| && history[k - 1].count == current && history[k].count == target && current != target
  }

  /** Entries that repeat, or replace one count by another, add at most one count. */
  lemma {:induction false} AddsAtMostOne(h: seq<Entry>, id: nat, lo: nat, k: nat, current: Int32, target: Int32)
    requires 0 < lo <= k <= |h|
    requires forall m :: lo <= m < k ==> Repeats(h, m) || (ByCall(h, m, id) && Replaces(h, m, current, target))
    ensures Counts(h[..k]) == if WroteIn(h, id, lo, k) then Counts(h[..lo]) + [target] else Counts(h[..lo])
    ensures WroteIn(h, id, lo, k) ==> h[lo - 1].count == current
  {
    if lo < k {
      var m := k - 1;
      AddsAtMostOne(h, id, lo, m, current, target);
      CountsPush(h, m);
      LastCount(h, m);
      LastCount(h, lo);
      assert Repeats(h, m) || (ByCall(h, m, id) && Replaces(h, m, current, target));
      WroteOneMore(h, id, lo, m);
    }
  }

  lemma WroteOneMore(h: seq<Entry>, id: nat, lo: nat, m: nat)
    requires lo <= m
    ensures WroteIn(h, id, lo, m + 1) <==> WroteIn(h, id, lo, m) || ByCall(h, m, id)
  {
  }

  lemma LastCount(h: seq<Entry>, k: nat)
    requires 0 < k <= |h|
    ensures Counts(h[..k]) != [] && Counts(h[..k])[|Counts(h[..k])| - 1] == h[k - 1].count
  {
  }

  /** Up to its start the step leaves what its turn's own write finds. */
  lemma MidCounts(c: Config, w: World, w': World, s: Step)
    requires Reachable(Bounds(c), w') && StepOk(w, w', s)
    ensures var start := StartOf(w, w', s.id);
            0 < start <= |w'.history| && Counts(w'.history[..start]) == TurnOf(w, w', s).Mid()
  {
    var n := |w.history|;
    assert w'.history[..n] == w.history;
    if LateOf(w, w', s.id).Some? {
      EffectsAreExact(Bounds(c), w', n);
      CountsPush(w'.history, n);
    }
  }

  lemma TurnIsExact(c: Config, w: World, w': World, s: Step)
    requires Reachable(Bounds(c), w') && StepOk(w, w', s)
    requires forall k :: StartOf(w, w', s.id) <= k < |w'.history| ==>
               Repeats(w'.history, k) || ByCall(w'.history, k, s.id)
    ensures var t := TurnOf(w, w', s);
            && Counts(w'.history) == t.After()
            && (t.own ==> MaySend(c, t))
  {
    var start, n := StartOf(w, w', s.id), |w'.history|;
    forall k | start <= k < n && ByCall(w'.history, k, s.id)
      ensures Replaces(w'.history, k, s.m.d.current, s.m.d.target)
      ensures s.m.d.Writes() && s.m.d.MovesInside(c.minReplicas, c.maxReplicas)
    {
      OwnLands(c, w, w', s, k);
    }
    MidCounts(c, w, w', s);
    AddsAtMostOne(w'.history, s.id, start, n, s.m.d.current, s.m.d.target);
    LastCount(w'.history, start);
    assert w'.history[..n] == w'.history;
  }

  lemma AcknowledgedIsOwn(w: World, w': World, s: Step)
    requires StepOk(w, w', s) && s.m.x.acked && s.m.d.Writes()
    ensures TurnOf(w, w', s).own
  {
    var k :| |w.history| <= k < |w'.history| && w'.history[k].author.Apply? && w'.history[k].author.id == s.id;
    assert ByCall(w'.history, k, s.id);
  }

  /** Compare-and-swap, no no-ops, truthful acknowledgements: the step is a turn and leaves what the turn says. */
  lemma StepIsTurn(c: Config, ws: seq<World>, ss: seq<Step>, i: nat)
    requires IsSoleRun(c, ws, ss) && i < |ss|
    ensures TurnIsDefined(ws, ss, i)
    ensures var t := TurnOf(ws[i], ws[i + 1], ss[i]); TurnOk(c, t) && Counts(ws[i + 1].history) == t.After()
  {
    StepFacts(c, ws, ss, i);
    var w, w', s := ws[i], ws[i + 1], ss[i];
    forall k | StartOf(w, w', s.id) <= k < |w'.history|
      ensures Repeats(w'.history, k) || ByCall(w'.history, k, s.id)
    {
      NewEntry(c, ws, ss, i, k);
    }
    TurnIsExact(c, w, w', s);
    PositionShows(w.history, s.cache);
    if s.m.x.acked && s.m.d.Writes() {
      AcknowledgedIsOwn(w, w', s);
    }
  }

  // ---- Whole runs

  ghost function TurnsOf(c: Config, ws: seq<World>, ss: seq<Step>): (ts: seq<Turn>)
    requires IsSoleRun(c, ws, ss)
    ensures |ts| == |ss|
    ensures forall i :: 0 <= i < |ss| ==> TurnIsDefined(ws, ss, i) && ts[i] == TurnOf(ws[i], ws[i + 1], ss[i])
  {
    AllDefined(c, ws, ss);
    seq(|ss|, i requires 0 <= i < |ss| && TurnIsDefined(ws, ss, i) => TurnOf(ws[i], ws[i + 1], ss[i]))
  }

  lemma AllDefined(c: Config, ws: seq<World>, ss: seq<Step>)
    requires IsSoleRun(c, ws, ss)
    ensures forall i :: 0 <= i < |ss| ==> TurnIsDefined(ws, ss, i)
  {
    forall i | 0 <= i < |ss|
      ensures TurnIsDefined(ws, ss, i)
    {
      StepFacts(c, ws, ss, i);
    }
  }

  /** The call whose write lands late read the very version before it, so nothing has changed since its step. */
  lemma LateWasPending(c: Config, ws: seq<World>, ss: seq<Step>, i: nat) returns (j: nat)
    requires IsSoleRun(c, ws, ss) && i < |ss| && LateOf(ws[i], ws[i + 1], ss[i].id).Some?
    ensures j < i && ws[j + 1].history == ws[i].history
    ensures ss[j].m.d.Writes() && ss[j].m.d.MovesInside(c.minReplicas, c.maxReplicas)
    ensures ws[i].history != [] && ws[i].history[|ws[i].history| - 1].count == ss[j].m.d.current
    ensures LateOf(ws[i], ws[i + 1], ss[i].id) == Some(ss[j].m.d.target)
  {
    StepFacts(c, ws, ss, i);
    var n := |ws[i].history|;
    var h := ws[i + 1].history;
    assert Explained(ws, ss, i, n) && !Repeats(h, n);
    var j' :| j' <= i && WrittenBy(ws, ss, h[n], j');
    j := j';
    StepFacts(c, ws, ss, j);
    EffectsAreExact(Bounds(c), ws[i + 1], n);
    WorldsExtend(c, ws, ss, j + 1, i);
    WorldsExtend(c, ws, ss, j + 1, i + 1);
  }

  lemma LateIsOk(c: Config, ws: seq<World>, ss: seq<Step>, i: nat)
    requires IsSoleRun(c, ws, ss) && i < |ss|
    ensures LateOk(c, TurnsOf(c, ws, ss), i)
  {
    var ts := TurnsOf(c, ws, ss);
    if ts[i].late.Some? {
      var j := LateWasPending(c, ws, ss, i);
      StepIsTurn(c, ws, ss, j);
      assert ts[j].After() == ts[i].history;
      assert StillPending(c, ts, j, i);
    }
  }

  lemma TurnsContinue(c: Config, ws: seq<World>, ss: seq<Step>, i: nat)
    requires IsSoleRun(c, ws, ss) && i + 1 < |ss|
    ensures var ts := TurnsOf(c, ws, ss); Continues(ts[i], ts[i + 1])
  {
    StepIsTurn(c, ws, ss, i);
    StepFacts(c, ws, ss, i);
    StepFacts(c, ws, ss, i + 1);
    PositionAdvances(ws[i].history, ws[i + 1].history, ss[i].cache, ss[i + 1].cache);
  }

  /** A run of the controller alone on the cluster is a run of the sole writer. */
  lemma SoleRunIsSoleWriterRun(c: Config, ws: seq<World>, ss: seq<Step>)
    requires IsSoleRun(c, ws, ss)
    ensures IsSoleWriterRun(c, TurnsOf(c, ws, ss))
  {
    var ts := TurnsOf(c, ws, ss);
    assert Moments(ts) == MomentsOf(ss);
    forall i | 0 <= i < |ts|
      ensures TurnOk(c, ts[i]) && LateOk(c, ts, i)
    {
      StepIsTurn(c, ws, ss, i);
      LateIsOk(c, ws, ss, i);
    }
    forall i | 0 <= i < |ts| - 1
      ensures Continues(ts[i], ts[i + 1])
    {
      TurnsContinue(c, ws, ss, i);
    }
  }

  /**
   * With every write that lands acknowledged in its own step, the controller alone on the cluster never counts one
   * of its own writes as another actor's, whatever versions status updates add in between.
   */
  lemma AloneMeansNoDrift(c: Config, ws: seq<World>, ss: seq<Step>, i: nat)
    requires IsSoleRun(c, ws, ss) && i < |ss|
    requires forall k :: 0 <= k < |ss| ==> !TurnsOf(c, ws, ss)[k].Lost()
    ensures !Adopts(ss[i].m)
  {
    SoleRunIsSoleWriterRun(c, ws, ss);
    OwnWritesAreNeverDrift(c, TurnsOf(c, ws, ss), i);
  }
}
