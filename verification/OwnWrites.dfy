/**
 * The controller as the only writer of the count, reading it through an informer cache that only moves forward.
 * The history lists every count the object has had; the cache is an index into it.
 */
module OwnWrites {
  import opened GoInt
  import opened Wrappers
  import opened Scaling
  import opened Engine
  import opened EngineProperties
  import opened Controller
  import opened Runs

  /**
   * One reconcile of the sole writer, and the history before it. `late` is an earlier turn's write that landed after
   * this turn had read the count; `own` says that its own write landed, whatever the reply said.
   */
  datatype Turn = Turn(m: Moment, history: seq<Int32>, cache: nat, late: Option<Int32>, own: bool) {
    /** The history its own write finds. */
    function Mid(): seq<Int32> {
      if late.Some? then history + [late.value] else history
    }

    function After(): seq<Int32> {
      if own then Mid() + [m.d.target] else Mid()
    }

    predicate Landed() {
      late.Some? || own
    }

    /** The newest count it landed was never acknowledged: the actuator reported an error for it. */
    predicate Lost() {
      if own then !m.x.acked else late.Some?
    }

    function Newest(): Int32
      requires history != []
    {
      history[|history| - 1]
    }
  }

  predicate Readable(t: Turn) {
    !t.m.x.seen.Unreadable?
  }

  /** The actuator sends a write only onto the count it was decided from, and never a no-op. */
  predicate MaySend(c: Config, t: Turn) {
    && t.Mid() != []
    && t.m.d.Writes() && t.m.d.MovesInside(c.minReplicas, c.maxReplicas)
    && t.Mid()[|t.Mid()| - 1] == t.m.d.current
  }

  /** What one turn may read and write. */
  predicate TurnOk(c: Config, t: Turn) {
    && t.cache < |t.history|
    && (Readable(t) ==> t.m.x.seen.target.current == t.history[t.cache])
    && (t.own ==> MaySend(c, t))
    && (t.m.x.acked && t.m.d.Writes() ==> t.own)
  }

  /** Turn j sent a write, conditional on the version that is still the newest before turn k. */
  predicate StillPending(c: Config, ts: seq<Turn>, j: int, k: int) {
    0 <= j < k < |ts| && MaySend(c, ts[j]) && !ts[j].own && ts[j].Mid() == ts[k].history
  }

  /** A write lands late only while nothing has changed the version it was conditional on. */
  ghost predicate LateOk(c: Config, ts: seq<Turn>, k: nat)
    requires k < |ts|
  {
    ts[k].late.Some? ==> exists j :: StillPending(c, ts, j, k) && ts[j].m.d.target == ts[k].late.value
  }

  predicate Continues(t: Turn, u: Turn) {
    u.history == t.After() && t.cache <= u.cache
  }

  function Moments(ts: seq<Turn>): (ms: seq<Moment>)
    ensures |ms| == |ts|
  {
    seq(|ts|, k requires 0 <= k < |ts| => ts[k].m)
  }

  ghost predicate IsSoleWriterRun(c: Config, ts: seq<Turn>) {
    && IsRun(c, Moments(ts))
    && (ts != [] ==> |ts[0].history| == 1)
    && (forall k {:trigger TurnOk(c, ts[k])} :: 0 <= k < |ts| ==> TurnOk(c, ts[k]))
    && (forall k {:trigger LateOk(c, ts, k)} :: 0 <= k < |ts| ==> LateOk(c, ts, k))
    && (forall k {:trigger Continues(ts[k], ts[k + 1])} :: 0 <= k < |ts| - 1 ==> Continues(ts[k], ts[k + 1]))
  }

  /** The history position the controller last read before turn k. */
  function Seen(ts: seq<Turn>, k: nat): nat
    requires k <= |ts|
  {
    if k == 0 then 0 else if Readable(ts[k - 1]) then ts[k - 1].cache else Seen(ts, k - 1)
  }

  /** Whether the newest entry before turn k was written without an acknowledgement. */
  predicate NewestLost(ts: seq<Turn>, k: nat)
    requires k <= |ts|
  {
    k > 0 && if ts[k - 1].Landed() then ts[k - 1].Lost() else NewestLost(ts, k - 1)
  }

  predicate NoRepeats(history: seq<Int32>) {
    forall i :: 0 <= i < |history| - 1 ==> history[i] != history[i + 1]
  }

  /** The cache is at most one write behind, and the newest acknowledged write is the remembered one. */
  predicate InStep(ts: seq<Turn>, k: nat)
    requires k < |ts|
  {
    var t, st := ts[k], ts[k].m.before;
    var n := |t.history| - 1;
    && n >= 0 && NoRepeats(t.history)
    && n - 1 <= Seen(ts, k) <= n && Seen(ts, k) <= t.cache
    && (!st.hasBaseline ==> n == 0 && !st.hasWritten)
    && (st.hasBaseline ==> st.observedReplicas == t.history[Seen(ts, k)])
    && (n > 0 && !NewestLost(ts, k) ==> st.hasWritten && st.lastWrittenReplicas == t.history[n])
    && (n == 0 ==> !NewestLost(ts, k))
  }

  lemma TurnFacts(c: Config, ts: seq<Turn>, k: nat)
    requires IsSoleWriterRun(c, ts) && k < |ts|
    ensures DecisionShape(ts[k].m) && SnapshotShape(ts[k].m) && MemoryShape(c, ts[k].m)
    ensures k + 1 < |ts| ==> ts[k + 1].m.before == ts[k].m.after && Continues(ts[k], ts[k + 1])
    ensures TurnOk(c, ts[k])
  {
    var ms := Moments(ts);
    assert ms[k] == ts[k].m;
    ShapeAt(c, ms, k);
    SnapshotAt(c, ms, k);
    MemoryAt(c, ms, k);
    assert TurnOk(c, ts[k]);
    if k + 1 < |ts| {
      assert ms[k + 1] == ts[k + 1].m;
      assert Continues(ts[k], ts[k + 1]);
    }
  }

  lemma {:induction false} CacheAhead(c: Config, ts: seq<Turn>, k: nat)
    requires IsSoleWriterRun(c, ts) && k < |ts|
    ensures Seen(ts, k) <= ts[k].cache
  {
    if k > 0 {
      CacheAhead(c, ts, k - 1);
      TurnFacts(c, ts, k - 1);
    }
  }

  lemma SeenGrows(c: Config, ts: seq<Turn>, k: nat)
    requires IsSoleWriterRun(c, ts) && k + 1 < |ts|
    ensures Seen(ts, k) <= Seen(ts, k + 1)
    ensures ts[k].m.before.hasBaseline ==> ts[k + 1].m.before.hasBaseline
    ensures Readable(ts[k]) ==> ts[k + 1].m.before.hasBaseline && Seen(ts, k + 1) == ts[k].cache
  {
    TurnFacts(c, ts, k);
    CacheAhead(c, ts, k);
  }

  /** What a readable turn saw stays seen. */
  lemma {:induction false} SeenStays(c: Config, ts: seq<Turn>, j: nat, k: nat)
    requires IsSoleWriterRun(c, ts) && j < k < |ts| && Readable(ts[j])
    ensures ts[k].m.before.hasBaseline && ts[j].cache <= Seen(ts, k)
  {
    SeenGrows(c, ts, k - 1);
    if j < k - 1 {
      SeenStays(c, ts, j, k - 1);
    }
  }

  /** Without a late landing a write is only sent onto the newest count, which the cache shows from its own position. */
  lemma SendsFromNewest(c: Config, ts: seq<Turn>, k: nat)
    requires IsSoleWriterRun(c, ts) && k < |ts| && InStep(ts, k) && MaySend(c, ts[k]) && ts[k].late.None?
    ensures Readable(ts[k]) && ts[k].cache == |ts[k].history| - 1
    ensures ts[k].m.d.target != ts[k].Newest()
  {
    TurnFacts(c, ts, k);
    CacheAhead(c, ts, k);
    var t := ts[k];
    var n := |t.history| - 1;
    var i := n - 1;
    assert 0 <= i ==> t.history[i] != t.history[i + 1];
  }

  /** A turn whose write is still pending had seen the newest count, which nothing has changed since. */
  lemma PendingSawNewest(c: Config, ts: seq<Turn>, j: nat, k: nat)
    requires IsSoleWriterRun(c, ts) && j < k < |ts| && StillPending(c, ts, j, k) && ts[j].late.None? && InStep(ts, j)
    ensures ts[k].history != [] && ts[k].m.before.hasBaseline && |ts[k].history| - 1 <= Seen(ts, k)
    ensures ts[j].m.d.target != ts[k].Newest()
  {
    SendsFromNewest(c, ts, j);
    SeenStays(c, ts, j, k);
  }

  /** A turn after all there was has been seen decides its writes on the newest count. */
  lemma {:induction false} WritesFromNewest(c: Config, ts: seq<Turn>, k: nat)
    requires IsSoleWriterRun(c, ts) && k < |ts| && ts[k].history != [] && |ts[k].history| - 1 <= Seen(ts, k)
    ensures ts[k].m.d.Writes() ==> ts[k].m.d.current == ts[k].Newest()
  {
    CacheAhead(c, ts, k);
    TurnFacts(c, ts, k);
  }

  /** The newest count was on view before a pending write could replace it, so no turn decides on the replacement. */
  lemma {:induction false} LateSawNewest(c: Config, ts: seq<Turn>, k: nat)
    requires IsSoleWriterRun(c, ts) && k < |ts| && ts[k].late.Some?
    requires forall i :: 0 <= i <= k ==> InStep(ts, i)
    ensures ts[k].history != [] && ts[k].m.before.hasBaseline && |ts[k].history| - 1 <= Seen(ts, k)
    ensures ts[k].late.value != ts[k].Newest()
    ensures !MaySend(c, ts[k])
  {
    assert LateOk(c, ts, k);
    var j :| StillPending(c, ts, j, k) && ts[j].m.d.target == ts[k].late.value;
    assert InStep(ts, j);
    if ts[j].late.Some? {
      LateSawNewest(c, ts, j);
    }
    PendingSawNewest(c, ts, j, k);
    WritesFromNewest(c, ts, k);
  }

  lemma GrownHasNoRepeats(history: seq<Int32>, count: Int32)
    requires history != [] && NoRepeats(history) && count != history[|history| - 1]
    ensures NoRepeats(history + [count])
  {
    var longer := history + [count];
    forall i | 0 <= i < |longer| - 1
      ensures longer[i] != longer[i + 1]
    {
      if i < |history| - 1 {
        assert history[i] != history[i + 1];
      }
    }
  }

  lemma LateStaysInStep(c: Config, ts: seq<Turn>, k: nat)
    requires IsSoleWriterRun(c, ts) && k + 1 < |ts| && ts[k].late.Some?
    requires forall i :: 0 <= i <= k ==> InStep(ts, i)
    ensures InStep(ts, k + 1)
  {
    assert InStep(ts, k);
    LateSawNewest(c, ts, k);
    SeenGrows(c, ts, k);
    TurnFacts(c, ts, k);
    GrownHasNoRepeats(ts[k].history, ts[k].late.value);
    CacheAhead(c, ts, k + 1);
    TurnFacts(c, ts, k + 1);
  }

  lemma OwnStaysInStep(c: Config, ts: seq<Turn>, k: nat)
    requires IsSoleWriterRun(c, ts) && k + 1 < |ts| && ts[k].late.None? && ts[k].own && InStep(ts, k)
    ensures InStep(ts, k + 1)
  {
    TurnFacts(c, ts, k);
    SendsFromNewest(c, ts, k);
    SeenGrows(c, ts, k);
    GrownHasNoRepeats(ts[k].history, ts[k].m.d.target);
    CacheAhead(c, ts, k + 1);
    TurnFacts(c, ts, k + 1);
  }

  lemma QuietStaysInStep(c: Config, ts: seq<Turn>, k: nat)
    requires IsSoleWriterRun(c, ts) && k + 1 < |ts| && !ts[k].Landed() && InStep(ts, k)
    ensures InStep(ts, k + 1)
  {
    TurnFacts(c, ts, k);
    CacheAhead(c, ts, k + 1);
    TurnFacts(c, ts, k + 1);
  }

  lemma {:induction false} StaysInStep(c: Config, ts: seq<Turn>, k: nat)
    requires IsSoleWriterRun(c, ts) && k < |ts|
    ensures forall i :: 0 <= i <= k ==> InStep(ts, i)
  {
    if k == 0 {
      assert Moments(ts)[0] == ts[0].m;
      TurnFacts(c, ts, 0);
    } else {
      StaysInStep(c, ts, k - 1);
      if ts[k - 1].late.Some? {
        LateStaysInStep(c, ts, k - 1);
      } else if ts[k - 1].own {
        OwnStaysInStep(c, ts, k - 1);
      } else {
        QuietStaysInStep(c, ts, k - 1);
      }
    }
  }

  lemma InStepAt(c: Config, ts: seq<Turn>, k: nat)
    requires IsSoleWriterRun(c, ts) && k < |ts|
    ensures InStep(ts, k) && CacheIsNear(ts, k)
  {
    StaysInStep(c, ts, k);
    StepIsSeen(ts, k);
    CacheAhead(c, ts, k);
  }

  /** What the cache may show now: the count last seen, or the one after it. */
  predicate CacheIsNear(ts: seq<Turn>, k: nat)
    requires k < |ts|
  {
    var history, seen := ts[k].history, Seen(ts, k);
    seen < |history| && (seen + 1 < |history| ==> history[seen] != history[seen + 1])
  }

  lemma StepIsSeen(ts: seq<Turn>, k: nat)
    requires k < |ts| && InStep(ts, k)
    ensures CacheIsNear(ts, k)
  {
  }

  /**
   * A change is counted as another actor's exactly when it is the first sight of a write that was never
   * acknowledged, landed in time or late, and not of the count remembered as written.
   */
  lemma {:induction false} DriftIsALostReply(c: Config, ts: seq<Turn>, k: nat)
    requires IsSoleWriterRun(c, ts) && k < |ts|
    ensures ts[k].history != []
    ensures var t := ts[k];
            Adopts(t.m) <==>
              && Readable(t) && t.m.before.hasBaseline && Seen(ts, k) < t.cache
              && NewestLost(ts, k)
              && !(t.m.before.hasWritten && t.m.before.lastWrittenReplicas == t.Newest())
  {
    InStepAt(c, ts, k);
    TurnFacts(c, ts, k);
  }

  lemma {:induction false} NoneLost(ts: seq<Turn>, k: nat)
    requires k <= |ts| && forall i :: 0 <= i < |ts| ==> !ts[i].Lost()
    ensures !NewestLost(ts, k)
  {
    if k > 0 {
      NoneLost(ts, k - 1);
    }
  }

  /** With every landed write acknowledged, no run counts one of the controller's own writes as external drift. */
  lemma OwnWritesAreNeverDrift(c: Config, ts: seq<Turn>, k: nat)
    requires IsSoleWriterRun(c, ts) && k < |ts|
    requires forall i :: 0 <= i < |ts| ==> !ts[i].Lost()
    ensures !Adopts(ts[k].m)
  {
    NoneLost(ts, k);
    DriftIsALostReply(c, ts, k);
  }

  lemma {:induction false} NoDriftRecorded(c: Config, ts: seq<Turn>, k: nat)
    requires IsSoleWriterRun(c, ts) && k < |ts|
    requires forall i :: 0 <= i < |ts| ==> !ts[i].Lost()
    ensures ts[k].m.before.externalDriftAt == []
  {
    if k == 0 {
      assert Moments(ts)[0] == ts[0].m;
    } else {
      NoDriftRecorded(c, ts, k - 1);
      OwnWritesAreNeverDrift(c, ts, k - 1);
      TurnFacts(c, ts, k - 1);
    }
  }

  /**
   * So it stands back from itself exactly when it sees everything and its tolerance turns negative in 32 bits;
   * then it does with no change by anyone.
   */
  lemma FreezesItselfExactly(c: Config, ts: seq<Turn>, k: nat)
    requires IsSoleWriterRun(c, ts) && k < |ts|
    requires forall i :: 0 <= i < |ts| ==> !ts[i].Lost()
    ensures ts[k].m.d.reason.HoldExternalChange? <==>
              ts[k].m.s.valid && !ts[k].m.s.hpaPresent && Wrap32(c.externalChangeTolerance) < 0
    ensures c.externalChangeTolerance <= MAX_INT32 ==> !ts[k].m.d.reason.HoldExternalChange?
  {
    NoDriftRecorded(c, ts, k);
    OwnWritesAreNeverDrift(c, ts, k);
    TurnFacts(c, ts, k);
    var ms := Moments(ts);
    assert ms[k] == ts[k].m;
    FreezeAt(c, ms, k);
  }
}
