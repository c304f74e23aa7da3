/**
 * What the turn queue guarantees over whole runs: the cancellation fence, the
 * conservation of slots, at most one execution per turn, and the exact count of
 * cancelled turns.
 */
module TurnQueueSafety {
  import opened Basics
  import opened DraftWorkers
  import opened TurnQueueModel

  /** `states` is a run of the queue that takes `steps`. */
  ghost predicate Run(states: seq<State>, steps: seq<Step>) {
    && |states| == |steps| + 1 && states[0] == INITIAL
    && forall i :: 0 <= i < |steps| ==> Follows(states[i], steps[i], states[i + 1])
  }

  ghost predicate Follows(s: State, step: Step, s': State) {
    Shaped(s) && TurnQueueModel.Enabled(s, step) && s' == TurnQueueModel.Do(s, step)
  }

  ghost predicate Reachable(s: State) {
    exists states, steps :: Run(states, steps) && states[|steps|] == s
  }

  lemma {:induction false} RunInv(states: seq<State>, steps: seq<Step>, i: nat)
    requires Run(states, steps) && i < |states|
    ensures GlobalInv(states[i])
  {
    if i == 0 {
      InitialInv();
    } else {
      RunInv(states, steps, i - 1);
      assert Follows(states[i - 1], steps[i - 1], states[i]);
      StepKeeps(states[i - 1], steps[i - 1]);
    }
  }

  lemma ReachableInv(s: State)
    requires Reachable(s)
    ensures GlobalInv(s)
  {
    var states, steps :| Run(states, steps) && states[|steps|] == s;
    RunInv(states, steps, |steps|);
  }

  // ---------------------------------------------------------------- the fence

  /** While a barrier of a draft is outstanding, no turn can be reserved for the draft. */
  lemma FenceHolds(s: State, b: nat, onlyIfIdle: bool)
    requires Reachable(s) && b < |s.barriers| && Outstanding(s.barriers[b])
    ensures Shaped(s) && !CanReserve(s, s.barriers[b].draft, onlyIfIdle)
  {
    ReachableInv(s);
    var d := s.barriers[b].draft;
    if !s.closed {
      assert b in OutstandingFor(s.barriers, d);
      assert Leases(s, d) == |OutstandingFor(s.barriers, d)|;
    }
  }

  /** However barriers nest and end, a registered worker is canceling exactly while some
      barrier of its draft is outstanding. */
  lemma CancelingExactlyWhileFenced(s: State, d: Draft)
    requires Reachable(s) && d in s.registry
    ensures Shaped(s)
    ensures s.workers[s.registry[d]].canceling <==>
      exists b: nat :: b < |s.barriers| && s.barriers[b].draft == d && Outstanding(s.barriers[b])
  {
    ReachableInv(s);
    var fence := OutstandingFor(s.barriers, d);
    assert Leases(s, d) == |fence|;
    if fence != {} {
      var b :| b in fence;
      assert b < |s.barriers| && s.barriers[b].draft == d && Outstanding(s.barriers[b]);
    }
    forall b: nat | b < |s.barriers| && s.barriers[b].draft == d && Outstanding(s.barriers[b])
      ensures fence != {}
    {
      assert b in fence;
    }
  }

  /** A draft gets a new worker only once every worker it abandoned is retired, its channel
      empty and its producers gone, so nothing can ever enter the channel again. */
  lemma FreshWorkerAfterDrain(s: State, d: Draft, onlyIfIdle: bool, i: WorkerId)
    requires Reachable(s) && Shaped(s) && CanReserve(s, d, onlyIfIdle) && d !in s.registry
    requires i < |s.workers| && s.drafts[i] == d
    ensures s.workers[i].retired && Empty(s.workers[i])
  {
    ReachableInv(s);
    assert !Registered(s, i);
    NoLeaseNoBarrier(s, d);
    assert !HasDrainer(s.barriers, i);
  }

  /** The worker step that a step of the queue takes on worker `k`, if any. */
  function OpOn(s: State, step: Step, k: WorkerId): Option<Op>
    requires Shaped(s) && TurnQueueModel.Enabled(s, step)
  {
    match step
    case Enqueue(d, idle) => if d in s.registry && k == s.registry[d] then Some(Reserve(idle)) else None
    case Local(i, op) => if k == i then Some(op) else None
    case Begin(d) => if d in s.registry && k == s.registry[d] then Some(BeginCancel) else None
    case Abandon(b) =>
      if RefersToWorker(s, s.barriers[b]) && k == s.barriers[b].worker.value then Some(Seal) else None
    case Unfence(b) =>
      if Leases(s, s.barriers[b].draft) <= 1 && !s.barriers[b].phase.abandoned
         && RefersToWorker(s, s.barriers[b]) && k == s.barriers[b].worker.value
      then Some(Reopen) else None
    case CloseSeal(i) => if k == i then Some(Seal) else None
    case _ => None
  }

  /** What one step does to one worker. */
  ghost predicate ActsOn(s: State, s': State, op: Option<Op>, k: WorkerId)
    requires k < |s.workers|
  {
    && k < |s'.workers|
    && match op
       case None => s'.workers[k] == s.workers[k]
       case Some(op) =>
         DraftWorkers.Enabled(s.workers[k], op, s.ctxDone)
         && s'.workers[k] == DraftWorkers.Do(s.workers[k], op, s.ctxDone)
  }

  lemma OnWorkerActs(s: State, s0: State, i: WorkerId, op: Op, k: WorkerId)
    requires k < |s.workers| && i < |s0.workers| && DraftWorkers.Enabled(s0.workers[i], op, s0.ctxDone)
    requires s0.ctxDone == s.ctxDone && |s0.workers| >= |s.workers| && s0.workers[k] == s.workers[k]
    ensures ActsOn(s, OnWorker(s0, i, op), if k == i then Some(op) else None, k)
  {
  }

  lemma UnfenceOnWorker(s: State, b: nat, k: WorkerId)
    requires Shaped(s) && TurnQueueModel.Enabled(s, Unfence(b)) && k < |s.workers|
    ensures ActsOn(s, DoUnfence(s, b), OpOn(s, Unfence(b), k), k)
  {
    var barrier := s.barriers[b];
    if Leases(s, barrier.draft) <= 1 && !barrier.phase.abandoned && RefersToWorker(s, barrier) {
      var s0 := SetPhase(s, b, Done).(leases := s.leases - {barrier.draft});
      OnWorkerActs(s, s0, barrier.worker.value, Reopen, k);
    }
  }

  lemma BarrierStepOnWorker(s: State, step: Step, k: WorkerId)
    requires Shaped(s) && TurnQueueModel.Enabled(s, step) && k < |s.workers|
    requires !step.Enqueue? && !step.Local? && !step.CloseSeal?
    ensures ActsOn(s, TurnQueueModel.Do(s, step), OpOn(s, step, k), k)
  {
    match step
    case Begin(d) =>
      if d in s.registry {
        OnWorkerActs(s, s.(leases := s.leases[d := Leases(s, d) + 1]), s.registry[d], BeginCancel, k);
      }
    case Abandon(b) =>
      if RefersToWorker(s, s.barriers[b]) {
        var s0 := SetPhase(s, b, AwaitProducers).(registry := s.registry - {s.barriers[b].draft});
        OnWorkerActs(s, s0, s.barriers[b].worker.value, Seal, k);
      }
    case Unfence(b) => UnfenceOnWorker(s, b, k);
    case _ =>
  }

  lemma StepOnWorker(s: State, step: Step, k: WorkerId)
    requires Shaped(s) && TurnQueueModel.Enabled(s, step) && k < |s.workers|
    ensures ActsOn(s, TurnQueueModel.Do(s, step), OpOn(s, step, k), k)
  {
    match step
    case Enqueue(d, idle) =>
      var s0 := WithWorker(s, d);
      OnWorkerActs(s, s0, s0.registry[d], Reserve(idle), k);
    case Local(i, op) => OnWorkerActs(s, s, i, op, k);
    case CloseSeal(i) => OnWorkerActs(s, s, i, Seal, k);
    case _ => BarrierStepOnWorker(s, step, k);
  }

  lemma RetiredStays(w: Worker, op: Op, ctxDone: bool)
    requires w.retired && DraftWorkers.Enabled(w, op, ctxDone)
    ensures var w' := DraftWorkers.Do(w, op, ctxDone); w'.retired && w'.runs == w.runs
  {
  }

  /** Worker `k` was retired in `s`, and in `s'` it has run nothing more. */
  ghost predicate RetiredSince(s: State, s': State, k: WorkerId) {
    && k < |s.workers| && k < |s'.workers| && s.workers[k].retired && s'.workers[k].retired
    && s'.workers[k].runs == s.workers[k].runs
  }

  lemma RetiredStaysInStep(s: State, step: Step, k: WorkerId)
    requires Shaped(s) && TurnQueueModel.Enabled(s, step) && RetiredSince(s, s, k)
    ensures RetiredSince(s, TurnQueueModel.Do(s, step), k)
  {
    StepOnWorker(s, step, k);
    var op := OpOn(s, step, k);
    if op.Some? {
      RetiredStays(s.workers[k], op.value, s.ctxDone);
    }
  }

  lemma RetiredAcross(states: seq<State>, steps: seq<Step>, i: nat, k: WorkerId)
    requires Run(states, steps) && i < |steps| && RetiredSince(states[i], states[i], k)
    ensures RetiredSince(states[i], states[i + 1], k)
  {
    assert Follows(states[i], steps[i], states[i + 1]);
    RetiredStaysInStep(states[i], steps[i], k);
  }

  /** What a step keeps, several steps keep. */
  lemma {:induction false} RetiredAlong(states: seq<State>, i: nat, j: nat, k: WorkerId)
    requires i <= j < |states| && RetiredSince(states[i], states[i], k)
    requires forall n :: i <= n < j && RetiredSince(states[n], states[n], k) ==> RetiredSince(states[n], states[n + 1], k)
    ensures RetiredSince(states[i], states[j], k)
  {
    if i < j {
      RetiredAlong(states, i, j - 1, k);
      assert RetiredSince(states[j - 1], states[j - 1], k);
    }
  }

  /** A retired worker never calls the runner again: the decision, taken with the worker's
      mutex held, is no longer made from then on in any run. */
  lemma RetiredNeverRuns(states: seq<State>, steps: seq<Step>, i: nat, j: nat, k: WorkerId)
    requires Run(states, steps) && i <= j < |states|
    requires k < |states[i].workers| && states[i].workers[k].retired
    ensures RetiredSince(states[i], states[j], k)
  {
    forall n | i <= n < j && RetiredSince(states[n], states[n], k) ensures RetiredSince(states[n], states[n + 1], k) {
      RetiredAcross(states, steps, n, k);
    }
    RetiredAlong(states, i, j, k);
  }

  // ---------------------------------------------------------------- slots

  ghost function Below(n: nat): set<Ticket> { if n == 0 then {} else Below(n - 1) + {n - 1} }

  lemma {:induction false} BelowSize(n: nat)
    ensures |Below(n)| == n
    ensures forall t: Ticket :: t in Below(n) <==> t < n
  {
    if n > 0 {
      BelowSize(n - 1);
    }
  }

  /** Every slot ever reserved is pending or released, never both, and is released once;
      `pendingCount` counts the pending ones, wherever they are; the drain channel is closed
      exactly when there are none, and nothing is ever closed twice. */
  lemma SlotConservation(s: State, i: WorkerId)
    requires Reachable(s) && i < |s.workers|
    ensures
      var w := s.workers[i];
      && w.pendingCount == |w.producers| + |w.queue| + |w.leaving| + (if Busy(w.phase) then 1 else 0)
      && w.pendingCount + |w.released| == w.issued
      && Pending(w) !! w.released && Pending(w) + w.released == Below(w.issued)
      && (w.drained in w.closed <==> w.pendingCount == 0)
      && !w.panicked
  {
    ReachableInv(s);
    var w := s.workers[i];
    assert Inv(w, s.ctxDone);
    PlacesDisjoint(w);
    CoveredIsExact(w, s.ctxDone);
    PendingAndReleased(w, s.ctxDone);
  }

  lemma PendingAndReleased(w: Worker, ctxDone: bool)
    requires Inv(w, ctxDone)
    ensures Pending(w) !! w.released && Pending(w) + w.released == Below(w.issued)
    ensures |Pending(w)| + |w.released| == w.issued
  {
    PlacesDisjoint(w);
    BelowSize(w.issued);
    forall t: Ticket ensures t in Pending(w) + w.released <==> t in Below(w.issued) {
      assert Places(w, t) == (if t < w.issued then 1 else 0);
    }
    assert Pending(w) + w.released == Below(w.issued);
    UnionSize(Pending(w), w.released);
  }

  lemma UnionSize(a: set<Ticket>, b: set<Ticket>)
    requires a !! b
    ensures |a + b| == |a| + |b|
  {
  }

  /** The runner is called at most once for a slot, and only for slots that left the channel;
      a turn running behind the fence runs on a cancelled context. */
  lemma RunnerCalledAtMostOnce(s: State, i: WorkerId)
    requires Reachable(s) && i < |s.workers|
    ensures
      var w := s.workers[i];
      && NoDup(w.runs)
      && (forall t :: t in w.runs ==> t !in w.producers && t !in w.queue && t !in w.leaving)
      && (w.phase.Running? && (w.canceling || w.retired) ==> w.phase.cancelled || s.ctxDone)
  {
    ReachableInv(s);
    var w := s.workers[i];
    assert Inv(w, s.ctxDone);
    forall t | t in w.runs ensures t !in w.producers && t !in w.queue && t !in w.leaving {
      assert Places(w, t) <= 1;
    }
  }

  /** Nothing is pending exactly when every slot has been released. */
  lemma NothingPending(w: Worker, ctxDone: bool)
    requires Inv(w, ctxDone)
    ensures w.drained in w.closed <==> (forall t: Ticket :: t < w.issued ==> t in w.released)
  {
    CoveredIsExact(w, ctxDone);
    PendingAndReleased(w, ctxDone);
    BelowSize(w.issued);
    if forall t: Ticket :: t < w.issued ==> t in w.released {
      assert Pending(w) == {};
    } else if w.pendingCount == 0 {
      assert Pending(w) == {} && w.released == Below(w.issued);
    }
  }

  /** Wait returns exactly when every slot accepted before the barrier has been released. */
  lemma BarrierWaitsForAll(s: State, b: nat)
    requires Reachable(s) && b < |s.barriers| && Outstanding(s.barriers[b])
    requires s.barriers[b].worker.Some?
    ensures s.barriers[b].worker.value < |s.workers|
    ensures
      var w := s.workers[s.barriers[b].worker.value];
      s.barriers[b].done in w.closed <==> (forall t: Ticket :: t < w.issued ==> t in w.released)
  {
    ReachableInv(s);
    assert BarrierOk(s, s.barriers[b]);
    NothingPending(s.workers[s.barriers[b].worker.value], s.ctxDone);
  }

  // ---------------------------------------------------------------- the count

  /** The number a new barrier reports is exactly the number of slots accepted for the draft
      that have no durable terminal yet. */
  lemma CancellationCountIsExact(s: State, d: Draft)
    requires Reachable(s) && Shaped(s) && TurnQueueModel.Enabled(s, Begin(d))
    ensures
      var s' := TurnQueueModel.Do(s, Begin(d));
      var b := s'.barriers[|s.barriers|];
      && |s'.barriers| == |s.barriers| + 1 && b.covered == |b.counted|
      && b.counted == (if d in s.registry then
                         var w := s.workers[s.registry[d]]; Pending(w) - w.finished
                       else {})
  {
    ReachableInv(s);
    if d in s.registry {
      CoveredIsExact(s.workers[s.registry[d]], s.ctxDone);
    }
  }

  /** A caller releases a barrier only after Wait returned true, or at shutdown. */
  predicate Waited(s: State, b: nat)
    requires Shaped(s) && b < |s.barriers|
  {
    s.barriers[b].worker.Some? && !s.ctxDone ==>
      s.barriers[b].done in s.workers[s.barriers[b].worker.value].closed
  }

  ghost predicate DisciplinedRun(states: seq<State>, steps: seq<Step>) {
    && Run(states, steps)
    && forall i :: 0 <= i < |steps| && steps[i].Release? ==>
         Follows(states[i], steps[i], states[i + 1]) && Waited(states[i], steps[i].barrier)
  }

  /** None of the counted slots is finished, nor can it still become so. */
  ghost predicate CountedOn(w: Worker, counted: set<Ticket>, ctxDone: bool) {
    forall t :: t in counted ==>
      && t !in w.finished
      && (t in w.released || (t < w.issued && (w.canceling || w.retired || ctxDone)))
  }

  ghost predicate CountedOk(s: State, b: Barrier)
    requires Shaped(s) && (b.worker.Some? ==> b.worker.value < |s.workers|)
  {
    b.worker.Some? ==>
      var w := s.workers[b.worker.value];
      && CountedOn(w, b.counted, s.ctxDone)
      && (b.phase == Unfencing(false) && !s.ctxDone ==> b.done in w.closed)
  }

  ghost predicate CountedSafe(s: State)
    requires Shaped(s)
  {
    forall b :: 0 <= b < |s.barriers| ==> CountedOk(s, s.barriers[b])
  }

  lemma WorkerKeepsCounted(w: Worker, op: Op, ctxDone: bool, counted: set<Ticket>)
    requires Inv(w, ctxDone) && DraftWorkers.Enabled(w, op, ctxDone)
    requires CountedOn(w, counted, ctxDone)
    requires op.Reopen? ==> w.pendingCount == 0 || ctxDone
    ensures CountedOn(DraftWorkers.Do(w, op, ctxDone), counted, ctxDone)
  {
    if op.Commit? && op.applied {
      assert Places(w, w.phase.ticket) <= 1;
    }
    if op.Reopen? && !ctxDone {
      AllReleased(w, ctxDone, counted);
    }
  }

  lemma ClosedGrows(w: Worker, op: Op, ctxDone: bool)
    requires DraftWorkers.Enabled(w, op, ctxDone)
    ensures w.closed <= DraftWorkers.Do(w, op, ctxDone).closed
  {
  }

  lemma AllReleased(w: Worker, ctxDone: bool, counted: set<Ticket>)
    requires Inv(w, ctxDone) && w.pendingCount == 0 && forall t :: t in counted ==> t < w.issued || t in w.released
    ensures forall t :: t in counted ==> t in w.released
  {
    CoveredIsExact(w, ctxDone);
    forall t | t in counted ensures t in w.released {
      assert Places(w, t) == (if t < w.issued then 1 else 0);
      assert t !in Pending(w);
    }
  }

  /** The reopening of a worker comes from a barrier whose owner waited. */
  lemma ReopenOnlyWhenDrained(s: State, step: Step, i: WorkerId)
    requires GlobalInv(s) && CountedSafe(s) && TurnQueueModel.Enabled(s, step)
    requires i < |s.workers| && OpOn(s, step, i) == Some(Reopen)
    ensures s.workers[i].pendingCount == 0 || s.ctxDone
  {
    if step.Unfence? {
      var b := s.barriers[step.barrier];
      assert BarrierOk(s, b) && CountedOk(s, b);
      assert b.worker == Some(i) && Inv(s.workers[i], s.ctxDone);
    }
  }

  /** What a step leaves of a barrier: only its phase moves, not back from the end, and only
      Release starts a reopening. */
  ghost predicate Evolves(b: Barrier, b': Barrier, released: bool) {
    && b' == b.(phase := b'.phase) && (b.phase == Done ==> b'.phase == Done)
    && (b'.phase == Unfencing(false) ==> b.phase == Unfencing(false) || released)
  }

  lemma BarrierEvolves(s: State, step: Step, b: nat)
    requires Shaped(s) && TurnQueueModel.Enabled(s, step) && b < |s.barriers|
    ensures var s' := TurnQueueModel.Do(s, step);
      b < |s'.barriers| && Evolves(s.barriers[b], s'.barriers[b], step == Release(b))
  {
    if step.Begin? {
      BeginEvolves(s, step.draft, b);
    } else if step.Unfence? {
      UnfenceEvolves(s, step.barrier, b);
    }
  }

  lemma BeginEvolves(s: State, d: Draft, b: nat)
    requires Shaped(s) && TurnQueueModel.Enabled(s, Begin(d)) && b < |s.barriers|
    ensures var s' := TurnQueueModel.Do(s, Begin(d));
      b < |s'.barriers| && Evolves(s.barriers[b], s'.barriers[b], false)
  {
  }

  lemma UnfenceEvolves(s: State, barrier: nat, b: nat)
    requires Shaped(s) && TurnQueueModel.Enabled(s, Unfence(barrier)) && b < |s.barriers|
    ensures var s' := TurnQueueModel.Do(s, Unfence(barrier));
      b < |s'.barriers| && Evolves(s.barriers[b], s'.barriers[b], false)
  {
  }

  lemma StepKeepsCounted(s: State, step: Step, s': State, b: nat)
    requires GlobalInv(s) && CountedSafe(s) && Shaped(s') && b < |s.barriers| && b < |s'.barriers|
    requires TurnQueueModel.Enabled(s, step)
    requires forall k :: 0 <= k < |s.workers| ==> ActsOn(s, s', OpOn(s, step, k), k)
    requires Evolves(s.barriers[b], s'.barriers[b], step == Release(b))
    requires step == Release(b) ==> Waited(s, b)
    requires s'.ctxDone == (s.ctxDone || step.CancelContext? || step.Close?)
    ensures CountedOk(s', s'.barriers[b])
  {
    assert CountedOk(s, s.barriers[b]);
    if s.barriers[b].worker.Some? {
      var i := s.barriers[b].worker.value;
      var op := OpOn(s, step, i);
      assert ActsOn(s, s', op, i);
      if op.Some? {
        if op.value == Reopen { ReopenOnlyWhenDrained(s, step, i); }
        WorkerKeepsCounted(s.workers[i], op.value, s.ctxDone, s.barriers[b].counted);
        ClosedGrows(s.workers[i], op.value, s.ctxDone);
      }
    }
  }

  /** A cancellation counts unfinished slots, and cancels the running one. */
  lemma CancelCounts(w: Worker, ctxDone: bool)
    requires Inv(w, ctxDone)
    ensures CountedOn(DraftWorkers.Do(w, BeginCancel, ctxDone), Pending(w) - w.finished, ctxDone)
  {
    forall t | t in Pending(w) ensures t < w.issued {
      assert Places(w, t) == (if t < w.issued then 1 else 0);
    }
  }

  lemma BeginCounts(s: State, d: Draft)
    requires GlobalInv(s) && TurnQueueModel.Enabled(s, Begin(d)) && Shaped(DoBegin(s, d))
    ensures var s' := DoBegin(s, d);
      |s'.barriers| == |s.barriers| + 1 && CountedOk(s', s'.barriers[|s.barriers|])
  {
    if d in s.registry {
      CancelCounts(s.workers[s.registry[d]], s.ctxDone);
    }
  }

  lemma NewBarriers(s: State, step: Step)
    requires Shaped(s) && TurnQueueModel.Enabled(s, step)
    ensures var s' := TurnQueueModel.Do(s, step);
      && |s'.barriers| == |s.barriers| + (if step.Begin? then 1 else 0)
      && s'.ctxDone == (s.ctxDone || step.CancelContext? || step.Close?)
  {
  }

  lemma KeepsCounted(s: State, step: Step)
    requires GlobalInv(s) && CountedSafe(s) && TurnQueueModel.Enabled(s, step)
    requires step.Release? ==> Waited(s, step.barrier)
    ensures Shaped(TurnQueueModel.Do(s, step)) && CountedSafe(TurnQueueModel.Do(s, step))
  {
    StepKeeps(s, step);
    NewBarriers(s, step);
    var s' := TurnQueueModel.Do(s, step);
    forall k | 0 <= k < |s.workers| ensures ActsOn(s, s', OpOn(s, step, k), k) {
      StepOnWorker(s, step, k);
    }
    forall b | 0 <= b < |s'.barriers| ensures CountedOk(s', s'.barriers[b]) {
      if b < |s.barriers| {
        BarrierEvolves(s, step, b);
        StepKeepsCounted(s, step, s', b);
      } else {
        BeginCounts(s, step.draft);
      }
    }
  }

  ghost predicate Counts(s: State) { GlobalInv(s) && CountedSafe(s) }

  lemma DisciplinedStep(states: seq<State>, steps: seq<Step>, i: nat)
    requires DisciplinedRun(states, steps) && i < |steps| && Counts(states[i])
    ensures Counts(states[i + 1])
  {
    assert Follows(states[i], steps[i], states[i + 1]);
    KeepsCounted(states[i], steps[i]);
    StepKeeps(states[i], steps[i]);
  }

  lemma {:induction false} CountsAlong(states: seq<State>, i: nat)
    requires i < |states| && Counts(states[0])
    requires forall n :: 0 <= n < |states| - 1 && Counts(states[n]) ==> Counts(states[n + 1])
    ensures Counts(states[i])
  {
    if i > 0 {
      CountsAlong(states, i - 1);
    }
  }

  lemma DisciplinedCounts(states: seq<State>, steps: seq<Step>, i: nat)
    requires DisciplinedRun(states, steps) && i < |states|
    ensures Shaped(states[i]) && CountedSafe(states[i])
  {
    InitialInv();
    forall n | 0 <= n < |states| - 1 && Counts(states[n]) ensures Counts(states[n + 1]) {
      DisciplinedStep(states, steps, n);
    }
    CountsAlong(states, i);
  }

  /** If owners release only after waiting, no turn is ever both counted by a cancellation
      and durably finished: not before the barrier, and not at any time after it. */
  lemma CountedTurnsNeverFinish(states: seq<State>, steps: seq<Step>, i: nat, b: nat)
    requires DisciplinedRun(states, steps) && i < |states| && b < |states[i].barriers|
    requires states[i].barriers[b].worker.Some?
    ensures states[i].barriers[b].worker.value < |states[i].workers|
    ensures states[i].barriers[b].counted !! states[i].workers[states[i].barriers[b].worker.value].finished
  {
    DisciplinedCounts(states, steps, i);
    assert CountedOk(states[i], states[i].barriers[b]);
  }

  /** The states of a run that releases its barrier at once; `k` numbers them. */
  ghost function EarlyState(k: nat): State
    requires k <= 8
  {
    var w1 := NEW_WORKER.(drained := 1, producers := {0}, pendingCount := 1, issued := 1);
    var w2 := w1.(producers := {}, queue := [0]);
    var w3 := w2.(canceling := true);
    var w6 := w2.(queue := [], phase := Taken(0));
    var w7 := w6.(phase := Running(0, true, false, false), runs := [0]);
    var w8 := w7.(phase := Running(0, true, false, true), finished := {0});
    var w := match k
      case 0 => NEW_WORKER case 1 => w1 case 2 => w2 case 3 => w3 case 4 => w3
      case 5 => w2 case 6 => w6 case 7 => w7 case _ => w8;
    var phase := match k case 3 => Held case 4 => Unfencing(false) case _ => BarrierPhase.Done;
    if k == 0 then INITIAL
    else State(false, false, map["d" := 0], if k == 3 || k == 4 then map["d" := 1] else map[], [w],
               ["d"], if k < 3 then [] else [Barrier("d", Some(0), 1, 1, {0}, phase)])
  }

  function EarlyStep(k: nat): Step
    requires k < 8
  {
    match k
    case 0 => Enqueue("d", false) case 1 => Local(0, Send(0)) case 2 => Begin("d")
    case 3 => Release(0) case 4 => Unfence(0) case 5 => Local(0, Receive)
    case 6 => Local(0, Start) case _ => Local(0, Commit(true, true))
  }

  lemma EarlyAccepts()
    ensures Follows(EarlyState(0), EarlyStep(0), EarlyState(1))
    ensures Follows(EarlyState(1), EarlyStep(1), EarlyState(2))
  {
    assert TurnQueueModel.Do(EarlyState(0), EarlyStep(0)).workers == EarlyState(1).workers by {
      assert NEW_WORKER.producers + {0} == {0};
    }
    var w := EarlyState(1).workers[0];
    assert w.producers - {0} == {} && w.queue + [0] == [0];
  }

  lemma EarlyCount(w: Worker)
    requires w == EarlyState(2).workers[0]
    ensures Pending(w) - w.finished == {0} && Covered(w) == 1 && w.drained == 1
    ensures DraftWorkers.Do(w, BeginCancel, false) == EarlyState(3).workers[0]
  {
    assert Queued(w) == {0};
  }

  lemma EarlyCancels()
    ensures Follows(EarlyState(2), EarlyStep(2), EarlyState(3))
  {
    var s, s' := EarlyState(2), EarlyState(3);
    EarlyCount(s.workers[0]);
    CancellingIs(s, "d", s.workers[0], s'.workers[0]);
    assert DoBegin(s, "d").barriers == s'.barriers && s.leases["d" := 1] == s'.leases;
    assert s.workers[0 := s'.workers[0]] == s'.workers;
  }

  lemma EarlyBeginsRelease()
    ensures Follows(EarlyState(3), EarlyStep(3), EarlyState(4))
  {
    assert TurnQueueModel.Do(EarlyState(3), EarlyStep(3)).barriers == EarlyState(4).barriers;
  }

  lemma EarlyReleases()
    ensures Follows(EarlyState(4), EarlyStep(4), EarlyState(5))
  {
    var s := EarlyState(4);
    ReopeningIs(s, 0, EarlyState(5).workers[0]);
    assert s.leases - {"d"} == map[] && SetPhase(s, 0, Done).barriers == EarlyState(5).barriers;
    assert s.workers[0 := EarlyState(5).workers[0]] == EarlyState(5).workers;
  }

  lemma EarlyReceives()
    ensures Follows(EarlyState(5), EarlyStep(5), EarlyState(6))
  {
    assert EarlyState(5).workers[0].queue[1..] == EarlyState(6).workers[0].queue;
  }

  lemma EarlyStarts()
    ensures Follows(EarlyState(6), EarlyStep(6), EarlyState(7))
  {
    assert EarlyState(6).workers[0].runs + [0] == EarlyState(7).workers[0].runs;
  }

  lemma EarlyCommits()
    ensures Follows(EarlyState(7), EarlyStep(7), EarlyState(8))
  {
    assert EarlyState(7).workers[0].finished + {0} == EarlyState(8).workers[0].finished;
  }

  lemma EarlyFollows(k: nat)
    requires k < 8
    ensures Follows(EarlyState(k), EarlyStep(k), EarlyState(k + 1))
  {
    if k < 2 { EarlyAccepts(); }
    else if k == 2 { EarlyCancels(); }
    else if k == 3 { EarlyBeginsRelease(); }
    else if k == 4 { EarlyReleases(); }
    else if k == 5 { EarlyReceives(); }
    else if k == 6 { EarlyStarts(); }
    else { EarlyCommits(); }
  }

  /** Without that discipline the promise fails: a barrier released at once lets the slot it
      counted run to a durable end. */
  lemma EarlyReleaseBreaksCount()
    ensures exists states: seq<State>, steps: seq<Step> ::
      && Run(states, steps) && |states[|steps|].barriers| == 1 && |states[|steps|].workers| == 1
      && 0 in states[|steps|].barriers[0].counted && 0 in states[|steps|].workers[0].finished
  {
    var states := seq(9, k requires 0 <= k < 9 => EarlyState(k));
    var steps := seq(8, k requires 0 <= k < 8 => EarlyStep(k));
    forall i | 0 <= i < |steps| ensures Follows(states[i], steps[i], states[i + 1]) {
      EarlyFollows(i);
    }
    assert Run(states, steps);
    assert states[|steps|] == EarlyState(8);
  }
}
