/**
 * What a caller gives up that releases the last barrier of a draft without waiting: which of
 * the counted turns can still come to a durable end.
 */
module UnwaitedRelease {
  import opened Basics
  import opened DraftWorkers
  import opened TurnQueueModel
  import opened TurnQueueSafety

  // ---------------------------------------------------------------- what can happen from here on

  /** A run that starts in any state. */
  ghost predicate Path(states: seq<State>, steps: seq<Step>) {
    |states| == |steps| + 1 && forall i :: 0 <= i < |steps| ==> Follows(states[i], steps[i], states[i + 1])
  }

  ghost predicate Leads(states: seq<State>, steps: seq<Step>, i: WorkerId, t: Ticket) {
    && Path(states, steps)
    && i < |states[|steps|].workers| && t in states[|steps|].workers[i].finished
  }

  /** Some run from `s` brings slot `t` of worker `i` to a durable end. */
  ghost predicate CanFinish(s: State, i: WorkerId, t: Ticket) {
    exists states, steps :: Leads(states, steps, i, t) && states[0] == s
  }

  /** The slot has been accepted, but its turn has not started. */
  predicate NotStarted(w: Worker, t: Ticket) {
    t in w.producers || t in w.queue || w.phase == Taken(t)
  }

  // ---------------------------------------------------------------- a slot that cannot finish

  /** The turn has been given up, dropped, cancelled or released. */
  predicate Over(w: Worker, t: Ticket) {
    && t !in w.finished
    && (t in w.released || t in w.leaving || w.phase == Dropping(t)
        || (w.phase.Running? && w.phase.ticket == t && w.phase.cancelled))
  }

  lemma OverStays(w: Worker, op: Op, ctxDone: bool, t: Ticket)
    requires Inv(w, ctxDone) && DraftWorkers.Enabled(w, op, ctxDone) && Over(w, t)
    ensures Over(DraftWorkers.Do(w, op, ctxDone), t)
  {
    assert Places(w, t) == if t < w.issued then 1 else 0;
  }

  lemma OverStaysInStep(s: State, step: Step, k: WorkerId, t: Ticket)
    requires GlobalInv(s) && TurnQueueModel.Enabled(s, step) && k < |s.workers| && Over(s.workers[k], t)
    ensures var s' := TurnQueueModel.Do(s, step); GlobalInv(s') && k < |s'.workers| && Over(s'.workers[k], t)
  {
    StepKeeps(s, step);
    StepOnWorker(s, step, k);
    var op := OpOn(s, step, k);
    if op.Some? {
      assert Inv(s.workers[k], s.ctxDone);
      OverStays(s.workers[k], op.value, s.ctxDone, t);
    }
  }

  ghost predicate OverIn(s: State, k: WorkerId, t: Ticket) {
    GlobalInv(s) && k < |s.workers| && Over(s.workers[k], t)
  }

  lemma {:induction false} OverForGood(states: seq<State>, i: nat, k: WorkerId, t: Ticket)
    requires i < |states| && OverIn(states[0], k, t)
    requires forall n :: 0 <= n < |states| - 1 && OverIn(states[n], k, t) ==> OverIn(states[n + 1], k, t)
    ensures OverIn(states[i], k, t)
  {
    if i > 0 {
      OverForGood(states, i - 1, k, t);
    }
  }

  lemma OverNeverFinishes(s: State, k: WorkerId, t: Ticket)
    requires OverIn(s, k, t)
    ensures !CanFinish(s, k, t)
  {
    if states, steps :| Leads(states, steps, k, t) && states[0] == s {
      forall n | 0 <= n < |steps| && OverIn(states[n], k, t) ensures OverIn(states[n + 1], k, t) {
        assert Follows(states[n], steps[n], states[n + 1]);
        OverStaysInStep(states[n], steps[n], k, t);
      }
      OverForGood(states, |steps|, k, t);
    }
  }

  // ---------------------------------------------------------------- a slot that can

  /** The worker goroutine is at work, unless the context has ended or the worker is retired. */
  predicate Serving(w: Worker, ctxDone: bool) {
    && (w.phase.Flushing? || w.phase.Dropping? ==> ctxDone)
    && (w.phase.Exited? ==> ctxDone || w.retired)
  }

  lemma ServingStays(w: Worker, op: Op, ctxDone: bool)
    requires DraftWorkers.Enabled(w, op, ctxDone) && Serving(w, ctxDone)
    ensures Serving(DraftWorkers.Do(w, op, ctxDone), ctxDone)
  {
  }

  ghost predicate AllServing(s: State) {
    forall k :: 0 <= k < |s.workers| ==> Serving(s.workers[k], s.ctxDone)
  }

  lemma NewWorkers(s: State, step: Step)
    requires Shaped(s) && TurnQueueModel.Enabled(s, step)
    ensures var s' := TurnQueueModel.Do(s, step);
      && (s.ctxDone ==> s'.ctxDone)
      && forall k :: |s.workers| <= k < |s'.workers| ==> s'.workers[k].phase.Waiting?
  {
  }

  lemma ServingStaysInStep(s: State, step: Step)
    requires AllServing(s) && Shaped(s) && TurnQueueModel.Enabled(s, step)
    ensures AllServing(TurnQueueModel.Do(s, step))
  {
    var s' := TurnQueueModel.Do(s, step);
    NewWorkers(s, step);
    forall k | 0 <= k < |s'.workers| ensures Serving(s'.workers[k], s'.ctxDone) {
      if k < |s.workers| {
        StepOnWorker(s, step, k);
        var op := OpOn(s, step, k);
        if op.Some? { ServingStays(s.workers[k], op.value, s.ctxDone); }
      }
    }
  }

  lemma {:induction false} ServingInRun(states: seq<State>, steps: seq<Step>, i: nat)
    requires Run(states, steps) && i < |states|
    ensures AllServing(states[i])
  {
    if i > 0 {
      ServingInRun(states, steps, i - 1);
      assert Follows(states[i - 1], steps[i - 1], states[i]);
      ServingStaysInStep(states[i - 1], steps[i - 1]);
    }
  }

  lemma ReachableServing(s: State)
    requires Reachable(s)
    ensures AllServing(s)
  {
    var states, steps :| Run(states, steps) && states[|steps|] == s;
    ServingInRun(states, steps, |steps|);
  }

  /** The slot's turn can be on its way to a durable end. */
  predicate OnItsWay(w: Worker, t: Ticket) {
    && !w.retired && !w.canceling
    && (w.phase.Waiting? || w.phase.Taken? || w.phase.Running?)
    && (NotStarted(w, t) || (w.phase.Running? && w.phase.ticket == t && w.phase.runnerCalled && !w.phase.cancelled))
  }

  function Rank(p: Phase): nat { if p.Taken? then 2 else if p.Running? then 1 else 0 }

  /** What the worker or the producer does next to bring the slot on. */
  function NextOp(w: Worker, t: Ticket): Op {
    match w.phase
    case Taken(_) => Start
    case Running(u, called, cancelled, _) => if u == t && called && !cancelled then Commit(true, true) else Finish
    case _ => if t in w.producers && |w.queue| < QUEUE_CAPACITY then Send(t) else Receive
  }

  lemma NextOpHelps(w: Worker, t: Ticket)
    requires OnItsWay(w, t) && t !in w.finished
    ensures IsLocal(NextOp(w, t)) && DraftWorkers.Enabled(w, NextOp(w, t), false) && !NextOp(w, t).DrainTake?
    ensures NextOp(w, t).Commit? ==> NextOp(w, t).fenced
    ensures var w' := DraftWorkers.Do(w, NextOp(w, t), false);
      t in w'.finished || (OnItsWay(w', t) && Closer(w', w, t))
  {
    if NextOp(w, t).Receive? {
      assert w.queue != [] && w.queue == [w.queue[0]] + w.queue[1..];
    }
  }

  predicate Closer(w': Worker, w: Worker, t: Ticket) {
    if t in w'.producers then
      t in w.producers && (|w'.queue| < |w.queue| || (|w'.queue| == |w.queue| && Rank(w'.phase) < Rank(w.phase)))
    else
      t in w.producers || |w'.queue| < |w.queue| || (|w'.queue| == |w.queue| && Rank(w'.phase) < Rank(w.phase))
  }

  lemma LocalStep(s: State, i: WorkerId, op: Op)
    requires GlobalInv(s) && i < |s.workers| && Registered(s, i) && !s.ctxDone
    requires IsLocal(op) && DraftWorkers.Enabled(s.workers[i], op, false) && !op.DrainTake? && (op.Commit? ==> op.fenced)
    ensures TurnQueueModel.Enabled(s, Local(i, op))
    ensures var s' := TurnQueueModel.Do(s, Local(i, op));
      && GlobalInv(s') && i < |s'.workers| && Registered(s', i) && !s'.ctxDone
      && s'.workers[i] == DraftWorkers.Do(s.workers[i], op, false)
  {
    StepKeeps(s, Local(i, op));
  }

  lemma Prepend(s: State, step: Step, states: seq<State>, steps: seq<Step>, i: WorkerId, t: Ticket)
    requires Leads(states, steps, i, t) && Follows(s, step, states[0])
    ensures Leads([s] + states, [step] + steps, i, t)
  {
    var all, each := [s] + states, [step] + steps;
    forall n | 0 <= n < |each| ensures Follows(all[n], each[n], all[n + 1]) {
      if n > 0 {
        assert Follows(states[n - 1], steps[n - 1], states[n]);
      }
    }
  }

  lemma FinishesNow(s: State, i: WorkerId, t: Ticket)
    requires i < |s.workers| && t in s.workers[i].finished
    ensures CanFinish(s, i, t)
  {
    assert Leads([s], [], i, t) && [s][0] == s;
  }

  lemma FinishesAfter(s: State, step: Step, i: WorkerId, t: Ticket)
    requires Shaped(s) && TurnQueueModel.Enabled(s, step) && CanFinish(TurnQueueModel.Do(s, step), i, t)
    ensures CanFinish(s, i, t)
  {
    var s' := TurnQueueModel.Do(s, step);
    var states, steps :| Leads(states, steps, i, t) && states[0] == s';
    Prepend(s, step, states, steps, i, t);
    assert ([s] + states)[0] == s;
  }

  /** The producer, the worker and the runner can bring the slot to a durable end by themselves. */
  lemma {:induction false} WayToTheEnd(s: State, i: WorkerId, t: Ticket, w: Worker)
    requires GlobalInv(s) && i < |s.workers| && Registered(s, i) && !s.ctxDone
    requires w == s.workers[i] && (t in w.finished || OnItsWay(w, t))
    ensures CanFinish(s, i, t)
    decreases if t in w.finished then 0 else 1, t in w.producers, |w.queue|, Rank(w.phase)
  {
    if t in w.finished {
      FinishesNow(s, i, t);
    } else {
      var op := NextOp(w, t);
      NextOpHelps(w, t);
      LocalStep(s, i, op);
      WayToTheEnd(TurnQueueModel.Do(s, Local(i, op)), i, t, DraftWorkers.Do(w, op, false));
      FinishesAfter(s, Local(i, op), i, t);
    }
  }

  // ---------------------------------------------------------------- the last release

  /** The step gives back the last lease of the draft and reopens its worker. */
  predicate LastRelease(s: State, b: nat) {
    && Shaped(s) && b < |s.barriers| && s.barriers[b].phase == Unfencing(false) && !s.ctxDone
    && Leases(s, s.barriers[b].draft) <= 1 && RefersToWorker(s, s.barriers[b])
  }

  lemma Reopened(s: State, b: nat)
    requires GlobalInv(s) && LastRelease(s, b)
    ensures TurnQueueModel.Enabled(s, Unfence(b))
    ensures var s', i := TurnQueueModel.Do(s, Unfence(b)), s.barriers[b].worker.value;
      && GlobalInv(s') && i < |s'.workers| && Registered(s', i) && !s'.ctxDone
      && s'.workers[i] == s.workers[i].(canceling := false) && !s.workers[i].retired
  {
    StepKeeps(s, Unfence(b));
    ReopeningIs(s, b, DraftWorkers.Do(s.workers[s.barriers[b].worker.value], Reopen, s.ctxDone));
  }

  lemma FencedWorker(s: State, b: nat)
    requires GlobalInv(s) && LastRelease(s, b)
    ensures var w := s.workers[s.barriers[b].worker.value]; w.canceling && Inv(w, false)
  {
    var d := s.barriers[b].draft;
    assert b in OutstandingFor(s.barriers, d);
    assert Leases(s, d) == |OutstandingFor(s.barriers, d)|;
  }

  lemma StartedIsOver(w: Worker, t: Ticket)
    requires Inv(w, false) && w.canceling && t < w.issued && t !in w.finished
    ensures NotStarted(w, t) || Over(w, t)
  {
    assert Places(w, t) == 1;
  }

  lemma SlotAfterRelease(s: State, b: nat, t: Ticket)
    requires Reachable(s) && LastRelease(s, b)
    requires var w := s.workers[s.barriers[b].worker.value]; t < w.issued && t !in w.finished
    ensures TurnQueueModel.Enabled(s, Unfence(b))
    ensures var i := s.barriers[b].worker.value;
      CanFinish(TurnQueueModel.Do(s, Unfence(b)), i, t) <==> NotStarted(s.workers[i], t)
  {
    ReachableInv(s);
    ReachableServing(s);
    Reopened(s, b);
    FencedWorker(s, b);
    var i := s.barriers[b].worker.value;
    var w, s' := s.workers[i], TurnQueueModel.Do(s, Unfence(b));
    assert Serving(w, s.ctxDone);
    if NotStarted(w, t) {
      WayToTheEnd(s', i, t, s'.workers[i]);
    } else {
      StartedIsOver(w, t);
      OverNeverFinishes(s', i, t);
    }
  }

  // ---------------------------------------------------------------- the counted slots

  /** As long as the barrier stands, none of the slots it counted is finished. */
  ghost predicate Unfinished(s: State, b: Barrier) {
    Outstanding(b) && b.worker.Some? && b.worker.value < |s.workers| ==>
      CountedOn(s.workers[b.worker.value], b.counted, s.ctxDone)
  }

  ghost predicate AllUnfinished(s: State) { forall b :: 0 <= b < |s.barriers| ==> Unfinished(s, s.barriers[b]) }

  lemma TwoBarriers(s: State, b: nat, c: nat)
    requires LeasesCount(s) && !s.closed && b < |s.barriers| && c < |s.barriers| && b != c
    requires s.barriers[b].draft == s.barriers[c].draft && Outstanding(s.barriers[b]) && Outstanding(s.barriers[c])
    ensures Leases(s, s.barriers[b].draft) >= 2
  {
    var fence := OutstandingFor(s.barriers, s.barriers[b].draft);
    assert Leases(s, s.barriers[b].draft) == |fence|;
    SubsetSize({b, c}, fence);
    assert |{b, c}| == 2;
  }

  /** A worker reopens only when its draft has no other barrier. */
  lemma ReopensAlone(s: State, step: Step, b: nat)
    requires GlobalInv(s) && TurnQueueModel.Enabled(s, step) && b < |s.barriers|
    requires Outstanding(s.barriers[b]) && s.barriers[b].worker.Some?
    requires OpOn(s, step, s.barriers[b].worker.value) == Some(Reopen)
    ensures step == Unfence(b)
  {
    if step.Unfence? && step.barrier != b {
      TwoBarriers(s, b, step.barrier);
    }
  }

  lemma {:induction false} SubsetSize(a: set<nat>, b: set<nat>)
    requires a <= b
    ensures |a| <= |b|
  {
    if x :| x in a {
      SubsetSize(a - {x}, b - {x});
    }
  }

  lemma UnfenceEnds(s: State, b: nat)
    requires Shaped(s) && TurnQueueModel.Enabled(s, Unfence(b))
    ensures var s' := DoUnfence(s, b); b < |s'.barriers| && !Outstanding(s'.barriers[b])
  {
  }

  lemma BarrierStaysUnfinished(s: State, step: Step, s': State, b: nat)
    requires GlobalInv(s) && TurnQueueModel.Enabled(s, step) && b < |s.barriers| && Unfinished(s, s.barriers[b])
    requires b < |s'.barriers| && Evolves(s.barriers[b], s'.barriers[b], step == Release(b))
    requires s.barriers[b].worker.Some? ==>
      ActsOn(s, s', OpOn(s, step, s.barriers[b].worker.value), s.barriers[b].worker.value)
    requires step == Unfence(b) ==> !Outstanding(s'.barriers[b])
    requires s'.ctxDone == (s.ctxDone || step.CancelContext? || step.Close?)
    ensures Unfinished(s', s'.barriers[b])
  {
    if Outstanding(s'.barriers[b]) && s.barriers[b].worker.Some? {
      var i := s.barriers[b].worker.value;
      var op := OpOn(s, step, i);
      if op.Some? {
        if op == Some(Reopen) { ReopensAlone(s, step, b); }
        assert Inv(s.workers[i], s.ctxDone);
        WorkerKeepsCounted(s.workers[i], op.value, s.ctxDone, s.barriers[b].counted);
      }
    }
  }

  lemma StepKeepsUnfinished(s: State, step: Step)
    requires GlobalInv(s) && AllUnfinished(s) && TurnQueueModel.Enabled(s, step)
    ensures AllUnfinished(TurnQueueModel.Do(s, step))
  {
    var s' := TurnQueueModel.Do(s, step);
    StepKeeps(s, step);
    NewBarriers(s, step);
    forall b | 0 <= b < |s'.barriers| ensures Unfinished(s', s'.barriers[b]) {
      if b < |s.barriers| {
        BarrierEvolves(s, step, b);
        if s.barriers[b].worker.Some? { StepOnWorker(s, step, s.barriers[b].worker.value); }
        if step == Unfence(b) { UnfenceEnds(s, b); }
        BarrierStaysUnfinished(s, step, s', b);
      } else {
        BeginCounts(s, step.draft);
      }
    }
  }

  lemma {:induction false} UnfinishedInRun(states: seq<State>, steps: seq<Step>, i: nat)
    requires Run(states, steps) && i < |states|
    ensures AllUnfinished(states[i])
  {
    if i > 0 {
      UnfinishedInRun(states, steps, i - 1);
      RunInv(states, steps, i - 1);
      assert Follows(states[i - 1], steps[i - 1], states[i]);
      StepKeepsUnfinished(states[i - 1], steps[i - 1]);
    }
  }

  /** Whatever other owners do, while a barrier stands none of the turns it counted finishes. */
  lemma CountHoldsWhileFenced(s: State, b: nat)
    requires Reachable(s) && b < |s.barriers| && Outstanding(s.barriers[b]) && s.barriers[b].worker.Some?
    ensures s.barriers[b].worker.value < |s.workers|
    ensures s.barriers[b].counted !! s.workers[s.barriers[b].worker.value].finished
    ensures forall t :: t in s.barriers[b].counted ==> t < s.workers[s.barriers[b].worker.value].issued
  {
    ReachableInv(s);
    var states, steps :| Run(states, steps) && states[|steps|] == s;
    UnfinishedInRun(states, steps, |steps|);
    assert Unfinished(s, s.barriers[b]);
    var w := s.workers[s.barriers[b].worker.value];
    assert Inv(w, s.ctxDone);
    forall t | t in s.barriers[b].counted ensures t < w.issued {
      assert Places(w, t) == if t < w.issued then 1 else 0;
    }
  }

  /** The last release of a draft's barriers, waited for or not: a turn that the barrier counted
      can still come to a durable end exactly if it had not started by then. */
  lemma UnwaitedReleaseIsExact(s: State, b: nat, t: Ticket)
    requires Reachable(s) && LastRelease(s, b) && t in s.barriers[b].counted
    ensures TurnQueueModel.Enabled(s, Unfence(b))
    ensures var i := s.barriers[b].worker.value;
      CanFinish(TurnQueueModel.Do(s, Unfence(b)), i, t) <==> NotStarted(s.workers[i], t)
  {
    CountHoldsWhileFenced(s, b);
    SlotAfterRelease(s, b, t);
  }
}
