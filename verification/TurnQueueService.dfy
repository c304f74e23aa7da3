/**
 * What the turn queue gives its callers: exactly when it takes a turn, that a turn taken is run
 * unless its worker is sealed or the queue shuts down, and in which order turns run.
 */
module TurnQueueService {
  import opened Basics
  import opened Subsequences
  import opened DraftWorkers
  import opened TurnQueueModel
  import opened TurnQueueSafety

  // ---------------------------------------------------------------- taking turns

  /** No barrier of the draft stands. */
  ghost predicate Unfenced(s: State, d: Draft) {
    forall b :: 0 <= b < |s.barriers| && s.barriers[b].draft == d ==> !Outstanding(s.barriers[b])
  }

  /** Nothing that was accepted for the draft's worker is still to be released. */
  ghost predicate NothingUnderWay(s: State, d: Draft)
    requires Shaped(s)
  {
    d in s.registry ==> forall t: Ticket :: t < s.workers[s.registry[d]].issued ==> t in s.workers[s.registry[d]].released
  }

  lemma UnfencedIffNoLease(s: State, d: Draft)
    requires GlobalInv(s) && !s.closed
    ensures Leases(s, d) <= 0 <==> Unfenced(s, d)
  {
    var fence := OutstandingFor(s.barriers, d);
    assert Leases(s, d) == |fence|;
    if Unfenced(s, d) {
      assert fence == {};
    } else {
      var b :| 0 <= b < |s.barriers| && s.barriers[b].draft == d && Outstanding(s.barriers[b]);
      assert b in fence;
    }
  }

  lemma IdleIffNothingPending(w: Worker, ctxDone: bool)
    requires Inv(w, ctxDone)
    ensures w.pendingCount > 0 <==> !(forall t: Ticket :: t < w.issued ==> t in w.released)
  {
    NothingPending(w, ctxDone);
    CoveredIsExact(w, ctxDone);
  }

  /** In every reachable state a turn is taken exactly if it names a draft, the queue is running
      and no barrier of the draft stands; one that asks for an idle draft exactly if, besides,
      every turn accepted before it has been released. */
  lemma ReservesExactly(s: State, d: Draft, onlyIfIdle: bool)
    requires Reachable(s)
    ensures Shaped(s)
    ensures CanReserve(s, d, onlyIfIdle) <==>
      && d != "" && !s.closed && !s.ctxDone && Unfenced(s, d)
      && (onlyIfIdle ==> NothingUnderWay(s, d))
  {
    ReachableInv(s);
    if !s.closed {
      UnfencedIffNoLease(s, d);
      if d in s.registry {
        assert Inv(s.workers[s.registry[d]], s.ctxDone);
        IdleIffNothingPending(s.workers[s.registry[d]], s.ctxDone);
      }
    }
  }

  /** A reservation adds one new slot to the pending ones. */
  ghost predicate Adds(w: Worker, w': Worker) {
    && Pending(w') == Pending(w) + {w.issued} && w'.issued == w.issued + 1
    && w.issued !in Pending(w) && w.issued !in w.released
  }

  lemma ReservingAdds(w: Worker, onlyIfIdle: bool, ctxDone: bool)
    requires Inv(w, ctxDone) && DraftWorkers.Enabled(w, Reserve(onlyIfIdle), ctxDone)
    ensures Adds(w, DraftWorkers.Do(w, Reserve(onlyIfIdle), ctxDone))
  {
    assert Places(w, w.issued) == 0;
    assert Pending(DraftWorkers.Do(w, Reserve(onlyIfIdle), ctxDone)) == Pending(w) + {w.issued};
  }

  /** The draft's worker, or the one it is about to get. */
  function WorkerOf(s: State, d: Draft): Worker
    requires Shaped(s)
  {
    if d in s.registry then s.workers[s.registry[d]] else NEW_WORKER
  }

  /** The slot that the reservation takes is new, and pending from then on. */
  lemma ReservationIsPending(s: State, d: Draft, onlyIfIdle: bool)
    requires Reachable(s) && Shaped(s) && CanReserve(s, d, onlyIfIdle)
    ensures var s' := TurnQueueModel.Do(s, Enqueue(d, onlyIfIdle));
      && Shaped(s') && d in s'.registry && (d in s.registry ==> s'.registry[d] == s.registry[d])
      && Adds(WorkerOf(s, d), WorkerOf(s', d))
  {
    ReachableInv(s);
    NewWorkerInv(s.ctxDone);
    StepKeeps(s, Enqueue(d, onlyIfIdle));
    assert Inv(WorkerOf(s, d), s.ctxDone);
    ReservingAdds(WorkerOf(s, d), onlyIfIdle, s.ctxDone);
    EnqueueReserves(s, d, onlyIfIdle);
  }

  lemma EnqueueReserves(s: State, d: Draft, onlyIfIdle: bool)
    requires Shaped(s) && CanReserve(s, d, onlyIfIdle)
    ensures var s' := TurnQueueModel.Do(s, Enqueue(d, onlyIfIdle));
      && d in s'.registry && s'.registry[d] < |s'.workers| && (d in s.registry ==> s'.registry[d] == s.registry[d])
      && s'.workers[s'.registry[d]] == DraftWorkers.Do(WorkerOf(s, d), Reserve(onlyIfIdle), s.ctxDone)
  {
  }

  // ---------------------------------------------------------------- every worker of a run

  lemma NewWorkerIs(s: State, step: Step, k: WorkerId)
    requires Shaped(s) && TurnQueueModel.Enabled(s, step) && |s.workers| <= k < |TurnQueueModel.Do(s, step).workers|
    ensures step.Enqueue? && DraftWorkers.Enabled(NEW_WORKER, Reserve(step.onlyIfIdle), s.ctxDone)
    ensures TurnQueueModel.Do(s, step).workers[k] == DraftWorkers.Do(NEW_WORKER, Reserve(step.onlyIfIdle), s.ctxDone)
  {
  }

  lemma ContextStays(s: State, step: Step)
    requires Shaped(s) && TurnQueueModel.Enabled(s, step)
    ensures s.ctxDone ==> TurnQueueModel.Do(s, step).ctxDone
  {
  }

  /** The channel is never overfull, and whatever has left the worker has been run, unless the
      worker is retired or the context has ended. */
  ghost predicate Served(w: Worker, ctxDone: bool) {
    && |w.queue| <= QUEUE_CAPACITY
    && (forall t :: t in w.released || t in w.leaving ==> t in w.runs || w.retired || ctxDone)
    && (w.phase.Running? ==> w.phase.ticket in w.runs || w.retired || ctxDone)
    && (w.phase.Dropping? || w.phase.Flushing? ==> ctxDone)
  }

  lemma ServedStays(w: Worker, op: Op, ctxDone: bool)
    requires Served(w, ctxDone) && DraftWorkers.Enabled(w, op, ctxDone)
    ensures Served(DraftWorkers.Do(w, op, ctxDone), ctxDone)
  {
  }

  ghost predicate AllServed(s: State) { forall k :: 0 <= k < |s.workers| ==> Served(s.workers[k], s.ctxDone) }

  lemma ServedInStep(s: State, step: Step)
    requires Shaped(s) && TurnQueueModel.Enabled(s, step) && AllServed(s)
    ensures AllServed(TurnQueueModel.Do(s, step))
  {
    var s' := TurnQueueModel.Do(s, step);
    ContextStays(s, step);
    forall k | 0 <= k < |s'.workers| ensures Served(s'.workers[k], s'.ctxDone) {
      if k < |s.workers| {
        StepOnWorker(s, step, k);
        var op := OpOn(s, step, k);
        if op.Some? { ServedStays(s.workers[k], op.value, s.ctxDone); }
      } else {
        NewWorkerIs(s, step, k);
        ServedStays(NEW_WORKER, Reserve(step.onlyIfIdle), s.ctxDone);
      }
    }
  }

  lemma {:induction false} ServedInRun(states: seq<State>, steps: seq<Step>, i: nat)
    requires Run(states, steps) && i < |states|
    ensures AllServed(states[i])
  {
    if i > 0 {
      ServedInRun(states, steps, i - 1);
      assert Follows(states[i - 1], steps[i - 1], states[i]);
      ServedInStep(states[i - 1], steps[i - 1]);
    }
  }

  /** In every reachable state a slot that has been released was run, unless its worker has been
      retired or the queue has shut down; and no channel is overfull. */
  lemma NoTurnIsDropped(s: State, k: WorkerId, t: Ticket)
    requires Reachable(s) && k < |s.workers|
    ensures t in s.workers[k].released ==> t in s.workers[k].runs || s.workers[k].retired || s.ctxDone
    ensures |s.workers[k].queue| <= QUEUE_CAPACITY
  {
    var states, steps :| Run(states, steps) && states[|steps|] == s;
    ServedInRun(states, steps, |steps|);
    assert Served(s.workers[k], s.ctxDone);
  }

  // ---------------------------------------------------------------- order

  /** The tickets that went into the channel of worker `k`, in the order of the sends. */
  function SentTo(steps: seq<Step>, k: WorkerId): seq<Ticket> {
    if steps == [] then []
    else SentTo(steps[..|steps| - 1], k) + SentBy(steps[|steps| - 1], k)
  }

  function SentBy(step: Step, k: WorkerId): seq<Ticket> {
    if step.Local? && step.worker == k && step.op.Send? then [step.op.ticket] else []
  }

  /** The turns begun: run, or just received. */
  function Begun(w: Worker): seq<Ticket> { if w.phase.Taken? then w.runs + [w.phase.ticket] else w.runs }

  /** The channel holds the last of the sent tickets, and the turns begun are among those before
      them, in order. */
  ghost predicate Ordered(w: Worker, sent: seq<Ticket>) {
    && |w.queue| <= |sent| && sent[|sent| - |w.queue|..] == w.queue
    && Subsequence(Begun(w), sent[..|sent| - |w.queue|])
  }

  lemma {:induction false} PrefixIsSubsequence<T>(small: seq<T>, x: T, big: seq<T>)
    requires Subsequence(small + [x], big)
    ensures Subsequence(small, big)
    decreases |big|
  {
    if small != [] {
      assert (small + [x])[1..] == small[1..] + [x];
      if (small + [x])[0] == big[0] && Subsequence((small + [x])[1..], big[1..]) {
        PrefixIsSubsequence(small[1..], x, big[1..]);
      } else {
        PrefixIsSubsequence(small, x, big[1..]);
      }
    }
  }

  lemma TakingKeepsOrder(w: Worker, op: Op, ctxDone: bool, sent: seq<Ticket>)
    requires Ordered(w, sent) && DraftWorkers.Enabled(w, op, ctxDone) && TakesFirst(op)
    ensures Ordered(DraftWorkers.Do(w, op, ctxDone), sent)
  {
    var n := |sent| - |w.queue|;
    assert sent[n + 1..] == w.queue[1..] && sent[..n + 1] == sent[..n] + [w.queue[0]];
    ExtendBoth(Begun(w), sent[..n], w.queue[0]);
  }

  lemma SendingKeepsOrder(w: Worker, t: Ticket, ctxDone: bool, sent: seq<Ticket>)
    requires Ordered(w, sent) && DraftWorkers.Enabled(w, Send(t), ctxDone)
    ensures Ordered(DraftWorkers.Do(w, Send(t), ctxDone), sent + [t])
  {
    var n := |sent| - |w.queue|;
    assert (sent + [t])[n..] == sent[n..] + [t] && (sent + [t])[..n] == sent[..n];
  }

  lemma OthersKeepOrder(w: Worker, op: Op, ctxDone: bool, sent: seq<Ticket>)
    requires Ordered(w, sent) && DraftWorkers.Enabled(w, op, ctxDone) && !TakesFirst(op) && !op.Send?
    ensures Ordered(DraftWorkers.Do(w, op, ctxDone), sent)
  {
    var w' := DraftWorkers.Do(w, op, ctxDone);
    assert w'.queue == w.queue;
    if op.Start? && w.retired {
      PrefixIsSubsequence(w.runs, w.phase.ticket, sent[..|sent| - |w.queue|]);
    } else {
      assert Begun(w') == Begun(w);
    }
  }

  ghost predicate AllOrdered(s: State, steps: seq<Step>) {
    forall k :: 0 <= k < |s.workers| ==> Ordered(s.workers[k], SentTo(steps, k))
  }

  lemma {:induction false} NothingSentBefore(states: seq<State>, steps: seq<Step>, k: WorkerId, i: nat)
    requires Run(states, steps) && i <= |steps| && k >= |states[i].workers|
    ensures SentTo(steps[..i], k) == []
  {
    if i > 0 {
      assert Follows(states[i - 1], steps[i - 1], states[i]);
      assert steps[..i][..i - 1] == steps[..i - 1];
      WorkersStay(states[i - 1], steps[i - 1]);
      NothingSentBefore(states, steps, k, i - 1);
    }
  }

  lemma WorkersStay(s: State, step: Step)
    requires Shaped(s) && TurnQueueModel.Enabled(s, step)
    ensures |s.workers| <= |TurnQueueModel.Do(s, step).workers|
    ensures step.Local? ==> step.worker < |s.workers|
  {
  }

  /** The tickets that an operation sends. */
  function SentByOp(op: Op): seq<Ticket> { if op.Send? then [op.ticket] else [] }

  lemma OpKeepsOrder(w: Worker, op: Op, ctxDone: bool, sent: seq<Ticket>)
    requires Ordered(w, sent) && DraftWorkers.Enabled(w, op, ctxDone)
    ensures Ordered(DraftWorkers.Do(w, op, ctxDone), sent + SentByOp(op))
  {
    if op.Send? {
      SendingKeepsOrder(w, op.ticket, ctxDone, sent);
    } else {
      assert sent + SentByOp(op) == sent;
      if TakesFirst(op) {
        TakingKeepsOrder(w, op, ctxDone, sent);
      } else {
        OthersKeepOrder(w, op, ctxDone, sent);
      }
    }
  }

  lemma SentIsOp(s: State, step: Step, k: WorkerId)
    requires Shaped(s) && TurnQueueModel.Enabled(s, step)
    ensures SentBy(step, k) == match OpOn(s, step, k) case None => [] case Some(op) => SentByOp(op)
  {
  }

  lemma OrderedWorker(s: State, step: Step, s': State, k: WorkerId, sent: seq<Ticket>)
    requires Follows(s, step, s') && k < |s.workers| && Ordered(s.workers[k], sent)
    ensures k < |s'.workers| && Ordered(s'.workers[k], sent + SentBy(step, k))
  {
    StepOnWorker(s, step, k);
    SentIsOp(s, step, k);
    OrderedBy(s.workers[k], s'.workers[k], OpOn(s, step, k), s.ctxDone, sent);
  }

  lemma OrderedBy(w: Worker, w': Worker, op: Option<Op>, ctxDone: bool, sent: seq<Ticket>)
    requires Ordered(w, sent)
    requires match op case None => w' == w
                      case Some(op) => DraftWorkers.Enabled(w, op, ctxDone) && w' == DraftWorkers.Do(w, op, ctxDone)
    ensures Ordered(w', sent + match op case None => [] case Some(op) => SentByOp(op))
  {
    if op.Some? {
      OpKeepsOrder(w, op.value, ctxDone, sent);
    } else {
      assert sent + [] == sent;
    }
  }

  lemma {:induction false} OrderedInRun(states: seq<State>, steps: seq<Step>, i: nat)
    requires Run(states, steps) && i < |states|
    ensures AllOrdered(states[i], steps[..i])
  {
    if i > 0 {
      var s, step := states[i - 1], steps[i - 1];
      OrderedInRun(states, steps, i - 1);
      assert Follows(s, step, states[i]);
      assert steps[..i][..i - 1] == steps[..i - 1];
      forall k | 0 <= k < |states[i].workers| ensures Ordered(states[i].workers[k], SentTo(steps[..i], k)) {
        if k < |s.workers| {
          OrderedWorker(s, step, states[i], k, SentTo(steps[..i - 1], k));
        } else {
          NewWorkerIs(s, step, k);
          NothingSentBefore(states, steps, k, i - 1);
        }
      }
    }
  }

  lemma OrderedRuns(w: Worker, sent: seq<Ticket>)
    requires Ordered(w, sent)
    ensures Subsequence(w.runs, sent)
  {
    var n := |sent| - |w.queue|;
    if w.phase.Taken? { PrefixIsSubsequence(w.runs, w.phase.ticket, sent[..n]); }
    SubsequenceOfLonger(w.runs, sent[..n], sent[n..]);
    assert sent[..n] + sent[n..] == sent;
  }

  /** In every run each worker calls the runner in the order in which the turns entered its
      channel, and for each of them at most once. */
  lemma RunsInChannelOrder(states: seq<State>, steps: seq<Step>, k: WorkerId)
    requires Run(states, steps) && k < |states[|steps|].workers|
    ensures Subsequence(states[|steps|].workers[k].runs, SentTo(steps, k)) && NoDup(states[|steps|].workers[k].runs)
  {
    var s := states[|steps|];
    OrderedInRun(states, steps, |steps|);
    assert steps[..|steps|] == steps;
    OrderedRuns(s.workers[k], SentTo(steps, k));
    RunInv(states, steps, |steps|);
    assert Inv(s.workers[k], s.ctxDone);
  }

  lemma {:induction false} SubsequenceOfLonger<T>(small: seq<T>, big: seq<T>, more: seq<T>)
    requires Subsequence(small, big)
    ensures Subsequence(small, big + more)
    decreases |more|
  {
    if more == [] {
      assert big + more == big;
    } else {
      ExtendBoth(small, big, more[0]);
      assert big + more == (big + [more[0]]) + more[1..];
      SubsequenceOfLonger(small, big + [more[0]], more[1..]);
    }
  }

  // ---------------------------------------------------------------- idle reservations

  lemma IssuedGrows(s: State, step: Step, k: WorkerId)
    requires Shaped(s) && TurnQueueModel.Enabled(s, step) && k < |s.workers|
    ensures var s' := TurnQueueModel.Do(s, step); k < |s'.workers| && s.workers[k].issued <= s'.workers[k].issued
  {
    StepOnWorker(s, step, k);
    var op := OpOn(s, step, k);
    if op.Some? { IssuedByOp(s.workers[k], op.value, s.ctxDone); }
  }

  lemma IssuedByOp(w: Worker, op: Op, ctxDone: bool)
    requires DraftWorkers.Enabled(w, op, ctxDone)
    ensures w.issued <= DraftWorkers.Do(w, op, ctxDone).issued
  {
  }

  /** Worker `k` has given out no fewer slots in `s'` than in `s`. */
  predicate IssuedMore(s: State, s': State, k: WorkerId) {
    k < |s.workers| && k < |s'.workers| && s.workers[k].issued <= s'.workers[k].issued
  }

  lemma {:induction false} IssuedAlong(states: seq<State>, i: nat, j: nat, k: WorkerId)
    requires i <= j < |states| && k < |states[i].workers|
    requires forall n :: i <= n < j && k < |states[n].workers| ==> IssuedMore(states[n], states[n + 1], k)
    ensures IssuedMore(states[i], states[j], k)
  {
    if i < j {
      IssuedAlong(states, i, j - 1, k);
      assert IssuedMore(states[j - 1], states[j], k);
    }
  }

  lemma IssuedInRun(states: seq<State>, steps: seq<Step>, i: nat, j: nat, k: WorkerId)
    requires Run(states, steps) && i <= j < |states| && k < |states[i].workers|
    ensures IssuedMore(states[i], states[j], k)
  {
    forall n | i <= n < j && k < |states[n].workers| ensures IssuedMore(states[n], states[n + 1], k) {
      assert Follows(states[n], steps[n], states[n + 1]);
      IssuedGrows(states[n], steps[n], k);
    }
    IssuedAlong(states, i, j, k);
  }

  /** In every run, when a turn that asks for an idle draft is taken, every slot that the draft's
      worker had given out by any earlier point has been released: of two such turns the first
      is over before the second is taken. */
  lemma IdleReservationWaits(states: seq<State>, steps: seq<Step>, i: nat, j: nat, d: Draft, t: Ticket)
    requires Run(states, steps) && i <= j < |steps| && steps[j] == Enqueue(d, true)
    requires d in states[j].registry && states[j].registry[d] < |states[i].workers|
    requires t < states[i].workers[states[j].registry[d]].issued
    ensures states[j].registry[d] < |states[j].workers| && t in states[j].workers[states[j].registry[d]].released
  {
    var k := states[j].registry[d];
    IssuedInRun(states, steps, i, j, k);
    assert Follows(states[j], steps[j], states[j + 1]);
    assert Run(states[..j + 1], steps[..j]) && states[..j + 1][j] == states[j];
    ReservesExactly(states[j], d, true);
  }

  // ---------------------------------------------------------------- giving up a worker

  /** Abandoning a barrier leaves its worker retired and the draft without one, so that the next
      turn gets a new worker. */
  lemma AbandonRetires(s: State, b: nat)
    requires Reachable(s) && Shaped(s) && TurnQueueModel.Enabled(s, Abandon(b)) && !s.closed
    ensures var s' := TurnQueueModel.Do(s, Abandon(b));
      && s.barriers[b].draft !in s'.registry
      && (s.barriers[b].worker.Some? ==>
            s.barriers[b].worker.value < |s'.workers| && s'.workers[s.barriers[b].worker.value].retired)
  {
    ReachableInv(s);
    assert BarrierOk(s, s.barriers[b]);
  }
}
