/**
 * The queue, its workers and its barriers as objects updated in place.  Every method is
 * one section under a mutex, or one channel operation, and is proved to take exactly the
 * corresponding step of the protocol in TurnQueueModel.
 */
module TurnQueue {
  import opened Basics
  import opened DraftWorkers
  import opened TurnQueueModel

  class DraftWorker {
    ghost const id: WorkerId
    const draft: Draft
    var queue: seq<Ticket>
    var phase: Phase
    var pendingCount: int
    var canceling: bool
    var retired: bool
    var drained: nat
    var closedDrains: set<nat>
    var panicked: bool
    var producers: set<Ticket>
    var leaving: set<Ticket>
    var issued: nat
    ghost var released: set<Ticket>
    ghost var runs: seq<Ticket>
    ghost var finished: set<Ticket>

    ghost function View(): Worker
      reads this
    {
      Worker(queue, producers, leaving, phase, pendingCount, canceling, retired, drained,
             closedDrains, panicked, issued, released, runs, finished)
    }

    constructor (ghost id: WorkerId, draft: Draft)
      ensures this.id == id && this.draft == draft && View() == NEW_WORKER
    {
      this.id, this.draft := id, draft;
      queue, producers, leaving, phase := [], {}, {}, Waiting;
      pendingCount, canceling, retired := 0, false, false;
      drained, closedDrains, panicked, issued := 0, {0}, false, 0;
      released, runs, finished := {}, [], {};
    }

    /** The part of enqueue under the worker's mutex. */
    method TryReserve(onlyIfIdle: bool, ghost ctxDone: bool) returns (ok: bool, ticket: Ticket)
      modifies this
      ensures ok == DraftWorkers.Enabled(old(View()), Reserve(onlyIfIdle), ctxDone)
      ensures ok ==> View() == DraftWorkers.Do(old(View()), Reserve(onlyIfIdle), ctxDone) && ticket in producers
      ensures !ok ==> View() == old(View())
    {
      ticket := issued;
      if canceling || retired {
        return false, ticket;
      }
      if onlyIfIdle && pendingCount > 0 {
        return false, ticket;
      }
      if pendingCount == 0 {
        drained := drained + 1;
      }
      producers := producers + {ticket};
      pendingCount := pendingCount + 1;
      issued := issued + 1;
      ok := true;
    }

    method Send(ticket: Ticket, ghost ctxDone: bool)
      requires ticket in producers && |queue| < QUEUE_CAPACITY
      modifies this
      ensures View() == DraftWorkers.Do(old(View()), Op.Send(ticket), ctxDone)
    {
      queue := queue + [ticket];
      producers := producers - {ticket};
    }

    method AbortSend(ticket: Ticket, ctxDone: bool)
      requires ticket in producers && (retired || ctxDone)
      modifies this
      ensures View() == DraftWorkers.Do(old(View()), Op.AbortSend(ticket), ctxDone)
    {
      producers := producers - {ticket};
      leaving := leaving + {ticket};
    }

    method FinishPendingLocked()
      modifies this
      ensures View() == FinishPending(old(View()))
    {
      pendingCount := pendingCount - 1;
      if pendingCount == 0 {
        panicked := panicked || drained in closedDrains;
        closedDrains := closedDrains + {drained};
      }
    }

    method FinishLeaving(ticket: Ticket, ghost ctxDone: bool)
      requires ticket in leaving
      modifies this
      ensures View() == DraftWorkers.Do(old(View()), Op.FinishLeaving(ticket), ctxDone)
    {
      leaving := leaving - {ticket};
      released := released + {ticket};
      FinishPendingLocked();
    }

    method Receive(ghost ctxDone: bool)
      requires phase.Waiting? && queue != []
      modifies this
      ensures View() == DraftWorkers.Do(old(View()), Op.Receive, ctxDone)
    {
      phase := Taken(queue[0]);
      queue := queue[1..];
    }

    /** The section that publishes the turn's stop function and decides about the runner. */
    method Start(ghost ctxDone: bool) returns (callRunner: bool)
      requires phase.Taken?
      modifies this
      ensures View() == DraftWorkers.Do(old(View()), Op.Start, ctxDone)
      ensures callRunner == !old(retired)
    {
      var ticket := phase.ticket;
      callRunner := !retired;
      phase := Running(ticket, callRunner, false, false);
      if canceling || retired {
        phase := phase.(cancelled := true);
      }
      if callRunner {
        runs := runs + [ticket];
      }
    }

    method Finish(ghost ctxDone: bool)
      requires phase.Running?
      modifies this
      ensures View() == DraftWorkers.Do(old(View()), Op.Finish, ctxDone)
    {
      released := released + {phase.ticket};
      phase := Waiting;
      FinishPendingLocked();
    }

    /** BeginDraftCancellation's section under the worker's mutex. */
    method BeginCancel(ghost ctxDone: bool) returns (covered: int, done: nat)
      modifies this
      ensures View() == DraftWorkers.Do(old(View()), Op.BeginCancel, ctxDone)
      ensures covered == Covered(old(View())) && done == drained
    {
      covered := pendingCount;
      if phase.Running? && phase.durable && covered > 0 {
        covered := covered - 1;
      }
      canceling := true;
      done := drained;
      if phase.Running? {
        phase := phase.(cancelled := true);
      }
    }

    /** sealWorker. */
    method Seal(ghost ctxDone: bool)
      modifies this
      ensures View() == DraftWorkers.Do(old(View()), Op.Seal, ctxDone)
    {
      if !retired {
        retired := true;
      }
    }

    /** drainRetiredWorker. */
    method DrainRetired()
      requires retired && producers == {}
      modifies this
      ensures View() == DrainAll(old(View()))
    {
      while queue != []
        invariant retired && producers == {}
        invariant DrainAll(View()) == DrainAll(old(View()))
        decreases |queue|
      {
        leaving := leaving + {queue[0]};
        queue := queue[1..];
      }
    }
  }

  lemma AbandonStep(s: State, b: nat, moved: State, s': State)
    requires Shaped(s) && b < |s.barriers| && s.barriers[b].phase == Held
    requires RefersToWorker(s, s.barriers[b]) && moved == SetPhase(s, b, AwaitProducers)
    requires s' == OnWorker(moved.(registry := moved.registry - {s.barriers[b].draft}),
                            s.barriers[b].worker.value, Op.Seal)
    ensures s' == TurnQueueModel.Do(s, Step.Abandon(b))
  {
  }

  lemma ReleaseStep(s: State, b: nat, abandon: bool)
    requires Shaped(s) && b < |s.barriers| && s.barriers[b].phase == Held
    requires abandon ==> !RefersToWorker(s, s.barriers[b])
    ensures SetPhase(s, b, Unfencing(abandon)) ==
      TurnQueueModel.Do(s, if abandon then Step.Abandon(b) else Step.Release(b))
  {
  }

  /** A lease of the draft is given back; with the last one worker `w`, if any, reopens. */
  function GivenBack(s: State, d: Draft, w: Option<WorkerId>): State
    requires w.Some? ==> w.value < |s.workers|
  {
    if Leases(s, d) > 1 then s.(leases := s.leases[d := Leases(s, d) - 1])
    else
      var open := s.(leases := s.leases - {d});
      if w.None? then open else OnWorker(open, w.value, Op.Reopen)
  }

  lemma UnfenceStep(s: State, b: nat, w: Option<WorkerId>)
    requires Shaped(s) && b < |s.barriers| && s.barriers[b].phase.Unfencing?
    requires w == if !s.barriers[b].phase.abandoned && RefersToWorker(s, s.barriers[b])
                  then s.barriers[b].worker else None
    ensures GivenBack(SetPhase(s, b, BarrierPhase.Done), s.barriers[b].draft, w) == DoUnfence(s, b)
  {
  }

  lemma BeginStep(s: State, d: Draft, fenced: State, b: Barrier, s': State)
    requires Shaped(s) && TurnQueueModel.Enabled(s, Step.Begin(d)) && d in s.registry
    requires fenced == OnWorker(s, s.registry[d], Op.BeginCancel)
    requires var w := s.workers[s.registry[d]];
      b == Barrier(d, Some(s.registry[d]), w.drained, Covered(w), Pending(w) - w.finished, Held)
    requires s' == fenced.(leases := fenced.leases[d := Leases(fenced, d) + 1], barriers := fenced.barriers + [b])
    ensures s' == TurnQueueModel.Do(s, Step.Begin(d))
  {
  }

  class DraftCancellationBarrier {
    ghost const id: nat
    const draft: Draft
    const worker: DraftWorker?
    const done: nat
    const covered: int
    ghost const counted: set<Ticket>
    var phase: BarrierPhase

    constructor (ghost id: nat, draft: Draft, worker: DraftWorker?, done: nat, covered: int, ghost counted: set<Ticket>)
      ensures this.id == id && this.draft == draft && this.worker == worker && this.done == done
      ensures this.covered == covered && this.counted == counted && phase == Held
    {
      this.id, this.draft, this.worker, this.done := id, draft, worker, done;
      this.covered, this.counted, phase := covered, counted, Held;
    }

    ghost function View(): Barrier
      reads this
    {
      Barrier(draft, if worker == null then None else Some(worker.id), done, covered, counted, phase)
    }
  }

  class TurnQueue {
    var closed: bool
    var ctxDone: bool
    var workers: map<Draft, DraftWorker>
    var cancelLeases: map<Draft, int>
    ghost var all: seq<DraftWorker>
    ghost var barriers: seq<DraftCancellationBarrier>

    ghost predicate Valid()
      reads this, all, barriers
    {
      && (forall i :: 0 <= i < |all| ==> all[i].id == i)
      && (forall d :: d in workers ==> workers[d] in all && workers[d].draft == d)
      && (forall b :: 0 <= b < |barriers| ==>
            && barriers[b].id == b
            && (barriers[b].worker != null ==>
                  barriers[b].worker in all && barriers[b].worker.draft == barriers[b].draft))
    }

    ghost function Registry(): map<Draft, WorkerId>
      reads this
    {
      map d | d in workers :: workers[d].id
    }

    ghost function Workers(): seq<Worker>
      reads this, all
    {
      seq(|all|, i requires 0 <= i < |all| reads this, all => all[i].View())
    }

    ghost function Barriers(): seq<Barrier>
      reads this, barriers
    {
      seq(|barriers|, b requires 0 <= b < |barriers| reads this, barriers => barriers[b].View())
    }

    ghost function View(): State
      reads this, all, barriers
    {
      State(closed, ctxDone, Registry(), cancelLeases, Workers(),
            seq(|all|, i requires 0 <= i < |all| reads this => all[i].draft), Barriers())
    }

    lemma ValidIsShaped()
      requires Valid()
      ensures Shaped(View())
    {
    }

    constructor ()
      ensures Valid() && View() == INITIAL
    {
      closed, ctxDone, workers, cancelLeases := false, false, map[], map[];
      all, barriers := [], [];
    }

    function LeaseCount(d: Draft): int
      reads this
    {
      if d in cancelLeases then cancelLeases[d] else 0
    }

    /** A change of one worker is a change of one entry of the workers' view. */
    twostate lemma OnlyWorkerChanged(worker: DraftWorker)
      requires old(Valid()) && worker in old(all) && unchanged(this)
      requires forall other :: other in all && other != worker ==> unchanged(other)
      requires forall b :: b in barriers ==> unchanged(b)
      ensures Valid() && worker.id < |all|
      ensures View() == old(View()).(workers := old(View()).workers[worker.id := worker.View()])
    {
      var after := Workers();
      forall i | 0 <= i < |all| ensures after[i] == old(Workers())[worker.id := worker.View()][i] {
        if i != worker.id {
          assert all[i] in all && all[i] != worker;
        }
      }
      forall b | 0 <= b < |barriers| ensures Barriers()[b] == old(Barriers())[b] {
        assert barriers[b] in barriers;
      }
      assert Registry() == old(Registry());
    }

    method GetOrCreate(d: Draft) returns (worker: DraftWorker)
      requires Valid()
      modifies this`workers, this`all
      ensures Valid() && Shaped(old(View())) && View() == WithWorker(old(View()), d)
      ensures d in workers && worker == workers[d] && (fresh(worker) || worker in old(all))
      ensures barriers == old(barriers)
    {
      ValidIsShaped();
      if d in workers {
        return workers[d];
      }
      worker := new DraftWorker(|all|, d);
      workers := workers[d := worker];
      all := all + [worker];
      assert Registry() == old(Registry())[d := worker.id];
      assert Workers() == old(Workers()) + [worker.View()];
    }

    /** enqueue up to the channel send: getOrCreate the worker, then reserve a slot. */
    method ReserveTurn(d: Draft, onlyIfIdle: bool) returns (worker: DraftWorker?, ticket: Ticket)
      requires Valid()
      modifies this`workers, this`all, all
      ensures Valid() && Shaped(old(View()))
      ensures worker != null <==> CanReserve(old(View()), d, onlyIfIdle)
      ensures worker == null ==> View() == old(View())
      ensures worker != null ==>
        View() == TurnQueueModel.Do(old(View()), Step.Enqueue(d, onlyIfIdle)) && ticket in worker.producers
    {
      ValidIsShaped();
      worker, ticket := null, 0;
      if d == "" {
        return;
      }
      if closed || ctxDone || LeaseCount(d) > 0 {
        return;
      }
      var target := GetOrCreate(d);
      ghost var before := target.View();
      assert View().workers[target.id] == before && View().registry[d] == target.id;
      label created:
      var ok, slot := target.TryReserve(onlyIfIdle, ctxDone);
      OnlyWorkerChanged@created(target);
      assert ok == CanReserve(old(View()), d, onlyIfIdle);
      if ok {
        worker, ticket := target, slot;
      }
    }
 
    /** The worker's part of a cancellation. */
    method FenceWorker(worker: DraftWorker)
      returns (covered: int, done: nat, ghost counted: set<Ticket>)
      requires Valid() && worker in all
      modifies worker
      ensures Valid() && worker.id < |old(View()).workers|
      ensures View() == OnWorker(old(View()), worker.id, Op.BeginCancel)
      ensures var w := old(View()).workers[worker.id];
        covered == Covered(w) && done == w.drained && counted == Pending(w) - w.finished
    {
      counted := Pending(worker.View()) - worker.finished;
      assert View().workers[worker.id] == worker.View();
      covered, done := worker.BeginCancel(ctxDone);
      OnlyWorkerChanged(worker);
    }

    method AddLease(d: Draft, worker: DraftWorker?, done: nat, covered: int, ghost counted: set<Ticket>)
      returns (barrier: DraftCancellationBarrier)
      requires Valid() && (worker != null ==> worker in all && worker.draft == d)
      modifies this`cancelLeases, this`barriers
      ensures Valid() && barriers == old(barriers) + [barrier] && fresh(barrier)
      ensures barrier.covered == covered
      ensures View() == old(View()).(
        leases := old(View()).leases[d := Leases(old(View()), d) + 1],
        barriers := old(View()).barriers +
          [Barrier(d, if worker == null then None else Some(worker.id), done, covered, counted, Held)])
    {
      cancelLeases := cancelLeases[d := LeaseCount(d) + 1];
      barrier := new DraftCancellationBarrier(|barriers|, d, worker, done, covered, counted);
      ghost var earlier := Barriers();
      barriers := barriers + [barrier];
      assert Barriers() == earlier + [barrier.View()];
      assert Workers() == old(Workers()) && Registry() == old(Registry());
    }

    /** The part of BeginDraftCancellation for a draft that has a worker. */
    method CancelWorker(d: Draft) returns (barrier: DraftCancellationBarrier)
      requires Valid() && d != "" && !closed && !ctxDone && d in workers
      modifies this`cancelLeases, this`barriers, workers[d]
      ensures Valid() && Shaped(old(View()))
      ensures TurnQueueModel.Enabled(old(View()), Step.Begin(d))
      ensures View() == TurnQueueModel.Do(old(View()), Step.Begin(d)) && barriers == old(barriers) + [barrier]
    {
      ValidIsShaped();
      ghost var before := View();
      var worker := workers[d];
      assert before.registry[d] == worker.id;
      var covered, done, counted := FenceWorker(worker);
      ghost var fenced := View();
      barrier := AddLease(d, worker, done, covered, counted);
      BeginStep(before, d, fenced, Barrier(d, Some(worker.id), done, covered, counted, Held), View());
    }

    /** BeginDraftCancellation: one section from the lease to the covered count. */
    method BeginDraftCancellation(d: Draft) returns (barrier: DraftCancellationBarrier?, requested: bool)
      requires Valid()
      modifies this`cancelLeases, this`barriers, all
      ensures Valid() && Shaped(old(View()))
      ensures barrier != null <==> TurnQueueModel.Enabled(old(View()), Step.Begin(d))
      ensures barrier == null ==> View() == old(View()) && !requested
      ensures barrier != null ==>
        && View() == TurnQueueModel.Do(old(View()), Step.Begin(d))
        && barriers == old(barriers) + [barrier] && requested == (barrier.covered > 0)
    {
      ValidIsShaped();
      barrier, requested := null, false;
      if d == "" {
        return;
      }
      if closed || ctxDone {
        return;
      }
      if d in workers {
        barrier := CancelWorker(d);
        requested := barrier.covered > 0;
      } else {
        barrier := AddLease(d, null, 0, 0, {});
      }
    }

    twostate lemma OnlyPhaseChanged(barrier: DraftCancellationBarrier)
      requires old(Valid()) && barrier in old(barriers) && unchanged(this)
      requires forall w :: w in all ==> unchanged(w)
      requires forall b :: b in barriers && b != barrier ==> unchanged(b)
      ensures Valid() && barrier.id < |barriers|
      ensures View() == SetPhase(old(View()), barrier.id, barrier.phase)
    {
      forall b | 0 <= b < |barriers|
        ensures Barriers()[b] == SetPhase(old(View()), barrier.id, barrier.phase).barriers[b]
      {
        assert barriers[b] in barriers;
      }
      forall i | 0 <= i < |all| ensures Workers()[i] == old(Workers())[i] {
        assert all[i] in all;
      }
      assert Registry() == old(Registry());
    }

    method MovePhase(barrier: DraftCancellationBarrier, phase: BarrierPhase)
      requires Valid() && barrier in barriers
      modifies barrier
      ensures Valid() && barrier.id < |old(View()).barriers|
      ensures View() == SetPhase(old(View()), barrier.id, phase)
    {
      barrier.phase := phase;
      OnlyPhaseChanged(barrier);
    }

    method UnregisterAndSeal(worker: DraftWorker, d: Draft)
      requires Valid() && worker in all && d in workers && workers[d] == worker
      modifies this`workers, worker
      ensures Valid() && worker.id < |old(View()).workers|
      ensures View() == OnWorker(old(View()).(registry := old(View()).registry - {d}), worker.id, Op.Seal)
    {
      workers := workers - {d};
      assert Registry() == old(Registry()) - {d};
      assert Workers() == old(Workers()) && Barriers() == old(Barriers());
      assert View().workers[worker.id] == worker.View();
      label unregistered:
      worker.Seal(ctxDone);
      OnlyWorkerChanged@unregistered(worker);
    }

    method ReopenWorker(worker: DraftWorker)
      requires Valid() && worker in all
      modifies worker
      ensures Valid() && worker.id < |old(View()).workers|
      ensures View() == OnWorker(old(View()), worker.id, Op.Reopen)
    {
      assert View().workers[worker.id] == worker.View();
      worker.canceling := false;
      OnlyWorkerChanged(worker);
    }

    /** Whether the queue still runs the barrier's own worker. */
    method StillRegistered(barrier: DraftCancellationBarrier) returns (same: bool)
      requires Valid() && barrier in barriers
      ensures barrier.id < |View().barriers| && barrier.View() == View().barriers[barrier.id]
      ensures same == RefersToWorker(View(), View().barriers[barrier.id])
      ensures same ==>
        barrier.worker != null && barrier.draft in workers && workers[barrier.draft] == barrier.worker
    {
      same := barrier.worker != null && barrier.draft in workers && workers[barrier.draft] == barrier.worker;
      if barrier.worker != null && barrier.draft in workers {
        assert View().registry[barrier.draft] == workers[barrier.draft].id;
        assert all[workers[barrier.draft].id] == workers[barrier.draft];
        assert all[barrier.worker.id] == barrier.worker;
      }
    }

    /** The first section of releaseDraftCancellation. */
    method BeginRelease(barrier: DraftCancellationBarrier, abandon: bool)
      requires Valid() && barrier in barriers && barrier.phase == Held
      modifies this`workers, all, barrier
      ensures Valid() && Shaped(old(View()))
      ensures barrier.id < |old(View()).barriers| && old(View()).barriers[barrier.id].phase == Held
      ensures View() == TurnQueueModel.Do(old(View()),
        if abandon then Step.Abandon(barrier.id) else Step.Release(barrier.id))
    {
      ValidIsShaped();
      ghost var before := View();
      ghost var b := barrier.id;
      var same := StillRegistered(barrier);
      if abandon && same {
        MovePhase(barrier, AwaitProducers);
        ghost var moved := View();
        UnregisterAndSeal(barrier.worker, barrier.draft);
        AbandonStep(before, b, moved, View());
      } else {
        MovePhase(barrier, Unfencing(abandon));
        ReleaseStep(before, b, abandon);
      }
    }

    method SetLeases(leases: map<Draft, int>)
      requires Valid()
      modifies this`cancelLeases
      ensures Valid() && View() == old(View()).(leases := leases)
      ensures cancelLeases == leases
    {
      cancelLeases := leases;
      assert Workers() == old(Workers()) && Registry() == old(Registry());
      assert Barriers() == old(Barriers());
    }

    /** A lease of the draft is given back, and with the last one the worker reopens. */
    method GiveBackLease(d: Draft, worker: DraftWorker?)
      requires Valid() && (worker != null ==> worker in all)
      modifies this`cancelLeases, worker
      ensures Valid() && (worker != null ==> worker.id < |old(View()).workers|)
      ensures View() == GivenBack(old(View()), d, if worker == null then None else Some(worker.id))
    {
      var leases := LeaseCount(d) - 1;
      if leases > 0 {
        SetLeases(cancelLeases[d := leases]);
        return;
      }
      SetLeases(cancelLeases - {d});
      if worker != null {
        ReopenWorker(worker);
      }
    }

    /** The last section of releaseDraftCancellation. */
    method EndRelease(barrier: DraftCancellationBarrier)
      requires Valid() && barrier in barriers && barrier.phase.Unfencing?
      modifies this`cancelLeases, all, barrier
      ensures Valid() && Shaped(old(View()))
      ensures barrier.id < |old(View()).barriers| && old(View()).barriers[barrier.id].phase.Unfencing?
      ensures View() == DoUnfence(old(View()), barrier.id)
    {
      ValidIsShaped();
      ghost var before := View();
      var same := StillRegistered(barrier);
      var reopened := if same && !barrier.phase.abandoned then barrier.worker else null;
      UnfenceStep(before, barrier.id, if reopened == null then None else Some(reopened.id));
      MovePhase(barrier, BarrierPhase.Done);
      GiveBackLease(barrier.draft, reopened);
    }

    /** CommitCurrentDurableTerminal, for the turn running on `worker`: the commit is fenced
        by the worker's mutex exactly when the queue still knows the worker. */
    method CommitCurrentDurableTerminal(worker: DraftWorker, applied: bool)
      requires Valid() && worker in all && worker.phase.Running? && worker.phase.runnerCalled
      requires applied ==> !worker.phase.cancelled && !ctxDone
      modifies worker
      ensures Valid() && Shaped(old(View())) && worker.id < |old(View()).workers|
      ensures View() == TurnQueueModel.Do(old(View()),
        Step.Local(worker.id, Commit(applied, Registered(old(View()), worker.id))))
    {
      ValidIsShaped();
      assert all[worker.id] == worker;
      assert View().workers[worker.id] == worker.View();
      var fenced := worker.draft in workers && workers[worker.draft] == worker;
      assert fenced == Registered(View(), worker.id);
      if applied {
        worker.finished := worker.finished + {worker.phase.ticket};
        if fenced {
          worker.phase := worker.phase.(durable := true);
        }
      }
      OnlyWorkerChanged(worker);
    }

    /** The section of Close under the queue's mutex. */
    method Close()
      requires Valid() && !closed
      modifies this`closed, this`ctxDone, this`workers, this`cancelLeases
      ensures Valid() && Shaped(old(View())) && View() == TurnQueueModel.Do(old(View()), Step.Close)
    {
      ValidIsShaped();
      closed := true;
      ctxDone := true;
      workers := map[];
      cancelLeases := map[];
      assert Workers() == old(Workers()) && Barriers() == old(Barriers());
    }
  }
}
