/**
 * One draft worker of the turn queue, as a value: the channel, the counters its
 * mutex protects, and the place of every turn slot ever reserved on it.
 *
 * Each `Op` is one atomic step: a section under the worker's mutex, or one channel
 * operation.  A slot is named by its ticket, the number of its reservation.
 */
module DraftWorkers {
  const QUEUE_CAPACITY: nat := 256

  type Ticket = nat

  /** Where the worker goroutine stands. */
  datatype Phase =
    | Waiting                 // at the select
    | Taken(ticket: Ticket)   // received an item, mutex not yet taken
    | Running(ticket: Ticket, runnerCalled: bool, cancelled: bool, durable: bool)
    | Flushing                // the queue context ended; emptying the channel
    | Dropping(ticket: Ticket)
    | Exited

  /** `drained` names the current drain channel; `closed` holds the names of the closed ones.
      `issued`, `released`, `runs` and `finished` record the worker's history. */
  datatype Worker = Worker(
    queue: seq<Ticket>,
    producers: set<Ticket>,
    leaving: set<Ticket>,
    phase: Phase,
    pendingCount: int,
    canceling: bool,
    retired: bool,
    drained: nat,
    closed: set<nat>,
    panicked: bool,
    issued: nat,
    released: set<Ticket>,
    runs: seq<Ticket>,
    finished: set<Ticket>)

  datatype Op =
    | Reserve(onlyIfIdle: bool)
    | Send(ticket: Ticket)
    | AbortSend(ticket: Ticket)
    | FinishLeaving(ticket: Ticket)
    | Receive
    | Start
    | Commit(applied: bool, fenced: bool)
    | Finish
    | ExitRetired
    | SeeShutdown
    | FlushReceive
    | FlushFinish
    | FlushExit
    | RequestStop
    | BeginCancel
    | Reopen
    | Seal
    | DrainTake

  const NEW_WORKER: Worker :=
    Worker([], {}, {}, Waiting, 0, false, false, 0, {0}, false, 0, {}, [], {})

  /** `ctxDone` says whether the queue's context has ended.  A commit may apply only on a
      turn context that has not been cancelled. */
  predicate Enabled(w: Worker, op: Op, ctxDone: bool) {
    match op
    case Reserve(onlyIfIdle) => !w.canceling && !w.retired && !(onlyIfIdle && w.pendingCount > 0)
    case Send(t) => t in w.producers && |w.queue| < QUEUE_CAPACITY
    case AbortSend(t) => t in w.producers && (w.retired || ctxDone)
    case FinishLeaving(t) => t in w.leaving
    case Receive => w.phase.Waiting? && w.queue != []
    case Start => w.phase.Taken?
    case Commit(applied, _) =>
      w.phase.Running? && w.phase.runnerCalled && (applied ==> !w.phase.cancelled && !ctxDone)
    case Finish => w.phase.Running?
    case ExitRetired => w.phase.Waiting? && w.retired
    case SeeShutdown => w.phase.Waiting? && ctxDone
    case FlushReceive => w.phase.Flushing? && w.queue != []
    case FlushFinish => w.phase.Dropping?
    case FlushExit => w.phase.Flushing? && w.queue == []
    case RequestStop => w.phase.Running?
    case BeginCancel => true
    case Reopen => true
    case Seal => true
    case DrainTake => w.retired && w.producers == {} && w.queue != []
  }

  /** finishPendingLocked: closing a closed channel panics in Go. */
  function FinishPending(w: Worker): Worker {
    var count := w.pendingCount - 1;
    if count == 0 then
      w.(pendingCount := count, closed := w.closed + {w.drained},
         panicked := w.panicked || w.drained in w.closed)
    else
      w.(pendingCount := count)
  }

  function Do(w: Worker, op: Op, ctxDone: bool): Worker
    requires Enabled(w, op, ctxDone)
  {
    match op
    case Reserve(_) =>
      w.(drained := if w.pendingCount == 0 then w.drained + 1 else w.drained,
         producers := w.producers + {w.issued}, pendingCount := w.pendingCount + 1,
         issued := w.issued + 1)
    case Send(t) => w.(producers := w.producers - {t}, queue := w.queue + [t])
    case AbortSend(t) => w.(producers := w.producers - {t}, leaving := w.leaving + {t})
    case FinishLeaving(t) =>
      FinishPending(w.(leaving := w.leaving - {t}, released := w.released + {t}))
    case Receive => w.(queue := w.queue[1..], phase := Taken(w.queue[0]))
    case Start =>
      w.(phase := Running(w.phase.ticket, !w.retired, w.canceling || w.retired, false),
         runs := if w.retired then w.runs else w.runs + [w.phase.ticket])
    case Commit(applied, fenced) =>
      if !applied then w
      else w.(finished := w.finished + {w.phase.ticket},
              phase := if fenced then w.phase.(durable := true) else w.phase)
    case Finish =>
      FinishPending(w.(phase := Waiting, released := w.released + {w.phase.ticket}))
    case ExitRetired => w.(phase := Exited)
    case SeeShutdown => w.(phase := Flushing)
    case FlushReceive => w.(queue := w.queue[1..], phase := Dropping(w.queue[0]))
    case FlushFinish =>
      FinishPending(w.(phase := Flushing, released := w.released + {w.phase.ticket}))
    case FlushExit => w.(phase := Exited)
    case RequestStop => w.(phase := w.phase.(cancelled := true))
    case BeginCancel =>
      w.(canceling := true,
         phase := if w.phase.Running? then w.phase.(cancelled := true) else w.phase)
    case Reopen => w.(canceling := false)
    case Seal => w.(retired := true)
    case DrainTake => w.(queue := w.queue[1..], leaving := w.leaving + {w.queue[0]})
  }

  /** Emptying the channel of a retired worker, one receive after another. */
  function DrainAll(w: Worker): Worker
    requires w.retired && w.producers == {}
    decreases |w.queue|
  {
    if w.queue == [] then w else DrainAll(Do(w, DrainTake, false))
  }

  // ---------------------------------------------------------------- slots

  predicate Busy(p: Phase) { p.Taken? || p.Running? || p.Dropping? }

  function Current(p: Phase): set<Ticket> { if Busy(p) then {p.ticket} else {} }

  ghost function Elems(q: seq<Ticket>): set<Ticket> { set t | t in q }

  ghost function Queued(w: Worker): set<Ticket> { Elems(w.queue) }

  /** The slots reserved on the worker and not yet released. */
  ghost function Pending(w: Worker): set<Ticket> {
    w.producers + Queued(w) + w.leaving + Current(w.phase)
  }

  predicate NoDup(s: seq<Ticket>) { forall i, j :: 0 <= i < j < |s| ==> s[i] != s[j] }

  /** In how many places a ticket stands. */
  ghost function Places(w: Worker, t: Ticket): nat {
    (if t in w.producers then 1 else 0) + (if t in w.queue then 1 else 0) +
    (if t in w.leaving then 1 else 0) + (if Busy(w.phase) && w.phase.ticket == t then 1 else 0) +
    (if t in w.released then 1 else 0)
  }

  /** Every issued ticket is in exactly one place. */
  ghost predicate OnePlaceEach(w: Worker) {
    && NoDup(w.queue)
    && forall t: Ticket :: Places(w, t) == (if t < w.issued then 1 else 0)
  }

  ghost predicate CountMatches(w: Worker) {
    w.pendingCount ==
      |w.producers| + |w.queue| + |w.leaving| + (if Busy(w.phase) then 1 else 0)
  }

  /** The drain channel is closed exactly when nothing is pending; older ones stay closed. */
  ghost predicate DrainMatches(w: Worker) {
    && !w.panicked
    && (w.drained in w.closed <==> w.pendingCount == 0)
    && (forall e: nat :: e < w.drained ==> e in w.closed)
    && (forall e: nat :: e in w.closed ==> e <= w.drained)
  }

  /** A turn running on a fenced worker has a cancelled context. */
  predicate FencedTurnsCancelled(w: Worker, ctxDone: bool) {
    w.phase.Running? && (w.canceling || w.retired) ==> w.phase.cancelled || ctxDone
  }

  /** Only the running turn can be both pending and durably finished, and then its flag is set. */
  ghost predicate FinishedMarked(w: Worker) {
    forall t :: t in w.finished ==>
      t in w.released || (w.phase.Running? && w.phase.ticket == t && w.phase.durable)
  }

  ghost predicate DurableRecorded(w: Worker) {
    w.phase.Running? && w.phase.durable ==> w.phase.ticket in w.finished
  }

  /** The runner was called at most once for each slot, and never for one still waiting. */
  ghost predicate RunsOnce(w: Worker) {
    && NoDup(w.runs)
    && forall t :: t in w.runs ==> t in w.released || (w.phase.Running? && w.phase.ticket == t)
  }

  ghost predicate Inv(w: Worker, ctxDone: bool) {
    && OnePlaceEach(w) && CountMatches(w) && DrainMatches(w)
    && FencedTurnsCancelled(w, ctxDone) && FinishedMarked(w) && DurableRecorded(w) && RunsOnce(w)
  }

  /** How many turns a cancellation reports: BeginDraftCancellation's arithmetic. */
  function Covered(w: Worker): int {
    if w.phase.Running? && w.phase.durable && w.pendingCount > 0 then w.pendingCount - 1
    else w.pendingCount
  }

  // ---------------------------------------------------------------- lemmas

  lemma NewWorkerInv(ctxDone: bool)
    ensures Inv(NEW_WORKER, ctxDone)
  {
  }

  lemma QueueTail(q: seq<Ticket>)
    requires q != [] && NoDup(q)
    ensures NoDup(q[1..]) && q[0] !in q[1..]
    ensures forall t :: t in q <==> t == q[0] || t in q[1..]
  {
    assert q == [q[0]] + q[1..];
  }

  lemma QueueCardinality(q: seq<Ticket>)
    requires NoDup(q)
    ensures |Elems(q)| == |q|
  {
    if q == [] {
    } else {
      QueueTail(q);
      QueueCardinality(q[1..]);
      assert q[0] !in Elems(q[1..]);
      assert Elems(q) == Elems(q[1..]) + {q[0]};
    }
  }

  predicate TakesFirst(op: Op) { op.Receive? || op.FlushReceive? || op.DrainTake? }

  lemma QueueStaysDistinct(w: Worker, op: Op, ctxDone: bool)
    requires OnePlaceEach(w) && Enabled(w, op, ctxDone)
    ensures NoDup(Do(w, op, ctxDone).queue)
  {
    if TakesFirst(op) {
      QueueTail(w.queue);
    } else if op.Send? {
      assert Places(w, op.ticket) == (if op.ticket < w.issued then 1 else 0);
    }
  }

  lemma TakingKeepsPlace(w: Worker, op: Op, ctxDone: bool, t: Ticket)
    requires NoDup(w.queue) && Enabled(w, op, ctxDone) && TakesFirst(op) && Places(w, t) <= 1
    ensures Places(Do(w, op, ctxDone), t) == Places(w, t)
  {
    QueueTail(w.queue);
  }

  /** The steps of producers and of whoever releases a slot that got nowhere. */
  predicate IsOutside(op: Op) { op.Reserve? || op.Send? || op.AbortSend? || op.FinishLeaving? }

  lemma OutsideKeepsPlace(w: Worker, op: Op, ctxDone: bool, t: Ticket)
    requires Enabled(w, op, ctxDone) && IsOutside(op)
    requires Places(w, t) == if t < w.issued then 1 else 0
    ensures Places(Do(w, op, ctxDone), t) == if t < Do(w, op, ctxDone).issued then 1 else 0
  {
  }

  lemma PhaseKeepsPlace(w: Worker, op: Op, ctxDone: bool, t: Ticket)
    requires Enabled(w, op, ctxDone) && !TakesFirst(op) && !IsOutside(op) && Places(w, t) <= 1
    ensures Places(Do(w, op, ctxDone), t) == Places(w, t) && Do(w, op, ctxDone).issued == w.issued
  {
  }

  /** Every step keeps every slot in one place. */
  lemma KeepsPlaces(w: Worker, op: Op, ctxDone: bool)
    requires OnePlaceEach(w) && Enabled(w, op, ctxDone)
    ensures OnePlaceEach(Do(w, op, ctxDone))
  {
    var w' := Do(w, op, ctxDone);
    QueueStaysDistinct(w, op, ctxDone);
    forall t: Ticket ensures Places(w', t) == (if t < w'.issued then 1 else 0) {
      assert Places(w, t) == (if t < w.issued then 1 else 0);
      if TakesFirst(op) {
        TakingKeepsPlace(w, op, ctxDone, t);
      } else if IsOutside(op) {
        OutsideKeepsPlace(w, op, ctxDone, t);
      } else {
        PhaseKeepsPlace(w, op, ctxDone, t);
      }
    }
  }

  lemma MovesCount(w: Worker, op: Op, ctxDone: bool)
    requires CountMatches(w) && Enabled(w, op, ctxDone)
    requires op.Reserve? ==> w.issued !in w.producers
    requires op.AbortSend? ==> op.ticket !in w.leaving
    requires op.DrainTake? ==> w.queue[0] !in w.leaving
    ensures CountMatches(Do(w, op, ctxDone))
  {
    if Releases(op) {
      ReleasingCounts(w, op, ctxDone);
    } else {
      MovingCounts(w, op, ctxDone);
    }
  }

  predicate Releases(op: Op) { op.FinishLeaving? || op.Finish? || op.FlushFinish? }

  lemma ReleasingCounts(w: Worker, op: Op, ctxDone: bool)
    requires CountMatches(w) && Enabled(w, op, ctxDone) && Releases(op)
    ensures CountMatches(Do(w, op, ctxDone))
  {
  }

  lemma MovingCounts(w: Worker, op: Op, ctxDone: bool)
    requires CountMatches(w) && Enabled(w, op, ctxDone) && !Releases(op)
    requires op.Reserve? ==> w.issued !in w.producers
    requires op.AbortSend? ==> op.ticket !in w.leaving
    requires op.DrainTake? ==> w.queue[0] !in w.leaving
    ensures CountMatches(Do(w, op, ctxDone))
  {
  }

  lemma KeepsCount(w: Worker, op: Op, ctxDone: bool)
    requires OnePlaceEach(w) && CountMatches(w) && Enabled(w, op, ctxDone)
    ensures CountMatches(Do(w, op, ctxDone))
  {
    var t := match op
      case Reserve(_) => w.issued
      case AbortSend(t) => t
      case _ => if w.queue != [] then w.queue[0] else 0;
    assert Places(w, t) == (if t < w.issued then 1 else 0);
    MovesCount(w, op, ctxDone);
  }

  lemma ReleasingKeepsDrain(w: Worker, op: Op, ctxDone: bool)
    requires CountMatches(w) && DrainMatches(w) && Enabled(w, op, ctxDone) && Releases(op)
    ensures DrainMatches(Do(w, op, ctxDone))
  {
    if op.FinishLeaving? {
      assert |w.leaving| > 0;
    }
  }

  lemma MovingKeepsDrain(w: Worker, op: Op, ctxDone: bool)
    requires w.pendingCount >= 0 && DrainMatches(w) && Enabled(w, op, ctxDone) && !Releases(op)
    ensures DrainMatches(Do(w, op, ctxDone))
  {
  }

  /** The drain channel is closed when the count reaches zero, and never twice. */
  lemma KeepsDrain(w: Worker, op: Op, ctxDone: bool)
    requires CountMatches(w) && DrainMatches(w) && Enabled(w, op, ctxDone)
    ensures DrainMatches(Do(w, op, ctxDone))
  {
    if Releases(op) {
      ReleasingKeepsDrain(w, op, ctxDone);
    } else {
      MovingKeepsDrain(w, op, ctxDone);
    }
  }

  lemma KeepsFence(w: Worker, op: Op, ctxDone: bool)
    requires FencedTurnsCancelled(w, ctxDone) && Enabled(w, op, ctxDone)
    requires op.Seal? ==> w.canceling || ctxDone
    ensures FencedTurnsCancelled(Do(w, op, ctxDone), ctxDone)
  {
  }

  /** Only the runner's step touches the finished turns, and only the running turn's end its mark. */
  lemma KeepsMarks(w: Worker, op: Op, ctxDone: bool)
    requires FencedTurnsCancelled(w, ctxDone) && FinishedMarked(w) && DurableRecorded(w) && Enabled(w, op, ctxDone)
    requires op.Commit? && !op.fenced ==> w.retired || ctxDone
    ensures FinishedMarked(Do(w, op, ctxDone)) && DurableRecorded(Do(w, op, ctxDone))
  {
    var w' := Do(w, op, ctxDone);
    if !op.Commit? {
      assert w'.finished == w.finished && w.released <= w'.released;
      assert w.phase.Running? && w.phase.ticket !in w'.released ==>
        w'.phase.Running? && w'.phase.ticket == w.phase.ticket && w'.phase.durable == w.phase.durable;
    }
  }

  lemma KeepsRuns(w: Worker, op: Op, ctxDone: bool)
    requires RunsOnce(w) && Enabled(w, op, ctxDone)
    requires op.Start? ==> w.phase.ticket !in w.runs
    ensures RunsOnce(Do(w, op, ctxDone))
  {
  }

  /** What is known of the running turn and of the finished ones stays true. */
  lemma KeepsTurns(w: Worker, op: Op, ctxDone: bool)
    requires Inv(w, ctxDone) && Enabled(w, op, ctxDone)
    requires op.Commit? && !op.fenced ==> w.retired || ctxDone
    requires op.Seal? ==> w.canceling || ctxDone
    ensures
      var w' := Do(w, op, ctxDone);
      && FencedTurnsCancelled(w', ctxDone) && FinishedMarked(w') && DurableRecorded(w')
      && RunsOnce(w')
  {
    KeepsFence(w, op, ctxDone);
    KeepsMarks(w, op, ctxDone);
    if op.Start? {
      assert Places(w, w.phase.ticket) == if w.phase.ticket < w.issued then 1 else 0;
    }
    KeepsRuns(w, op, ctxDone);
  }

  lemma KeepsInv(w: Worker, op: Op, ctxDone: bool)
    requires Inv(w, ctxDone) && Enabled(w, op, ctxDone)
    requires op.Commit? && !op.fenced ==> w.retired || ctxDone
    requires op.Seal? ==> w.canceling || ctxDone
    ensures Inv(Do(w, op, ctxDone), ctxDone)
  {
    KeepsPlaces(w, op, ctxDone);
    KeepsCount(w, op, ctxDone);
    KeepsDrain(w, op, ctxDone);
    KeepsTurns(w, op, ctxDone);
  }

  lemma FourDisjoint(a: set<Ticket>, b: set<Ticket>, c: set<Ticket>, d: set<Ticket>)
    requires a !! b !! c !! d
    ensures |a + b + c + d| == |a| + |b| + |c| + |d|
  {
  }

  lemma PlacesDisjoint(w: Worker)
    requires OnePlaceEach(w)
    ensures w.producers !! Queued(w) !! w.leaving !! Current(w.phase) !! w.released
  {
    forall t: Ticket ensures Places(w, t) <= 1 {}
    assert forall t :: t in Queued(w) ==> t in w.queue && Places(w, t) <= 1;
    assert forall t :: t in w.leaving ==> Places(w, t) <= 1;
    assert forall t :: t in Current(w.phase) ==> Places(w, t) <= 1;
    assert forall t :: t in w.released ==> Places(w, t) <= 1;
  }

  /** `pendingCount` is the number of pending slots, and what a cancellation reports is
      exactly how many of them have no durable terminal yet. */
  lemma CoveredIsExact(w: Worker, ctxDone: bool)
    requires Inv(w, ctxDone)
    ensures w.pendingCount == |Pending(w)|
    ensures Covered(w) == |Pending(w) - w.finished|
  {
    PlacesDisjoint(w);
    QueueCardinality(w.queue);
    FourDisjoint(w.producers, Queued(w), w.leaving, Current(w.phase));
    if w.phase.Running? && w.phase.durable {
      assert Pending(w) - w.finished == Pending(w) - {w.phase.ticket};
    } else {
      assert Pending(w) - w.finished == Pending(w);
    }
  }

  lemma TakeMovesOne(w: Worker)
    requires w.queue != []
    ensures w.leaving + {w.queue[0]} + Elems(w.queue[1..]) == w.leaving + Queued(w)
  {
    assert w.queue == [w.queue[0]] + w.queue[1..];
  }

  lemma {:induction false} DrainAllEmpties(w: Worker)
    requires w.retired && w.producers == {}
    ensures DrainAll(w) == w.(queue := [], leaving := w.leaving + Queued(w))
    decreases |w.queue|
  {
    if w.queue == [] {
      assert w.leaving + Queued(w) == w.leaving;
    } else {
      TakeMovesOne(w);
      DrainAllEmpties(Do(w, DrainTake, false));
    }
  }

  /** Draining moves every queued slot, once, to the goroutines that will release it. */
  lemma {:induction false} DrainAllMovesQueue(w: Worker, ctxDone: bool)
    requires Inv(w, ctxDone) && w.retired && w.producers == {}
    ensures Inv(DrainAll(w), ctxDone)
    ensures DrainAll(w) == w.(queue := [], leaving := w.leaving + Queued(w))
    decreases |w.queue|
  {
    DrainAllEmpties(w);
    if w.queue != [] {
      var w1 := Do(w, DrainTake, false);
      assert Do(w, DrainTake, ctxDone) == w1;
      KeepsInv(w, DrainTake, ctxDone);
      DrainAllMovesQueue(w1, ctxDone);
    }
  }
}
