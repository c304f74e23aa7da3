/**
 * The turn queue's protocol: per-draft workers, nested cancellation barriers that are
 * released or abandoned, and shutdown, interleaved in any order.
 *
 * Each `Step` is one section under the queue's mutex or one step of one worker.
 */
module TurnQueueModel {
  import opened Basics
  import opened DraftWorkers

  type WorkerId = nat
  type Draft = string

  /** Where the owner of a barrier stands in releaseDraftCancellation. */
  datatype BarrierPhase =
    | Held
    | AwaitProducers          // abandoned and sealed, waiting for the producers
    | Draining
    | Unfencing(abandoned: bool)
    | Done

  /** `counted` are the slots behind the number `covered`. */
  datatype Barrier = Barrier(
    draft: Draft,
    worker: Option<WorkerId>,
    done: nat,
    covered: int,
    counted: set<Ticket>,
    phase: BarrierPhase)

  datatype State = State(
    closed: bool,
    ctxDone: bool,
    registry: map<Draft, WorkerId>,
    leases: map<Draft, int>,
    workers: seq<Worker>,
    drafts: seq<Draft>,
    barriers: seq<Barrier>)

  datatype Step =
    | Enqueue(draft: Draft, onlyIfIdle: bool)
    | Local(worker: WorkerId, op: Op)
    | Begin(draft: Draft)
    | Release(barrier: nat)
    | Abandon(barrier: nat)
    | ProducersGone(barrier: nat)
    | DrainDone(barrier: nat)
    | Unfence(barrier: nat)
    | CancelContext
    | Close
    | CloseSeal(worker: WorkerId)

  const INITIAL: State := State(false, false, map[], map[], [], [], [])

  function Leases(s: State, d: Draft): int { if d in s.leases then s.leases[d] else 0 }

  predicate Registered(s: State, i: WorkerId) {
    && i < |s.drafts| && s.drafts[i] in s.registry && s.registry[s.drafts[i]] == i
  }

  predicate RefersToWorker(s: State, b: Barrier) {
    && b.worker.Some? && b.draft in s.registry && s.registry[b.draft] == b.worker.value
  }

  predicate Shaped(s: State) {
    && |s.drafts| == |s.workers|
    && (forall d :: d in s.registry ==> s.registry[d] < |s.workers| && s.drafts[s.registry[d]] == d)
    && (forall b :: 0 <= b < |s.barriers| && s.barriers[b].worker.Some? ==>
          s.barriers[b].worker.value < |s.workers|
          && s.drafts[s.barriers[b].worker.value] == s.barriers[b].draft)
  }

  /** The steps a worker, a producer or a drain goroutine takes by itself. */
  predicate IsLocal(op: Op) {
    !op.Reserve? && !op.BeginCancel? && !op.Reopen? && !op.Seal?
  }

  /** A drain goroutine works for an abandoned barrier, or for Close. */
  predicate MayDrain(s: State, i: WorkerId) {
    s.closed ||
    exists b :: 0 <= b < |s.barriers|
      && s.barriers[b].worker == Some(i) && s.barriers[b].phase == Draining
  }

  predicate CanReserve(s: State, d: Draft, onlyIfIdle: bool)
    requires Shaped(s)
  {
    && d != "" && !s.closed && !s.ctxDone && Leases(s, d) <= 0
    && (d in s.registry ==>
          DraftWorkers.Enabled(s.workers[s.registry[d]], Reserve(onlyIfIdle), s.ctxDone))
  }

  predicate Enabled(s: State, step: Step)
    requires Shaped(s)
  {
    match step
    case Enqueue(d, onlyIfIdle) => CanReserve(s, d, onlyIfIdle)
    case Local(i, op) =>
      && i < |s.workers| && IsLocal(op) && DraftWorkers.Enabled(s.workers[i], op, s.ctxDone)
      && (op.Commit? ==> op.fenced == Registered(s, i))
      && (op.DrainTake? ==> MayDrain(s, i))
    case Begin(d) => d != "" && !s.closed && !s.ctxDone
    case Release(b) => b < |s.barriers| && s.barriers[b].phase == Held
    case Abandon(b) => b < |s.barriers| && s.barriers[b].phase == Held
    case ProducersGone(b) =>
      && b < |s.barriers| && s.barriers[b].phase == AwaitProducers && s.barriers[b].worker.Some?
      && s.workers[s.barriers[b].worker.value].producers == {}
    case DrainDone(b) =>
      && b < |s.barriers| && s.barriers[b].phase == Draining && s.barriers[b].worker.Some?
      && s.workers[s.barriers[b].worker.value].queue == []
    case Unfence(b) => b < |s.barriers| && s.barriers[b].phase.Unfencing?
    case CancelContext => true
    case Close => !s.closed
    case CloseSeal(i) => s.closed && i < |s.workers|
  }

  function OnWorker(s: State, i: WorkerId, op: Op): State
    requires i < |s.workers| && DraftWorkers.Enabled(s.workers[i], op, s.ctxDone)
  {
    s.(workers := s.workers[i := DraftWorkers.Do(s.workers[i], op, s.ctxDone)])
  }

  function SetPhase(s: State, b: nat, phase: BarrierPhase): State
    requires b < |s.barriers|
  {
    s.(barriers := s.barriers[b := s.barriers[b].(phase := phase)])
  }

  /** getOrCreate in enqueue. */
  function WithWorker(s: State, d: Draft): State
    requires Shaped(s)
  {
    if d in s.registry then s
    else s.(registry := s.registry[d := |s.workers|], workers := s.workers + [NEW_WORKER],
            drafts := s.drafts + [d])
  }

  /** The last section of releaseDraftCancellation. */
  function DoUnfence(s: State, b: nat): State
    requires Shaped(s) && b < |s.barriers| && s.barriers[b].phase.Unfencing?
  {
    var barrier := s.barriers[b];
    var s := SetPhase(s, b, Done);
    var leases := Leases(s, barrier.draft) - 1;
    if leases > 0 then s.(leases := s.leases[barrier.draft := leases])
    else
      var s := s.(leases := s.leases - {barrier.draft});
      if !barrier.phase.abandoned && RefersToWorker(s, barrier)
      then OnWorker(s, barrier.worker.value, Reopen)
      else s
  }

  ghost function DoBegin(s: State, d: Draft): State
    requires Shaped(s)
  {
    var s := s.(leases := s.leases[d := Leases(s, d) + 1]);
    if d in s.registry then
      var w := s.workers[s.registry[d]];
      OnWorker(s, s.registry[d], BeginCancel).(barriers := s.barriers +
        [Barrier(d, Some(s.registry[d]), w.drained, Covered(w), Pending(w) - w.finished, Held)])
    else
      s.(barriers := s.barriers + [Barrier(d, None, 0, 0, {}, Held)])
  }

  ghost function Do(s: State, step: Step): State
    requires Shaped(s) && Enabled(s, step)
  {
    match step
    case Enqueue(d, onlyIfIdle) =>
      var s := WithWorker(s, d);
      OnWorker(s, s.registry[d], Reserve(onlyIfIdle))
    case Local(i, op) => OnWorker(s, i, op)
    case Begin(d) => DoBegin(s, d)
    case Release(b) => SetPhase(s, b, Unfencing(false))
    case Abandon(b) =>
      if RefersToWorker(s, s.barriers[b]) then
        var s := SetPhase(s, b, AwaitProducers);
        OnWorker(s.(registry := s.registry - {s.barriers[b].draft}),
                 s.barriers[b].worker.value, Seal)
      else SetPhase(s, b, Unfencing(true))
    case ProducersGone(b) => SetPhase(s, b, Draining)
    case DrainDone(b) => SetPhase(s, b, Unfencing(true))
    case Unfence(b) => DoUnfence(s, b)
    case CancelContext => s.(ctxDone := true)
    case Close => s.(closed := true, ctxDone := true, registry := map[], leases := map[])
    case CloseSeal(i) => OnWorker(s, i, Seal)
  }

  // ---------------------------------------------------------------- the invariant

  predicate Outstanding(b: Barrier) { b.phase != Done }

  predicate Abandoned(b: Barrier) {
    b.phase.AwaitProducers? || b.phase.Draining? || (b.phase.Unfencing? && b.phase.abandoned)
  }

  ghost function OutstandingFor(barriers: seq<Barrier>, d: Draft): set<nat> {
    set b: nat | b < |barriers| && barriers[b].draft == d && Outstanding(barriers[b])
  }

  ghost predicate WorkersOk(s: State) {
    forall i :: 0 <= i < |s.workers| ==> Inv(s.workers[i], s.ctxDone)
  }

  /** The lease of a draft is the number of its outstanding barriers. */
  ghost predicate LeasesCount(s: State) {
    !s.closed ==>
      && (forall d :: Leases(s, d) == |OutstandingFor(s.barriers, d)|)
      && (forall d :: d in s.leases ==> s.leases[d] > 0)
  }

  /** A registered worker is canceling exactly while its draft has a lease, and is not retired. */
  ghost predicate CancelingIffLeased(s: State)
    requires Shaped(s)
  {
    forall d :: d in s.registry ==>
      && !s.workers[s.registry[d]].retired
      && (s.workers[s.registry[d]].canceling <==> Leases(s, d) > 0)
  }

  ghost predicate ClosedIsEmpty(s: State) {
    s.closed ==> s.ctxDone && s.registry == map[]
  }

  ghost predicate UnregisteredFenced(s: State) {
    forall i :: 0 <= i < |s.workers| && !Registered(s, i) ==> s.workers[i].retired || s.ctxDone
  }

  /** What an outstanding barrier knows about its worker. */
  ghost predicate BarrierOk(s: State, b: Barrier)
    requires b.worker.Some? ==> b.worker.value < |s.workers|
  {
    Outstanding(b) ==>
      match b.worker
      case None =>
        && (b.phase.Held? || b.phase.Unfencing?)
        && b.draft !in s.registry
      case Some(i) =>
        && b.done == s.workers[i].drained
        && (b.draft in s.registry ==> RefersToWorker(s, b) && !Abandoned(b))
        && (b.draft !in s.registry ==> s.workers[i].retired || s.closed)
        && (b.phase.Draining? ==> s.workers[i].producers == {})
  }

  ghost predicate BarriersOk(s: State)
    requires Shaped(s)
  {
    forall b :: 0 <= b < |s.barriers| ==> BarrierOk(s, s.barriers[b])
  }

  /** An abandoned barrier is still emptying worker `i`. */
  ghost predicate HasDrainer(barriers: seq<Barrier>, i: WorkerId) {
    exists b :: 0 <= b < |barriers| && barriers[b].worker == Some(i)
      && (barriers[b].phase == AwaitProducers || barriers[b].phase == Draining)
  }

  predicate Empty(w: Worker) { w.producers == {} && w.queue == [] }

  /** Somebody is still emptying an abandoned worker, or it is empty for good. */
  ghost predicate DrainedOrDraining(s: State) {
    !s.closed ==>
      forall i :: 0 <= i < |s.workers| && s.workers[i].retired ==>
        Empty(s.workers[i]) || HasDrainer(s.barriers, i)
  }

  ghost predicate Fences(s: State) {
    && Shaped(s) && LeasesCount(s) && CancelingIffLeased(s) && ClosedIsEmpty(s)
    && UnregisteredFenced(s) && BarriersOk(s) && DrainedOrDraining(s)
  }

  ghost predicate GlobalInv(s: State) { Fences(s) && WorkersOk(s) }

  // ---------------------------------------------------------------- preservation

  lemma InitialInv()
    ensures GlobalInv(INITIAL)
  {
    forall d ensures Leases(INITIAL, d) == |OutstandingFor(INITIAL.barriers, d)| {
      assert OutstandingFor(INITIAL.barriers, d) == {};
    }
  }

  lemma WorkersKeep(s: State, s': State, i: WorkerId)
    requires WorkersOk(s) && i < |s.workers| == |s'.workers| && s'.ctxDone == s.ctxDone
    requires s'.workers == s.workers[i := s'.workers[i]] && Inv(s'.workers[i], s.ctxDone)
    ensures WorkersOk(s')
  {
  }

  /** The step of one worker that no other part of the queue can see. */
  ghost predicate Invisible(w: Worker, w': Worker) {
    && w'.retired == w.retired && w'.canceling == w.canceling && w'.drained == w.drained
    && w'.producers <= w.producers
    && (w.producers == {} && w.queue == [] ==> w'.queue == [])
  }

  lemma LocalIsInvisible(w: Worker, op: Op, ctxDone: bool)
    requires IsLocal(op) && DraftWorkers.Enabled(w, op, ctxDone)
    ensures Invisible(w, DraftWorkers.Do(w, op, ctxDone))
  {
  }

  lemma InvisibleKeepsFences(s: State, i: WorkerId, w': Worker)
    requires Fences(s) && i < |s.workers| && Invisible(s.workers[i], w')
    ensures Fences(s.(workers := s.workers[i := w']))
  {
    var s' := s.(workers := s.workers[i := w']);
    forall j | 0 <= j < |s'.workers| ensures Registered(s', j) == Registered(s, j) {}
    forall b | 0 <= b < |s'.barriers| ensures BarrierOk(s', s'.barriers[b]) {
      assert BarrierOk(s, s.barriers[b]);
    }
  }

  lemma LocalKeeps(s: State, i: WorkerId, op: Op)
    requires GlobalInv(s) && Enabled(s, Local(i, op))
    ensures GlobalInv(Do(s, Local(i, op)))
  {
    assert Inv(s.workers[i], s.ctxDone);
    KeepsInv(s.workers[i], op, s.ctxDone);
    LocalIsInvisible(s.workers[i], op, s.ctxDone);
    var w' := DraftWorkers.Do(s.workers[i], op, s.ctxDone);
    InvisibleKeepsFences(s, i, w');
    WorkersKeep(s, s.(workers := s.workers[i := w']), i);
  }

  lemma NoLeaseNoBarrier(s: State, d: Draft)
    requires LeasesCount(s) && !s.closed && Leases(s, d) <= 0
    ensures forall b: nat :: b < |s.barriers| && s.barriers[b].draft == d ==>
      s.barriers[b].phase == Done
  {
    assert Leases(s, d) == |OutstandingFor(s.barriers, d)|;
    forall b: nat | b < |s.barriers| && s.barriers[b].draft == d ensures s.barriers[b].phase == Done {
      assert b !in OutstandingFor(s.barriers, d);
    }
  }

  lemma FreshWorkerKeepsFences(s: State, d: Draft)
    requires Fences(s) && !s.closed && Leases(s, d) <= 0 && d !in s.registry
    ensures Fences(WithWorker(s, d))
  {
    var s' := WithWorker(s, d);
    NoLeaseNoBarrier(s, d);
    forall j | 0 <= j < |s.workers| ensures Registered(s', j) == Registered(s, j) {}
    forall b | 0 <= b < |s'.barriers| ensures BarrierOk(s', s'.barriers[b]) {
      assert BarrierOk(s, s.barriers[b]);
    }
  }

  lemma WithWorkerKeeps(s: State, d: Draft)
    requires GlobalInv(s) && !s.closed && Leases(s, d) <= 0
    ensures GlobalInv(WithWorker(s, d))
  {
    if d !in s.registry {
      FreshWorkerKeepsFences(s, d);
      NewWorkerInv(s.ctxDone);
    }
  }

  /** A reservation is seen by no barrier: its draft has none outstanding. */
  lemma ReserveKeepsFences(s: State, d: Draft, w': Worker)
    requires Fences(s) && !s.closed && Leases(s, d) <= 0 && d in s.registry
    requires var w := s.workers[s.registry[d]]; w'.retired == w.retired && w'.canceling == w.canceling
    ensures Fences(s.(workers := s.workers[s.registry[d] := w']))
  {
    var i := s.registry[d];
    var s' := s.(workers := s.workers[i := w']);
    NoLeaseNoBarrier(s, d);
    forall j | 0 <= j < |s'.workers| ensures Registered(s', j) == Registered(s, j) {}
    forall b | 0 <= b < |s'.barriers| ensures BarrierOk(s', s'.barriers[b]) {
      assert BarrierOk(s, s.barriers[b]);
    }
  }

  lemma EnqueueKeeps(s: State, d: Draft, onlyIfIdle: bool)
    requires GlobalInv(s) && CanReserve(s, d, onlyIfIdle)
    ensures GlobalInv(Do(s, Enqueue(d, onlyIfIdle)))
  {
    WithWorkerKeeps(s, d);
    var s0 := WithWorker(s, d);
    var i := s0.registry[d];
    assert Inv(s0.workers[i], s.ctxDone);
    KeepsInv(s0.workers[i], Reserve(onlyIfIdle), s.ctxDone);
    var w' := DraftWorkers.Do(s0.workers[i], Reserve(onlyIfIdle), s.ctxDone);
    ReserveKeepsFences(s0, d, w');
    WorkersKeep(s0, s0.(workers := s0.workers[i := w']), i);
  }

  lemma OneMoreOutstanding(barriers: seq<Barrier>, b: Barrier, d: Draft)
    requires Outstanding(b)
    ensures |OutstandingFor(barriers + [b], d)| ==
      |OutstandingFor(barriers, d)| + (if d == b.draft then 1 else 0)
  {
    if d == b.draft {
      assert OutstandingFor(barriers + [b], d) == OutstandingFor(barriers, d) + {|barriers|};
    } else {
      assert OutstandingFor(barriers + [b], d) == OutstandingFor(barriers, d);
    }
  }

  lemma OneMoreBarrier(s: State, b: Barrier)
    requires LeasesCount(s) && !s.closed && Outstanding(b)
    ensures LeasesCount(s.(leases := s.leases[b.draft := Leases(s, b.draft) + 1],
                           barriers := s.barriers + [b]))
  {
    forall d ensures |OutstandingFor(s.barriers + [b], d)| ==
        Leases(s, d) + (if d == b.draft then 1 else 0) {
      OneMoreOutstanding(s.barriers, b, d);
    }
  }

  /** A new barrier of draft `d`, whose worker, if there is one, is now `w'`. */
  ghost predicate Begun(s: State, d: Draft, w': Worker, b: Barrier, s': State) {
    && Shaped(s) && b.draft == d && b.phase == Held
    && s' == s.(leases := s.leases[d := Leases(s, d) + 1], barriers := s.barriers + [b], workers := s'.workers)
    && if d in s.registry then
         var w := s.workers[s.registry[d]];
         && b.worker == Some(s.registry[d]) && b.done == w.drained
         && w' == w.(canceling := true, phase := w'.phase) && s'.workers == s.workers[s.registry[d] := w']
       else b.worker == None && s'.workers == s.workers
  }

  lemma BeginKeepsBarriers(s: State, d: Draft, w': Worker, b: Barrier, s': State)
    requires Shaped(s) && BarriersOk(s) && Begun(s, d, w', b, s')
    requires d in s.registry ==> !s.workers[s.registry[d]].retired
    ensures Shaped(s') && BarriersOk(s')
  {
    forall c | 0 <= c < |s'.barriers| ensures BarrierOk(s', s'.barriers[c]) {
      if c < |s.barriers| {
        assert BarrierOk(s, s.barriers[c]);
      }
    }
  }

  lemma BeginKeepsDrainers(s: State, d: Draft, w': Worker, b: Barrier, s': State)
    requires DrainedOrDraining(s) && Begun(s, d, w', b, s')
    ensures DrainedOrDraining(s')
  {
    forall i | 0 <= i < |s'.workers| && HasDrainer(s.barriers, i) ensures HasDrainer(s'.barriers, i) {
      var c :| 0 <= c < |s.barriers| && s.barriers[c].worker == Some(i)
        && (s.barriers[c].phase == AwaitProducers || s.barriers[c].phase == Draining);
      assert s'.barriers[c] == s.barriers[c];
    }
  }

  lemma BeginKeepsFences(s: State, d: Draft, w': Worker, b: Barrier, s': State)
    requires Fences(s) && !s.closed && Begun(s, d, w', b, s')
    ensures Fences(s')
  {
    OneMoreBarrier(s, b);
    assert Leases(s, d) == |OutstandingFor(s.barriers, d)|;
    forall j | 0 <= j < |s'.workers| ensures Registered(s', j) == Registered(s, j) {}
    BeginKeepsBarriers(s, d, w', b, s');
    BeginKeepsDrainers(s, d, w', b, s');
  }

  lemma BeginKeeps(s: State, d: Draft)
    requires GlobalInv(s) && Enabled(s, Begin(d))
    ensures GlobalInv(Do(s, Begin(d)))
  {
    if d in s.registry {
      CancellingKeeps(s, d, Do(s, Begin(d)));
    } else {
      BeginKeepsFences(s, d, NEW_WORKER, Barrier(d, None, 0, 0, {}, Held), Do(s, Begin(d)));
    }
  }

  lemma CancellingIs(s: State, d: Draft, w: Worker, w': Worker)
    requires Shaped(s) && d in s.registry && w == s.workers[s.registry[d]]
    requires w' == DraftWorkers.Do(w, BeginCancel, s.ctxDone)
    ensures Begun(s, d, w', Barrier(d, Some(s.registry[d]), w.drained, Covered(w), Pending(w) - w.finished, Held),
                  DoBegin(s, d))
  {
  }

  lemma CancellingKeeps(s: State, d: Draft, s': State)
    requires GlobalInv(s) && !s.closed && d in s.registry && s' == DoBegin(s, d)
    ensures GlobalInv(s')
  {
    var i := s.registry[d];
    var w := s.workers[i];
    var w' := DraftWorkers.Do(w, BeginCancel, s.ctxDone);
    CancellingIs(s, d, w, w');
    KeepsInv(w, BeginCancel, s.ctxDone);
    BeginKeepsFences(s, d, w', Barrier(d, Some(i), w.drained, Covered(w), Pending(w) - w.finished, Held), s');
    WorkersKeep(s, s', i);
  }

  /** Moving a barrier along without ending it changes no lease. */
  lemma PhaseKeepsLeases(s: State, b: nat, phase: BarrierPhase)
    requires LeasesCount(s) && b < |s.barriers| && Outstanding(s.barriers[b]) && phase != Done
    ensures LeasesCount(SetPhase(s, b, phase))
  {
    forall d ensures OutstandingFor(SetPhase(s, b, phase).barriers, d) == OutstandingFor(s.barriers, d) {}
  }

  /** Whoever still drains another worker goes on doing so. */
  lemma PhaseKeepsDrainers(s: State, b: nat, phase: BarrierPhase)
    requires DrainedOrDraining(s) && b < |s.barriers|
    requires s.barriers[b].phase == AwaitProducers || s.barriers[b].phase == Draining ==>
      || phase == Draining || phase == AwaitProducers
      || (s.barriers[b].worker.Some? && s.barriers[b].worker.value < |s.workers|
          && Empty(s.workers[s.barriers[b].worker.value]))
    ensures DrainedOrDraining(SetPhase(s, b, phase))
  {
    var s' := SetPhase(s, b, phase);
    forall i | 0 <= i < |s.workers| && HasDrainer(s.barriers, i) && !Empty(s.workers[i])
      ensures HasDrainer(s'.barriers, i)
    {
      var c :| 0 <= c < |s.barriers| && s.barriers[c].worker == Some(i)
        && (s.barriers[c].phase == AwaitProducers || s.barriers[c].phase == Draining);
      assert s'.barriers[c].worker == Some(i);
    }
  }

  lemma PhaseKeepsFences(s: State, b: nat, phase: BarrierPhase)
    requires Fences(s) && b < |s.barriers| && Outstanding(s.barriers[b]) && phase != Done
    requires s.barriers[b].worker.None? ==> phase.Unfencing?
    requires phase == Draining || phase.Unfencing?
    requires phase == Draining ==>
      s.barriers[b].phase == AwaitProducers && s.workers[s.barriers[b].worker.value].producers == {}
    requires phase.Unfencing? ==>
      (s.barriers[b].phase == Held && (phase.abandoned ==> !RefersToWorker(s, s.barriers[b])))
      || (s.barriers[b].phase == Draining && s.workers[s.barriers[b].worker.value].queue == [])
    ensures Fences(SetPhase(s, b, phase))
  {
    var s' := SetPhase(s, b, phase);
    PhaseKeepsLeases(s, b, phase);
    assert BarrierOk(s, s.barriers[b]);
    PhaseKeepsDrainers(s, b, phase);
    forall j | 0 <= j < |s'.workers| ensures Registered(s', j) == Registered(s, j) {}
    forall c | 0 <= c < |s'.barriers| ensures BarrierOk(s', s'.barriers[c]) {
      assert BarrierOk(s, s.barriers[c]);
    }
  }

  /** Abandoning unregisters the worker and seals it in one section. */
  lemma AbandonKeepsFences(s: State, b: nat, w': Worker)
    requires Fences(s) && b < |s.barriers| && s.barriers[b].phase == Held
    requires RefersToWorker(s, s.barriers[b])
    requires w' == s.workers[s.barriers[b].worker.value].(retired := true)
    ensures
      var i := s.barriers[b].worker.value;
      Fences(SetPhase(s, b, AwaitProducers).(registry := s.registry - {s.barriers[b].draft},
                                             workers := s.workers[i := w']))
  {
    var i := s.barriers[b].worker.value;
    var s1 := SetPhase(s, b, AwaitProducers);
    var s' := s1.(registry := s.registry - {s.barriers[b].draft}, workers := s.workers[i := w']);
    PhaseKeepsLeases(s, b, AwaitProducers);
    PhaseKeepsDrainers(s, b, AwaitProducers);
    assert s'.barriers[b].worker == Some(i) && s'.barriers[b].phase == AwaitProducers;
    forall j | 0 <= j < |s'.workers| ensures Registered(s', j) == (Registered(s, j) && j != i) {}
    AbandonKeepsBarriers(s, b, w', s');
  }

  lemma AbandonKeepsBarriers(s: State, b: nat, w': Worker, s': State)
    requires Fences(s) && b < |s.barriers| && s.barriers[b].phase == Held
    requires RefersToWorker(s, s.barriers[b])
    requires w' == s.workers[s.barriers[b].worker.value].(retired := true)
    requires s' == SetPhase(s, b, AwaitProducers).(registry := s.registry - {s.barriers[b].draft},
                                                   workers := s.workers[s.barriers[b].worker.value := w'])
    ensures BarriersOk(s')
  {
    forall c | 0 <= c < |s'.barriers| ensures BarrierOk(s', s'.barriers[c]) {
      assert BarrierOk(s, s.barriers[c]);
    }
  }

  /** The lease an abandoned or released barrier gives back. */
  lemma OneLessOutstanding(barriers: seq<Barrier>, b: nat, d: Draft)
    requires b < |barriers| && Outstanding(barriers[b])
    ensures |OutstandingFor(barriers[b := barriers[b].(phase := Done)], d)| ==
      |OutstandingFor(barriers, d)| - (if d == barriers[b].draft then 1 else 0)
  {
    var after := barriers[b := barriers[b].(phase := Done)];
    if d == barriers[b].draft {
      assert b in OutstandingFor(barriers, d);
      assert OutstandingFor(after, d) == OutstandingFor(barriers, d) - {b};
    } else {
      assert OutstandingFor(after, d) == OutstandingFor(barriers, d);
    }
  }

  lemma UnfenceKeepsLeases(s: State, b: nat, leases: map<Draft, int>)
    requires LeasesCount(s) && b < |s.barriers| && Outstanding(s.barriers[b])
    requires var d := s.barriers[b].draft;
      leases == if Leases(s, d) - 1 > 0 then s.leases[d := Leases(s, d) - 1] else s.leases - {d}
    ensures LeasesCount(SetPhase(s, b, Done).(leases := leases))
  {
    var s' := SetPhase(s, b, Done).(leases := leases);
    if !s.closed {
      forall d ensures |OutstandingFor(s'.barriers, d)| == Leases(s', d) {
        OneLessOutstanding(s.barriers, b, d);
        assert Leases(s, d) == |OutstandingFor(s.barriers, d)|;
      }
    }
  }

  lemma UnfenceKeepsFences(s: State, b: nat, leases: map<Draft, int>)
    requires Fences(s) && b < |s.barriers| && s.barriers[b].phase.Unfencing?
    requires var d := s.barriers[b].draft;
      leases == if Leases(s, d) - 1 > 0 then s.leases[d := Leases(s, d) - 1] else s.leases - {d}
    requires s.barriers[b].draft in s.registry ==> s.barriers[b].draft in leases
    ensures Fences(SetPhase(s, b, Done).(leases := leases))
  {
    var s' := SetPhase(s, b, Done).(leases := leases);
    UnfenceKeepsLeases(s, b, leases);
    PhaseKeepsDrainers(s, b, Done);
    forall j | 0 <= j < |s'.workers| ensures Registered(s', j) == Registered(s, j) {}
    forall c | 0 <= c < |s'.barriers| ensures BarrierOk(s', s'.barriers[c]) {
      assert BarrierOk(s, s.barriers[c]);
    }
  }

  /** The last barrier of a registered worker reopens it. */
  lemma ReopenKeepsFences(s: State, b: nat, w': Worker)
    requires Fences(s) && !s.closed && b < |s.barriers| && s.barriers[b].phase.Unfencing?
    requires Leases(s, s.barriers[b].draft) - 1 <= 0
    requires RefersToWorker(s, s.barriers[b])
    requires w' == s.workers[s.barriers[b].worker.value].(canceling := false)
    ensures
      Fences(SetPhase(s, b, Done).(leases := s.leases - {s.barriers[b].draft},
                                   workers := s.workers[s.barriers[b].worker.value := w']))
  {
    var d := s.barriers[b].draft;
    var i := s.barriers[b].worker.value;
    var s1 := SetPhase(s, b, Done).(leases := s.leases - {d});
    var s' := s1.(workers := s.workers[i := w']);
    UnfenceKeepsLeases(s, b, s.leases - {d});
    PhaseKeepsDrainers(s, b, Done);
    forall j | 0 <= j < |s'.workers| ensures Registered(s', j) == Registered(s, j) {}
    forall c | 0 <= c < |s'.barriers| ensures BarrierOk(s', s'.barriers[c]) {
      assert BarrierOk(s, s.barriers[c]);
    }
  }

  lemma SealKeepsWorkers(s: State, s': State, i: WorkerId)
    requires WorkersOk(s) && i < |s.workers| && s'.ctxDone == s.ctxDone
    requires s.workers[i].canceling || s.ctxDone
    requires s'.workers == s.workers[i := DraftWorkers.Do(s.workers[i], Seal, s.ctxDone)]
    ensures WorkersOk(s')
  {
    KeepsInv(s.workers[i], Seal, s.ctxDone);
    WorkersKeep(s, s', i);
  }

  lemma AbandonKeeps(s: State, b: nat)
    requires GlobalInv(s) && Enabled(s, Abandon(b))
    ensures GlobalInv(Do(s, Abandon(b)))
  {
    if RefersToWorker(s, s.barriers[b]) {
      var i := s.barriers[b].worker.value;
      assert b in OutstandingFor(s.barriers, s.barriers[b].draft);
      assert Leases(s, s.barriers[b].draft) == |OutstandingFor(s.barriers, s.barriers[b].draft)|;
      AbandonKeepsFences(s, b, DraftWorkers.Do(s.workers[i], Seal, s.ctxDone));
      SealKeepsWorkers(s, Do(s, Abandon(b)), i);
    } else {
      PhaseKeepsFences(s, b, Unfencing(true));
    }
  }

  lemma UnfenceKeeps(s: State, b: nat)
    requires GlobalInv(s) && Enabled(s, Unfence(b))
    ensures GlobalInv(Do(s, Unfence(b)))
  {
    var d := s.barriers[b].draft;
    var s' := Do(s, Unfence(b));
    if Leases(s, d) - 1 > 0 {
      UnfenceKeepsFences(s, b, s.leases[d := Leases(s, d) - 1]);
    } else if !s.barriers[b].phase.abandoned && RefersToWorker(s, s.barriers[b]) {
      ReopeningKeeps(s, b, s');
    } else {
      ForgettingKeeps(s, b, s');
    }
  }

  lemma ForgettingKeeps(s: State, b: nat, s': State)
    requires GlobalInv(s) && Enabled(s, Unfence(b)) && s' == Do(s, Unfence(b))
    requires Leases(s, s.barriers[b].draft) - 1 <= 0
    requires s.barriers[b].phase.abandoned || !RefersToWorker(s, s.barriers[b])
    ensures GlobalInv(s')
  {
    var d := s.barriers[b].draft;
    assert BarrierOk(s, s.barriers[b]);
    assert s' == SetPhase(s, b, Done).(leases := s.leases - {d});
    UnfenceKeepsFences(s, b, s.leases - {d});
  }

  lemma ReopeningIs(s: State, b: nat, w': Worker)
    requires Shaped(s) && b < |s.barriers| && s.barriers[b].phase.Unfencing?
    requires Leases(s, s.barriers[b].draft) - 1 <= 0
    requires !s.barriers[b].phase.abandoned && RefersToWorker(s, s.barriers[b])
    requires w' == DraftWorkers.Do(s.workers[s.barriers[b].worker.value], Reopen, s.ctxDone)
    ensures DoUnfence(s, b)
      == SetPhase(s, b, Done).(leases := s.leases - {s.barriers[b].draft},
                               workers := s.workers[s.barriers[b].worker.value := w'])
  {
  }

  lemma ReopeningKeeps(s: State, b: nat, s': State)
    requires GlobalInv(s) && Enabled(s, Unfence(b)) && s' == DoUnfence(s, b)
    requires Leases(s, s.barriers[b].draft) - 1 <= 0
    requires !s.barriers[b].phase.abandoned && RefersToWorker(s, s.barriers[b])
    ensures GlobalInv(s')
  {
    var i := s.barriers[b].worker.value;
    var w' := DraftWorkers.Do(s.workers[i], Reopen, s.ctxDone);
    ReopeningIs(s, b, w');
    ReopenKeepsFences(s, b, w');
    KeepsInv(s.workers[i], Reopen, s.ctxDone);
    WorkersKeep(s, s', i);
  }

  lemma ShutdownKeeps(s: State, s': State)
    requires GlobalInv(s)
    requires s' == s.(ctxDone := true)
      || s' == s.(closed := true, ctxDone := true, registry := map[], leases := map[])
    ensures GlobalInv(s')
  {
    forall i | 0 <= i < |s'.workers| ensures Inv(s'.workers[i], s'.ctxDone) {
      assert Inv(s.workers[i], s.ctxDone);
    }
    forall c | 0 <= c < |s'.barriers| ensures BarrierOk(s', s'.barriers[c]) {
      assert BarrierOk(s, s.barriers[c]);
    }
    if s'.registry == s.registry {
      forall j | 0 <= j < |s'.workers| ensures Registered(s', j) == Registered(s, j) {}
    }
  }

  lemma CloseSealKeeps(s: State, i: WorkerId)
    requires GlobalInv(s) && Enabled(s, CloseSeal(i))
    ensures GlobalInv(Do(s, CloseSeal(i)))
  {
    var s' := Do(s, CloseSeal(i));
    SealKeepsWorkers(s, s', i);
    forall c | 0 <= c < |s'.barriers| ensures BarrierOk(s', s'.barriers[c]) {
      assert BarrierOk(s, s.barriers[c]);
    }
  }

  /** Every step keeps the whole invariant. */
  lemma StepKeeps(s: State, step: Step)
    requires GlobalInv(s) && Enabled(s, step)
    ensures GlobalInv(Do(s, step))
  {
    match step
    case Enqueue(d, onlyIfIdle) => EnqueueKeeps(s, d, onlyIfIdle);
    case Local(i, op) => LocalKeeps(s, i, op);
    case Begin(d) => BeginKeeps(s, d);
    case Release(b) => PhaseKeepsFences(s, b, Unfencing(false));
    case Abandon(b) => AbandonKeeps(s, b);
    case ProducersGone(b) => PhaseKeepsFences(s, b, Draining);
    case DrainDone(b) => PhaseKeepsFences(s, b, Unfencing(true));
    case Unfence(b) => UnfenceKeeps(s, b);
    case CancelContext => ShutdownKeeps(s, Do(s, step));
    case Close => ShutdownKeeps(s, Do(s, step));
    case CloseSeal(i) => CloseSealKeeps(s, i);
  }
}
