/**
 * No fence is for ever: from every reachable state of a running queue, whatever barriers stand
 * and whoever was abandoned, there is a way on to a state in which the draft takes turns again.
 */
module TurnQueueProgress {
  import opened Basics
  import opened DraftWorkers
  import opened TurnQueueModel
  import opened TurnQueueSafety
  import opened TurnQueueService
  import opened UnwaitedRelease

  ghost predicate Connects(states: seq<State>, steps: seq<Step>, s: State, s': State) {
    Path(states, steps) && states[0] == s && states[|steps|] == s'
  }

  /** Some steps lead from `s` to `s'`. */
  ghost predicate Reaches(s: State, s': State) { exists states, steps :: Connects(states, steps, s, s') }

  lemma ReachesItself(s: State)
    ensures Reaches(s, s)
  {
    var steps: seq<Step> := [];
    assert Connects([s], steps, s, s);
  }

  lemma StepReaches(s: State, step: Step, s': State)
    requires Follows(s, step, s')
    ensures Reaches(s, s')
  {
    assert Connects([s, s'], [step], s, s');
  }

  lemma ReachesOn(a: State, b: State, c: State)
    requires Reaches(a, b) && Reaches(b, c)
    ensures Reaches(a, c)
  {
    var p, x :| Connects(p, x, a, b);
    var q, y :| Connects(q, y, b, c);
    var states, steps := p + q[1..], x + y;
    forall i | 0 <= i < |steps| ensures Follows(states[i], steps[i], states[i + 1]) {
      if i < |x| {
        assert Follows(p[i], x[i], p[i + 1]);
      } else {
        var j := i - |x|;
        assert Follows(q[j], y[j], q[j + 1]) && states[i + 1] == q[j + 1];
        assert j > 0 ==> states[i] == q[j];
      }
    }
    assert Connects(states, steps, a, c);
  }

  lemma {:induction false} ReachableOn(states: seq<State>, steps: seq<Step>, i: nat)
    requires Path(states, steps) && Reachable(states[0]) && i < |states|
    ensures Reachable(states[i])
  {
    if i > 0 {
      ReachableOn(states, steps, i - 1);
      assert Follows(states[i - 1], steps[i - 1], states[i]);
      ReachableNext(states[i - 1], steps[i - 1], states[i]);
    }
  }

  lemma ReachableNext(s: State, step: Step, s': State)
    requires Reachable(s) && Follows(s, step, s')
    ensures Reachable(s')
  {
    var states, steps :| Run(states, steps) && states[|steps|] == s;
    assert Run(states + [s'], steps + [step]);
    assert (states + [s'])[|steps + [step]|] == s';
  }

  // ---------------------------------------------------------------- ending one barrier

  /** The queue runs, and its barriers are these. */
  ghost predicate Runs(s: State, barriers: seq<Barrier>) {
    GlobalInv(s) && !s.closed && !s.ctxDone && s.barriers == barriers
  }

  /** A step that only a worker takes leaves the barriers alone. */
  lemma LocalRuns(s: State, i: WorkerId, op: Op, s': State)
    requires Runs(s, s.barriers) && TurnQueueModel.Enabled(s, Local(i, op)) && s' == TurnQueueModel.Do(s, Local(i, op))
    ensures Runs(s', s.barriers) && Reaches(s, s') && i < |s'.workers|
    ensures s'.workers[i] == DraftWorkers.Do(s.workers[i], op, false)
  {
    StepKeeps(s, Local(i, op));
    StepReaches(s, Local(i, op), s');
  }

  /** The producers of a retired worker give up, one after another. */
  lemma {:induction false} ProducersLeave(s: State, i: WorkerId) returns (s': State)
    requires Runs(s, s.barriers) && i < |s.workers| && s.workers[i].retired
    ensures Runs(s', s.barriers) && Reaches(s, s') && i < |s'.workers|
    ensures s'.workers[i].retired && s'.workers[i].producers == {}
    decreases |s.workers[i].producers|
  {
    if t :| t in s.workers[i].producers {
      var s1 := TurnQueueModel.Do(s, Local(i, AbortSend(t)));
      LocalRuns(s, i, AbortSend(t), s1);
      s' := ProducersLeave(s1, i);
      ReachesOn(s, s1, s');
    } else {
      ReachesItself(s);
      s' := s;
    }
  }

  /** The drain goroutine of a draining barrier empties the channel. */
  lemma {:induction false} QueueDrains(s: State, b: nat, i: WorkerId) returns (s': State)
    requires Runs(s, s.barriers) && b < |s.barriers| && s.barriers[b].phase == Draining && s.barriers[b].worker == Some(i)
    requires i < |s.workers| && s.workers[i].retired && s.workers[i].producers == {}
    ensures Runs(s', s.barriers) && Reaches(s, s') && i < |s'.workers| && s'.workers[i].queue == []
    decreases |s.workers[i].queue|
  {
    if s.workers[i].queue == [] {
      ReachesItself(s);
      s' := s;
    } else {
      assert MayDrain(s, i);
      var s1 := TurnQueueModel.Do(s, Local(i, DrainTake));
      LocalRuns(s, i, DrainTake, s1);
      s' := QueueDrains(s1, b, i);
      ReachesOn(s, s1, s');
    }
  }

  /** A step that moves one barrier on. */
  lemma BarrierRuns(s: State, step: Step, b: nat, phase: BarrierPhase, s': State)
    requires Runs(s, s.barriers) && b < |s.barriers| && TurnQueueModel.Enabled(s, step)
    requires (step == Release(b) && phase == Unfencing(false)) || (step == ProducersGone(b) && phase == Draining)
      || (step == DrainDone(b) && phase == Unfencing(true)) || (step == Unfence(b) && phase == Done)
    requires s' == TurnQueueModel.Do(s, step)
    ensures Runs(s', s.barriers[b := s.barriers[b].(phase := phase)]) && Reaches(s, s')
    ensures step != Unfence(b) ==> s'.workers == s.workers
  {
    StepKeeps(s, step);
    StepReaches(s, step, s');
  }

  /** An outstanding barrier can end, and only it changes. */
  lemma BarrierEnds(s: State, b: nat) returns (s': State)
    requires Runs(s, s.barriers) && b < |s.barriers| && Outstanding(s.barriers[b])
    ensures Runs(s', s.barriers[b := s.barriers[b].(phase := Done)]) && Reaches(s, s')
  {
    var ready := BarrierUnfences(s, b);
    s' := TurnQueueModel.Do(ready, Unfence(b));
    BarrierRuns(ready, Unfence(b), b, Done, s');
    ReachesOn(s, ready, s');
  }

  lemma BarrierUnfences(s: State, b: nat) returns (s': State)
    requires Runs(s, s.barriers) && b < |s.barriers| && Outstanding(s.barriers[b])
    ensures exists abandoned :: Runs(s', s.barriers[b := s.barriers[b].(phase := Unfencing(abandoned))])
    ensures Reaches(s, s')
  {
    var barrier := s.barriers[b];
    match barrier.phase
    case Unfencing(abandoned) =>
      assert s.barriers[b := barrier.(phase := Unfencing(abandoned))] == s.barriers;
      ReachesItself(s);
      s' := s;
    case Held =>
      s' := TurnQueueModel.Do(s, Release(b));
      BarrierRuns(s, Release(b), b, Unfencing(false), s');
    case AwaitProducers =>
      assert BarrierOk(s, barrier);
      var s1 := ProducersLeave(s, barrier.worker.value);
      var s2 := TurnQueueModel.Do(s1, ProducersGone(b));
      BarrierRuns(s1, ProducersGone(b), b, Draining, s2);
      var s3 := DrainingUnfences(s2, b);
      ReachesOn(s, s1, s2);
      ReachesOn(s, s2, s3);
      assert s2.barriers[b := s2.barriers[b].(phase := Unfencing(true))] == s.barriers[b := barrier.(phase := Unfencing(true))];
      s' := s3;
    case Draining =>
      s' := DrainingUnfences(s, b);
  }

  lemma DrainingUnfences(s: State, b: nat) returns (s': State)
    requires Runs(s, s.barriers) && b < |s.barriers| && s.barriers[b].phase == Draining
    ensures Runs(s', s.barriers[b := s.barriers[b].(phase := Unfencing(true))]) && Reaches(s, s')
  {
    assert BarrierOk(s, s.barriers[b]);
    var s1 := QueueDrains(s, b, s.barriers[b].worker.value);
    s' := TurnQueueModel.Do(s1, DrainDone(b));
    BarrierRuns(s1, DrainDone(b), b, Unfencing(true), s');
    ReachesOn(s, s1, s');
  }

  // ---------------------------------------------------------------- lifting the fence

  lemma {:induction false} FenceLifts(s: State, d: Draft) returns (s': State)
    requires Runs(s, s.barriers)
    ensures Runs(s', s'.barriers) && Unfenced(s', d) && Reaches(s, s')
    decreases |OutstandingFor(s.barriers, d)|
  {
    if b: nat :| b < |s.barriers| && s.barriers[b].draft == d && Outstanding(s.barriers[b]) {
      var s1 := BarrierEnds(s, b);
      OneLessOutstanding(s.barriers, b, d);
      s' := FenceLifts(s1, d);
      ReachesOn(s, s1, s');
    } else {
      ReachesItself(s);
      s' := s;
    }
  }

  /** From every reachable state of a running queue there is a way to one in which the draft takes a
      turn, whatever barriers stand and whichever workers have been abandoned. */
  lemma DraftReopens(s: State, d: Draft) returns (s': State)
    requires Reachable(s) && !s.closed && !s.ctxDone && d != ""
    ensures Reaches(s, s') && Reachable(s') && Shaped(s') && CanReserve(s', d, false)
  {
    ReachableInv(s);
    s' := FenceLifts(s, d);
    var states, steps :| Connects(states, steps, s, s');
    ReachableOn(states, steps, |steps|);
    ReservesExactly(s', d, false);
  }
}
