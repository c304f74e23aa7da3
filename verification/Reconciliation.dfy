/**
 * Crash reconciliation: rebuilding the lost in-memory queue of one draft from the facts that
 * were persisted, in the order in which they were created.
 */
module Reconciliation {
  import opened Basics

  type DecisionId = string

  /** A turn that was accepted: a user message, or the continuation after a decision. */
  datatype Candidate = UserMessage(id: string) | Continuation(decision: DecisionId)

  /** A terminal of `count` turns; `includesWaiting` marks one that also counts the turn whose
      blocking decision it announces. */
  datatype Fact =
    | Accepted(candidate: Candidate)
    | DecisionCreated(decision: DecisionId)
    | Terminal(count: int, includesWaiting: bool)

  /** The variables of the matching loop; the empty decision id means none. */
  datatype Match = Match(unmatched: seq<Candidate>, waiting: DecisionId, blocking: set<DecisionId>)

  const NOTHING: Match := Match([], "", {})

  function Drop<T>(s: seq<T>, n: int): seq<T> {
    if n <= 0 then s else if n >= |s| then [] else s[n..]
  }

  function Step(m: Match, fact: Fact): Match {
    match fact
    case Accepted(c) =>
      if c.Continuation? && c.decision in m.blocking then
        m.(unmatched := [c] + m.unmatched,
           waiting := if c.decision == m.waiting then "" else m.waiting)
      else m.(unmatched := m.unmatched + [c])
    case DecisionCreated(d) =>
      Match(Drop(m.unmatched, 1), d, m.blocking + {d})
    case Terminal(count, includesWaiting) =>
      var coalesces := count > 0 && m.waiting != "";
      m.(unmatched := Drop(m.unmatched, if coalesces && includesWaiting then count - 1 else count),
         waiting := if coalesces then "" else m.waiting)
  }

  function Replay(m: Match, facts: seq<Fact>): Match
    decreases |facts|
  {
    if facts == [] then m else Replay(Step(m, facts[0]), facts[1..])
  }

  /** The matching loop of persistedTurnCandidates. */
  method Reconcile(facts: seq<Fact>) returns (unmatched: seq<Candidate>)
    ensures unmatched == Replay(NOTHING, facts).unmatched
  {
    unmatched := [];
    var waiting: DecisionId := "";
    var blocking: set<DecisionId> := {};
    assert facts[0..] == facts;
    for i := 0 to |facts|
      invariant Replay(Match(unmatched, waiting, blocking), facts[i..]) == Replay(NOTHING, facts)
    {
      var fact := facts[i];
      assert facts[i..][0] == fact && facts[i..][1..] == facts[i + 1..];
      ghost var before := Match(unmatched, waiting, blocking);
      if fact.Accepted? {
        if fact.candidate.Continuation? && fact.candidate.decision in blocking {
          if fact.candidate.decision == waiting {
            waiting := "";
          }
          unmatched := [fact.candidate] + unmatched;
          assert Match(unmatched, waiting, blocking) == Step(before, fact);
          continue;
        }
        unmatched := unmatched + [fact.candidate];
        assert Match(unmatched, waiting, blocking) == Step(before, fact);
        continue;
      }
      if fact.DecisionCreated? {
        if |unmatched| > 0 {
          unmatched := unmatched[1..];
        }
        waiting := fact.decision;
        blocking := blocking + {fact.decision};
        assert Match(unmatched, waiting, blocking) == Step(before, fact);
        continue;
      }
      var count := fact.count;
      if count > 0 && waiting != "" {
        waiting := "";
        if fact.includesWaiting {
          count := count - 1;
        }
      }
      if count > |unmatched| {
        count := |unmatched|;
      }
      if count > 0 {
        unmatched := unmatched[count..];
      }
      assert Match(unmatched, waiting, blocking) == Step(before, fact);
    }
  }

  lemma {:induction false} ReplayAppend(m: Match, a: seq<Fact>, b: seq<Fact>)
    ensures Replay(m, a + b) == Replay(Replay(m, a), b)
    decreases |a|
  {
    if a == [] {
      assert a + b == b;
    } else {
      assert (a + b)[0] == a[0] && (a + b)[1..] == a[1..] + b;
      ReplayAppend(Step(m, a[0]), a[1..], b);
    }
  }

  // ---------------------------------------------------------------- decision-free logs

  predicate DecisionFree(facts: seq<Fact>) {
    forall i :: 0 <= i < |facts| ==>
      !facts[i].DecisionCreated? && (facts[i].Terminal? ==> facts[i].count >= 1)
  }

  function Candidates(facts: seq<Fact>): seq<Candidate> {
    if facts == [] then []
    else (if facts[0].Accepted? then [facts[0].candidate] else []) + Candidates(facts[1..])
  }

  /** Candidates minus terminals. */
  function Balance(facts: seq<Fact>): int {
    if facts == [] then 0
    else (match facts[0] case Accepted(_) => 1 case Terminal(n, _) => -n case _ => 0) + Balance(facts[1..])
  }

  /** The largest balance of any suffix of the log, the empty one included. */
  function BestSuffix(facts: seq<Fact>): int {
    if facts == [] then 0 else Max(Balance(facts), BestSuffix(facts[1..]))
  }

  function LastN<T>(s: seq<T>, n: int): seq<T>
    requires 0 <= n <= |s|
  {
    s[|s| - n..]
  }

  lemma {:induction false} BestSuffixIsMax(facts: seq<Fact>)
    ensures BestSuffix(facts) >= 0 && BestSuffix(facts) >= Balance(facts)
    ensures forall i :: 0 <= i <= |facts| ==> Balance(facts[i..]) <= BestSuffix(facts)
    ensures exists i :: 0 <= i <= |facts| && Balance(facts[i..]) == BestSuffix(facts)
  {
    if facts == [] {
      assert facts[0..] == [];
    } else {
      BestSuffixIsMax(facts[1..]);
      assert forall i :: 1 <= i <= |facts| ==> facts[i..] == facts[1..][i - 1..];
      assert facts[0..] == facts;
      if BestSuffix(facts) != Balance(facts) {
        var i :| 0 <= i <= |facts[1..]| && Balance(facts[1..][i..]) == BestSuffix(facts[1..]);
        assert Balance(facts[i + 1..]) == BestSuffix(facts);
      }
    }
  }

  lemma SuffixBounds(facts: seq<Fact>)
    ensures BestSuffix(facts) >= 0 && BestSuffix(facts) >= Balance(facts)
  {
    BestSuffixIsMax(facts);
  }

  lemma LastOfDropped(s: seq<Candidate>, k: int, rest: seq<Candidate>, n: int)
    requires 0 <= n <= |Drop(s, k) + rest|
    ensures LastN(Drop(s, k) + rest, n) == LastN(s + rest, n)
  {
  }

  /** How many turns a decision-free log leaves, starting from `n`. */
  function Left(n: nat, facts: seq<Fact>): int { Max(n + Balance(facts), BestSuffix(facts)) }

  ghost predicate Leaves(m: Match, facts: seq<Fact>) {
    var all := m.unmatched + Candidates(facts);
    && 0 <= Left(|m.unmatched|, facts) <= |all|
    && Replay(m, facts) == m.(unmatched := LastN(all, Left(|m.unmatched|, facts)))
  }

  lemma LeftSteps(n: nat, facts: seq<Fact>)
    requires facts != []
    ensures facts[0].Accepted? ==> Left(n, facts) == Left(n + 1, facts[1..])
    ensures facts[0].Terminal? && facts[0].count >= 1 ==>
      Left(n, facts) == Left(if n >= facts[0].count then n - facts[0].count else 0, facts[1..])
  {
    SuffixBounds(facts[1..]);
  }

  lemma AcceptedLeaves(m: Match, m1: Match, facts: seq<Fact>)
    requires facts != [] && facts[0].Accepted?
    requires Replay(m, facts) == Replay(m1, facts[1..]) && m1 == m.(unmatched := m.unmatched + [facts[0].candidate])
    requires Leaves(m1, facts[1..])
    ensures Leaves(m, facts)
  {
    LeftSteps(|m.unmatched|, facts);
    AcceptedCandidates(m.unmatched, facts);
  }

  lemma AcceptedCandidates(unmatched: seq<Candidate>, facts: seq<Fact>)
    requires facts != [] && facts[0].Accepted?
    ensures unmatched + Candidates(facts) == unmatched + [facts[0].candidate] + Candidates(facts[1..])
  {
  }

  lemma TerminalLeaves(m: Match, m1: Match, facts: seq<Fact>)
    requires facts != [] && facts[0].Terminal? && facts[0].count >= 1
    requires Replay(m, facts) == Replay(m1, facts[1..]) && m1 == m.(unmatched := Drop(m.unmatched, facts[0].count))
    requires Leaves(m1, facts[1..])
    ensures Leaves(m, facts)
  {
    var n, k, rest := |m.unmatched|, facts[0].count, Candidates(facts[1..]);
    var left := Left(|m1.unmatched|, facts[1..]);
    LeftSteps(n, facts);
    assert |m1.unmatched| == if n >= k then n - k else 0;
    assert Candidates(facts) == rest && Left(n, facts) == left;
    LastOfDropped(m.unmatched, k, rest, left);
  }

  /** Replaying a decision-free log on top of a queue. */
  lemma {:induction false} ReplayWithoutDecisions(m: Match, facts: seq<Fact>)
    requires DecisionFree(facts) && m.waiting == "" && m.blocking == {}
    ensures Leaves(m, facts)
    decreases |facts|
  {
    if facts == [] {
      assert m.unmatched + [] == m.unmatched;
    } else {
      ReplayWithoutDecisions(Step(m, facts[0]), facts[1..]);
      if facts[0].Accepted? {
        AcceptedLeaves(m, Step(m, facts[0]), facts);
      } else {
        TerminalLeaves(m, Step(m, facts[0]), facts);
      }
    }
  }

  /** On a log without decisions the unmatched turns are the last candidates, exactly as many as
      the largest surplus of candidates over terminals in any suffix of the log: the queue that
      serves turns in the order of arrival. */
  lemma UnmatchedIsSuffix(facts: seq<Fact>)
    requires DecisionFree(facts)
    ensures 0 <= BestSuffix(facts) <= |Candidates(facts)|
    ensures Replay(NOTHING, facts).unmatched == LastN(Candidates(facts), BestSuffix(facts))
    ensures forall i :: 0 <= i <= |facts| ==> Balance(facts[i..]) <= BestSuffix(facts)
    ensures exists i :: 0 <= i <= |facts| && Balance(facts[i..]) == BestSuffix(facts)
  {
    ReplayWithoutDecisions(NOTHING, facts);
    BestSuffixIsMax(facts);
    assert [] + Candidates(facts) == Candidates(facts);
  }

  // ---------------------------------------------------------------- cancellations and decisions

  function Repeat(fact: Fact, n: nat): seq<Fact> {
    if n == 0 then [] else [fact] + Repeat(fact, n - 1)
  }

  /** A marker that counts k cancelled turns is worth k terminals of one turn each. */
  lemma {:induction false} CountedMarker(m: Match, k: nat, includesWaiting: bool)
    requires k >= 1
    ensures Replay(m, [Terminal(k, includesWaiting)]) == Replay(m, Repeat(Terminal(1, includesWaiting), k))
    decreases k
  {
    var one := Terminal(1, includesWaiting);
    var first := Step(m, one);
    assert Replay(m, [Terminal(k, includesWaiting)]) == Step(m, Terminal(k, includesWaiting)) by {
      assert [Terminal(k, includesWaiting)][1..] == [];
    }
    assert Repeat(one, k)[1..] == Repeat(one, k - 1);
    if k > 1 {
      CountedMarker(first, k - 1, includesWaiting);
      assert [Terminal(k - 1, includesWaiting)][1..] == [];
      assert Replay(first, Repeat(one, k - 1)) == Step(first, Terminal(k - 1, includesWaiting));
    }
  }

  /** Turns are accepted, and nothing else happens. */
  predicate OnlyAccepted(facts: seq<Fact>) {
    forall i :: 0 <= i < |facts| ==> facts[i].Accepted?
  }

  /** Accepted turns are all kept, and only the answer of the waiting decision ends the wait. */
  lemma {:induction false} AcceptedAreKept(m: Match, facts: seq<Fact>)
    requires OnlyAccepted(facts) && (m.waiting != "" ==> m.waiting in m.blocking)
    ensures var m1 := Replay(m, facts);
      && |m1.unmatched| == |m.unmatched| + |facts| && m1.blocking == m.blocking
      && m1.waiting == if Accepted(Continuation(m.waiting)) in facts then "" else m.waiting
    decreases |facts|
  {
    if facts != [] {
      AcceptedAreKept(Step(m, facts[0]), facts[1..]);
      assert facts == [facts[0]] + facts[1..];
    }
  }

  /** The waiting reply of a blocking decision takes no turn exactly if the decision has not been
      answered since it was created, whatever else was accepted meanwhile; otherwise it takes
      the turn at the head. */
  lemma WaitingReplyTakesNothingIff(m: Match, d: DecisionId, between: seq<Fact>)
    requires d != "" && OnlyAccepted(between)
    ensures var before := Replay(m, [DecisionCreated(d)] + between);
      var after := Replay(m, [DecisionCreated(d)] + between + [Terminal(1, true)]);
      && (after.unmatched == before.unmatched <==> Accepted(Continuation(d)) !in between)
      && (Accepted(Continuation(d)) in between ==>
            before.unmatched != [] && after.unmatched == before.unmatched[1..])
      && before == Replay(Match(Drop(m.unmatched, 1), d, m.blocking + {d}), between)
      && after.waiting == ""
  {
    var created := Step(m, DecisionCreated(d));
    ReplayAppend(m, [DecisionCreated(d)] + between, [Terminal(1, true)]);
    ReplayAppend(m, [DecisionCreated(d)], between);
    assert [DecisionCreated(d)][1..] == [] && [Terminal(1, true)][1..] == [];
    AcceptedAreKept(created, between);
  }

  predicate OnlyMessages(facts: seq<Fact>) {
    OnlyAccepted(facts) && forall i :: 0 <= i < |facts| ==> facts[i].candidate.UserMessage?
  }

  lemma {:induction false} MessagesQueueUp(m: Match, facts: seq<Fact>)
    requires OnlyMessages(facts)
    ensures Replay(m, facts) == m.(unmatched := m.unmatched + Candidates(facts))
    decreases |facts|
  {
    if facts != [] {
      MessagesQueueUp(Step(m, facts[0]), facts[1..]);
    }
  }

  /** A decision and its waiting reply take exactly the turn at the head when the decision was
      created, as if nothing else had happened, unless the answer comes in between. */
  lemma DecisionTakesOneTurn(m: Match, d: DecisionId, between: seq<Fact>)
    requires d != "" && OnlyAccepted(between) && Accepted(Continuation(d)) !in between
    ensures Replay(m, [DecisionCreated(d)] + between + [Terminal(1, true)]).unmatched ==
      Replay(Match(Drop(m.unmatched, 1), d, m.blocking + {d}), between).unmatched
    ensures OnlyMessages(between) ==>
      Replay(m, [DecisionCreated(d)] + between + [Terminal(1, true)]).unmatched ==
        Drop(m.unmatched, 1) + Candidates(between)
  {
    WaitingReplyTakesNothingIff(m, d, between);
    if OnlyMessages(between) {
      MessagesQueueUp(Match(Drop(m.unmatched, 1), d, m.blocking + {d}), between);
    }
  }

  /** Answered before its waiting reply was persisted, a decision takes one turn too many,
      whatever else was accepted; if only messages follow the answer, it is the answer's. */
  lemma AnsweredInBetweenTakesTwo(m: Match, d: DecisionId, between: seq<Fact>)
    requires d != "" && OnlyAccepted(between) && Accepted(Continuation(d)) in between
    ensures |Replay(m, [DecisionCreated(d)] + between + [Terminal(1, true)]).unmatched| ==
      |Drop(m.unmatched, 1)| + |between| - 1
    ensures forall rest :: between == [Accepted(Continuation(d))] + rest && OnlyMessages(rest) ==>
      Replay(m, [DecisionCreated(d)] + between + [Terminal(1, true)]).unmatched ==
        Drop(m.unmatched, 1) + Candidates(rest)
  {
    var created := Match(Drop(m.unmatched, 1), d, m.blocking + {d});
    WaitingReplyTakesNothingIff(m, d, between);
    AcceptedAreKept(created, between);
    forall rest | between == [Accepted(Continuation(d))] + rest && OnlyMessages(rest)
      ensures Replay(created, between).unmatched[1..] == Drop(m.unmatched, 1) + Candidates(rest)
    {
      assert between[1..] == rest;
      MessagesQueueUp(Step(created, between[0]), rest);
    }
  }

  // ---------------------------------------------------------------- the live queue

  /** What happens to a draft.
      - `WaitReply` is the waiting text of the turn that created a blocking decision.
      - `Cancel` covers every turn that is still to be accounted for, and leaves a marker if there
        is any; `Stop` is a cancellation whose marker is not stored, or not yet.
      - `Mark` is the marker of one more cancellation, which counts turns that were cancelled
        already and that the worker has not given up yet.
      - `EndSilently` is the end of a turn that leaves no fact: its lease is lost, or its last
        commit fails.
      - `Refuse` and `RefuseAnswer` are stored, but the queue does not take them.
      - In `CrashWhilePending` the process dies and the next one leaves the draft alone, because
        one of its decisions is pending. */
  datatype Event =
    | Submit(candidate: Candidate)
    | Refuse(candidate: Candidate)
    | Finish
    | EndSilently
    | Cancel(count: nat)
    | Stop
    | Mark(count: nat)
    | Block(decision: DecisionId)
    | WaitReply
    | Answer(decision: DecisionId)
    | RefuseAnswer(decision: DecisionId)
    | CrashWhilePending

  /** `queue` is the running turn, if it is still to be accounted for, and the channel behind it;
      `lost` are the stored turns that are in no channel: those of crashed processes, and refused
      ones.  `owes` is the decision whose waiting reply the running turn still has to write,
      `unsaid` one whose reply was cut off, and `cancelled` how many turns a further cancellation
      can count again. */
  datatype Live = Live(queue: seq<Candidate>, lost: seq<Candidate>, cancelled: nat, owes: DecisionId, unsaid: DecisionId,
                       blocking: set<DecisionId>, answered: set<DecisionId>, accepted: set<Candidate>)

  const IDLE: Live := Live([], [], 0, "", "", {}, {}, {})

  /** Turns run one at a time, from the head; items and decisions are new, and a decision is
      answered once, from the moment it exists. */
  predicate Happens(q: Live, e: Event) {
    match e
    case Submit(c) => IsNew(q, c)
    case Refuse(c) => IsNew(q, c)
    case Finish => q.queue != [] && q.owes == ""
    case EndSilently => q.queue != [] || q.owes != ""
    case Cancel(n) => n == |q.queue|
    case Stop => q.queue != []
    case Mark(n) => 0 < n <= q.cancelled
    case Block(d) =>
      && d != "" && d !in q.blocking && Continuation(d) !in q.accepted
      && q.queue != [] && q.owes == ""
    case WaitReply => q.owes != ""
    case Answer(d) => d in q.blocking && d !in q.answered
    case RefuseAnswer(d) => d in q.blocking && d !in q.answered
    case CrashWhilePending => !(q.blocking <= q.answered)
  }

  predicate IsNew(q: Live, c: Candidate) { c !in q.accepted && (c.Continuation? ==> c.decision !in q.blocking) }

  /** Every item enters the channel at its end, messages and continuations of answers, once no
      cancellation is under way any more. */
  function Entered(q: Live, c: Candidate): Live {
    q.(queue := q.queue + [c], cancelled := 0, accepted := q.accepted + {c})
  }

  function Answered(q: Live, d: DecisionId): Live {
    q.(answered := q.answered + {d}, unsaid := if d == q.unsaid then "" else q.unsaid)
  }

  /** A refused message comes after the other turns that are in no channel, but the continuation of
      an answer before them, as it does when the queue takes it. */
  function After(q: Live, e: Event): Live
    requires Happens(q, e)
  {
    match e
    case Submit(c) => Entered(q, c)
    case Refuse(c) => q.(lost := q.lost + [c], accepted := q.accepted + {c})
    case Finish => q.(queue := q.queue[1..])
    case EndSilently =>
      if q.owes != "" then q.(owes := "", unsaid := Silenced(q)) else q.(queue := q.queue[1..])
    case Cancel(n) => q.(queue := [], cancelled := n, owes := "", unsaid := if n > 0 then "" else Silenced(q))
    case Stop => q.(queue := [], cancelled := |q.queue|, owes := "", unsaid := Silenced(q))
    case Mark(_) => q.(unsaid := "")
    case Block(d) => q.(queue := q.queue[1..], owes := d, unsaid := "", blocking := q.blocking + {d})
    case WaitReply => q.(owes := "")
    case Answer(d) => Answered(Entered(q, Continuation(d)), d)
    case RefuseAnswer(d) =>
      Answered(q.(lost := [Continuation(d)] + q.lost, accepted := q.accepted + {Continuation(d)}), d)
    case CrashWhilePending =>
      q.(queue := [], lost := q.queue + q.lost, cancelled := 0, owes := "", unsaid := Silenced(q))
  }

  /** The decision left without its waiting reply when the running turn is cut off. */
  function Silenced(q: Live): DecisionId {
    if q.owes != "" && q.owes !in q.answered then q.owes else q.unsaid
  }

  /** The turns the draft still has to get: the channel's, then those that are in none. */
  function Outstanding(q: Live): seq<Candidate> { q.queue + q.lost }

  /** The fact each event leaves behind. */
  function Recorded(e: Event): seq<Fact> {
    match e
    case Submit(c) => [Accepted(c)]
    case Refuse(c) => [Accepted(c)]
    case Finish => [Terminal(1, true)]
    case Cancel(n) => if n > 0 then [Terminal(n, false)] else []
    case Mark(n) => [Terminal(n, false)]
    case Block(d) => [DecisionCreated(d)]
    case WaitReply => [Terminal(1, true)]
    case Answer(d) => [Accepted(Continuation(d))]
    case RefuseAnswer(d) => [Accepted(Continuation(d))]
    case EndSilently => []
    case Stop => []
    case CrashWhilePending => []
  }

  predicate Possible(q: Live, events: seq<Event>)
    decreases |events|
  {
    events == [] || (Happens(q, events[0]) && Possible(After(q, events[0]), events[1..]))
  }

  function Outcome(q: Live, events: seq<Event>): Live
    requires Possible(q, events)
    decreases |events|
  {
    if events == [] then q else Outcome(After(q, events[0]), events[1..])
  }

  function Log(events: seq<Event>): seq<Fact> {
    if events == [] then [] else Recorded(events[0]) + Log(events[1..])
  }

  /** What the matching loop gets right: an answer finds the channel empty, a waiting reply is
      written before the answer, a message is queued, or turns are counted again, only while
      every stored turn is in the channel, a turn ends when no waiting reply has been cut off
      before its decision was answered, and neither ends nor is cancelled without its fact. */
  predicate Orderly(q: Live, e: Event) {
    match e
    case Answer(_) => q.queue == []
    case RefuseAnswer(_) => q.queue == []
    case WaitReply => q.owes !in q.answered
    case Submit(_) => q.lost == []
    case Mark(_) => q.lost == []
    case Finish => q.unsaid == ""
    case EndSilently => q.owes != ""
    case Stop => false
    case _ => true
  }

  predicate AllOrderly(q: Live, events: seq<Event>)
    requires Possible(q, events)
    decreases |events|
  {
    events == [] || (Orderly(q, events[0]) && AllOrderly(After(q, events[0]), events[1..]))
  }

  // ---------------------------------------------------------------- refinement

  /** The decision whose waiting reply is still due. */
  function Due(q: Live): DecisionId {
    if q.owes == "" then q.unsaid else if q.owes in q.answered then "" else q.owes
  }

  ghost predicate Consistent(q: Live) {
    && q.answered <= q.blocking && "" !in q.blocking
    && (q.owes != "" ==> q.owes in q.blocking && q.unsaid == "" && (q.owes in q.answered ==> Outstanding(q) != []))
    && (q.unsaid != "" ==> q.unsaid in q.blocking && q.unsaid !in q.answered)
    && (q.cancelled > 0 ==> q.queue == [] && q.owes == "")
    && (forall c :: c in Outstanding(q) ==> c in q.accepted)
    && (forall d :: d in q.blocking && d !in q.answered ==> Continuation(d) !in q.accepted)
  }

  ghost predicate Matches(q: Live, m: Match) {
    Consistent(q) && m == Match(Outstanding(q), Due(q), q.blocking)
  }

  lemma StepConsistent(q: Live, e: Event)
    requires Consistent(q) && Happens(q, e)
    ensures Consistent(After(q, e))
  {
    var q1 := After(q, e);
    forall c | c in Outstanding(q1) ensures c in q1.accepted {
      assert c in q.queue || c in q.lost || c in q1.accepted;
      assert c in q.queue ==> c in Outstanding(q);
      assert c in q.lost ==> c in Outstanding(q);
    }
  }

  lemma ReplayOne(m: Match, fact: Fact)
    ensures Replay(m, [fact]) == Step(m, fact)
  {
    assert [fact][1..] == [];
  }

  /** What the loop makes of an event, if anything of it is stored. */
  function Matched(m: Match, e: Event): Match { if Recorded(e) == [] then m else Step(m, Recorded(e)[0]) }

  lemma ReplayEvent(m: Match, e: Event)
    ensures Replay(m, Recorded(e)) == Matched(m, e)
  {
    if Recorded(e) != [] {
      ReplayOne(m, Recorded(e)[0]);
    }
  }

  /** The event brings a new turn. */
  predicate Brings(e: Event) { e.Submit? || e.Refuse? || e.Answer? || e.RefuseAnswer? }

  lemma OrderlyBringing(q: Live, m: Match, e: Event)
    requires Matches(q, m) && Happens(q, e) && Orderly(q, e) && Brings(e)
    ensures Matched(m, e) == Match(Outstanding(After(q, e)), Due(After(q, e)), After(q, e).blocking)
  {
  }

  /** The event is a step of the running turn. */
  predicate Runs(e: Event) { e.Finish? || e.EndSilently? || e.Block? || e.WaitReply? }

  lemma OrderlyRunning(q: Live, m: Match, e: Event)
    requires Matches(q, m) && Happens(q, e) && Orderly(q, e) && Runs(e)
    ensures Matched(m, e) == Match(Outstanding(After(q, e)), Due(After(q, e)), After(q, e).blocking)
  {
  }

  lemma OrderlyStopping(q: Live, m: Match, e: Event)
    requires Matches(q, m) && Happens(q, e) && Orderly(q, e) && !Brings(e) && !Runs(e)
    ensures Matched(m, e) == Match(Outstanding(After(q, e)), Due(After(q, e)), After(q, e).blocking)
  {
  }

  /** An orderly event is matched rightly. */
  lemma OrderlyStep(q: Live, m: Match, e: Event)
    requires Matches(q, m) && Happens(q, e) && Orderly(q, e)
    ensures Matches(After(q, e), Replay(m, Recorded(e)))
  {
    StepConsistent(q, e);
    ReplayEvent(m, e);
    if Brings(e) {
      OrderlyBringing(q, m, e);
    } else if Runs(e) {
      OrderlyRunning(q, m, e);
    } else {
      OrderlyStopping(q, m, e);
    }
  }

  /** Any other one is matched wrongly at once. */
  lemma DisorderlyStep(q: Live, m: Match, e: Event)
    requires Matches(q, m) && Happens(q, e) && !Orderly(q, e)
    ensures Replay(m, Recorded(e)).unmatched != Outstanding(After(q, e))
  {
    ReplayEvent(m, e);
    var wrong, right := Replay(m, Recorded(e)).unmatched, Outstanding(After(q, e));
    match e
    case Submit(c) => assert q.lost[0] in Outstanding(q) && wrong[|q.queue|] == q.lost[0];
    case Answer(d) => assert q.queue[0] in Outstanding(q) && wrong[0] == Continuation(d);
    case RefuseAnswer(d) => assert q.queue[0] in Outstanding(q) && wrong[0] == Continuation(d);
    case Mark(_) => assert |wrong| < |q.lost| == |right|;
    case Finish => assert |wrong| == |Outstanding(q)|;
    case WaitReply => assert |wrong| == |Outstanding(q)| - 1;
    case EndSilently => assert |wrong| == |right| + 1;
    case Stop => assert |wrong| == |right| + |q.queue|;
  }

  /** Whenever the process dies in the history, the loop finds exactly the outstanding turns. */
  ghost predicate AlwaysRebuilt(q: Live, m: Match, events: seq<Event>)
    requires Possible(q, events)
    decreases |events|
  {
    && m.unmatched == Outstanding(q)
    && (events != [] ==> AlwaysRebuilt(After(q, events[0]), Replay(m, Recorded(events[0])), events[1..]))
  }

  lemma {:induction false} RebuiltIffOrderly(q: Live, m: Match, events: seq<Event>)
    requires Matches(q, m) && Possible(q, events)
    ensures AlwaysRebuilt(q, m, events) <==> AllOrderly(q, events)
    decreases |events|
  {
    if events != [] {
      var q1, m1 := After(q, events[0]), Replay(m, Recorded(events[0]));
      if Orderly(q, events[0]) {
        OrderlyStep(q, m, events[0]);
        RebuiltIffOrderly(q1, m1, events[1..]);
      } else {
        DisorderlyStep(q, m, events[0]);
      }
    }
  }

  lemma {:induction false} PrefixPossible(q: Live, events: seq<Event>, n: nat)
    requires Possible(q, events) && n <= |events|
    ensures Possible(q, events[..n])
    decreases n
  {
    if n > 0 {
      PrefixPossible(After(q, events[0]), events[1..], n - 1);
      assert events[..n][1..] == events[1..][..n - 1];
    }
  }

  /** After the first `n` events of the history. */
  ghost predicate RebuiltAt(q: Live, m: Match, events: seq<Event>, n: nat)
    requires Possible(q, events) && n <= |events|
  {
    PrefixPossible(q, events, n);
    Replay(m, Log(events[..n])).unmatched == Outstanding(Outcome(q, events[..n]))
  }

  lemma RebuiltLater(q: Live, m: Match, events: seq<Event>, n: nat)
    requires Possible(q, events) && 0 < n <= |events|
    ensures RebuiltAt(q, m, events, n) <==>
      RebuiltAt(After(q, events[0]), Replay(m, Recorded(events[0])), events[1..], n - 1)
  {
    PrefixPossible(q, events, n);
    assert events[..n][1..] == events[1..][..n - 1];
    ReplayAppend(m, Recorded(events[0]), Log(events[1..][..n - 1]));
  }

  lemma {:induction false} AlwaysIsEveryPrefix(q: Live, m: Match, events: seq<Event>)
    requires Possible(q, events)
    ensures AlwaysRebuilt(q, m, events) <==> forall n :: 0 <= n <= |events| ==> RebuiltAt(q, m, events, n)
    decreases |events|
  {
    assert RebuiltAt(q, m, events, 0) <==> m.unmatched == Outstanding(q) by {
      assert events[..0] == [];
    }
    if events != [] {
      var q1, m1 := After(q, events[0]), Replay(m, Recorded(events[0]));
      AlwaysIsEveryPrefix(q1, m1, events[1..]);
      forall n | 0 < n <= |events| ensures RebuiltAt(q, m, events, n) <==> RebuiltAt(q1, m1, events[1..], n - 1) {
        RebuiltLater(q, m, events, n);
      }
      assert forall n :: 0 <= n <= |events| - 1 ==>
        (RebuiltAt(q1, m1, events[1..], n) <==> RebuiltAt(q, m, events, n + 1));
    }
  }

  /** At every point of a history of the draft the loop rebuilds from the log exactly the turns
      that are outstanding, in the order in which they will be taken up, if and only if every
      event of the history is orderly. */
  lemma ReconciliationRebuildsTheQueue(events: seq<Event>)
    requires Possible(IDLE, events)
    ensures (forall n :: 0 <= n <= |events| ==> RebuiltAt(IDLE, NOTHING, events, n)) <==> AllOrderly(IDLE, events)
  {
    AlwaysIsEveryPrefix(IDLE, NOTHING, events);
    RebuiltIffOrderly(IDLE, NOTHING, events);
  }

  /** What a history leaves in the channel and outside it, and what the loop makes of its log. */
  ghost predicate ComesTo(q: Live, m: Match, events: seq<Event>, queue: seq<Candidate>, lost: seq<Candidate>,
                          rebuilt: seq<Candidate>) {
    && Possible(q, events) && Outcome(q, events).queue == queue && Outcome(q, events).lost == lost
    && Replay(m, Log(events)).unmatched == rebuilt
  }

  lemma Ends(q: Live, m: Match)
    ensures ComesTo(q, m, [], q.queue, q.lost, m.unmatched)
  {
  }

  lemma NextEvent(q: Live, m: Match, e: Event, events: seq<Event>, queue: seq<Candidate>, lost: seq<Candidate>,
                  rebuilt: seq<Candidate>)
    requires Happens(q, e)
    requires ComesTo(After(q, e), Replay(m, Recorded(e)), events, queue, lost, rebuilt)
    ensures ComesTo(q, m, [e] + events, queue, lost, rebuilt)
  {
    assert ([e] + events)[1..] == events;
    ReplayAppend(m, Recorded(e), Log(events));
  }

  /** The states of the two histories below: two messages, of which the first has created `d`. */
  function Waiting(first: Candidate, second: Candidate, d: DecisionId): Live {
    Live([second], [], 0, d, "", {d}, {}, {first, second})
  }

  lemma ThreeMore(a: Event, b: Event, c: Event, events: seq<Event>)
    ensures [a] + ([b] + ([c] + events)) == [a, b, c] + events
  {
  }

  /** How both of them begin. */
  lemma BlockedWithOneBehind(first: Candidate, second: Candidate, d: DecisionId, events: seq<Event>,
                             queue: seq<Candidate>, lost: seq<Candidate>, rebuilt: seq<Candidate>)
    requires first.UserMessage? && second.UserMessage? && first != second && d != ""
    requires ComesTo(Waiting(first, second, d), Match([second], d, {d}), events, queue, lost, rebuilt)
    ensures ComesTo(IDLE, NOTHING, [Submit(first), Submit(second), Block(d)] + events, queue, lost, rebuilt)
  {
    ThreeMore(Submit(first), Submit(second), Block(d), events);
    var q1, m1 := After(IDLE, Submit(first)), Match([first], "", {});
    var q2, m2 := After(q1, Submit(second)), Match([first, second], "", {});
    assert After(q2, Block(d)) == Waiting(first, second, d);
    ReplayOne(m2, DecisionCreated(d));
    NextEvent(q2, m2, Block(d), events, queue, lost, rebuilt);
    ReplayOne(m1, Accepted(second));
    NextEvent(q1, m1, Submit(second), [Block(d)] + events, queue, lost, rebuilt);
    ReplayOne(NOTHING, Accepted(first));
    NextEvent(IDLE, NOTHING, Submit(first), [Submit(second)] + ([Block(d)] + events), queue, lost, rebuilt);
  }

  lemma AnsweredBehind(first: Candidate, second: Candidate, d: DecisionId)
    requires first.UserMessage? && second.UserMessage? && d != ""
    ensures ComesTo(Waiting(first, second, d), Match([second], d, {d}), [WaitReply, Answer(d), Finish],
                    [Continuation(d)], [], [second])
  {
    var q3, m3 := Waiting(first, second, d), Match([second], d, {d});
    var q4, m4 := After(q3, WaitReply), Match([second], "", {d});
    var q5, m5 := After(q4, Answer(d)), Match([Continuation(d), second], "", {d});
    var q6, m6 := After(q5, Finish), Match([second], "", {d});
    assert q5.queue == [second, Continuation(d)] && q6.queue == [Continuation(d)];
    Ends(q6, m6);
    ReplayOne(m5, Terminal(1, true));
    NextEvent(q5, m5, Finish, [], [Continuation(d)], [], [second]);
    ReplayOne(m4, Accepted(Continuation(d)));
    NextEvent(q4, m4, Answer(d), [Finish] + [], [Continuation(d)], [], [second]);
    ReplayOne(m3, Terminal(1, true));
    NextEvent(q3, m3, WaitReply, [Answer(d)] + ([Finish] + []), [Continuation(d)], [], [second]);
    ThreeMore(WaitReply, Answer(d), Finish, []);
    assert [WaitReply, Answer(d), Finish] + [] == [WaitReply, Answer(d), Finish];
  }

  /** A decision answered while another turn waits: when that turn has ended, the channel holds
      the answer's continuation, but the loop finds the ended turn and loses the continuation. */
  lemma AnswerOvertakenByATurn(first: Candidate, second: Candidate, d: DecisionId)
    requires first.UserMessage? && second.UserMessage? && first != second && d != ""
    ensures ComesTo(IDLE, NOTHING, [Submit(first), Submit(second), Block(d), WaitReply, Answer(d), Finish],
                    [Continuation(d)], [], [second])
  {
    var rest := [WaitReply, Answer(d), Finish];
    AnsweredBehind(first, second, d);
    BlockedWithOneBehind(first, second, d, rest, [Continuation(d)], [], [second]);
    assert [Submit(first), Submit(second), Block(d)] + rest
      == [Submit(first), Submit(second), Block(d), WaitReply, Answer(d), Finish];
  }

  /** The process dies, the decision is answered, and its continuation is cancelled. */
  lemma CancelledAfterCrash(first: Candidate, second: Candidate, d: DecisionId, events: seq<Event>, rebuilt: seq<Candidate>)
    requires first.UserMessage? && second.UserMessage? && d != ""
    requires ComesTo(Live([], [second], 1, "", "", {d}, {d}, {first, second, Continuation(d)}), Match([second], "", {d}),
                     events, [], [second], rebuilt)
    ensures ComesTo(Waiting(first, second, d), Match([second], d, {d}),
                    [CrashWhilePending, Answer(d), Cancel(1)] + events, [], [second], rebuilt)
  {
    ThreeMore(CrashWhilePending, Answer(d), Cancel(1), events);
    var q3, m3 := Waiting(first, second, d), Match([second], d, {d});
    var q4 := After(q3, CrashWhilePending);
    var q5, m5 := After(q4, Answer(d)), Match([Continuation(d), second], "", {d});
    assert q4.queue == [] && q4.lost == [second] && q5.queue == [Continuation(d)];
    assert q5.accepted == {first, second, Continuation(d)} && q5.answered == {d};
    assert After(q5, Cancel(1)) == Live([], [second], 1, "", "", {d}, {d}, {first, second, Continuation(d)});
    ReplayOne(m5, Terminal(1, false));
    NextEvent(q5, m5, Cancel(1), events, [], [second], rebuilt);
    ReplayOne(m3, Accepted(Continuation(d)));
    NextEvent(q4, m3, Answer(d), [Cancel(1)] + events, [], [second], rebuilt);
    NextEvent(q3, m3, CrashWhilePending, [Answer(d)] + ([Cancel(1)] + events), [], [second], rebuilt);
  }

  lemma CancelledHistory(first: Candidate, second: Candidate, d: DecisionId, events: seq<Event>, rebuilt: seq<Candidate>)
    requires first.UserMessage? && second.UserMessage? && first != second && d != ""
    requires ComesTo(Live([], [second], 1, "", "", {d}, {d}, {first, second, Continuation(d)}), Match([second], "", {d}),
                     events, [], [second], rebuilt)
    ensures ComesTo(IDLE, NOTHING, [Submit(first), Submit(second), Block(d)] + ([CrashWhilePending, Answer(d), Cancel(1)] + events),
                    [], [second], rebuilt)
  {
    CancelledAfterCrash(first, second, d, events, rebuilt);
    BlockedWithOneBehind(first, second, d, [CrashWhilePending, Answer(d), Cancel(1)] + events, [], [second], rebuilt);
  }

  /** A turn cancelled twice while a message of a crashed process is outstanding: the second marker
      is charged to the message, which has never run. */
  lemma CancelledTwice(first: Candidate, second: Candidate, d: DecisionId)
    requires first.UserMessage? && second.UserMessage? && first != second && d != ""
    ensures ComesTo(IDLE, NOTHING, [Submit(first), Submit(second), Block(d), CrashWhilePending, Answer(d), Cancel(1)],
                    [], [second], [second])
    ensures ComesTo(IDLE, NOTHING,
                    [Submit(first), Submit(second), Block(d), CrashWhilePending, Answer(d), Cancel(1), Mark(1)],
                    [], [second], [])
  {
    var q6 := Live([], [second], 1, "", "", {d}, {d}, {first, second, Continuation(d)});
    var m6 := Match([second], "", {d});
    Ends(q6, m6);
    CancelledHistory(first, second, d, [], [second]);
    ReplayOne(m6, Terminal(1, false));
    Ends(After(q6, Mark(1)), Match([], "", {d}));
    NextEvent(q6, m6, Mark(1), [], [], [second], []);
    CancelledHistory(first, second, d, [Mark(1)] + [], []);
    assert [Submit(first), Submit(second), Block(d)] + ([CrashWhilePending, Answer(d), Cancel(1)] + [])
      == [Submit(first), Submit(second), Block(d), CrashWhilePending, Answer(d), Cancel(1)];
    assert [Submit(first), Submit(second), Block(d)] + ([CrashWhilePending, Answer(d), Cancel(1)] + ([Mark(1)] + []))
      == [Submit(first), Submit(second), Block(d), CrashWhilePending, Answer(d), Cancel(1), Mark(1)];
  }
}
