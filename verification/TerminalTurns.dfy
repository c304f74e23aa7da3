/**
 * Whole turns: edits, checks and plan updates of the turn itself, edits by others at any
 * moment, the gate, and the commit of the reply, which reads the current version again in
 * its own transaction.
 */
module TerminalTurns {
  import opened TerminalTruth

  datatype Phase = Running | Guarded | Replied | FailureReplied

  // ---------------------------------------------------------------- tool calls

  /** A finished tool call, as it is reported to the turn. */
  datatype Call = Call(tool: string, succeeded: bool, result: ToolResult)

  const EDITING_TOOLS: set<string> := {"timeline.insert", "timeline.delete", "timeline.update", "timeline.split"}

  /** The call has edited the timeline. */
  predicate Edits(call: Call) { call.tool in EDITING_TOOLS && call.succeeded && call.result.status == Succeeded }

  /** The call has come to a result about some version, whether that is in order or not. */
  predicate Checks(call: Call) {
    call.tool == "timeline.check" && (call.result.status == Succeeded || call.result.status == ValidationFailed)
  }

  predicate UpdatesPlan(call: Call) { call.tool == "plan.update" && call.succeeded && call.result.status == Succeeded }

  /** What the turn's truth state has recorded of the calls. */
  function EventsOf(calls: seq<Call>): seq<Event> {
    if calls == [] then []
    else EventsOf(calls[..|calls| - 1]) + RecordOf(calls[|calls| - 1])
  }

  function RecordOf(call: Call): seq<Event> { EventOf(call.tool, call.succeeded, call.result) }

  /** A call is recorded as the edit, the check or the plan update that it was. */
  lemma RecordIs(call: Call)
    ensures Edits(call) ==> RecordOf(call) == [Mutated(call.result.timelineId)]
    ensures UpdatesPlan(call) ==> RecordOf(call) == [PlanUpdated]
    ensures Checks(call) ==> RecordOf(call) == [Checked(call.result.timelineId, call.result.status, call.result.payload)]
    ensures !Edits(call) && !UpdatesPlan(call) && !Checks(call) ==>
      RecordOf(call) == [] || (|RecordOf(call)| == 1 && RecordOf(call)[0].Checked? && !Conclusive(RecordOf(call)[0].status))
  {
  }

  // ---------------------------------------------------------------- the turn

  /** One edit of the turn: the version it made, the id that its result reported, and where it
      stands among the recorded events and the calls. */
  datatype Edit = Edit(version: string, reported: string, at: nat, call: nat)

  /** `events` is what has been recorded of `calls`. */
  datatype State = State(calls: seq<Call>, events: seq<Event>, edits: seq<Edit>, latest: string, policyUnresolved: bool,
                         phase: Phase)

  datatype Step =
    | MakeEdit(call: Call, version: string)
    | RepeatReport
    | CallOther(call: Call)
    | ChangePolicy(unresolved: bool)
    | OthersChange(latest: string)
    | TryGuard
    | Commit

  predicate Initial(s: State) { s.calls == [] && s.events == [] && s.edits == [] && s.phase == Running }

  function LastEdit(s: State): Edit
    requires s.edits != []
  {
    s.edits[|s.edits| - 1]
  }

  /** A result that names a version names the one the edit made, and that version is new.  A
      report is repeated, if at all, before the next edit; others may do anything at any time. */
  predicate Enabled(s: State, step: Step) {
    match step
    case MakeEdit(call, version) =>
      && s.phase == Running && Edits(call)
      && (IsVersionId(call.result.timelineId) ==> call.result.timelineId == version)
      && version !in (set e | e in s.edits :: e.version)
    case RepeatReport => s.phase == Running && s.edits != [] && LastEdit(s).call < |s.calls|
    case CallOther(call) => s.phase == Running && !Edits(call)
    case ChangePolicy(_) => s.phase == Running
    case OthersChange(_) => true
    case TryGuard => s.phase == Running
    case Commit => s.phase == Guarded
  }

  /** The reply commits only if its expected version is the current one in the transaction. */
  function CommitPhase(s: State): Phase {
    var expected := ExpectedId(Replay(s.events));
    if expected != "" && s.latest != expected then FailureReplied else Replied
  }

  function Called(s: State, call: Call): State {
    s.(calls := s.calls + [call], events := s.events + RecordOf(call))
  }

  function Do(s: State, step: Step): State
    requires Enabled(s, step)
  {
    match step
    case MakeEdit(call, version) =>
      Called(s, call).(latest := version,
        edits := s.edits + [Edit(version, call.result.timelineId, |s.events|, |s.calls|)])
    case RepeatReport => Called(s, s.calls[LastEdit(s).call])
    case CallOther(call) => Called(s, call)
    case ChangePolicy(unresolved) => s.(policyUnresolved := unresolved)
    case OthersChange(latest) => s.(latest := latest)
    case TryGuard =>
      s.(phase := if Guard(Replay(s.events), s.policyUnresolved, s.latest) == Passed then Guarded else FailureReplied)
    case Commit => s.(phase := CommitPhase(s))
  }

  /** Every report belongs to an edit of the turn. */
  ghost predicate Reported(s: State) {
    forall j :: 0 <= j < |s.events| && s.events[j].Mutated? ==> ReportOf(s.edits, s.events[j].id)
  }

  predicate ReportOf(edits: seq<Edit>, id: string) { exists k :: 0 <= k < |edits| && edits[k].reported == id }

  /** The last edit was first reported at its place, and nothing else has been reported since. */
  ghost predicate LastIsReported(s: State) {
    s.edits != [] ==>
      var e := LastEdit(s);
      && e.at < |s.events| && s.events[e.at] == Mutated(e.reported)
      && (forall j :: e.at < j < |s.events| && s.events[j].Mutated? ==> s.events[j].id == e.reported)
      && (IsVersionId(e.reported) ==> NewMutation(s.events, e.at))
  }

  /** Versions are new, and a result that names a version names the right one. */
  ghost predicate Versions(s: State) {
    && (forall k :: 0 <= k < |s.edits| && IsVersionId(s.edits[k].reported) ==> s.edits[k].reported == s.edits[k].version)
    && (forall k, l :: 0 <= k < l < |s.edits| ==> s.edits[k].version != s.edits[l].version)
  }

  ghost predicate HadPassed(s: State) {
    s.phase == Guarded || s.phase == Replied ==> exists latest :: Guard(Replay(s.events), false, latest) == Passed
  }

  /** The events are those of the calls, and the last edit stands at its place among both. */
  ghost predicate Recorded(s: State) {
    && s.events == EventsOf(s.calls)
    && (s.edits != [] ==>
          var e := LastEdit(s);
          && e.call < |s.calls| && Edits(s.calls[e.call]) && s.calls[e.call].result.timelineId == e.reported
          && e.at == |EventsOf(s.calls[..e.call])|
          && forall j :: e.call < j < |s.calls| && Edits(s.calls[j]) ==> s.calls[j].result.timelineId == e.reported)
    && (s.edits == [] ==> forall j :: 0 <= j < |s.calls| ==> !Edits(s.calls[j]))
  }

  ghost predicate Inv(s: State) { Recorded(s) && Reported(s) && LastIsReported(s) && Versions(s) && HadPassed(s) }

  lemma OneMoreCall(calls: seq<Call>, call: Call)
    ensures EventsOf(calls + [call]) == EventsOf(calls) + RecordOf(call)
  {
    assert (calls + [call])[..|calls|] == calls;
  }

  /** Recording something that is no new edit keeps the places of the reports. */
  lemma RecordKeeps(s: State, e: Event, s': State)
    requires Reported(s) && LastIsReported(s) && Versions(s) && s.phase == Running
    requires s'.events == s.events + [e] && s'.edits == s.edits && s'.phase == Running
    requires e.Mutated? ==> s.edits != [] && e.id == LastEdit(s).reported
    ensures Reported(s') && LastIsReported(s') && Versions(s')
  {
    if s.edits != [] {
      var at := LastEdit(s).at;
      assert s'.events[..at] == s.events[..at];
      assert ReportOf(s.edits, LastEdit(s).reported);
    }
  }

  lemma CallRecorded(s: State, call: Call)
    requires Recorded(s)
    requires Edits(call) ==> s.edits != [] && call.result.timelineId == LastEdit(s).reported
    ensures Recorded(Called(s, call))
  {
    OneMoreCall(s.calls, call);
    if s.edits != [] {
      assert (s.calls + [call])[..LastEdit(s).call] == s.calls[..LastEdit(s).call];
    }
  }

  lemma CallKeeps(s: State, call: Call)
    requires Inv(s) && s.phase == Running
    requires Edits(call) ==> s.edits != [] && call.result.timelineId == LastEdit(s).reported
    ensures Inv(Called(s, call))
  {
    CallRecorded(s, call);
    RecordIs(call);
    RecordsKeep(s, RecordOf(call), Called(s, call));
  }

  lemma RecordsKeep(s: State, record: seq<Event>, s': State)
    requires Reported(s) && LastIsReported(s) && Versions(s) && s.phase == Running
    requires |record| <= 1 && s'.events == s.events + record && s'.edits == s.edits && s'.phase == Running
    requires record != [] && record[0].Mutated? ==> s.edits != [] && record[0].id == LastEdit(s).reported
    ensures Reported(s') && LastIsReported(s') && Versions(s')
  {
    if record == [] {
      assert s'.events == s.events;
    } else {
      assert record == [record[0]];
      RecordKeeps(s, record[0], s');
    }
  }

  lemma {:induction false} MutationIdIsReported(events: seq<Event>, edits: seq<Edit>)
    requires forall j :: 0 <= j < |events| && events[j].Mutated? ==> ReportOf(edits, events[j].id)
    ensures Replay(events).mutationId == "" || ReportOf(edits, Replay(events).mutationId)
  {
    if events != [] {
      MutationIdIsReported(events[..|events| - 1], edits);
    }
  }

  lemma EditKeeps(s: State, call: Call, version: string)
    requires Inv(s) && Enabled(s, MakeEdit(call, version))
    ensures Inv(Do(s, MakeEdit(call, version)))
  {
    var s' := Do(s, MakeEdit(call, version));
    RecordIs(call);
    OneMoreCall(s.calls, call);
    assert s'.calls[..|s.calls|] == s.calls;
    EditIsReported(s, s', call.result.timelineId, version);
  }

  lemma EditIsReported(s: State, s': State, reported: string, version: string)
    requires Reported(s) && LastIsReported(s) && Versions(s) && s'.phase == Running
    requires (IsVersionId(reported) ==> reported == version) && version !in (set e | e in s.edits :: e.version)
    requires s'.events == s.events + [Mutated(reported)]
    requires s'.edits == s.edits + [Edit(version, reported, |s.events|, |s.calls|)]
    ensures Reported(s') && LastIsReported(s') && Versions(s')
  {
    var n := |s.edits|;
    assert s'.edits[n].reported == reported;
    forall j | 0 <= j < |s'.events| && s'.events[j].Mutated? ensures ReportOf(s'.edits, s'.events[j].id) {
      if j < |s.events| {
        var k :| 0 <= k < n && s.edits[k].reported == s.events[j].id;
        assert s'.edits[k].reported == s'.events[j].id;
      }
    }
    forall k | 0 <= k < n ensures s.edits[k].version != version {
      assert s.edits[k] in s.edits;
    }
    assert s'.events[..|s.events|] == s.events;
    MutationIdIsReported(s.events, s.edits);
    forall k | 0 <= k < n && IsVersionId(reported) ensures s.edits[k].reported != reported {
      assert s.edits[k].version != version;
    }
  }

  lemma StepKeeps(s: State, step: Step)
    requires Inv(s) && Enabled(s, step)
    ensures Inv(Do(s, step))
  {
    match step
    case MakeEdit(call, version) => EditKeeps(s, call, version);
    case RepeatReport => CallKeeps(s, s.calls[LastEdit(s).call]);
    case CallOther(call) => CallKeeps(s, call);
    case _ => QuietKeeps(s, step);
  }

  /** A step that records nothing. */
  lemma QuietKeeps(s: State, step: Step)
    requires Inv(s) && Enabled(s, step) && !step.MakeEdit? && !step.RepeatReport? && !step.CallOther?
    ensures Inv(Do(s, step))
  {
    var s' := Do(s, step);
    GuardIgnoresPolicy(s);
    assert s'.calls == s.calls && s'.events == s.events && s'.edits == s.edits;
    assert Recorded(s') && Reported(s') && LastIsReported(s') && Versions(s');
  }

  lemma GuardIgnoresPolicy(s: State)
    ensures Guard(Replay(s.events), s.policyUnresolved, s.latest) == Passed ==>
      Guard(Replay(s.events), false, s.latest) == Passed
  {
  }

  ghost predicate Run(states: seq<State>, steps: seq<Step>) {
    && |states| == |steps| + 1 && Initial(states[0])
    && forall i :: 0 <= i < |steps| ==> Enabled(states[i], steps[i]) && states[i + 1] == Do(states[i], steps[i])
  }

  lemma {:induction false} RunInv(states: seq<State>, steps: seq<Step>, i: nat)
    requires Run(states, steps) && i < |states|
    ensures Inv(states[i])
  {
    if i > 0 {
      RunInv(states, steps, i - 1);
      StepKeeps(states[i - 1], steps[i - 1]);
    }
  }

  // ---------------------------------------------------------------- calls and events

  lemma {:induction false} EventsGrow(calls: seq<Call>, i: nat, j: nat)
    requires i <= j <= |calls|
    ensures EventsOf(calls[..i]) <= EventsOf(calls[..j])
    decreases j
  {
    if i < j {
      EventsGrow(calls, i, j - 1);
      assert calls[..j][..j - 1] == calls[..j - 1];
    }
  }

  /** Where the record of call `i`, if it left one, stands. */
  lemma RecordStands(calls: seq<Call>, i: nat)
    requires i < |calls|
    ensures var p := |EventsOf(calls[..i])|;
      p + |RecordOf(calls[i])| <= |EventsOf(calls)| && EventsOf(calls)[p..p + |RecordOf(calls[i])|] == RecordOf(calls[i])
  {
    EventsGrow(calls, i + 1, |calls|);
    assert calls[..i + 1] == calls[..i] + [calls[i]] && calls[..|calls|] == calls;
    OneMoreCall(calls[..i], calls[i]);
    MiddleOf(EventsOf(calls[..i]), RecordOf(calls[i]), EventsOf(calls));
  }

  lemma MiddleOf(a: seq<Event>, b: seq<Event>, all: seq<Event>)
    requires a + b <= all
    ensures all[|a|..|a| + |b|] == b
  {
    assert all[..|a + b|] == a + b;
    assert all[|a|..|a| + |b|] == (a + b)[|a|..];
  }

  /** Every event is the record of some call. */
  lemma {:induction false} CallOfEvent(calls: seq<Call>, p: nat) returns (i: nat)
    requires p < |EventsOf(calls)|
    ensures i < |calls| && p == |EventsOf(calls[..i])| && RecordOf(calls[i]) == [EventsOf(calls)[p]]
  {
    var n := |calls| - 1;
    var before := EventsOf(calls[..n]);
    RecordIs(calls[n]);
    if p < |before| {
      i := CallOfEvent(calls[..n], p);
      assert calls[..n][..i] == calls[..i];
    } else {
      i := n;
    }
  }

  lemma LaterCall(calls: seq<Call>, i: nat, j: nat)
    requires i < |calls| && j < |calls|
    ensures i < j && RecordOf(calls[i]) != [] ==> |EventsOf(calls[..i])| < |EventsOf(calls[..j])|
    ensures |EventsOf(calls[..i])| < |EventsOf(calls[..j])| ==> i < j
  {
    if i < j {
      EventsGrow(calls, i + 1, j);
      assert calls[..i + 1] == calls[..i] + [calls[i]];
      OneMoreCall(calls[..i], calls[i]);
    } else {
      EventsGrow(calls, j, i);
    }
  }

  /** Call `c` has checked version `id`, and since then neither has the plan been updated nor has
      another check named a version. */
  ghost predicate CheckHolds(calls: seq<Call>, c: int, id: string) {
    && 0 <= c < |calls| && Checks(calls[c]) && calls[c].result.timelineId == id && IsVersionId(id)
    && forall j :: c < j < |calls| ==>
         !UpdatesPlan(calls[j]) && !(Checks(calls[j]) && IsVersionId(calls[j].result.timelineId))
  }

  lemma StandingIsHolding(calls: seq<Call>, p: int, id: string) returns (c: nat)
    requires CheckStands(EventsOf(calls), p, id)
    ensures CheckHolds(calls, c, id) && p == |EventsOf(calls[..c])|
  {
    c := CallOfEvent(calls, p);
    RecordIs(calls[c]);
    forall j | c < j < |calls| ensures !UpdatesPlan(calls[j]) && !(Checks(calls[j]) && IsVersionId(calls[j].result.timelineId)) {
      RecordIs(calls[j]);
      RecordStands(calls, j);
      LaterCall(calls, c, j);
      var q := |EventsOf(calls[..j])|;
      if UpdatesPlan(calls[j]) || Checks(calls[j]) {
        assert EventsOf(calls)[q] == EventsOf(calls)[q..q + 1][0] == RecordOf(calls[j])[0];
      }
    }
  }

  lemma HoldingIsStanding(calls: seq<Call>, c: int, id: string)
    requires CheckHolds(calls, c, id)
    ensures CheckStands(EventsOf(calls), |EventsOf(calls[..c])|, id)
  {
    var events, p := EventsOf(calls), |EventsOf(calls[..c])|;
    RecordIs(calls[c]);
    RecordStands(calls, c);
    assert events[p] == events[p..p + 1][0];
    forall q | p < q < |events| ensures !events[q].PlanUpdated? && !Supersedes(events[q]) {
      var j := CallOfEvent(calls, q);
      LaterCall(calls, c, j);
      RecordIs(calls[j]);
    }
  }

  /** A check that names no version, and since then neither a plan update nor one that does. */
  ghost predicate SpoilsAt(calls: seq<Call>, c: int) {
    && 0 <= c < |calls| && Checks(calls[c]) && !IsVersionId(calls[c].result.timelineId)
    && forall j :: c < j < |calls| ==>
         !UpdatesPlan(calls[j]) && !(Checks(calls[j]) && IsVersionId(calls[j].result.timelineId))
  }

  lemma SpoiltByCall(calls: seq<Call>)
    ensures CheckSpoilt(EventsOf(calls)) <==> exists c :: SpoilsAt(calls, c)
  {
    var events := EventsOf(calls);
    if CheckSpoilt(events) {
      var p :| 0 <= p < |events| && SpoiltAt(events, p);
      var c := SpoiltCall(calls, p);
    }
    if c :| SpoilsAt(calls, c) {
      CallSpoils(calls, c);
    }
  }

  lemma SpoiltCall(calls: seq<Call>, p: nat) returns (c: nat)
    requires p < |EventsOf(calls)| && SpoiltAt(EventsOf(calls), p)
    ensures SpoilsAt(calls, c)
  {
    c := CallOfEvent(calls, p);
    RecordIs(calls[c]);
    forall j | c < j < |calls| ensures !UpdatesPlan(calls[j]) && !(Checks(calls[j]) && IsVersionId(calls[j].result.timelineId)) {
      RecordIs(calls[j]);
      RecordStands(calls, j);
      LaterCall(calls, c, j);
      var q := |EventsOf(calls[..j])|;
      if UpdatesPlan(calls[j]) || Checks(calls[j]) {
        assert EventsOf(calls)[q] == EventsOf(calls)[q..q + 1][0] == RecordOf(calls[j])[0];
      }
    }
  }

  lemma CallSpoils(calls: seq<Call>, c: int)
    requires SpoilsAt(calls, c)
    ensures CheckSpoilt(EventsOf(calls))
  {
    var events, p := EventsOf(calls), |EventsOf(calls[..c])|;
    RecordIs(calls[c]);
    RecordStands(calls, c);
    assert events[p] == events[p..p + 1][0];
    forall q | p < q < |events| ensures !events[q].PlanUpdated? && !Supersedes(events[q]) {
      var j := CallOfEvent(calls, q);
      LaterCall(calls, c, j);
      RecordIs(calls[j]);
    }
    assert SpoiltAt(events, p);
  }

  // ---------------------------------------------------------------- what a success reply rests on

  /** The current version is the one that the turn's last edit made, and a later call has checked
      exactly that version, since when nothing has been checked or planned anew. */
  ghost predicate Confirmed(s: State, c: int)
    requires s.edits != []
  {
    var e := LastEdit(s);
    s.latest == e.version == e.reported && e.call < c && CheckHolds(s.calls, c, e.version)
  }

  /** The same, of any version, in terms of the recorded events. */
  ghost predicate ConfirmedEvents(s: State, p: int, id: string)
    requires s.edits != []
  {
    id == LastEdit(s).version == LastEdit(s).reported && LastEdit(s).at < p && CheckStands(s.events, p, id)
  }

  lemma EvidenceConfirms(s: State, id: string, p: int)
    requires Inv(s) && s.edits != [] && Evidence(s.events, id, p)
    ensures ConfirmedEvents(s, p, id)
  {
    var e := LastEdit(s);
    var last := LastMutation(s.events);
    assert last >= e.at && s.events[last].id == e.reported;
    assert NewMutation(s.events, e.at) && p != e.at;
  }

  lemma EventsConfirm(s: State, p: int, id: string) returns (c: nat)
    requires Inv(s) && s.edits != [] && ConfirmedEvents(s, p, id)
    ensures LastEdit(s).call < c && CheckHolds(s.calls, c, id)
  {
    c := StandingIsHolding(s.calls, p, id);
    LaterCall(s.calls, LastEdit(s).call, c);
  }

  lemma CallsConfirm(s: State, c: int)
    requires Inv(s) && s.edits != [] && Confirmed(s, c)
    ensures Evidence(s.events, s.latest, |EventsOf(s.calls[..c])|)
  {
    var e := LastEdit(s);
    var p := |EventsOf(s.calls[..c])|;
    RecordIs(s.calls[e.call]);
    LaterCall(s.calls, e.call, c);
    HoldingIsStanding(s.calls, c, e.version);
    var last := LastMutation(s.events);
    assert last >= e.at && s.events[last].id == e.reported;
    forall j | p < j < |s.events| ensures !NewMutation(s.events, j) {
      if s.events[j].Mutated? { RepeatIsNotNew(s, j); }
    }
  }

  /** What the gate saw still holds of the calls; the commit looks at the version again. */
  lemma CommitConfirms(s: State) returns (c: nat)
    requires Inv(s) && s.phase == Guarded && s.edits != [] && CommitPhase(s) == Replied
    ensures Confirmed(s, c)
  {
    var seen :| Guard(Replay(s.events), false, seen) == Passed;
    HasEdited(s);
    GuardIsExact(s.events, false, seen);
    var p :| Evidence(s.events, seen, p);
    EvidenceConfirms(s, seen, p);
    c := EventsConfirm(s, p, seen);
    ReplayMutations(s.events);
  }

  lemma HasEdited(s: State)
    requires Inv(s)
    ensures s.edits != [] <==> LastMutation(s.events) >= 0
  {
    if LastMutation(s.events) >= 0 {
      assert ReportOf(s.edits, s.events[LastMutation(s.events)].id);
    }
  }

  /** In every run, whatever others do to the timeline meanwhile: when a success reply commits in
      a turn that edited the timeline, its last edit is the current version, checked as such. */
  lemma SuccessIsTrue(states: seq<State>, steps: seq<Step>, i: nat) returns (c: nat)
    requires Run(states, steps) && i < |steps| && steps[i] == Commit && states[i + 1].phase == Replied
    requires states[i].edits != []
    ensures Confirmed(states[i], c) && states[i + 1].latest == LastEdit(states[i]).version
  {
    RunInv(states, steps, i);
    c := CommitConfirms(states[i]);
  }

  /** A turn that only checked replies about the version that it checked. */
  lemma CheckedVersionIsCurrent(states: seq<State>, steps: seq<Step>, i: nat, c: int, id: string)
    requires Run(states, steps) && i < |steps| && steps[i] == Commit && states[i + 1].phase == Replied
    requires states[i].edits == [] && CheckHolds(states[i].calls, c, id)
    ensures states[i].latest == id
  {
    RunInv(states, steps, i);
    var s := states[i];
    var seen :| Guard(Replay(s.events), false, seen) == Passed;
    HasEdited(s);
    HoldingIsStanding(s.calls, c, id);
    CheckOnlyTurns(s.events, false, seen);
    assert ExpectedId(Replay(s.events)) == id;
    assert IsVersionId(id);
  }

  /** The turn may claim success: no question is open, no check is unusable, and what it has edited
      or checked is the current version, checked as such. */
  ghost predicate MayClaim(s: State) {
    && !s.policyUnresolved && (forall c :: !SpoilsAt(s.calls, c))
    && if s.edits != [] then exists c :: Confirmed(s, c)
       else forall c, id :: CheckHolds(s.calls, c, id) ==> id == s.latest
  }

  /** In every run the gate opens exactly when the turn may claim success; and then the commit
      succeeds, unless others change the timeline in between. */
  lemma GateOpensExactly(states: seq<State>, steps: seq<Step>, i: nat)
    requires Run(states, steps) && i < |states| && states[i].phase == Running
    ensures var s := states[i];
      && (Do(s, TryGuard).phase == Guarded <==> MayClaim(s))
      && (MayClaim(s) ==> Do(Do(s, TryGuard), Commit).phase == Replied)
  {
    RunInv(states, steps, i);
    GateIs(states[i]);
    GatePassedCommits(states[i]);
  }

  lemma GateIs(s: State)
    requires Inv(s)
    ensures Guard(Replay(s.events), s.policyUnresolved, s.latest) == Passed <==> MayClaim(s)
  {
    HasEdited(s);
    SpoiltByCall(s.calls);
    if s.edits != [] { EditedGate(s); } else { UneditedGate(s); }
  }

  lemma EditedGate(s: State)
    requires Inv(s) && s.edits != [] && LastMutation(s.events) >= 0
    ensures (exists p :: Evidence(s.events, s.latest, p)) <==> exists c :: Confirmed(s, c)
    ensures Guard(Replay(s.events), s.policyUnresolved, s.latest) == Passed <==>
      !s.policyUnresolved && !CheckSpoilt(s.events) && exists c :: Confirmed(s, c)
  {
    GuardIsExact(s.events, s.policyUnresolved, s.latest);
    if p :| Evidence(s.events, s.latest, p) {
      EvidenceConfirms(s, s.latest, p);
      var c := EventsConfirm(s, p, s.latest);
      assert Confirmed(s, c);
    }
    if c :| Confirmed(s, c) {
      CallsConfirm(s, c);
    }
  }

  lemma UneditedGate(s: State)
    requires Inv(s) && LastMutation(s.events) < 0
    ensures Guard(Replay(s.events), s.policyUnresolved, s.latest) == Passed <==>
      !s.policyUnresolved && !CheckSpoilt(s.events) && forall c, id :: CheckHolds(s.calls, c, id) ==> id == s.latest
  {
    CheckOnlyGuardIsExact(s.events, s.policyUnresolved, s.latest);
    forall c, id | CheckHolds(s.calls, c, id) ensures CheckStands(s.events, |EventsOf(s.calls[..c])|, id) {
      HoldingIsStanding(s.calls, c, id);
    }
    forall p, id | CheckStands(s.events, p, id) ensures exists c :: CheckHolds(s.calls, c, id) {
      var c := StandingIsHolding(s.calls, p, id);
    }
  }

  lemma GatePassedCommits(s: State)
    ensures Guard(Replay(s.events), s.policyUnresolved, s.latest) == Passed ==> CommitPhase(s) == Replied
  {
    ReplayMutations(s.events);
  }

  lemma {:induction false} RepeatIsNotNew(s: State, j: nat)
    requires Inv(s) && s.edits != [] && LastEdit(s).at < j < |s.events| && s.events[j].Mutated?
    requires IsVersionId(LastEdit(s).reported)
    ensures !NewMutation(s.events, j)
  {
    var e := LastEdit(s);
    var before := s.events[..j];
    ReplayMutations(before);
    var last := LastMutation(before);
    assert before[e.at] == s.events[e.at] && last >= e.at;
    assert before[last] == s.events[last];
  }
}
