/**
 * What a turn has recorded about its edits and checks of the timeline, and the gate that a
 * success reply has to pass.
 */
module TerminalTruth {
  datatype Status = Succeeded | ValidationFailed | OtherStatus(name: string)

  datatype ToolResult = ToolResult(status: Status, timelineId: string, payload: nat)

  datatype Truth = Truth(
    mutationSequence: nat,
    mutationId: string,
    mutationInvalid: bool,
    checkSequence: nat,
    checkId: string,
    checkStatus: string,
    checkInvalid: bool,
    checkResult: nat)

  const INITIAL: Truth := Truth(0, "", false, 0, "", "", false, 0)

  predicate Digits(s: string) { s != "" && forall c :: c in s ==> '0' <= c <= '9' }

  /** A draft, ":v" and a version number. */
  predicate IsVersionId(id: string) { exists i :: 0 < i <= |id| - 2 && VersionFrom(id, i) }

  predicate VersionFrom(id: string, i: int)
    requires 0 <= i <= |id| - 2
  {
    id[i..i + 2] == ":v" && Digits(id[i + 2..])
  }

  /** A draft, ":v" and a number. */
  predicate IsVersionOf(id: string, draft: string, number: string) {
    && id == draft + ":v" + number && draft != "" && number != ""
    && forall c :: c in number ==> '0' <= c <= '9'
  }

  lemma VersionIdsAre(id: string)
    ensures IsVersionId(id) <==> exists draft, number :: IsVersionOf(id, draft, number)
  {
    if i :| 0 < i <= |id| - 2 && VersionFrom(id, i) {
      assert id == id[..i] + id[i..i + 2] + id[i + 2..];
      assert IsVersionOf(id, id[..i], id[i + 2..]);
    }
    if draft, number :| IsVersionOf(id, draft, number) {
      assert id[|draft|..|draft| + 2] == ":v" && id[|draft| + 2..] == number;
      assert VersionFrom(id, |draft|);
    }
  }

  function StatusText(s: Status): string {
    match s
    case Succeeded => "succeeded"
    case ValidationFailed => "validation_failed"
    case OtherStatus(name) => name
  }

  // ---------------------------------------------------------------- recording

  /** What happens to a turn's knowledge; `Mutated` is one report of one edit. */
  datatype Event =
    | Mutated(id: string)
    | Checked(id: string, status: Status, payload: nat)
    | PlanUpdated

  predicate Conclusive(s: Status) { s.Succeeded? || s.ValidationFailed? }

  function After(t: Truth, e: Event): Truth {
    match e
    case Mutated(id) =>
      if !IsVersionId(id) then t.(mutationInvalid := true)
      else t.(mutationSequence := if t.mutationId != id then t.mutationSequence + 1 else t.mutationSequence,
              mutationId := id, mutationInvalid := false)
    case Checked(id, status, payload) =>
      if !Conclusive(status) then t
      else if !IsVersionId(id) then t.(checkInvalid := true)
      else t.(checkSequence := t.mutationSequence, checkId := id, checkStatus := StatusText(status),
              checkInvalid := false, checkResult := payload)
    case PlanUpdated =>
      t.(checkSequence := 0, checkId := "", checkStatus := "", checkInvalid := false, checkResult := 0)
  }

  function Replay(events: seq<Event>): Truth {
    if events == [] then INITIAL else After(Replay(events[..|events| - 1]), events[|events| - 1])
  }

  predicate IsMutation(tool: string) {
    tool == "timeline.insert" || tool == "timeline.delete" || tool == "timeline.update" || tool == "timeline.split"
  }

  /** The event, if any, that a finished tool call amounts to. */
  function EventOf(tool: string, callSucceeded: bool, result: ToolResult): seq<Event> {
    if !callSucceeded && tool != "timeline.check" then []
    else if tool == "plan.update" && result.status.Succeeded? then [PlanUpdated]
    else if IsMutation(tool) then (if result.status.Succeeded? then [Mutated(result.timelineId)] else [])
    else if tool == "timeline.check" then [Checked(result.timelineId, result.status, result.payload)]
    else []
  }

  class TerminalTimelineTruthState {
    var mutationSequence: nat
    var mutationId: string
    var mutationInvalid: bool
    var checkSequence: nat
    var checkId: string
    var checkStatus: string
    var checkInvalid: bool
    var checkResult: nat
    /** All that was recorded so far. */
    ghost var events: seq<Event>

    function Snapshot(): Truth
      reads this
    {
      Truth(mutationSequence, mutationId, mutationInvalid, checkSequence, checkId, checkStatus, checkInvalid, checkResult)
    }

    ghost predicate Valid()
      reads this
    {
      Snapshot() == Replay(events)
    }

    constructor ()
      ensures Valid() && events == []
    {
      mutationSequence, mutationId, mutationInvalid := 0, "", false;
      checkSequence, checkId, checkStatus, checkInvalid, checkResult := 0, "", "", false, 0;
      events := [];
    }

    method InvalidateTimelineCheck()
      requires Valid()
      modifies this
      ensures Valid() && events == old(events) + [PlanUpdated]
    {
      ReplayStep(events, PlanUpdated);
      checkSequence, checkId, checkStatus, checkInvalid, checkResult := 0, "", "", false, 0;
      events := events + [PlanUpdated];
    }

    method RecordMutationTimelineId(id: string)
      requires Valid()
      modifies this
      ensures Valid() && events == old(events) + [Mutated(id)]
    {
      ReplayStep(events, Mutated(id));
      StoreMutation(id);
      events := events + [Mutated(id)];
    }

    method StoreMutation(id: string)
      modifies this`mutationSequence, this`mutationId, this`mutationInvalid
      ensures Snapshot() == After(old(Snapshot()), Mutated(id))
    {
      if !IsVersionId(id) {
        mutationInvalid := true;
        return;
      }
      if mutationId != id {
        mutationSequence := mutationSequence + 1;
      }
      mutationId := id;
      mutationInvalid := false;
    }

    method RecordTimelineCheckResult(id: string, status: Status, payload: nat)
      requires Valid()
      modifies this
      ensures Valid() && events == old(events) + [Checked(id, status, payload)]
    {
      ReplayStep(events, Checked(id, status, payload));
      StoreCheck(id, status, payload);
      events := events + [Checked(id, status, payload)];
    }

    method StoreCheck(id: string, status: Status, payload: nat)
      modifies this`checkSequence, this`checkId, this`checkStatus, this`checkInvalid, this`checkResult
      ensures Snapshot() == After(old(Snapshot()), Checked(id, status, payload))
    {
      if !status.Succeeded? && !status.ValidationFailed? {
        return;
      }
      if !IsVersionId(id) {
        checkInvalid := true;
        return;
      }
      checkSequence, checkId, checkStatus := mutationSequence, id, StatusText(status);
      checkInvalid, checkResult := false, payload;
    }

    method RecordToolResult(tool: string, callSucceeded: bool, result: ToolResult)
      requires Valid()
      modifies this
      ensures Valid() && events == old(events) + EventOf(tool, callSucceeded, result)
    {
      if !callSucceeded && tool != "timeline.check" {
        return;
      }
      if tool == "plan.update" && result.status.Succeeded? {
        InvalidateTimelineCheck();
      } else if IsMutation(tool) {
        if result.status.Succeeded? {
          RecordMutationTimelineId(result.timelineId);
        }
      } else if tool == "timeline.check" {
        RecordTimelineCheckResult(result.timelineId, result.status, result.payload);
      }
    }

    /** terminalReplyGuard: the first objection, if there is any. */
    method TerminalReplyGuard(policyUnresolved: bool, latest: string) returns (r: Verdict)
      requires Valid()
      ensures r == Guard(Replay(events), policyUnresolved, latest)
    {
      if policyUnresolved {
        return PolicyUnresolved;
      }
      var s := Snapshot();
      if s.mutationInvalid || (s.mutationSequence > 0 && s.mutationId == "") {
        return MutationUnverified;
      }
      if s.checkInvalid {
        return CheckUnverified;
      }
      var expected := ExpectedId(s);
      if expected == "" {
        return Passed;
      }
      if s.mutationSequence > 0 && (s.checkSequence == 0 || s.checkId == "") {
        return CheckMissing;
      }
      if s.mutationSequence > 0 && (s.checkSequence != s.mutationSequence || s.checkId != s.mutationId) {
        return CheckStale;
      }
      if latest != expected {
        return LatestChanged;
      }
      r := Passed;
    }
  }

  // ---------------------------------------------------------------- the gate

  datatype Verdict =
    | Passed | PolicyUnresolved | MutationUnverified | CheckUnverified | CheckMissing | CheckStale | LatestChanged

  /** The version that the reply is bound to; empty if it is bound to none. */
  function ExpectedId(t: Truth): string { if t.mutationSequence > 0 then t.mutationId else t.checkId }

  /** `latest` is the id of the draft's current version, empty if there is none. */
  function Guard(t: Truth, policyUnresolved: bool, latest: string): Verdict {
    if policyUnresolved then PolicyUnresolved
    else if t.mutationInvalid || (t.mutationSequence > 0 && t.mutationId == "") then MutationUnverified
    else if t.checkInvalid then CheckUnverified
    else if ExpectedId(t) == "" then Passed
    else if t.mutationSequence > 0 && (t.checkSequence == 0 || t.checkId == "") then CheckMissing
    else if t.mutationSequence > 0 && (t.checkSequence != t.mutationSequence || t.checkId != t.mutationId) then CheckStale
    else if latest != ExpectedId(t) then LatestChanged
    else Passed
  }

  // ---------------------------------------------------------------- what the history says

  /** Where the last report of an edit is, or -1. */
  function LastMutation(events: seq<Event>): (i: int)
    ensures -1 <= i < |events| && (i >= 0 ==> events[i].Mutated?)
    ensures forall j :: i < j < |events| ==> !events[j].Mutated?
  {
    if events == [] then -1
    else if events[|events| - 1].Mutated? then |events| - 1
    else LastMutation(events[..|events| - 1])
  }

  /** A report that does not merely repeat the one before it. */
  predicate NewMutation(events: seq<Event>, i: int)
    requires 0 <= i < |events|
  {
    && events[i].Mutated? && IsVersionId(events[i].id)
    && Replay(events[..i]).mutationId != events[i].id
  }

  /** A usable check of version `id` at `c`, since which the plan has not changed and no other
      usable check has come. */
  ghost predicate CheckStands(events: seq<Event>, c: int, id: string) {
    && 0 <= c < |events| && events[c].Checked? && Conclusive(events[c].status) && events[c].id == id && IsVersionId(id)
    && forall j :: c < j < |events| ==> !events[j].PlanUpdated? && !Supersedes(events[j])
  }

  predicate Supersedes(e: Event) { e.Checked? && Conclusive(e.status) && IsVersionId(e.id) }

  /** No edit was newly reported after `c`. */
  ghost predicate NoNewMutationSince(events: seq<Event>, c: int) {
    forall j :: c < j < |events| && 0 <= j ==> !NewMutation(events, j)
  }

  lemma ReplayStep(events: seq<Event>, e: Event)
    ensures Replay(events + [e]) == After(Replay(events), e)
  {
    assert (events + [e])[..|events|] == events;
  }

  /** The last report decides whether the edit is known, and which one it is. */
  lemma {:induction false} ReplayMutations(events: seq<Event>)
    ensures var t, last := Replay(events), LastMutation(events);
      && (last < 0 ==> t.mutationSequence == 0 && t.mutationId == "" && !t.mutationInvalid)
      && (last >= 0 ==> (t.mutationInvalid <==> !IsVersionId(events[last].id)))
      && (last >= 0 && !t.mutationInvalid ==> t.mutationId == events[last].id && t.mutationSequence > 0)
      && (t.mutationSequence > 0 <==> t.mutationId != "")
      && (t.mutationId != "" ==> IsVersionId(t.mutationId))
  {
    if events != [] {
      ReplayMutations(events[..|events| - 1]);
    }
  }

  lemma SameNewMutations(events: seq<Event>, n: nat)
    requires n <= |events|
    ensures forall j :: 0 <= j < n ==> (NewMutation(events, j) <==> NewMutation(events[..n], j))
  {
    forall j | 0 <= j < n ensures NewMutation(events, j) <==> NewMutation(events[..n], j) {
      assert events[..n][..j] == events[..j];
    }
  }

  lemma NewMutationCounts(events: seq<Event>)
    requires events != []
    ensures var n := |events| - 1;
      Replay(events).mutationSequence == Replay(events[..n]).mutationSequence + if NewMutation(events, n) then 1 else 0
  {
  }

  /** The sequence number tells whether an edit was newly reported since. */
  lemma {:induction false} SequenceCounts(events: seq<Event>, c: nat)
    requires c < |events|
    ensures Replay(events[..c + 1]).mutationSequence <= Replay(events).mutationSequence
    ensures Replay(events[..c + 1]).mutationSequence == Replay(events).mutationSequence <==> NoNewMutationSince(events, c)
  {
    var n := |events| - 1;
    if c == n {
      assert events[..c + 1] == events;
    } else {
      var before := events[..n];
      SequenceCounts(before, c);
      assert before[..c + 1] == events[..c + 1];
      SameNewMutations(events, n);
      NewMutationCounts(events);
      assert NoNewMutationSince(events, c) <==> NoNewMutationSince(before, c) && !NewMutation(events, n);
    }
  }

  /** A check that is on record stands, and carries the sequence number of its time. */
  lemma {:induction false} RecordedCheckStands(events: seq<Event>) returns (c: int)
    requires Replay(events).checkId != ""
    ensures CheckStands(events, c, Replay(events).checkId)
    ensures Replay(events).checkSequence == Replay(events[..c + 1]).mutationSequence
  {
    var n := |events| - 1;
    var before, e := events[..n], events[n];
    if Supersedes(e) {
      c := n;
      assert events[..n + 1] == events;
    } else {
      CheckFieldsStay(Replay(before), e);
      c := RecordedCheckStands(before);
      CheckStays(before, e, c, Replay(before).checkId);
      assert before + [e] == events;
    }
  }

  /** The step from one event to the next, for what is on record of checks. */
  lemma CheckStays(events: seq<Event>, e: Event, c: int, id: string)
    requires CheckStands(events, c, id) && !Supersedes(e) && !e.PlanUpdated?
    ensures CheckStands(events + [e], c, id)
    ensures (events + [e])[..c + 1] == events[..c + 1]
  {
  }

  lemma CheckFieldsStay(t: Truth, e: Event)
    requires !Supersedes(e) && After(t, e).checkId != ""
    ensures !e.PlanUpdated? && After(t, e).checkId == t.checkId && After(t, e).checkSequence == t.checkSequence
  {
  }

  lemma StoodBefore(events: seq<Event>, c: int, id: string)
    requires CheckStands(events, c, id) && c < |events| - 1
    ensures CheckStands(events[..|events| - 1], c, id)
    ensures !events[|events| - 1].PlanUpdated? && !Supersedes(events[|events| - 1])
  {
    var before := events[..|events| - 1];
    assert forall j :: 0 <= j < |before| ==> before[j] == events[j];
  }

  /** A check that stands is the one on record, with its outcome. */
  lemma {:induction false} StandingCheckIsRecorded(events: seq<Event>, c: int, id: string)
    requires CheckStands(events, c, id)
    ensures Replay(events).checkId == id && Replay(events).checkSequence == Replay(events[..c + 1]).mutationSequence
    ensures Replay(events).checkStatus == (if events[c].status == Succeeded then "succeeded" else "validation_failed")
    ensures Replay(events).checkResult == events[c].payload
    decreases |events|
  {
    var n := |events| - 1;
    if c == n {
      assert events[..n + 1] == events;
    } else {
      var before := events[..n];
      StoodBefore(events, c, id);
      StandingCheckIsRecorded(before, c, id);
      assert before[..c + 1] == events[..c + 1];
    }
  }

  /** A check without a usable version id, and nothing since that replaces it. */
  ghost predicate CheckSpoilt(events: seq<Event>) {
    exists i :: 0 <= i < |events| && SpoiltAt(events, i)
  }

  ghost predicate SpoiltAt(events: seq<Event>, i: int)
    requires 0 <= i < |events|
  {
    && events[i].Checked? && Conclusive(events[i].status) && !IsVersionId(events[i].id)
    && forall j :: i < j < |events| ==> !events[j].PlanUpdated? && !Supersedes(events[j])
  }

  lemma {:induction false} SpoiltIsRecorded(events: seq<Event>)
    ensures Replay(events).checkInvalid <==> CheckSpoilt(events)
  {
    if events != [] {
      var n := |events| - 1;
      var before, e := events[..n], events[n];
      SpoiltIsRecorded(before);
      if e.Checked? && Conclusive(e.status) && !IsVersionId(e.id) {
        assert SpoiltAt(events, n);
      } else if e.PlanUpdated? || Supersedes(e) {
        assert forall i :: 0 <= i < |events| ==> !SpoiltAt(events, i);
      } else {
        assert forall i :: 0 <= i < n ==> (SpoiltAt(events, i) <==> SpoiltAt(before, i)) by {
          assert forall j :: 0 <= j < n ==> events[j] == before[j];
        }
      }
    }
  }

  /** What a reply has to be able to rest on after an edit: the last report names a version, that
      version is the current one, and a usable check of exactly it still stands and was recorded
      after the edit was first reported. */
  ghost predicate Evidence(events: seq<Event>, latest: string, c: int) {
    var last := LastMutation(events);
    && last >= 0 && IsVersionId(events[last].id) && latest == events[last].id
    && CheckStands(events, c, latest) && NoNewMutationSince(events, c)
  }

  /** After an edit the gate opens exactly on such evidence. */
  lemma GuardIsExact(events: seq<Event>, policyUnresolved: bool, latest: string)
    requires LastMutation(events) >= 0
    ensures Guard(Replay(events), policyUnresolved, latest) == Passed <==>
      !policyUnresolved && !CheckSpoilt(events) && exists c :: Evidence(events, latest, c)
  {
    var t := Replay(events);
    ReplayMutations(events);
    SpoiltIsRecorded(events);
    if Guard(t, policyUnresolved, latest) == Passed {
      var c := RecordedCheckStands(events);
      SequenceCounts(events, c);
      assert Evidence(events, latest, c);
    }
    if c :| Evidence(events, latest, c) {
      StandingCheckIsRecorded(events, c, latest);
      SequenceCounts(events, c);
    }
  }

  /** In a turn without edits the gate opens exactly if the check that stands, if there is one, is
      of the current version. */
  lemma CheckOnlyGuardIsExact(events: seq<Event>, policyUnresolved: bool, latest: string)
    requires LastMutation(events) < 0
    ensures Guard(Replay(events), policyUnresolved, latest) == Passed <==>
      !policyUnresolved && !CheckSpoilt(events) && forall c, id :: CheckStands(events, c, id) ==> latest == id
  {
    var t := Replay(events);
    ReplayMutations(events);
    SpoiltIsRecorded(events);
    forall c, id | CheckStands(events, c, id) ensures t.checkId == id != "" {
      StandingCheckIsRecorded(events, c, id);
    }
    if t.checkId != "" {
      var c := RecordedCheckStands(events);
      assert CheckStands(events, c, t.checkId);
    }
  }

  /** In a turn without edits a reply is bound to the version of the check that stands. */
  lemma CheckOnlyTurns(events: seq<Event>, policyUnresolved: bool, latest: string)
    requires LastMutation(events) < 0 && Guard(Replay(events), policyUnresolved, latest) == Passed
    ensures forall c, id :: CheckStands(events, c, id) ==> latest == id == ExpectedId(Replay(events))
  {
    ReplayMutations(events);
    forall c, id | CheckStands(events, c, id) ensures latest == id == ExpectedId(Replay(events)) {
      StandingCheckIsRecorded(events, c, id);
    }
  }

  // ---------------------------------------------------------------- every objection

  /** The last report of an edit names no version. */
  predicate Unverified(events: seq<Event>) {
    LastMutation(events) >= 0 && !IsVersionId(events[LastMutation(events)].id)
  }

  /** A check of some version stands that came after an edit was reported. */
  ghost predicate CheckedAfterEdit(events: seq<Event>, c: int, id: string) {
    CheckStands(events, c, id) && exists j :: 0 <= j < c && NewMutation(events, j)
  }

  lemma {:induction false} SomethingReported(events: seq<Event>)
    ensures Replay(events).mutationSequence > 0 <==> exists j :: 0 <= j < |events| && NewMutation(events, j)
  {
    if events != [] {
      var n := |events| - 1;
      SomethingReported(events[..n]);
      SameNewMutations(events, n);
      NewMutationCounts(events);
    }
  }

  lemma ReportedBefore(events: seq<Event>, c: int, id: string)
    requires CheckStands(events, c, id)
    ensures Replay(events).checkSequence > 0 <==> CheckedAfterEdit(events, c, id)
  {
    StandingCheckIsRecorded(events, c, id);
    SomethingReported(events[..c + 1]);
    SameNewMutations(events, c + 1);
    assert !NewMutation(events, c);
  }

  /** The verdict names the first objection that there is: an open question, an edit or a check
      whose version is not known, after an edit no check since or none of the last edit, and
      last that the version to be confirmed is not the current one. */
  lemma VerdictIsFirst(events: seq<Event>, policyUnresolved: bool, latest: string)
    ensures var v := Guard(Replay(events), policyUnresolved, latest);
      var edited := LastMutation(events) >= 0;
      if policyUnresolved then v == PolicyUnresolved
      else if Unverified(events) then v == MutationUnverified
      else if CheckSpoilt(events) then v == CheckUnverified
      else if edited && !exists c, id :: CheckedAfterEdit(events, c, id) then v == CheckMissing
      else if edited && !exists c :: Evidence(events, events[LastMutation(events)].id, c) then v == CheckStale
      else if exists c, id :: CheckStands(events, c, id) && id != latest then v == LatestChanged
      else v == Passed
  {
    var t, v := Replay(events), Guard(Replay(events), policyUnresolved, latest);
    ReplayMutations(events);
    SpoiltIsRecorded(events);
    if t.checkId != "" {
      var c := RecordedCheckStands(events);
      ReportedBefore(events, c, t.checkId);
      SequenceCounts(events, c);
      assert CheckStands(events, c, t.checkId);
      forall b, id | CheckStands(events, b, id) ensures id == t.checkId {
        StandingCheckIsRecorded(events, b, id);
      }
    }
    forall c, id | CheckStands(events, c, id) ensures t.checkId == id != "" && (CheckedAfterEdit(events, c, id) <==> t.checkSequence > 0) {
      StandingCheckIsRecorded(events, c, id);
      ReportedBefore(events, c, id);
    }
    if LastMutation(events) >= 0 {
      GuardIsExact(events, false, events[LastMutation(events)].id);
    }
  }
}
