# A verified model of Rushes' agent kernel

Rushes edits video by conversation: an agent takes turns on a draft, calls tools, edits a
timeline and replies.  This project models the parts of its Go code that decide what may happen
at the same time, what is durable, and what an answer is allowed to claim, and proves what those
parts promise.  `dafny verify dfyconfig.toml` checks all of it.

Code that updates objects, slices or maps in place is a class or a method with loops here, proved
against functions on values; protocols are state machines whose theorems hold in every run.

| area | files |
|---|---|
| turn queue, cancellation barriers | `DraftWorker`, `TurnQueueModel`, `TurnQueueSafety`, `TurnQueueService`, `TurnQueueProgress`, `UnwaitedRelease`, `TurnQueue` |
| indexed resource locks, parallel tool calls | `IndexedLocks`, `LockOrder`, `LockSharing`, `IndexedResourceCoordinator`, `ToolRouter`, `ToolFootprints`, `ParallelCalls` |
| turn stream: replay buffer, delivery, recovery | `ReplayBuffer`, `StreamDelivery`, `StreamRecovery`, `StreamTurns`, `TurnStreamHub` |
| crash reconciliation | `Reconciliation` |
| merge patches of the world state and the plan | `MergePatch` |
| what was said: alignment, repeats, pauses | `SpeechAlignment`, `SpeechRepeats`, `SpeechPauses`, `WordBoundaries` |
| content contract, tool result budgets | `ContentContract`, `ToolResultCompaction` |
| independent audio | `IndependentAudio`, `AudioRestoration`, `AudioProofs` |
| terminal truth | `TerminalTruth`, `TerminalTurns` |
| shared notions | `Basics`, `Sorting`, `Subsequences` |

How concurrency is modelled:

* Every section under a mutex is one step, every channel operation and `select` branch a
  nondeterministic one; a run is any sequence of enabled steps.
* In the turn queue, slots carry a ticket so that conservation and "at most once" can be stated.
  The methods of the class `TurnQueue` are the mutex sections, each proved to take its step.
* Locks are modelled with their waiting loops: a step is one pass of a loop, going to sleep is a
  state, and `Broadcast` wakes.
* In the turn stream the subscribers receive at arbitrary points between the hub's channel
  operations.  `DraftStreams` is the inner map of the hub's subscriptions: the channels of one
  draft; its ghost field `log` is everything recorded for the draft, and the hub's ghost field `turns`
  what has been recorded of every running turn.

What holds only under a condition, stated as an if-and-only-if or beside a concrete counterexample:

* A barrier's covered turns stay unfinished as long as it stands (`CountHoldsWhileFenced`), and for
  good if owners release only after waiting (`CountedTurnsNeverFinish`); an owner that releases at
  once breaks it (`EarlyReleaseBreaksCount`).  After the last release of a draft's barriers a
  counted turn can still finish if and only if it had not started by then (`UnwaitedReleaseIsExact`).
* Two calls can be inside the index locks together if and only if neither writes what the other
  touches, readers always (`MeetIffNoConflict`); of a write with several resources only the first
  is locked (`WriteExcludesExactly`, `SecondResourceIsOpen`).
* The waiting reply of a decision takes no turn if and only if the decision has not been answered
  since it was created, whatever else was accepted (`WaitingReplyTakesNothingIff`); so a decision
  takes one turn then (`DecisionTakesOneTurn`) and two otherwise (`AnsweredInBetweenTakesTwo`).
* Reconciliation rebuilds the turns that are outstanding, in order, at every point of a draft's
  history if and only if every answer finds the channel empty; every waiting reply is written
  before the answer; no message is queued, and no cancellation counts the same turns again, while
  stored turns are in no channel (those of a crashed process, or refused ones); no turn ends while
  a decision whose waiting reply was cut off is unanswered; and no turn ends or is cancelled
  without its fact (`ReconciliationRebuildsTheQueue`, with `Orderly`).  Two failures in full: an
  answer with another turn queued goes to the end of the channel
  (`go/internal/agent/turn_queue.go:219-221`), but the loop puts it first
  (`AnswerOvertakenByATurn`); a second cancellation of the same turn, stored while a message of a
  crashed process is outstanding, is charged to that message (`CancelledTwice`).
* `UtteranceCoveredByClips` finds exactly the chains that go on, at every clip, with the first
  candidate that continues it (`CoverageFollowsFirst`).  So it is exact unless some clip can go on to
  two different places (`CoverageIsExact`); where it can, the order of the clips decides
  (`ForkHidesCoverage`).
* A protected clip ends up in the document exactly once, on its own track, if and only if the
  patched document has that track once and no copy of the clip has got onto another track that
  keeps it (`ProtectedExactlyOnce`, `StrayIsDuplicated`).
* Marking and stripping a document is the identity if and only if no clip on an independent
  audio track has an empty id (`MarkThenStrip`).
* Every clause of a text without timestamps gets a frame of its own if and only if there are at
  least as many frames as clauses (`EveryClauseHasAFrame`).
* A merge patch reproduces its target exactly if and only if the target has null members only
  where the source has the same ones (`RoundTripExactly`); up to null members always (`RoundTrip`).

What is taken from the surroundings: a turn stream records other events than `turn_started` and
terminal ones only inside a turn; a recoverable subscriber has a client id; the random prefix of
lineage markers is used by nobody else; every word ends after it begins, as both the decoder and
the alignment of recognised words make sure (`go/internal/agentexec/speech_inspect.go:198` and
`:347`); a commit on the context of a cancelled turn does not apply
(`go/internal/agent/service.go:404-424`), on which `CountedTurnsNeverFinish`,
`CountHoldsWhileFenced` and `UnwaitedReleaseIsExact` rest; a timeline edit makes a version that the
turn has not made before, and the repeated report of an edit comes before the next edit.

## Model

| member | source | states |
|---|---|---|
| DraftWorkers.KeepsPlaces | go/internal/agent/turn_queue.go:543-608 | every step of a worker keeps every reserved slot in exactly one place |
| DraftWorkers.KeepsCount | go/internal/agent/turn_queue.go:178-238 | every step keeps the pending count equal to the slots with producers, in the channel, being drained, or in hand |
| DraftWorkers.KeepsDrain | go/internal/agent/turn_queue.go:595-608 | the drain channel is closed exactly while nothing is pending, and no channel is closed twice |
| DraftWorkers.KeepsInv | go/internal/agent/turn_queue.go:44-60 | every step of a worker keeps its whole invariant |
| DraftWorkers.CoveredIsExact | go/internal/agent/turn_queue.go:387-405 | the covered number is the number of pending slots without a durable terminal |
| DraftWorkers.DrainAllMovesQueue | go/internal/agent/turn_queue.go:455-471 | draining a retired worker hands every queued slot over, once, and keeps the invariant |
| TurnQueue.DraftWorker.TryReserve | go/internal/agent/turn_queue.go:178-219 | a slot is reserved exactly when the worker takes turns, and then only that changes |
| TurnQueue.DraftWorker.Start | go/internal/agent/turn_queue.go:543-580 | the runner is called unless the worker is retired; behind a fence the turn starts cancelled |
| TurnQueue.DraftWorker.BeginCancel | go/internal/agent/turn_queue.go:387-405 | fences the worker, stops the running turn and reports the covered number |
| TurnQueue.DraftWorker.DrainRetired | go/internal/agent/turn_queue.go:455-471 | the receiving loop empties the channel of a retired worker |
| TurnQueue.TurnQueue.ReserveTurn | go/internal/agent/turn_queue.go:178-238 | enqueue up to the send: refuses exactly under a fence or at shutdown, otherwise reserves on the one worker of the draft |
| TurnQueue.TurnQueue.BeginDraftCancellation | go/internal/agent/turn_queue.go:373-405 | takes a lease, fences the worker and counts in one section |
| TurnQueue.TurnQueue.BeginRelease | go/internal/agent/turn_queue.go:413-430 | the first section of Release and Abandon; abandoning unregisters and retires the barrier's own worker |
| TurnQueue.TurnQueue.EndRelease | go/internal/agent/turn_queue.go:430-442 | gives the lease back; only the last release reopens the worker |
| TurnQueue.TurnQueue.CommitCurrentDurableTerminal | go/internal/agent/turn_queue.go:323-346 | a durable terminal is recorded for the running turn, in a section a cancellation cannot enter |
| TurnQueue.TurnQueue.Close | go/internal/agent/turn_queue.go:491-538 | shutdown closes the queue and forgets registrations and leases at once |
| TurnQueueModel.StepKeeps | go/internal/agent/turn_queue.go:33-72 | every step of the whole queue keeps leases, fences, registrations, drainers and workers consistent |
| TurnQueueSafety.FenceHolds | go/internal/agent/turn_queue.go:178-238 | in every reachable state no turn can be reserved for a draft with an outstanding barrier |
| TurnQueueSafety.CancelingExactlyWhileFenced | go/internal/agent/turn_queue.go:413-442 | a registered worker is canceling exactly while some barrier of its draft is outstanding, however barriers nest and end |
| TurnQueueSafety.FreshWorkerAfterDrain | go/internal/agent/turn_queue.go:413-471 | a draft gets a new worker only after every abandoned one is retired and empty |
| TurnQueueSafety.RetiredNeverRuns | go/internal/agent/turn_queue.go:558-575 | in every run a retired worker never calls the runner again |
| TurnQueueSafety.SlotConservation | go/internal/agent/turn_queue.go:178-238 | every slot ever reserved is pending or released, never both and only once; the count is exact; the drain channel is closed exactly when it is zero |
| TurnQueueSafety.RunnerCalledAtMostOnce | go/internal/agent/turn_queue.go:543-594 | the runner is called at most once for a slot; a turn running behind a fence runs cancelled |
| TurnQueueSafety.BarrierWaitsForAll | go/internal/agent/turn_queue.go:83-111 | the channel a barrier waits for is closed exactly when every slot accepted before it has been released |
| TurnQueueSafety.CancellationCountIsExact | go/internal/agent/turn_queue.go:387-405 | a barrier's number counts exactly the accepted turns without a durable terminal |
| TurnQueueSafety.CountedTurnsNeverFinish | go/internal/agent/service.go:235-237 | when owners wait before they release, no counted turn is durably finished, then or later |
| TurnQueueSafety.EarlyReleaseBreaksCount | go/internal/agent/turn_queue.go:112-123 | a run in which a barrier released at once lets a counted turn finish |
| TurnQueueService.ReservesExactly | go/internal/agent/turn_queue.go:174-217 | in every reachable state a turn is taken exactly if it names a draft, the queue runs and no barrier of the draft stands; one for an idle draft exactly if, besides, every earlier turn is over |
| TurnQueueService.ReservationIsPending | go/internal/agent/turn_queue.go:195-217 | a reservation adds one new slot to the pending ones of the draft's one worker |
| TurnQueueService.IdleReservationWaits | go/internal/agent/turn_queue.go:202-206 | in every run every slot given out before an idle-only turn is taken has been released: of two such turns the first is over before the second is taken |
| TurnQueueService.NoTurnIsDropped | go/internal/agent/turn_queue.go:219-238 | in every reachable state a released turn was run, unless its worker is retired or the queue has shut down; no channel is overfull |
| TurnQueueService.RunsInChannelOrder | go/internal/agent/turn_queue.go:543-594 | in every run each worker calls the runner in the order of the sends, once each |
| TurnQueueService.AbandonRetires | go/internal/agent/turn_queue.go:413-430 | after an abandoned barrier its worker is retired and the draft has none |
| TurnQueueProgress.DraftReopens | go/internal/agent/turn_queue.go:413-471 | from every reachable state of a running queue some run leads to one in which the draft takes turns again, whatever barriers stand or were abandoned |
| UnwaitedRelease.CountHoldsWhileFenced | go/internal/agent/turn_queue.go:387-405 | in every run, whatever other owners do, no turn that an outstanding barrier counted is durably finished |
| UnwaitedRelease.UnwaitedReleaseIsExact | go/internal/agent/turn_queue.go:112-123 | when the last barrier of a draft is released, waited for or not, some run brings a counted turn to a durable end exactly if that turn has not started yet |
| UnwaitedRelease.WayToTheEnd | go/internal/agent/turn_queue.go:543-608 | an accepted turn of an open, registered worker can be brought to a durable end by its producer, the worker and the runner alone |
| IndexedLocks.RunInv | go/internal/agentexec/interaction_state.go:41-91 | in every run every pass of every lock loop keeps the counters equal to the calls they count, holders compatible, orders ascending and sleepers blocked |
| IndexedLocks.MutualExclusion | go/internal/agentexec/interaction_state.go:55-91 | no all-reader beside an active writer of a domain, no holder of a resource beside its writer |
| IndexedLocks.NoSleeperMissesItsChance | go/internal/agentexec/interaction_state.go:64-91 | whoever sleeps cannot be granted: every enabling change has broadcast |
| IndexedLocks.WaitingWriterStopsReaders | go/internal/agentexec/interaction_state.go:55-83 | while a writer waits, the readers of its domain only get fewer |
| LockOrder.DeadlockFree | go/internal/agentexec/interaction_state.go:217-263 | in every reachable state with an unfinished call some call can take, announce or give back a lock |
| LockOrder.LockNamesAre | go/internal/agentexec/interaction_state.go:265-293 | the lock names of an access are its non-empty resources, each once, ascending |
| LockOrder.BeginAsksUpward | go/internal/agentexec/interaction_state.go:217-263 | everything Begin asks for is above what the call holds, when it names each domain once |
| LockOrder.WriteExcludesExactly | go/internal/agentexec/interaction_state.go:229-256 | a write access excludes exactly the all-readers of its domain and whoever names its first resource |
| LockOrder.ExcludedNeverMeet | go/internal/agentexec/interaction_state.go:217-263 | in every reachable state two calls that exclude each other are never both inside |
| LockOrder.SecondResourceIsOpen | go/internal/agentexec/interaction_state.go:235-237 | a write of two resources does not exclude a read of the second |
| LockSharing.ExcludesExactly | go/internal/agentexec/interaction_state.go:229-256 | for every pair of accesses: they exclude each other exactly if one writes what the other touches |
| LockSharing.MeetIffNoConflict | go/internal/agentexec/interaction_state.go:217-263 | some reachable state has both calls inside exactly if their accesses do not conflict; two readers always can be |
| LockSharing.GrantedExactly | go/internal/agentexec/interaction_state.go:55-83 | an attempt is granted exactly if there is no incompatible holder and, for a reader, no announced writer |
| LockSharing.BeginTakesExactly | go/internal/agentexec/interaction_state.go:217-263 | Begin takes exactly the locks that its accesses need, and panics exactly on a write without a resource |
| IndexedResourceCoordinators.IndexedDomainLock.PassAllRead | go/internal/agentexec/interaction_state.go:55-63 | one pass of the waiting loop grants exactly when no writer is active or waiting |
| IndexedResourceCoordinators.IndexedDomainLock.EndResourceWrite | go/internal/agentexec/interaction_state.go:84-91 | gives the writer's count back and broadcasts exactly at zero |
| IndexedResourceCoordinators.IndexedResourceCoordinator.IndexLocks | go/internal/agentexec/interaction_state.go:265-293 | sorted distinct names, each with its one lock for the whole process |
| IndexedResourceCoordinators.IndexedResourceCoordinator.Begin | go/internal/agentexec/interaction_state.go:217-263 | asks, domain after domain, for exactly the locks of every access |
| IndexedResourceCoordinators.KeysDiffer | go/internal/agentexec/interaction_state.go:265-293 | resources of different domains or names have different locks |
| ToolRouter.CanRunParallel | go/internal/agent/tool_router.go:55-99 | true exactly for known readers and single-key detectors with no key detected twice and none both detected and read, by name or wildcard |
| ToolFootprints.FootprintCovers | go/internal/agent/tool_router.go:118-189 | the footprint covers exactly the assets that the tool looks at with these arguments, all of them where they are not named |
| ToolFootprints.ParallelExactly | go/internal/agent/tool_router.go:55-99 | a message's calls run in parallel exactly if each is a known reader or a detector of one asset and no detector stores what another call stores or looks at |
| ParallelCalls.AnyOrderIsTheSame | go/internal/agent/tool_router.go:55-99 | independent calls leave the same store and give the same answers in every order |
| ParallelCalls.RoutedApart | go/internal/agent/tool_router.go:101-189 | when the router allows it, what one call writes no other call looks at |
| ParallelCalls.ParallelIsSafe | go/internal/agent/tool_router.go:55-189 | calls that the router runs in parallel give the same store and answers in every order |
| ReplayBuffer.TurnStreamBuffer.DropDeltas | go/internal/agent/turn_stream.go:301-330 | the trimming loop terminates, gives up oldest deltas first, and keeps the byte count exact |
| ReplayBuffer.TurnStreamBuffer.TruncateBuffer | go/internal/agent/turn_stream.go:301-340 | trims, marks once, or collapses to the marker |
| ReplayBuffer.TrimGivesUpOldest | go/internal/agent/turn_stream.go:301-330 | trimming gives up the fewest oldest deltas that suffice, or all of them |
| ReplayBuffer.BufferAccounting | go/internal/agent/turn_stream.go:181-185 | after any log: exact bytes; within both limits or the single marker; untruncated the whole log; truncated the marker and the log since the last collapse without its oldest deltas, as few as possible; it collapses at exactly the events with which that log fits no more, not even without any delta |
| StreamDelivery.StreamChannel.Deliver | go/internal/agent/turn_stream.go:186-213 | no send blocks although the subscriber may receive at any point; on overflow the stream ends with the recovery frames after losing at most that many |
| StreamDelivery.DraftStreams.Open | go/internal/agent/turn_stream.go:135-152 | a new stream starts with what is recorded from now on |
| StreamDelivery.DraftStreams.Deliver | go/internal/agent/turn_stream.go:186-216 | every stream that never overflowed carries exactly what was recorded since it subscribed, in order; every other one has ended with the recovery frames |
| TurnStreamHubs.TurnStreamHub.Record | go/internal/agent/turn_stream.go:154-229 | records, delivers and recovers as one step of StreamRecovery, with the streams kept lossless and the buffer that of the whole turn |
| TurnStreamHubs.TurnStreamHub.Subscribe | go/internal/agent/turn_stream.go:135-152 | returns the buffer, which accounts for the running turn so far, and opens a stream for exactly what follows |
| TurnStreamHubs.TurnStreamHub.Unsubscribe | go/internal/agent/turn_stream.go:384-415 | closes the stream; a recoverable client that leaves during a turn or while pending has failed |
| TurnStreamHubs.TurnStreamHub.AcknowledgeSnapshot | go/internal/agent/turn_stream.go:417-438 | settles the client's debt for exactly that generation |
| TurnStreamHubs.TurnStreamHub.AcknowledgeEvent | go/internal/agent/turn_stream.go:440-467 | settles the stream's client for exactly that generation |
| TurnStreamHubs.EvictIdle | go/internal/agent/turn_stream.go:231-252 | evicts idle recovery buffers, lowest generations first, and no more than needed |
| TurnStreamHubs.ScanIdle | go/internal/agent/turn_stream.go:232-245 | one scan finds exactly the idle buffers and an oldest of them |
| StreamRecovery.StepKeeps | go/internal/agent/turn_stream.go:154-252 | generations stay unique and idle recovery buffers within the limit |
| StreamRecovery.TerminalIncursDebt | go/internal/agent/turn_stream.go:165-229 | a terminal event owes its end to every concerned recoverable client, overflowed or not |
| StreamRecovery.StepKeepsDebt | go/internal/agent/turn_stream.go:384-467 | nothing but its settlement or an eviction ends a debt |
| StreamRecovery.StaleAckIsIgnored | go/internal/agent/turn_stream.go:417-449 | an acknowledgement of another generation changes nothing |
| StreamRecovery.RecoveryDebt | go/internal/agent/turn_stream.go:154-284 | in every run a concerned client finds a terminal event in the snapshot until it acknowledged that generation, the next turn starts, or the buffer is evicted |
| StreamRecovery.IdleBuffersBounded | go/internal/agent/turn_stream.go:231-252 | in every run buffers without a connected client stay within the limit |
| StreamTurns.StepShows | go/internal/agent/turn_stream.go:154-229 | every action keeps the buffer of each running turn equal to what replaying its log gives, and other drafts' buffers to those somebody is owed |
| StreamTurns.SnapshotIsTurn | go/internal/agent/turn_stream.go:154-229 | in every run the snapshot accounts for all that was recorded since the draft's turn started, as the actions say; outside a turn it is empty exactly if nobody is owed the end |
| StreamTurns.ConcernIsExact | go/internal/agent/turn_stream.go:384-415 | inside a turn a client is concerned from its first recoverable stream on, however that ends, and nobody else is |
| StreamTurns.TurnStartsClean | go/internal/agent/turn_stream.go:154-165 | a new turn concerns exactly the clients connected when it starts, and leaves nobody owed the end of the one before |
| StreamTurns.EveryoneInTheTurnIsOwed | go/internal/agent/turn_stream.go:154-229 | in every run whoever was connected recoverably at any point of a turn is owed its end |
| StreamTurns.NewestIsKept | go/internal/agent/turn_stream.go:215-252 | the buffer of the turn that has just ended is not evicted at its end, unless none may be kept |
| StreamTurns.TerminalOwesExactly | go/internal/agent/turn_stream.go:165-229 | a terminal event is owed to exactly the clients it concerns |
| StreamTurns.SnapshotAckSettles | go/internal/agent/turn_stream.go:417-438 | an accepted acknowledgement of the snapshot settles exactly that client's debt, unless it is pending on a stream |
| StreamTurns.EventAckSettles | go/internal/agent/turn_stream.go:440-467 | an accepted acknowledgement of the event settles exactly the stream's client, unless another of its streams is pending |
| StreamTurns.LeavingKeepsDebtors | go/internal/agent/turn_stream.go:384-415 | leaving settles no debt |
| StreamTurns.RecoveryFramesFit | go/internal/agent/turn_stream.go:254-284 | the recovery buffer keeps the full terminal frame whenever it fits behind a gap, a short one otherwise, and one in any case |
| TurnStreamHubs.GapTellsTheEnd | go/internal/agent/turn_stream.go:186-213 | an overflowed stream ends with a gap, and with the terminal frame in full if that overflowed it |
| Reconciliation.Reconcile | go/internal/agent/turn_reconciliation.go:300-386 | the matching loop computes the replay of the log |
| Reconciliation.UnmatchedIsSuffix | go/internal/agent/turn_reconciliation.go:310-360 | without decisions: the last candidates, as many as the largest surplus over terminals in any suffix |
| Reconciliation.CountedMarker | go/internal/agent/turn_reconciliation.go:389-395 | a marker of k turns equals k terminals of one |
| Reconciliation.WaitingReplyTakesNothingIff | go/internal/agent/turn_reconciliation.go:310-360 | a waiting reply takes no turn exactly if its decision has not been answered since it was created, whatever turns were accepted meanwhile |
| Reconciliation.DecisionTakesOneTurn | go/internal/agent/turn_reconciliation.go:310-360 | then the decision and its reply take exactly the turn at the head when it was created |
| Reconciliation.AnsweredInBetweenTakesTwo | go/internal/agent/turn_reconciliation.go:310-360 | answered in between, they take two turns; the second is the answer's when it was the first to come |
| Reconciliation.RebuiltIffOrderly | go/internal/agent/turn_reconciliation.go:300-386 | an event that is not orderly makes the rebuilt turns differ at once, any other keeps them right |
| Reconciliation.ReconciliationRebuildsTheQueue | go/internal/agent/turn_reconciliation.go:300-386 | at every point of a history of the live queue, with answers at the end of the channel, refused items, repeated and unrecorded cancellations and crashes, the log gives exactly the outstanding turns in order, if and only if every event of the history is orderly |
| Reconciliation.AnswerOvertakenByATurn | go/internal/api/decisions.go:146 | with another turn queued an answer's continuation can be lost: the channel holds it, the reconciled queue the turn that has ended |
| Reconciliation.CancelledTwice | go/internal/api/conversation.go:253-270 | a second marker for the same cancelled turn takes a message of a crashed process, which has never run |
| MergePatch.MergePatchDifference | go/internal/agent/context_manager.go:106-132 | the two loops compute the recursive difference |
| MergePatch.MergeContentPlan | go/internal/agentexec/plan_update.go:168-207 | the members of the patch, taken in any order, give the merge of RFC 7396 |
| MergePatch.RoundTrip | go/internal/agent/context_manager.go:90-132 | applying the difference gives the target up to null members, for all JSON values |
| MergePatch.RoundTripExactly | go/internal/agent/context_manager.go:106-132 | it gives the target itself exactly when a merge patch can express it |
| MergePatch.DifferenceEmptyIffEqual | go/internal/agent/context_manager.go:90-105 | no difference exactly between equal states; otherwise a non-empty object |
| MergePatch.DifferenceIsLean | go/internal/agent/context_manager.go:106-132 | at every depth the difference names exactly the members that differ |
| MergePatch.MergeIdempotent | go/internal/agentexec/plan_update.go:168-207 | merging a patch twice is merging it once |
| MergePatch.Build | go/internal/agent/context_manager.go:243-263 | the reference is the old base or, rebased, the current state, with the matching patch |
| MergePatch.RenderedDenotesCurrent | go/internal/agent/context_manager.go:506-512 | rebased or not, reference and patch denote the current stable state, and a patch is shown only for a change |
| MergePatch.NoPatchIffSame | go/internal/agent/context_manager.go:506-512 | no patch exactly if nothing has changed but the timeline, the edit history and which assets the timeline uses |
| SpeechAlignment.BuildChunks | go/internal/agentexec/speech_inspect.go:57-81 | non-empty chunks within the limit tile the recording, each ending in the middle of the last listed pause in reach, if there is one |
| SpeechAlignment.MidpointIs | go/internal/agentexec/speech_inspect.go:66-75 | where a pause is cut lies inside it, within half a frame of its middle |
| SpeechAlignment.AlignClauses | go/internal/agentexec/speech_inspect.go:83-114 | the clauses tile the frames, each at its proportional share unless the room is needed |
| SpeechAlignment.ShareIsNearest | go/internal/agentexec/speech_inspect.go:98-104 | a share is within half a frame of the exact fraction |
| SpeechAlignment.EveryClauseHasAFrame | go/internal/agentexec/speech_inspect.go:98-110 | every clause gets a frame within the chunk exactly if there are enough frames |
| SpeechRepeats.LongestNonOverlappingRepeat | go/internal/agentexec/speech_inspect.go:720-744 | equal passages without overlap, no longer ones exist, and of those of that length the last |
| SpeechRepeats.EntryIsLongest | go/internal/agentexec/speech_inspect.go:732-738 | the capped table entry is the length of the longest repeat at two places |
| SpeechRepeats.LcsLength | go/internal/agentexec/speech_inspect.go:1212-1230 | two swapped rows give the length of a longest common subsequence, whichever text is longer |
| SpeechRepeats.LcsIsReached | go/internal/agentexec/speech_inspect.go:1219-1226 | the recurrence counts a common subsequence |
| SpeechRepeats.LcsIsMaximal | go/internal/agentexec/speech_inspect.go:1219-1226 | and none is longer |
| SpeechPauses.MergePauses | go/internal/agentexec/speech_inspect.go:405-434 | the loop over the sorted pauses computes the merge, and names the results |
| SpeechPauses.MergeIsSound | go/internal/agentexec/speech_inspect.go:405-434 | for any pauses: strictly separated results over the same frames, each the hull of a consecutive group |
| SpeechPauses.MergedPausesAre | go/internal/agentexec/speech_inspect.go:405-434 | the same of the named results, each named after exactly its frames and methods |
| WordBoundaries.SilentSegments | go/internal/agentexec/speech_inspect.go:450-481 | the cursor over the words finds the silent runs that a scan of the frames finds |
| WordBoundaries.RunsAreMaximal | go/internal/agentexec/speech_inspect.go:450-481 | the scan finds exactly the maximal silent runs of a range |
| WordBoundaries.ClampPauses | go/internal/agentexec/speech_inspect.go:436-503 | the loops compute the safe silent runs of all delete ranges, in order |
| WordBoundaries.ClampKeepsSilence | go/internal/agentexec/speech_inspect.go:436-503 | the result is exactly the maximal silent runs of at least five frames of every delete range, sorted |
| WordBoundaries.ClampedPausesAre | go/internal/agentexec/speech_inspect.go:436-503 | the results are exactly the given pauses with their delete range cut to a maximal silent stretch of five frames or more, marked and renamed if it shrank, in order of the delete ranges |
| WordBoundaries.ClampNeverCutsWords | go/internal/agentexec/speech_inspect.go:1908-1912 | no delete range touches a word |
| WordBoundaries.ClampAgain | go/internal/agentexec/speech_inspect.go:1564 | clamping what was persisted, with the same words in any order, changes nothing |
| ContentContract.UncoveredBrollRanges | go/internal/agentexec/content_contract.go:204-229 | reports, in order, exactly the required ranges with a frame in no unmuted overlay clip |
| ContentContract.HasGap | go/internal/agentexec/content_contract.go:212-227 | the cursor loop terminates and finds a gap exactly if there is one |
| ContentContract.OverlaysShow | go/internal/agentexec/content_contract.go:204-211 | a frame is shown exactly if a clip of an overlay track that is not muted shows it |
| ContentContract.UtteranceCoveredByClips | go/internal/agentexec/content_contract.go:142-185 | the nested loops decide the greedy search over the sorted candidates |
| ContentContract.CoverageIsSound | go/internal/agentexec/content_contract.go:142-185 | a positive answer comes with a chain of candidates, contiguous in source and timeline, at one rate |
| ContentContract.CoveredMeans | go/internal/agentexec/content_contract.go:142-185 | covered means that some chain of any clips of that asset, each true to its timing and at one rate, plays the whole utterance |
| ContentContract.CoverageFollowsFirst | go/internal/agentexec/content_contract.go:142-185 | for all clips the answer is positive exactly if some chain goes on with the first continuation at every clip |
| ContentContract.CoverageIsExact | go/internal/agentexec/content_contract.go:142-185 | unless some candidate can go on to two different places the answer is right both ways |
| ContentContract.ForkHidesCoverage | go/internal/agentexec/content_contract.go:163-183 | at such a fork a chain can be missed; with the same clips in another order it is found |
| ToolResultCompaction.CompactMessages | go/internal/agent/model_retry.go:365-404 | order, number and other messages unchanged; every result within what the newer ones leave, at least 160; together within the larger of the budget and 160 each |
| ToolResultCompaction.KeptIfRoom | go/internal/agent/model_retry.go:365-404 | a result is kept exactly if it is short, or within the limit for one and, beside the newer ones and a minimum for each older one, within the total |
| ToolResultCompaction.CompactTurn | go/internal/agent/model_retry.go:431-442 | nothing changes below the soft budget, and above it the result fits |
| ToolResultCompaction.CompactResult | go/internal/agent/model_retry.go:444-465 | what fits is kept, a fitting summary comes next, a bounded preview last |
| ToolResultCompaction.BoundedPreview | go/internal/agent/model_retry.go:537-558 | the shrinking loop terminates with a preview that fits, whatever the encoding does |
| ToolResultCompaction.PlainPreviewFills | go/internal/agent/model_retry.go:537-558 | where the encoding adds nothing to the text the preview uses up the budget |
| ToolResultCompaction.UniformSampleIndexes | go/internal/agent/model_retry.go:516-535 | strictly increasing indexes at even distances, both ends included from two on |
| IndependentAudio.StrippingRestoresMetadata | go/internal/agentexec/timeline_integrity.go:381-411 | whatever took its metadata from a marked clip gets the original's back, also when that used the marker's key |
| IndependentAudio.LineageExactly | go/internal/agentexec/timeline_integrity.go:289-302 | a clip descends from another exactly if it carries the marker made of the prefix and that id |
| IndependentAudio.MarkThenStrip | go/internal/agentexec/timeline_integrity.go:304-347 | marking and stripping is the identity up to empty metadata, exactly without empty ids |
| IndependentAudio.TimelineDocument.Strip | go/internal/agentexec/timeline_integrity.go:413-432 | strips every clip of every track in place |
| IndependentAudio.DistinctIdsFind | go/internal/agentexec/timeline_integrity.go:454-465 | with distinct ids every clip is the one its id finds |
| AudioRestoration.PreserveIndependentAudio | go/internal/agentexec/timeline_integrity.go:75-106 | the loops collect the untouched, unlinked clips of the independent tracks |
| AudioRestoration.PreservedIdsAreUnique | go/internal/agentexec/timeline_integrity.go:75-106 | from a document with distinct ids no id is protected twice |
| AudioRestoration.ProtectedExactly | go/internal/agentexec/timeline_integrity.go:75-106 | of the two independent tracks exactly the unlinked clips are protected that the operation does not name on a track it changes; none of a track it changes without naming a clip |
| AudioRestoration.FindConflict | go/internal/agentexec/timeline_integrity.go:220-243 | finds a conflict exactly if a protected id is used by an impostor or twice |
| AudioRestoration.ConflictMeans | go/internal/agentexec/timeline_integrity.go:220-243 | a conflict is a clip with a protected id that does not descend from that clip, or is not the only one with it |
| AudioRestoration.RestoreIndependentAudioTracks | go/internal/agentexec/timeline_integrity.go:214-287 | fails exactly on a conflict, changing nothing; otherwise restores every track in place |
| AudioRestoration.ProtectedExactlyOnce | go/internal/agentexec/timeline_integrity.go:214-287 | in every patched document without a conflict a protected clip is back on its track as in the snapshot; it is there and nowhere else, once, if and only if the document has the track once and no other kept track has got a copy |
| AudioRestoration.UnrelatedClipsSurvive | go/internal/agentexec/timeline_integrity.go:252-286 | a partly protected track holds the snapshot's clips and all that do not descend from them, in timeline order |
| AudioRestoration.RestorationKeepsTheEdit | go/internal/agentexec/timeline_integrity.go:252-286 | with the snapshots of the current document: a track whose clips the operation left alone is again as it was; any other holds its protected clips and, as often as they were there, the patched clips that descend from none of them, in timeline order |
| AudioRestoration.StrayIsDuplicated | go/internal/agentexec/timeline_integrity.go:220-286 | a marked copy on the other independent track survives beside the restored clip, with what is protected taken from the same stored document |
| AudioProofs.VerifyProofs | go/internal/agentexec/timeline_integrity.go:767-805 | the loop accepts the tracks whose stored proof fits the document |
| AudioProofs.ProofsBindTiming | go/internal/agentexec/timeline_integrity.go:741-805 | stored proofs account for exactly the tracks whose timing and overhang are unchanged |
| AudioProofs.TimingIs | go/internal/agentexec/timeline_integrity.go:807-828 | timings are equal exactly for the same track with the same clips at the same places from the same source |
| AudioProofs.OverhangIs | go/internal/agentexec/timeline_integrity.go:830-840 | the overhang is how far the furthest clip reaches beyond the document |
| AudioProofs.ProofsVerifyAgain | go/internal/agentexec/timeline_integrity.go:741-828 | on the same document they account for exactly the tracks they were made for |
| TerminalTruth.TerminalTimelineTruthState.RecordToolResult | go/internal/agent/terminal_truth.go:95-117 | a finished tool call is recorded as the edit, check or plan update it was, or not at all |
| TerminalTruth.TerminalTimelineTruthState.TerminalReplyGuard | go/internal/agent/terminal_truth.go:226-278 | the first objection against a success reply, from all that was recorded |
| TerminalTruth.GuardIsExact | go/internal/agent/terminal_truth.go:226-278 | after an edit the gate opens exactly if a usable check of the last reported, current version still stands since that report |
| TerminalTruth.CheckOnlyTurns | go/internal/agent/terminal_truth.go:280-287 | without edits the reply is bound to the version of the check that stands |
| TerminalTruth.CheckOnlyGuardIsExact | go/internal/agent/terminal_truth.go:226-278 | without edits the gate opens exactly if no question is open, no check is unusable, and the check that stands, if any, is of the current version |
| TerminalTruth.VerdictIsFirst | go/internal/agent/terminal_truth.go:226-278 | every verdict, from the history: the first of the objections that there is |
| TerminalTruth.VersionIdsAre | go/internal/agent/terminal_truth.go:181-184 | usable version ids are exactly a draft, ":v" and a number |
| TerminalTruth.SequenceCounts | go/internal/agent/terminal_truth.go:135-152 | equal sequence numbers mean exactly that no edit was newly reported since the check |
| TerminalTurns.SuccessIsTrue | go/internal/agent/service.go:346-373 | in every run with outside changes: when a success reply commits after edits, the current version is the one of the last editing call, checked as such by a later call with no plan update since |
| TerminalTurns.CheckedVersionIsCurrent | go/internal/agent/service.go:396-424 | a turn that only checked replies about the current version |
| TerminalTurns.RecordIs | go/internal/agent/terminal_truth.go:95-117 | a call counts as an edit, a check or a plan update exactly by its tool and outcome |
| TerminalTurns.GateOpensExactly | go/internal/agent/service.go:284-301 | in every run, in terms of the tool calls: the gate opens exactly when the turn may claim success, and then the commit succeeds unless others interfere |

## Left out

- JSON encoding, SHA-256 and base64: encodings and hashes are taken to be injective; sizes are parameters.
- SQLite, the reducer and `timeline.ApplyPatch`: a commit is an atomic step that may fail; a patched document is any document.
- Time: timeouts, tickers and delays are nondeterministic steps or not modelled; metrics and logging are dropped.
- Model providers, the tool graph, HTTP and SSE transport, and the web client: I/O and glue.
- Reconciliation: a turn that is stored and queued takes both steps at once; what a crash in between leaves is a refused turn. Not modelled are equal timestamps, the queries that select the facts (cleared and rewound conversations, restored versions, deleted drafts, old job deliveries and markers without a count), the filter of turns that have started already (`go/internal/agent/turn_reconciliation.go:361-383`), and the restart of a draft without a pending decision, which queues the rebuilt turns again; the equivalence is about the matching loop before that filter.
- Turn queue: `JoinDraft`, `IsBusy`, `CanEnqueue`, `PendingCount` and the wait groups; matching a commit to the running item by kind and id is replaced by the identity of the slot.
- Generations and sequence numbers are unbounded; their wrap-around at 64 bits is not modelled.
- TurnStreamHubs.TurnStreamHub.Record: the events of a draft are taken as values, so that `cloneEvent` copies are not; unknown event types, on which the source panics, are not modelled.
- ToolRouter.CanRunParallel: arguments are taken as decoded and trimmed values; the footprint of malformed arguments is the wildcard, as in the source.
- LockOrder.DeadlockFree: some call can always step; fairness among waiting callers is not stated.
- ContentContract.UtteranceCoveredByClips: playback rates and durations are real numbers, not floating point.
- TerminalTruth.TerminalTimelineTruthState.RecordMutationTimelineId: a version number is a string of digits; a sign, which Go's Atoi accepts, is not.
- AudioRestoration.RestoreIndependentAudioTracks: which protected id a failure names when several are in conflict is open, as it is in the source.
- MergePatch.MergeContentPlan: values cannot alias here, so that the inputs stay unchanged and the copies are deep is not a statement of the model.
- Merging pauses: detection methods are sets; their joined spelling is not modelled.
- `unlockPreservedIndependentAudio` after the marking: probing the patch and locking tracks again; the authorisation of overhangs per clip; the parent chain of stored proofs.
- `compactRetryJSONValue`: the summary of a result is an arbitrary function here, so that the budget holds whatever it yields.
- SpeechAlignment.AlignClauses: shares are exact fractions rounded half up, not floating point; splitting a text into clauses is left out.
- Deriving word gaps, provider timestamps, intent keywords, prompts, scoring and quality thresholds: arithmetic or heuristics without a promise of their own.
- Stop gate counters, the edit lease flags, the query cache and the recovery rejection list: small invariants only.
