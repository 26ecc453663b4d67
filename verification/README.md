# Zanei: verified models of its hard parts

Zanei records what happens on a Mac into a local encrypted store and lets clients read it back. This project models, in
Dafny, the parts of it whose correctness is decided by control flow rather than by a library, and proves what those parts
are for.

| files | part of the system |
|---|---|
| `AppendStore`, `ContextPage`, `ContextRead`, `ContextScan` | the append-order scan: cursors, pages, gaps, and a client that follows them while the recorder appends and retention purges |
| `Utf8`, `Evidence` | reading one stored field in chunks, on character boundaries |
| `Query` | paged event queries over several stores |
| `Schema`, `EventContract`, `Coalescing`, `CoalescingRuns`, `CoalescingBursts`, `CoalescingLoss`, `Normalizer` | event payloads, size limits, the contract events are serialized under, and the coalescing normalizer |
| `Focus`, `FocusContext` | focus transitions broadcast to receivers with bounded queues |
| `KeyCreation` | several processes creating one encryption key |
| `Supervisor`, `CollectorSet`, `PauseCell`, `Recorder`, `ActiveDaemon` | collectors, their supervision, the stored pause, and the recorder's run loop |
| `TextDelta` | what is new in a text field, in grapheme clusters |
| `LineRedaction`, `FilterReload` | redacting OCR lines, and re-applying the privacy filter |
| `UrlHost`, `Routes` | finding and matching website hosts, and recognizing authentication and payment routes |

Code that updates fields in place is a class (`PageBuffer`, `Normalizer`, `FocusContext`, `KeyDirectory`, `CollectorSet`,
`PauseRow`, `ActiveDaemon`), proved against functions on values; loops are methods with invariants; interleavings (receivers and
writers, key creators, the pause and its commands) are state machines over steps. The theorems are about the functions and the state machines.

Where the modelled code asks the outside world (clocks, SQL, threads, the pipeline, permission prompts, encoders, patterns),
the answer is a parameter, and the theorems hold for every answer.

`dafny verify dfyconfig.toml` checks everything.

## Findings

Five expectations turn out to hold only under a condition. The code is modelled as it is; each has a proved counterexample
and an exact statement.

- A cursor a client was given stays valid while rows disappear only by retention under a cutoff that never moves back.
  It does not if retention is lengthened after a purge, or if an unexpired anchor row is deleted: the reader then answers
  `continuity_unknown`. `ContextScan.ContinuityExactly` gives the condition, `ContextScan.LongerRetentionBreaksACursor` a case.
- Key creation is safe in every interleaving, crashes included, exactly when no staging file name is shared by three
  creators (`KeyCreation.SafeExactly`). The name is built from the process id, and a creator that fails to create the
  staging file still removes it, so a third creator of the same name can link a file the second has only half written.
- A push that accepts its event can fail all the same, and then drops whatever had just expired. It fails exactly when the
  event coalesces and a pending event still in its window blocks it: one of its kind has no room for its count in 64 bits
  (then the event itself is dropped too), or a pending scroll's amount is not finite or would not be with it
  (`CoalescingRuns.FailsExactly`, `CoalescingRuns.LosesExactly`, `CoalescingLoss.ARunCanLose`). An amount is found not to be
  finite only after it has been stored: the spoiled scroll stays pending, and until it leaves, pushes that have nothing to
  do with it fail as well (`CoalescingLoss.AScrollCanSpoil`). Everything else is conserved, and a run loses nothing exactly
  when no call of it meets such a case with something to drop.
- An empty answer of the focus receiver means it has seen everything sent to it exactly when no refused send was still
  waiting for its miss flag at the moment the call loaded that flag (`Focus.EmptyMeansCaughtUpExactly`). The send and the
  flag are two steps, and the receiver takes no lock to look: `Focus.EmptyCanComeTooEarly` is the schedule.
- How a route's unreserved characters are escaped makes no difference, to its text or to its names, exactly when the route
  holds no escape that would be decoded (`Routes.EncodingIsUndoneExactly`, `Routes.EncodingHidesNoNameExactly`). Otherwise escaping a digit takes an escape apart (`Routes.EncodingInsideAnEscape`).

## Model

| member | source | states |
|---|---|---|
| AppendStore.RunIsLater | crates/zanei-core/src/store/writer.rs:165-237 | any run of appends, purges and clock advances leaves a store that is later: the head never falls, and a row still present is the row that was written |
| ContextPages.ReadRange | crates/zanei-core/src/store/context_page.rs:328-407 | the single pass over selected rows returns the first run of equal availability, for every snapshot, bound and limit |
| ContextPages.ValidateRequest | crates/zanei-core/src/store/context_page.rs:244-276 | a request is refused exactly when it is malformed, before any row is read |
| ContextPages.ReadContextPageAt | crates/zanei-core/src/store/context_page.rs:171-242 | the whole read, from validation and schema check over continuity of each cursor to the range, for every request |
| ContextPages.RangeIsSoundAndAdvances | crates/zanei-core/src/store/context_page.rs:328-431 | a page holds exactly the rows of its coverage, all present and unexpired; a gap is wholly absent or wholly expired; each moves forward unless the bound is reached and neither leaves the interval |
| ContextPages.RunEndUnique | crates/zanei-core/src/store/context_page.rs:345-405 | where a run of one kind ends is determined by the rows alone |
| ContextPages.PageBuffer.RetainPrefix | crates/zanei-core/src/store/context_page.rs:128-145 | shortening in place: the new page, or an error and the page as it was |
| ContextPages.PrefixIsSmallerRead | crates/zanei-core/src/store/context_page.rs:128-145 | keeping k rows of a page equals, field for field, having read with limit k |
| ContextRead.FitPage | crates/zanei-cli/src/commands/context_read.rs:78-99 | the binary search never returns an encoding over the budget, returns the longest that fits when size grows with rows, and none only when not even one row fits |
| ContextRead.RespondPage | crates/zanei-cli/src/commands/context_read.rs:74-190 | whatever is sent is the answer to the request, or to the same request with a smaller limit; a stored time that cannot be read is answered as a corrupt store, and only an answer too long to send as an unavailable one |
| ContextScan.IssuedStays | crates/zanei-core/src/store/context_page.rs:278-326 | a cursor once issued stays honest in every later store |
| ContextScan.IssuedRequestContinues | crates/zanei-core/src/store/context_page.rs:208-242 | a request made of issued cursors is never answered with a changed store or unknown continuity, even when its anchor rows are purged |
| ContextScan.ContinuityExactly | crates/zanei-core/src/store/context_page.rs:313-326 | when rows vanish for other reasons too, a cursor survives if and only if its anchor row is present or its anchor time is before the cutoff |
| ContextScan.LongerRetentionBreaksACursor | crates/zanei-core/src/store/context_page.rs:313-326 | moving the cutoff back after a purge makes an honest cursor unknown |
| ContextScan.StepSucceeds | crates/zanei-core/src/store/context_page.rs:171-242 | each call of a scan succeeds, tells the truth of its snapshot, advances and stays ready for the next, also when the page is shortened on the wire |
| ContextScan.ScanTiles | crates/zanei-core/src/store/context_page.rs:328-431 | the ranges a client collects tile the interval from left to right without overlap |
| ContextScan.WholeScan | crates/zanei-core/src/store/context_page.rs:171-431 | following cursors to a fixed bound, under any interleaving of store steps: no call fails, ranges tile, it ends within as many calls as there are sequences, and every row that survives is delivered exactly once, in order |
| ContextScan.FreshScanIsReady | crates/zanei-core/src/store/context_page.rs:171-205 | a scan may begin without a cursor, at the upper bound just read |
| Utf8.WindowScan | crates/zanei-core/src/store/evidence_read.rs:200-232 | validating a window that starts on a character stops exactly at the last boundary in it, and reports the cut-off rest as incomplete, not as broken |
| Evidence.ReadChunk | crates/zanei-core/src/store/evidence_read.rs:176-232 | the window read and trimmed is the chunk: whole characters, within budget, with what remains |
| Evidence.ReadEvidenceAt | crates/zanei-core/src/store/evidence_read.rs:117-243 | exactly when each answer is given: incompatible, denied, expired, an unreadable stored time, and content only for an authorized, unexpired row of this store |
| Evidence.FitEvidence | crates/zanei-cli/src/commands/context_read.rs:124-151 | the longest whole-character prefix that fits, never one over the budget, none only when the first character does not fit |
| Evidence.AlignedChunk | crates/zanei-core/src/store/evidence_read.rs:176-232 | a range between characters is never refused, and four bytes of budget always advance it |
| Evidence.ShortenedPiece | crates/zanei-cli/src/commands/context_wire.rs:226-259 | the end and remaining range the wire computes for a shortened chunk are those of the shorter chunk |
| Evidence.Reassembly | crates/zanei-core/src/store/evidence_read.rs:170-232 | following the remaining ranges, with any shortening, yields non-empty valid texts whose concatenation is exactly the range, in at most as many answers as bytes |
| Evidence.RefusedExactly | crates/zanei-core/src/store/evidence_read.rs:176-232 | a range is refused exactly when it does not lie in the text, begins inside a character, or ends inside one within the budget |
| Evidence.NoCharacterIsSplit | crates/zanei-core/src/store/evidence_read.rs:200-232 | whatever range is asked for, an answer is valid text within the budget and ends between characters |
| Query.CursorIsLexicographic | crates/zanei-core/src/store/query.rs:159-178 | the cursor's four-way condition is the strict lexicographic order on time, monotonic time, id and source rank |
| Query.CursorCommutes | crates/zanei-core/src/store/query.rs:143-190 | filtering by the cursor before sorting is cutting the sorted list after it |
| Query.PageIsNextRows | crates/zanei-core/src/store/query.rs:143-190 | each page is the next stretch of the one ordered result |
| Query.Run | crates/zanei-core/src/store/query.rs:45-101 | the page loop with its early exit equals one pass over all admitted rows in order, and ends |
| Query.CollectMeaning | crates/zanei-core/src/store/query.rs:60-100 | that pass returns the first `limit` known rows and counts exactly the unknown ones before the stopping point |
| Schema.EnforceSizeLimits | crates/zanei-core/src/normalize/limits.rs:15-76 | the field-by-field pass leaves no field over its limit, changes nothing that fits, and marks the event exactly when it dropped something |
| Coalescing.NormalizedIsPart | crates/zanei-core/src/normalize.rs:237-286 | a normalized event is within the limits, meets the contract it is serialized under, and carries no redaction but the size mark |
| Coalescing.CombinedKind | crates/zanei-core/src/normalize.rs:348-390 | a combined event still maps to its key unless its whole text would not fit, and then it is marked |
| Coalescing.MergeExtendsCombined | crates/zanei-core/src/normalize.rs:403-435 | merging one event into a group's event gives the combined form of the longer group: counts summed, amounts added in order, text concatenated or given up for good, the last title; a count that does not fit refuses the event, an amount that is not finite spoils the group it has already been added to |
| Coalescing.CombinedSerializes | crates/zanei-core/src/schema/model.rs:199-313 | a combination of events that meet the contract meets it too, but for an amount that is not finite |
| CoalescingRuns.PendingStaysKeyed | crates/zanei-core/src/normalize.rs:332-390 | every pending event maps to its own kind or is truncated, and no last time is later than the last seen, so expiry cannot underflow |
| CoalescingRuns.MergeFailsExactly | crates/zanei-core/src/normalize.rs:403-435 | a merge refuses the event exactly when the summed count does not fit in 64 bits, and spoils the pending one exactly when it fits and the summed amount is not finite |
| CoalescingRuns.SoundSerializes | crates/zanei-core/src/normalize.rs:173-202 | a pending event can be serialized exactly when its amount, if it has one, is finite, so only a spoiled scroll can make the byte total fail |
| CoalescingRuns.PushIsOk | crates/zanei-core/src/normalize.rs:143-209 | every push, failing ones too, keeps distinct kinds and true groups; after an Ok push nothing was dropped, the output is sorted, all gaps are inside their windows, every pending event can be serialized and both caps hold |
| CoalescingRuns.PushBalances | crates/zanei-core/src/normalize.rs:143-234 | a push accounts for every event that was pending and the one it accepted, each in exactly one place |
| CoalescingRuns.BarrierEmitsLast | crates/zanei-core/src/normalize.rs:160-209 | an event that does not coalesce is emitted after everything absorbed before it, and nothing stays pending |
| CoalescingRuns.FailsExactly | crates/zanei-core/src/normalize.rs:143-209 | told before the call: a push that accepts its event fails exactly when a pending event in its window blocks it, and what it drops then, to the last event |
| CoalescingRuns.LosesExactly | crates/zanei-core/src/normalize.rs:143-209 | told before the call: something is dropped exactly when a push is blocked and something has expired or its own count finds no room |
| CoalescingLoss.ARunCanLose | crates/zanei-core/src/normalize.rs:160-185 | a run of three pushes that meet the contract and that drops an expired event nobody has seen |
| CoalescingLoss.AScrollCanSpoil | crates/zanei-core/src/normalize.rs:417-435 | two scrolls with finite amounts whose sum is not finite: an expired title is dropped, and a key press after them fails as well |
| CoalescingBursts.GroupsStayWhole | crates/zanei-core/src/normalize.rs:143-235 | no call takes a pending group apart: its parts stay side by side in one pending, returned or dropped event |
| CoalescingBursts.JoinsItsGroup | crates/zanei-core/src/normalize.rs:160-185 | an event that comes while a group of its kind is in its window and has room for its count becomes that group's next part, even when the call fails |
| CoalescingBursts.NeighboursEndTogether | crates/zanei-core/src/normalize.rs:143-235 | over runs: two events of one kind within the window, with no barrier, flush or full list between them, end in one event whatever comes later |
| CoalescingRuns.RunConserves | crates/zanei-core/src/normalize.rs:143-234 | over every run of pushes and flushes each accepted event is in exactly one returned, pending or dropped event, each of those is the combination of its parts in order, and nothing is dropped exactly when no call is blocked with something to drop |
| Normalizer.Normalizer.DrainPending | crates/zanei-core/src/normalize.rs:230-235 | empties the pending list in place into its events, sorted by monotonic time |
| Normalizer.Normalizer.FlushExpired | crates/zanei-core/src/normalize.rs:215-228 | the in-place removal loop splits pending events into expired and kept ones, keeping order |
| Normalizer.Normalizer.PushAt | crates/zanei-core/src/normalize.rs:143-209 | the fields after a push, and what it returns, are those of the state machine, on every path: refused by the contract, refused or spoiled by a merge, failing to add up the bytes, draining at a cap |
| Normalizer.Normalizer.Flush | crates/zanei-core/src/normalize.rs:211-213 | a flush returns everything pending and leaves nothing |
| Focus.DeliveriesAreContinuous | crates/zanei-macos/src/focus_context.rs:177-313 | in every interleaving of the receivers with a writer that moves the focus, sends to each subscriber and stores each miss flag in separate steps, each delivered transition starts from the identity of the one before it, also across overflow |
| Focus.LinkedNeighbours | crates/zanei-macos/src/focus_context.rs:281-313 | the chain said pair by pair: a transition's `previous` has the identity delivered just before |
| Focus.EmptyMeansCaughtUpExactly | crates/zanei-macos/src/focus_context.rs:269-284 | a call that loads its flag down and later pops an empty queue has seen all that was sent to it if and only if no refused send was unflagged when it loaded the flag |
| Focus.EmptyCanComeTooEarly | crates/zanei-macos/src/focus_context.rs:210-284 | a reachable state in which the queue is empty, the writer is done and the receiver about to answer Empty has missed the transition |
| Focus.RecoveryCatchesUp | crates/zanei-macos/src/focus_context.rs:281-305 | a recovery brings the receiver to the current focus with nothing queued |
| Focus.NextKeeps | crates/zanei-macos/src/focus_context.rs:177-313 | every step of writer or receiver keeps the queue, the miss flag, the broadcast in progress and the remembered focus consistent |
| FocusContext.FocusContext.TransitionTo | crates/zanei-macos/src/focus_context.rs:177-209 | a transition refreshes in place when identity is unchanged, else moves, counts and broadcasts |
| FocusContext.FocusContext.ServeAll | crates/zanei-macos/src/focus_context.rs:210-235 | the loop over subscribers, send and flag in turn: each gets the transition or, with a full queue, its miss flag; refusals are counted |
| FocusContext.FocusContext.UpdateFocusedField | crates/zanei-macos/src/focus_context.rs:158-175 | only the current process's focused field changes, without a transition |
| FocusContext.FocusContext.RecoverMissed | crates/zanei-macos/src/focus_context.rs:281-305 | the flag is cleared and the queue emptied under the lock, and the gap becomes one resynced transition |
| FocusContext.FocusContext.TryRecv | crates/zanei-macos/src/focus_context.rs:269-313 | load the flag, pop, load it again and remember, with any single steps of writers in between: a delivered transition continues the chain, and an empty answer means caught up exactly when no refused send was unflagged in the state in which the flag was loaded |
| KeyCreation.CreationConverges | crates/zanei-cli/src/store_access.rs:299-354 | while no three creators share a staging name: the published key is whole, never changes, and all creators that return a key return that one |
| KeyCreation.ThreeOfOneNameCanFail | crates/zanei-cli/src/store_access.rs:318-354 | any three creators of one staging name have an interleaving that publishes a partial key |
| KeyCreation.SafeExactly | crates/zanei-core/src/store/key_store.rs:82-99 | creation is safe in all runs if and only if no staging name is shared by three creators |
| KeyCreation.KeyDirectory.Store | crates/zanei-cli/src/store_access.rs:318-354 | staged write and link into place, alone: publishes the whole key, or leaves an existing one and says so |
| KeyCreation.KeyDirectory.LoadOrCreate | crates/zanei-core/src/store/key_store.rs:82-99 | returns the published key if there is one, else the one it publishes; a published item that is no whole key is reported as invalid and left alone |
| Supervisor.BackoffSchedule | crates/zanei-cli/src/daemon/supervisor/health.rs:15-80 | after n failures in a row the next attempt is due exactly the n-th delay later, and not without permission |
| Supervisor.StartedFirstIs | crates/zanei-cli/src/daemon/supervisor.rs:64-118 | what start does to each collector on its own: started, or its restart scheduled, only if its producer is sound and its gate open |
| Supervisor.StartsAreOrdered | crates/zanei-cli/src/daemon/supervisor.rs:47-53 | workers are started consumers first |
| Supervisor.StoppedFirstIs | crates/zanei-cli/src/daemon/supervisor.rs:146-158 | what stopping does to each collector; content is always discarded |
| Supervisor.StopsAreOrdered | crates/zanei-cli/src/daemon/supervisor.rs:55-61 | workers are stopped producers first, and only those that ran |
| Supervisor.EveryRunnerIsStopped | crates/zanei-cli/src/daemon/supervisor.rs:432-450 | every worker that ran is stopped |
| Supervisor.StopLeavesNothing | crates/zanei-cli/src/daemon/supervisor.rs:120-158 | from any state, a broken one too, nothing runs and no relay is held afterwards |
| Supervisor.SupervisedFirstIs | crates/zanei-cli/src/daemon/supervisor.rs:160-223 | a supervision round keeps every collector running exactly while it holds a relay; cut short by a failed join, it still starts nothing forbidden |
| Supervisor.WithFilterIs | crates/zanei-cli/src/daemon/collectors.rs:272-304 | a new filter touches no collector but the browser one, which is kept, renewed or removed by its targets |
| Supervisor.FilterKeepsGood | crates/zanei-cli/src/daemon/collectors.rs:272-317 | a new filter starts nothing and keeps the set good |
| Supervisor.StartRoundLogged | crates/zanei-cli/src/daemon/supervisor.rs:64-118 | after a start round the log of worker calls alternates start and stop and tells truly which workers run |
| Supervisor.StopRoundLogged | crates/zanei-cli/src/daemon/supervisor.rs:120-158 | so it does after a stop round, whatever the relays did |
| Supervisor.SuperviseRoundLogged | crates/zanei-cli/src/daemon/supervisor.rs:160-223 | so it does after a supervision round, also one cut short by a failed join |
| Supervisor.FilterLogged | crates/zanei-cli/src/daemon/collectors.rs:272-317 | so it does after a new filter |
| CollectorSets.CollectorSet.Start | crates/zanei-cli/src/daemon/supervisor.rs:64-102 | the loop over the start order, in place, equals starting each in turn |
| CollectorSets.CollectorSet.StopInOrder | crates/zanei-cli/src/daemon/supervisor.rs:146-158 | the loop over the stop order, in place; nothing runs afterwards |
| CollectorSets.CollectorSet.Reap | crates/zanei-cli/src/daemon/supervisor.rs:496-518 | a dead collector is laid out field by field; a relay that cannot be joined is an error and stays held |
| CollectorSets.CollectorSet.Supervise | crates/zanei-cli/src/daemon/supervisor.rs:160-223 | the five turns in order with their guards, ended by the first error |
| CollectorSets.CollectorSet.ReplaceFilter | crates/zanei-cli/src/daemon/collectors.rs:272-317 | the set after a filter replacement, including what the removed browser collector's relay had dropped |
| Recorder.SyncedIsSound | crates/zanei-cli/src/daemon/runtime.rs:454-477 | store back-off and recovery keep the recorder safe, whether or not the heartbeat is written |
| Recorder.PauseUpdatedIsSound | crates/zanei-cli/src/daemon/runtime.rs:479-497 | pause and resume keep it safe, also when the flush in between fails |
| PauseCells.PauseRow.NormalizePauseRequest | crates/zanei-cli/src/daemon/runtime.rs:554-577 | the answer and the stored text after judging what was read, with any writes of commands before the clear |
| PauseCells.LivePauseStays | crates/zanei-core/src/store/writer.rs:256-263 | only a command ever takes a live pause away; no step of the recorder does, whatever is written between its steps |
| PauseCells.ResumesOnlyWhenFree | crates/zanei-cli/src/daemon/runtime.rs:554-577 | in every interleaving with commands and the clock, a poll answers that no pause is asked for only if at some moment of it no live pause was stored |
| PauseCells.StaysOnlyForAReason | crates/zanei-cli/src/daemon/runtime.rs:554-577 | it answers that one is asked for only if one was live, or a command wrote in between |
| PauseCells.QuietPoll | crates/zanei-cli/src/daemon/runtime.rs:554-577 | without a command in between the answer is exact, and a pause that is over does not stay stored |
| PauseCells.AnswerIs | crates/zanei-cli/src/daemon/runtime.rs:554-577 | every interleaving answers as the run loop's model does, from what was stored at two moments and the time between |
| Recorder.NeverResumesOverAPause | crates/zanei-cli/src/daemon/runtime.rs:479-497 | while a live pause stands throughout a poll, even one that takes the place of another, the recorder is paused afterwards and nothing runs, unless the poll fails and ends the run |
| Recorder.RequestEndedIsSafe | crates/zanei-cli/src/daemon/runtime/permission.rs:29-67 | however a permission request ends the gate opens, and EventTap starts only if capture is on |
| Recorder.ReconfiguredIsSound | crates/zanei-cli/src/daemon/runtime.rs:399-421 | a configuration reload keeps it safe and makes no collector run that did not; if the pipeline refuses the filter the collectors keep theirs and the loop ends |
| Recorder.BeatenIsSound | crates/zanei-cli/src/daemon/runtime.rs:430-449 | a heartbeat keeps it safe, touches the collectors only while capture is on, and leaves nothing running if the pipeline has ended |
| Recorder.TurnIsSound | crates/zanei-cli/src/daemon/runtime.rs:382-452 | one turn of the loop keeps it safe, at whichever step it ends |
| Recorder.EveryRunIsSound | crates/zanei-cli/src/daemon/runtime.rs:348-452 | over every run: nothing runs while paused or suspended, EventTap only behind an open gate, collectors run exactly while they hold a relay, a closed gate has a request in flight, and back-off is reported exactly while it lasts |
| Recorder.ShutDownStopsEverything | crates/zanei-cli/src/daemon/shutdown.rs:11-38 | however the run ended no worker is left started, and every start has had its stop |
| Recorder.CaptureResumes | crates/zanei-cli/src/daemon/runtime.rs:454-497 | capture comes back with whichever of pause and back-off is lifted last, and every collector that may start is tried |
| Recorder.GateOpensForGood | crates/zanei-cli/src/daemon/runtime.rs:499-514 | the request in flight opens a closed gate however it ends, and no run closes it again |
| ActiveDaemons.ActiveDaemon.PollPermissionRequest | crates/zanei-cli/src/daemon/runtime.rs:499-531 | the fields after a poll: gate, EventTap, the next request, what is reported |
| ActiveDaemons.ActiveDaemon.SyncStoreIntake | crates/zanei-cli/src/daemon/runtime.rs:454-477 | the fields and the outcome, for each of the four combinations of store health and suspension |
| ActiveDaemons.ActiveDaemon.UpdatePauseState | crates/zanei-cli/src/daemon/runtime.rs:479-497 | the fields and the outcome; a failed flush leaves the recorder stopped and not yet paused |
| ActiveDaemons.ActiveDaemon.RunLoop | crates/zanei-cli/src/daemon/runtime.rs:372-452 | the loop over any turns is the state machine's run, and its state is sound at the end of every prefix |
| ActiveDaemons.ActiveDaemon.Run | crates/zanei-cli/src/daemon/runtime.rs:348-370 | a whole run from start to shutdown; no worker is left started |
| TextDeltas.GraphemeClusters | crates/zanei-core/src/text_delta.rs:43-64 | the scanning loop yields the clusters |
| TextDeltas.ClustersAreTheClustering | crates/zanei-core/src/text_delta.rs:43-78 | the clusters are the one way to cut a text into pieces that break between neighbours and nowhere inside |
| TextDeltas.AtomicMeans | crates/zanei-core/src/text_delta.rs:54-60 | a piece is unbreakable exactly when no two neighbours in it break |
| TextDeltas.TextDelta | crates/zanei-core/src/text_delta.rs:10-41 | the computed delta, shortcut included |
| TextDeltas.DeltaIsNetGrowth | crates/zanei-core/src/text_delta.rs:34-37 | there is a delta exactly when the value has more clusters than the baseline |
| TextDeltas.CutInThree | crates/zanei-core/src/text_delta.rs:15-40 | cut between clusters into a front, a middle and an end, a value is those three side by side |
| TextDeltas.SharedPrefix | crates/zanei-core/src/text_delta.rs:17-21 | the prefix is common and could not be longer |
| TextDeltas.SharedSuffix | crates/zanei-core/src/text_delta.rs:22-32 | the suffix is common and could not be longer without reaching into the prefix |
| TextDeltas.DeltaIsTheMiddle | crates/zanei-core/src/text_delta.rs:34-40 | the delta is the current middle and has more clusters than the middle it replaces |
| TextDeltas.MiddleClusters | crates/zanei-core/src/text_delta.rs:39-64 | neighbouring clusters taken out of their value keep their clusters, so the delta's own clusters are those of the middle |
| TextDeltas.ShortcutAgrees | crates/zanei-core/src/text_delta.rs:11-13 | the empty-baseline shortcut is what the general path would give |
| TextDeltas.AppendedTextIsTheDelta | crates/zanei-core/src/text_delta.rs:10-41 | text appended after a break is the delta, whole |
| LineRedaction.MergedIsSeparated | crates/zanei-core/src/privacy/redactor/patterns.rs:301-314 | merging sorted ranges leaves them in order with gaps between |
| LineRedaction.MergedCovers | crates/zanei-core/src/privacy/redactor/patterns.rs:301-314 | merging neither covers nor uncovers a position |
| LineRedaction.MergedMatches | crates/zanei-core/src/privacy/redactor/patterns.rs:301-332 | candidates sorted by start merge into the ordered, disjoint, non-empty ranges that replacing asks for |
| LineRedaction.ReplaceRanges | crates/zanei-core/src/privacy/redactor/patterns.rs:316-332 | the copying loop replaces each range by the marker |
| LineRedaction.ReplacedKeepsTheRest | crates/zanei-core/src/privacy/redactor/patterns.rs:316-332 | but for markers, exactly the bytes no range covers remain, in order |
| LineRedaction.MarkersStandBetween | crates/zanei-core/src/privacy/redactor/patterns.rs:316-332 | the result is the only text in which the stretches between the ranges stand in order, end to end, with exactly one marker per range between each and the next |
| LineRedaction.StretchIsUncovered | crates/zanei-core/src/privacy/redactor/patterns.rs:316-332 | no range covers a byte of those stretches |
| LineRedaction.ReplacedLength | crates/zanei-core/src/privacy/redactor/patterns.rs:321-323 | the reserved capacity is the exact result length and cannot underflow |
| LineRedaction.LocalIsInOrder | crates/zanei-core/src/privacy/redactor.rs:101-105 | a line's ranges are in bounds, ordered and disjoint, and not empty unless the line is |
| LineRedaction.LocalIsProjection | crates/zanei-core/src/privacy/redactor.rs:101-105 | a byte is covered in its line exactly when it is covered in the joined text |
| LineRedaction.LinesInJoined | crates/zanei-core/src/privacy/redactor.rs:91-100 | the running offset is where each line stands in the joined text |
| LineRedaction.LineOrNewline | crates/zanei-core/src/privacy/redactor.rs:91-95 | every byte of the joined text lies in one line or is the newline after one, so the projections together cover all matched bytes but separators |
| LineRedaction.LinesLoseWhatTheTextLoses | crates/zanei-core/src/privacy/redactor.rs:86-113 | a redacted line keeps exactly those of its bytes that the redacted joined text keeps, and holds one marker for each match that overlaps it, between the stretches it keeps |
| LineRedaction.EmptyLineInsideAMatch | crates/zanei-core/src/privacy/redactor.rs:101-109 | an empty line strictly inside a match becomes one marker, any other stays empty |
| LineRedaction.UntouchedLine | crates/zanei-core/src/privacy/redactor.rs:106-109 | a line no match overlaps is left as it was |
| LineRedaction.RedactLines | crates/zanei-core/src/privacy/redactor.rs:90-113 | the in-place loop rewrites every line to its redacted form, keeps count and order, and reports whether any line was overlapped |
| LineRedaction.RedactCandidates | crates/zanei-core/src/privacy/redactor.rs:86-113 | the same from a rule's candidates on: merged, projected and replaced line by line |
| FilterReload.RedactEvent | crates/zanei-core/src/privacy/redactor.rs:24-42 | each configured rule is applied once, in order, and listed once if it fired |
| FilterReload.Reprocess | crates/zanei-core/src/privacy/mod.rs:77-125 | one pass of a filter: dropped, or suppressed, redacted and cut to size |
| FilterReload.SurvivesExactly | crates/zanei-core/src/privacy/mod.rs:77-125 | an event survives any series of filters exactly when each admits its original selectors |
| FilterReload.NothingComesBack | crates/zanei-core/src/privacy/mod.rs:77-125 | a field the survivor has, the original had and no filter suppressed; unless something was cut to size, it has all of those |
| FilterReload.GoneStaysGone | crates/zanei-core/src/privacy/mod.rs:77-125 | what one filter of a series has suppressed or cut away no later filter brings back, and a size mark stays |
| FilterReload.SurvivorIsTheSameEvent | crates/zanei-core/src/privacy/mod.rs:77-125 | identity, time, type and selectors are untouched, and every size limit holds at the end |
| FilterReload.OrderDoesNotMatter | crates/zanei-core/src/privacy/mod.rs:77-125 | survival and suppression depend on which filters were applied, not on order or repetition |
| FilterReload.RulesAreKept | crates/zanei-core/src/privacy/redactor.rs:24-42 | rules that fired stay listed, in order and without duplicates, with at most the size limit put first, and the mark is never taken back |
| UrlHosts.IsValidUriSyntax | crates/zanei-core/src/privacy/matcher.rs:93-121 | the cursor loop accepts exactly the texts in which every character is a URI byte or starts a complete escape, with at most one `#` |
| UrlHosts.HostOfPrintedUrl | crates/zanei-core/src/privacy/matcher.rs:34-58 | from a URL printed from any valid parts the host is found, lower case and without one closing dot |
| UrlHosts.FoundHostComesFromAUrl | crates/zanei-core/src/privacy/matcher.rs:34-58 | wherever a host is found the text is such a URL and the host is that of its parts |
| UrlHosts.HasHostExactly | crates/zanei-core/src/privacy/matcher.rs:34-58 | a text has a host if and only if it is printed from some valid parts |
| UrlHosts.HostAndPortRoundTrip | crates/zanei-core/src/privacy/matcher.rs:151-198 | host and port, bracketed or named, are read back from what is printed |
| UrlHosts.HostAndPortSplits | crates/zanei-core/src/privacy/matcher.rs:151-198 | an accepted authority is a valid host and an optional 16-bit port, nothing else |
| UrlHosts.MatchesWholeLabels | crates/zanei-core/src/privacy/matcher.rs:77-85 | a host matches a configured domain exactly when the domain's labels are its last labels |
| Routes.NormalizedSegment | crates/zanei-core/src/privacy/capture_policy.rs:184-218 | the decoding loop and the extension rule yield the normalized segment |
| Routes.EncodingIsUndoneExactly | crates/zanei-core/src/privacy/capture_policy.rs:184-205 | every choice of escaping unreserved characters, in either hex case, decodes to the same if and only if no position of the text holds an escape that decodes |
| Routes.EncodingIsNormalizedAwayExactly | crates/zanei-core/src/privacy/capture_policy.rs:184-218 | every choice of escaping gives the same normalized segment if and only if the segment holds no escape that decodes |
| Routes.EncodingInsideAnEscape | crates/zanei-core/src/privacy/capture_policy.rs:184-205 | a segment that holds an escape, and a writing of it that normalizes to something else |
| Routes.DecodingKeepsSegments | crates/zanei-core/src/privacy/capture_policy.rs:143-218 | decoding neither makes nor breaks a slash: the decoded route has the decoded segments |
| Routes.ScanRoute | crates/zanei-core/src/privacy/capture_policy.rs:143-182 | the early-exit scan finds authentication if any segment says so, else payment if any does |
| Routes.PresetMatch | crates/zanei-core/src/privacy/capture_policy.rs:121-138 | over host label, path and fragment: authentication anywhere outranks payment anywhere |
| Routes.JudgeSurface | crates/zanei-core/src/privacy/capture_policy.rs:121-182 | the same with the vocabulary of words the policy knows |
| Routes.EncodingHidesNoNameExactly | crates/zanei-core/src/privacy/capture_policy.rs:143-218 | every choice of escaping gives the same names of a route if and only if the route holds no escape that decodes |
| Routes.EncodingHidesNoRoute | crates/zanei-core/src/privacy/capture_policy.rs:143-218 | then no verdict changes either, whatever the vocabulary |

## Left out

- Recorder.EveryRunIsSound: after a relay that cannot be joined the run ends with that relay still held, as in the code; only shutdown, which follows, releases it.
- SQL, WAL, file locks and encryption: a store is a map from sequence to row and each read is one snapshot.
- Recorder.NeverResumesOverAPause: a pause stored after a poll has read that there is none takes effect at the next poll, as in the code.
- Retention purges, heartbeat contents, health texts and process ownership of the recorder: only whether each step succeeded matters to the model. The time a pause text names is any function of the text.
- Threads of collectors, relays and the pipeline: a worker start, a finished relay and its exit are answers of the environment.
- Memory orderings weaker than sequential consistency in the focus broadcast: each send, receive, load and store is one atomic step, and any steps may come between two of them.
- Key directories that cannot be created, key deletion and Keychain storage: only the file key store is modelled, and no step deletes a published key.
- Unicode lower-casing of app names and window keys in coalescing: only ASCII letters are folded, as equality of the folded names is all that is used.
- Arithmetic on doubles: sums of amounts and which of them are finite are any functions, so every rounding is covered and none is computed.
- Which texts are absolute URIs and which content snapshots meet the event contract: any predicates. Event ids and times are well formed by construction.
- Serialized sizes (pages, pending bytes, OCR lines) are arbitrary functions; byte totals are unbounded and do not saturate.
- Payload fields that no modelled step reads or writes, and the detail structure of stored evidence: any field read is null, text or of another type.
- The patterns that find emails, cards and tokens: any ordered disjoint non-empty finds for lines, any text-to-text function for the filter; sorting of candidate ranges is taken as given.
- App name and bundle rules and the capture policy's decision in a filter: any predicates on the selectors. Website lists and host extraction are modelled in full.
- The standard library's IPv4 and IPv6 address syntax: any two predicates; an address in brackets holds no delimiter of the authority.
- IDE file names, browser rule lists and the URL parser used for capture policies: they would add only easy members.
- Command lines, configuration rewriting, agents, MCP, launchd, macOS event sources and documentation rendering.
