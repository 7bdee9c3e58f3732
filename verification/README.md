# Verified models of the dashboard's concurrent and streaming cores

The dashboard keeps its live data consistent with a handful of small state machines and reconciliation
functions: a coordinator that turns change events into query refetches, a reducer that several test
sides stream into at once, readers of server-sent event streams, the conversation timeline, optimistic
overlays, and a few bounded registries. A benchmark script of the backend shares one task counter among
concurrent workers. This project models those cores in Dafny and proves what they are relied on for.

Code that updates fields, maps or buffers is a class or a loop here, proved against a function or a
predicate of its inputs; the results are then lemmas about that function, for every run or every input.

| files | what they model |
|---|---|
| `QueryInvalidation.dfy`, `QueryInvalidationRuns.dfy`, `QueryInvalidationCoordinator.dfy` | the query invalidation coordinator: its functions, its runs, and the re-entrant class |
| `TestExecution*.dfy` | the test execution reducer: confluence, settlement, transcripts, replies, outcomes, hydration and what it shows |
| `EventStream.dfy`, `EventLineEnds.dfy`, `ChatStream.dfy`, `ChatReader.dfy`, `ChatResponse.dfy` | server-sent events: cutting, line ends, parsing, the chat reader's state, and what it reports |
| `Json.dfy`, `ActivityOrder.dfy`, `ActivityTimeline.dfy`, `ActivityPlacement.dfy` | the conversation's activity timeline and its place in the thread |
| `WorkerPool.dfy`, `ArmInterleaving.dfy` | the worker pool and the order of its tasks |
| `CrawlOverlay.dfy`, `CrawlJobs.dfy` | optimistic crawl actions and merged crawl jobs |
| `EntityRegistry.dfy` | the copilot's bounded entity list |
| `Contrast.dfy` | colours and WCAG 2.1 contrast (relative luminance and contrast ratio as section 6 defines them) |

`dafny verify dfyconfig.toml` checks everything.

## How the environment is modelled

- **Query cache.** Between two events of the coordinator the cache may change in any way. During one
  `invalidateQueries` call it raises any number of notifications, leaves the query with any fetch
  status, and raises more notifications; an arbitrary function of the call's number says which. A
  notification re-enters the coordinator while it is subscribed. The promise of a call settles at any
  later time, in any order. A refetch counts as issued when the call is made.
- **Streams.** A text may be cut into chunks anywhere. The streams of a test execution's sides may be
  interleaved with each other, with stale events and with events of unknown sides.
- **Worker pool.** Awaited tasks settle in any order; a run is any such order.
- **JSON decoding** is a parameter of the chat reader; a payload that does not decode makes it throw.
- **The power 2.4** is any non-negative function whose fifth power is the twelfth power of its argument.

## Where the code and what is said of it differ

- *Lost invalidations.* What an active query is owed is forgotten by `deactivate` and `dispose`, and by
  nothing else: `OwedUnlessShutDown` states this as an if and only if, and `DeactivationForgets` is a run
  in which the same coordinator is reactivated and the query stays active throughout.
- *Events about the whole execution.* `execution_completed` and `execution_partial` come after the sides'
  streams (backend/src/modules/test-execution/testExecution.ts:612-617), and then change nothing. One that
  came before would end the turn with a side still running, for good (`EarlyEndStops`); this is the only
  way an interleaving can matter (`Confluence`).
- *Execution state on settlement.* `deriveExecutionState` is documented as the one status that all paths
  agree on. The reducer's own formula agrees with it exactly when the side fails, another side had failed,
  or all others had completed (`SettlementStep`); a retry beside a side that was never sent a message makes
  the two differ (`SettlementCanDisagree`). The API's types admit such a state
  (frontend/lib/api-agent-revisions.ts:107-108), and reopening copies it; the server does not store it,
  since a message claims all sides of an execution in one transaction
  (backend/src/db/repositories/testExecutionRepository.ts:246-262). In runs from a new turn, or from a
  state whose sides all ran before, the two always agree (`SettlementInEveryRun`).
- *Line ends.* The chat reader cuts at `\n\n` only; the copilot's reader takes a carriage return before
  either line feed. Each reads a text as the plain reader reads it without carriage returns if and only if
  no blank line is hidden from it, by any carriage return between its line feeds for the one and by two or
  more (as in `\n\r\r\n`) for the other (`ReadsAsWithoutCr`). So a text whose carriage returns all end
  lines is read right by the copilot's reader (`TolerantReaderReadsCrlf`), and a text whose line feeds all
  follow carriage returns is handed over by the chat reader as one event (`PlainReaderMissesCrlf`).
- *JSON comparison.* A key that is missing on the right reads what the object inherits, and `__proto__`
  inherits an object without keys. So `{"__proto__": {}}` and `{"x": 1}` read the same
  (`DifferentValuesCanReadTheSame`); `SameJsonIsEquality` says exactly which values are compared
  faithfully. A poll with unique ids leaves the held copy of an event where the new one reads the same
  (`TailReadHolds`). Every such poll's new copy is taken if and only if no copy is held or the held
  one has no empty object under `__proto__` (`LatestCopyIsHeld`; `ConfusedCopyStays` is an example).
- *The polled tail.* "No poll empties the tail" holds of polls that arrive; a poll that becomes
  undefined does empty it, and `ReconcileStep` counts that among the ways an event is let go.
- *Dropped actions.* Dropping a reflected action leaves what is presented as it was if and only if the
  action is a pause or the server has the source active (`DroppingIsUnseen`). A dropped recrawl can turn
  a source from active to paused (`DroppedRecrawlCanPause`), a dropped resume from active to neither
  (`DroppedResumeCanBeIdle`).
- *Crawl completions.* A completion is reported exactly when a poll sees the job completed and the poll
  just before it saw the job with another status, with no deletion of it in between
  (`ReportedExactlyWhenSeenToComplete`), so one poll that skips the job hides it
  (`CompletionCanGoUnreported`).
- *An empty pool.* With a concurrency below one the pool returns at once with no result
  (`NoWorkersNoResults`).

## Model

| member | source | states |
|---|---|---|
| QueryInvalidationRuns.NoLostInvalidation | frontend/lib/dashboard-query-invalidation.ts:141-220 | in every run, after an invalidation, ready or resync is accepted for a query that stays active and without a shutdown, a refetch has been issued since or the query's entry is still dirty |
| QueryInvalidationRuns.OwedUnlessShutDown | frontend/lib/dashboard-query-invalidation.ts:109-127 | an event lowers what an active query has been given or is owed if and only if it is a shutdown and the query's entry is dirty |
| QueryInvalidationRuns.DeactivationForgets | frontend/lib/dashboard-query-invalidation.ts:114-121 | a run with deactivation and reactivation in which an accepted invalidation is never followed by a refetch |
| QueryInvalidationRuns.RefetchesAreAccountedFor | frontend/lib/dashboard-query-invalidation.ts:141-211 | in every run, refetches issued for a query plus the one still owed are at most the accepted invalidations: bursts coalesce, and nothing refetches on its own |
| QueryInvalidationRuns.NothingSettledIsLeftDirty | frontend/lib/dashboard-query-invalidation.ts:141-211 | after a cache notification, ready or resync processed while visible, no idle active query without an outstanding call is dirty, nor is the query whose call completes |
| QueryInvalidationRuns.CompletionIsFollowed | frontend/lib/dashboard-query-invalidation.ts:201-211 | the completion of a query's call forgets a clean entry; a dirty one is refetched at once, or kept dirty while its query is fetching, inactive or hidden |
| QueryInvalidationRuns.AcceptedIsAnsweredOrOwed | frontend/lib/dashboard-query-invalidation.ts:141-199 | an accepted invalidation makes exactly one call for a query that is free, and none for one being fetched or with a call in flight, which it marks dirty |
| QueryInvalidationRuns.NotificationAnswersOwed | frontend/lib/dashboard-query-invalidation.ts:167-220 | a cache notification makes exactly one call for each active, idle query with a dirty entry and no call in flight, and no other call |
| QueryInvalidationRuns.NotificationPrunes | frontend/lib/dashboard-query-invalidation.ts:213-220 | it leaves exactly the entries of active queries |
| QueryInvalidationRuns.VisibilityGates | frontend/lib/dashboard-query-invalidation.ts:144-151 | a visibility event changes nothing else, and no event makes a call while hidden |
| QueryInvalidationRuns.ShutDownIsDeaf | frontend/lib/dashboard-query-invalidation.ts:117-127 | a deactivated or disposed coordinator has no entries and ignores notifications |
| QueryInvalidationRuns.DisposedIsSilent | frontend/lib/dashboard-query-invalidation.ts:123-142 | in every run a disposed coordinator stays so and makes no call |
| QueryInvalidationRuns.InvariantInEveryRun | frontend/lib/dashboard-query-invalidation.ts:182-220 | in every run an entry is marked invalidating exactly when one call is outstanding for it, and a disposed coordinator has no entries |
| QueryInvalidationRuns.StaleCompletionChangesNothing | frontend/lib/dashboard-query-invalidation.ts:201-202 | once an entry is pruned or replaced, the completion of its call changes nothing in any later state of the run |
| QueryInvalidation.QuietTransitive | frontend/lib/dashboard-query-invalidation.ts:167-220 | nested notifications compose: each query's entry is kept, pruned while inactive, or answered by exactly one call |
| QueryInvalidation.Request | frontend/lib/dashboard-query-invalidation.ts:182-199 | asking for a query does nothing when gated or inactive, marks it dirty when it must wait, and otherwise makes one call and only quiet work besides; nested notifications terminate |
| QueryInvalidation.RequestOwedIsQuiet | frontend/lib/dashboard-query-invalidation.ts:167-175 | the refetch of a settled dirty query is within what a notification may do |
| QueryInvalidation.QuietShrinksPending | frontend/lib/dashboard-query-invalidation.ts:213-220 | the number of entries that are dirty and not invalidating never grows under notifications, the measure on which they terminate |
| QueryInvalidationCoordinator.Coordinator.Process | frontend/lib/dashboard-query-invalidation.ts:141-164 | the class's `process` takes the abstract state where the function of the event does |
| QueryInvalidationCoordinator.Coordinator.RequestReconciliation | frontend/lib/dashboard-query-invalidation.ts:182-199 | the method with its re-entrant call equals `Request`, and terminates |
| QueryInvalidationCoordinator.Coordinator.FinishReconciliation | frontend/lib/dashboard-query-invalidation.ts:201-211 | comparing entry objects by identity decides whether a completion counts, as entry ids do in the model |
| QueryInvalidationCoordinator.Coordinator.ReconcileSettledQueries | frontend/lib/dashboard-query-invalidation.ts:167-175 | the loop over the active queries, with nested notifications changing the map under it, equals its function |
| QueryInvalidationCoordinator.Coordinator.PruneInactiveWork | frontend/lib/dashboard-query-invalidation.ts:213-220 | the cache listener reconciles settled queries first and then drops exactly the inactive entries |
| QueryInvalidationCoordinator.Coordinator.Deactivate | frontend/lib/dashboard-query-invalidation.ts:117-121 | unsubscribes and empties the map |
| QueryInvalidationCoordinator.Coordinator.Dispose | frontend/lib/dashboard-query-invalidation.ts:123-127 | disposes once, for good |
| TestExecutionConfluence.Confluence | frontend/lib/agent-test-execution-state.ts:268-338 | when each running side's events form one stream ending in its terminal event, an interleaving ends in the settled state in which each side is what its own stream makes of it, if and only if events about the whole execution come after all of the streams, as the server sends them |
| TestExecutionConfluence.EarlyEndStops | frontend/lib/agent-test-execution-state.ts:276-280 | such an event that comes too early ends the turn with a side still running, whatever follows |
| TestExecutionConfluence.InterleavingsAgree | frontend/lib/agent-test-execution-state.ts:268-338 | two interleavings of the same streams, with or without an event about the whole execution at the end, give the same state |
| TestExecutionConfluence.BeginTurnBegins | frontend/lib/agent-test-execution-state.ts:177-191 | sending a message gives a state confluence starts from |
| TestExecutionConfluence.BeginRetryBegins | frontend/lib/agent-test-execution-state.ts:193-229 | so does retrying one side, and it leaves the others as they were |
| TestExecutionRuns.SettlementStep | frontend/lib/agent-test-execution-state.ts:324-338 | a side event ends the turn exactly when it is terminal and no other side is running, and the state given then is the derived one if and only if the side fails, another side had failed, or all others had completed |
| TestExecutionRuns.SettlementCanDisagree | frontend/lib/agent-test-execution-state.ts:48-53 | a side never sent a message, beside a failed one that is retried, makes the settled state differ from the derived one |
| TestExecutionRuns.SettlementInEveryRun | frontend/lib/agent-test-execution-state.ts:177-338 | in every run from a new turn, or from a state whose sides all ran before, a current event ends the turn exactly when it is about the whole execution or as above, and a side event then leaves the derived execution state |
| TestExecutionRuns.ResolvedTurnIgnoresEvents | frontend/lib/agent-test-execution-state.ts:272-274 | no sequence of events changes a state without an active turn |
| TestExecutionRuns.TranscriptFrame | frontend/lib/agent-test-execution-state.ts:193-338 | in every run of events, retries, failures and finalizations, with unique ids, transcripts keep their number, order, roles and turns, and user messages do not change |
| TestExecutionRuns.TranscriptGrows | frontend/lib/agent-test-execution-state.ts:177-338 | in every run, turns included, each side's transcript grows by exactly two messages per turn begun, and what it had keeps its order, roles, turns and user messages |
| TestExecutionRuns.FinalizeSettlesSides | frontend/lib/agent-test-execution-state.ts:232-265 | finalizing fails exactly the running sides in any order, gives the derived state, leaves no side running, and is idempotent |
| TestExecutionRuns.FinalizedInterleavingsAgree | frontend/lib/agent-test-execution-state.ts:232-338 | streams that end early are finalized to the same state, however they were interleaved |
| TestExecutionReplies.StreamedReply | frontend/lib/agent-test-execution-state.ts:285-299 | while its stream is open a reply reads what it began with and its deltas, and no other message changes |
| TestExecutionReplies.CompleteReply | frontend/lib/agent-test-execution-state.ts:300-322 | the terminal event then revises that one reply |
| TestExecutionOutcomes.TurnBeginsWith | frontend/lib/agent-test-execution-state.ts:177-191 | sending a message changes every field as stated: each side runs without a failure, and its transcript gains the sent text and an empty streaming reply |
| TestExecutionOutcomes.RetryBeginsWith | frontend/lib/agent-test-execution-state.ts:193-229 | a retry clears the side's failure and restarts its last reply in its place and turn |
| TestExecutionOutcomes.RetryWithoutReply | frontend/lib/agent-test-execution-state.ts:193-229 | a side without a reply runs under a turn named after the attempt, and an unknown side changes nothing |
| TestExecutionOutcomes.TurnOutcome | frontend/lib/agent-test-execution-state.ts:177-338 | a whole turn over any interleaving, every field of every side: state, failure code, whether it may be retried, and the transcript with the message sent and one reply |
| TestExecutionOutcomes.RetryOutcome | frontend/lib/agent-test-execution-state.ts:193-338 | a whole retry likewise, with the last reply replaced in its place and idle sides as they were |
| TestExecutionOutcomes.OpenFields | frontend/lib/agent-test-execution-state.ts:292-299 | while a stream is open its side runs, and its start clears the failure shown |
| TestExecutionOutcomes.ClosedFields | frontend/lib/agent-test-execution-state.ts:300-322 | the terminal event decides the side's state, its failure code and whether it may be retried |
| TestExecutionOutcomes.EventTouchesItsReply | frontend/lib/agent-test-execution-state.ts:282-324 | an event changes at most the last reply of its own side, turn and attempt, and no other side |
| TestExecutionOutcomes.FailureReads | frontend/lib/agent-test-execution-state.ts:244-265 | a failed side shows the code and may be retried; its last reply is broken, and reads the notice if it was streaming or empty |
| TestExecutionOutcomes.FailureWithoutReply | frontend/lib/agent-test-execution-state.ts:244-265 | without a reply only the side's fields show it |
| TestExecutionOutcomes.RunningStateAfter | frontend/lib/agent-test-execution-state.ts:331-334 | an event that does not end the turn makes the execution partial if its side failed, and leaves its state otherwise |
| TestExecutionOutcomes.ExecutionEventReads | frontend/lib/agent-test-execution-state.ts:276-280 | a current event about the whole execution ends the turn as it says, and touches no side |
| TestExecutionOutcomes.FinalizedState | frontend/lib/agent-test-execution-state.ts:232-238 | a stream that ends early leaves the execution partial if a side failed or still ran, and completed otherwise |
| TestExecutionReplies.AnsweredReads | frontend/lib/agent-test-execution-state.ts:300-322 | a reply that begins empty reads the stored answer, the concatenated deltas where none was stored, or the failure |
| TestExecutionReplies.LastAssistantAt | frontend/lib/agent-test-execution-state.ts:200 | a side with a reply has a last one, the one a retry restarts |
| TestExecutionHydration.LatestAttemptByTurn | frontend/lib/agent-test-execution-state.ts:88-96 | each turn's attempt of the highest fence, the first of those that share it |
| TestExecutionHydration.HistoryIsKept | frontend/lib/agent-test-execution-state.ts:119-139 | deleting placeholders from a hydrated side gives its stored history in order |
| TestExecutionHydration.PlaceholderOfTurn | frontend/lib/agent-test-execution-state.ts:106-139 | each turn has one placeholder exactly when it is in the history, has no answer, and its latest attempt failed or is running in the current turn |
| TestExecutionHydration.PlaceholderFollowsItsTurn | frontend/lib/agent-test-execution-state.ts:119-139 | the placeholder comes right after the last entry of its turn |
| TestExecutionHydration.AtMostOneStreaming | frontend/lib/agent-test-execution-state.ts:106-139 | at most one message of a side is streaming, and it belongs to the current turn |
| TestExecutionHydration.PlaceholderTakesEvents | frontend/lib/agent-test-execution-state.ts:106-116 | events of the attempt a placeholder stands for find that placeholder as their reply |
| TestExecutionHydration.LastUserOpensTurn | frontend/lib/agent-test-execution-state.ts:99-100 | the current turn is that of the last user entry, and missing only where there is none |
| TestExecutionHydration.Hydrate | frontend/lib/agent-test-execution-state.ts:147-174 | the hydrated state is that of the latest attempts of every side, with sides stored under their ids |
| TestExecutionHydration.HydratedTurnResumes | frontend/lib/agent-test-execution-state.ts:147-174 | an execution reopens as active exactly when a side's current attempt is running, and events of the active attempt then continue the reply shown as streaming on every side that runs it and whose stored history has no answer to the turn |
| TestExecutionReopened.StoredHistoryReads | frontend/lib/agent-test-execution-state.ts:119-139 | without its placeholders a reopened side reads its history entry by entry: role, text, turn, attempt, id, stored id and trace |
| TestExecutionReopened.StandInOfTurn | frontend/lib/agent-test-execution-state.ts:106-139 | a turn's replies that are not stored, exactly: the failure's text or an empty streaming reply, under the stated conditions on history and latest attempt, and none otherwise |
| TestExecutionReopened.StandInFollows | frontend/lib/agent-test-execution-state.ts:119-139 | it stands right after the last entry of its turn |
| TestExecutionReopened.SideReopens | frontend/lib/agent-test-execution-state.ts:154-173 | a reopened side's other fields: as stored, a failure code exactly where its current attempt failed, and recovery exactly where its current attempt runs past its lease |
| TestExecutionReopened.FirstRunningIsActive | frontend/lib/agent-test-execution-state.ts:152-158 | the active turn and attempt are those of the first side whose current attempt runs |
| TestExecutionReopened.InitialStateReads | frontend/lib/agent-test-execution-state.ts:55-78 | a started execution runs while a side does, is partial when one has failed and completed otherwise; no turn is active and every side reads its history |
| EventStream.ReadRawEvents | frontend/lib/api-chat-stream.ts:170-189 | for every cut of the text into chunks, the events handed over are those of the whole text split at leftmost delimiters, a nonblank rest last |
| EventStream.Drain | frontend/lib/api-copilot.ts:391-396 | the inner loop splits the buffer and leaves it without a delimiter, for either delimiter |
| EventStream.FindIsLeftmost | frontend/lib/api-copilot.ts:391-395 | a delimiter starts at the place found and none starts before it |
| EventStream.FindSlices | frontend/lib/api-chat-stream.ts:174-180 | the first event is the text before that place, and the rest starts after the delimiter |
| EventStream.SplitAppend | frontend/lib/api-chat-stream.ts:170-189 | splitting a text and then its rest with more text gives the split of the whole |
| EventStream.EventsArriveInOrder | frontend/lib/api-chat-stream.ts:170-189 | events handed over after some chunks are a prefix of those of the whole text |
| EventStream.SplitOfWritten | frontend/lib/api-chat-stream.ts:174-180 | splitting what was written event by event gives the events back |
| EventStream.PlainReaderMissesCrlf | frontend/lib/api-chat-stream.ts:174-188 | a text whose line feeds all follow carriage returns is never cut by the plain reader, and is handed over whole unless blank |
| EventLineEnds.ReadsAsWithoutCr | frontend/lib/api-copilot.ts:387-401 | for every text and both readers, the events handed over are those the plain reader has of the text without carriage returns if and only if no blank line is hidden: for the plain reader one with a carriage return between its line feeds, for the tolerant one with two or more |
| EventLineEnds.TolerantReaderReadsCrlf | frontend/lib/api-copilot.ts:387-401 | on a text whose carriage returns all end lines, the tolerant reader hands over the events of the text without them |
| EventLineEnds.CrlfHidesEveryBlankLine | frontend/lib/api-chat-stream.ts:174-180 | where all line feeds follow carriage returns, that holds exactly of texts without a blank line |
| ChatStream.ParseSseEvent | frontend/lib/api-chat-stream.ts:17-38 | the loop gives the last event line's name, or "message", and the data lines joined |
| ChatStream.ParsedFormat | frontend/lib/api-chat-stream.ts:17-38 | parsing an event's text gives its name and data back |
| ChatStream.ParsedLines | frontend/lib/api-chat-stream.ts:17-38 | any event's text reads as its lines say, up to carriage returns: the last name given or "message", and all its data, each trimmed and joined |
| ChatStream.ReaderInvertsWriter | frontend/lib/api-chat-stream.ts:17-189 | whatever is written event by event and cut into chunks anyhow is read back event by event |
| ChatReader.Reader.FlushEvent | frontend/lib/api-chat-stream.ts:65-168 | one raw event's effect on the response and the handler calls, with blank, empty and undecodable ones |
| ChatReader.Reader.HandleDone | frontend/lib/api-chat-stream.ts:114-145 | a completion keeps the conversation, message, agent and answer it does not bring anew, and overwrites the rest |
| ChatReader.Reader.Take | frontend/lib/api-chat-stream.ts:170-180 | one chunk flushes the events it completes and leaves a buffer without a delimiter |
| ChatReader.Reader.Stream | frontend/lib/api-chat-stream.ts:170-189 | however the text is cut, the response and the handler calls are those of the whole text's events |
| ChatReader.FlushHandles | frontend/lib/api-chat-stream.ts:65-88 | flushing events handles their payloads in order, under the event's name or the payload's type, up to the first that does not decode, and fails exactly there |
| ChatResponse.ResponseReads | frontend/lib/api-chat-stream.ts:90-168 | each field of the response is that of the last message that brings it, the answer is the last stored one and what was streamed since, and the handler calls are one per message of a known kind, in order, each with its payload and the fields so far |
| ChatResponse.StreamReads | frontend/lib/api-chat-stream.ts:65-189 | the same of what the reader reports of the raw events of any stream |
| ChatResponse.LastOfReads | frontend/lib/api-chat-stream.ts:90-154 | the last message wanted is the one after which none is |
| ChatResponse.EveryChunkIsHandled | frontend/lib/api-chat-stream.ts:96-101 | the chunk handler is called with exactly the chunks' payloads, in order |
| ChatReader.AnswerIsStreamed | frontend/lib/api-chat-stream.ts:96-101 | the answer is the concatenation of the chunks until a completion brings a stored one |
| ChatReader.StoredAnswerReplaces | frontend/lib/api-chat-stream.ts:114-120 | from then on it is the stored answer and what is streamed after it |
| Json.SameJsonIsEquality | frontend/lib/conversation-activity.ts:220-235 | comparing with a value holds of equal values alone, at every depth, if and only if no object in it has an empty object under `__proto__` |
| Json.SameJsonIsEqual | frontend/lib/conversation-activity.ts:220-235 | two values that read the same are equal where the left one has no empty `__proto__` |
| Json.SameJsonOfEqual | frontend/lib/conversation-activity.ts:220-235 | equal values always read the same |
| Json.EmptyProtoConfuses | frontend/lib/conversation-activity.ts:230-234 | every value with an empty `__proto__` reads the same as some other value |
| Json.DifferentValuesCanReadTheSame | frontend/lib/conversation-activity.ts:230-234 | an object with an empty `__proto__` reads the same as an object with one other key, in one direction |
| Json.SameKeys | frontend/lib/conversation-activity.ts:231-234 | equally many keys and one inclusion make the key sets equal |
| ActivityOrder.SortSorts | frontend/lib/conversation-activity.ts:215-216 | the sort gives a permutation in time order |
| ActivityOrder.SortIsStable | frontend/lib/conversation-activity.ts:204-217 | events of one time keep the order they were read in |
| ActivityOrder.StableOrderIsUnique | frontend/lib/conversation-activity.ts:204-217 | order and stability determine the result, so any stable sort gives it |
| ActivityTimeline.WithTailRead | frontend/lib/conversation-activity.ts:242-258 | the loops over the held events and the read compute the folded tail |
| ActivityTimeline.TailReadHolds | frontend/lib/conversation-activity.ts:242-258 | the folded tail is sorted with unique ids and holds exactly the ids held and read; of a poll with unique ids it holds each new copy unless the held one reads the same, and of any poll the copy read last where all copies of the event are without an empty `__proto__` |
| ActivityTimeline.LatestCopyIsHeld | frontend/lib/conversation-activity.ts:242-258 | every poll with unique ids leaves the copy read last of an event if and only if no copy is held or the held one has no empty `__proto__` |
| ActivityTimeline.ConfusedCopyStays | frontend/lib/conversation-activity.ts:249-252 | an example: a tail of one such event stays as it is when a poll reads the event differently |
| ActivityTimeline.NotCovered | frontend/lib/conversation-activity.ts:265-275 | a detail read leaves exactly the held events later than its newest one, in order |
| ActivityTimeline.MergedTimeline | frontend/lib/conversation-activity.ts:210-217 | the merged timeline is sorted, has every event of the detail read and exactly the tail's others, with unique ids |
| ActivityTimeline.MergedOrder | frontend/lib/conversation-activity.ts:204-217 | events of one time stand in the order they were read in, the detail read's before the tail's |
| ActivityTimeline.FoldReadKeepsPlaces | frontend/lib/conversation-activity.ts:246-257 | before sorting, a new copy takes the place of the old one and a new event goes last |
| ActivityTimeline.ReconcileSettles | frontend/lib/conversation-activity.ts:301-317 | reconciling records the reads seen, and reconciling twice with the same reads equals reconciling once |
| ActivityTimeline.ReconcileStep | frontend/lib/conversation-activity.ts:301-317 | after a render the tail holds an event if and only if the poll brings it, or it was held and this render does not let go of it |
| ActivityTimeline.TailStaysOk | frontend/lib/conversation-activity.ts:278-317 | in every run the tail stays sorted with unique ids |
| ActivityTimeline.BroughtEventStays | frontend/lib/conversation-activity.ts:278-317 | in every run an event a poll brought stays in the merged timeline until a detail read covers it, the poll becomes undefined, or the conversation changes |
| ActivityPlacement.PlaceActivity | frontend/lib/conversation-activity.ts:137-159 | each event goes, in time order, before the first message written after it, or last, or is left out while older messages are not loaded |
| ActivityPlacement.EventsRenderOnceInOrder | frontend/lib/conversation-activity.ts:132-159 | the thread renders every event exactly once, in time order, except those left out |
| ActivityPlacement.LeftOutReads | frontend/lib/conversation-activity.ts:144-150 | left out is exactly what is older than the first loaded message while older messages are not loaded |
| ActivityPlacement.ThreadIsSorted | frontend/lib/conversation-activity.ts:132-159 | when the messages are in time order, so is the thread of messages and events |
| ActivityPlacement.ThreadDayBreaks | frontend/lib/conversation-activity.ts:173-202 | an item is marked exactly when it has a day, the item just above it in the rendered thread has one, and they differ |
| WorkerPool.EveryRun | backend/scripts/plannerSchemaAb.ts:309-320 | in every run each task before the counter is claimed exactly once, by one worker or as a stored result, and at most min(concurrency, tasks) are in flight |
| WorkerPool.WorkersStayBusy | backend/scripts/plannerSchemaAb.ts:312-318 | as many workers start as are allowed, and all are busy while a task is unclaimed |
| WorkerPool.RunsComplete | backend/scripts/plannerSchemaAb.ts:309-320 | with a worker, a run is over after exactly as many resumptions as tasks, some worker can resume until then, and every result is in its task's place |
| WorkerPool.NoWorkersNoResults | backend/scripts/plannerSchemaAb.ts:318-319 | a concurrency below one ends at once with no result |
| WorkerPool.RunningPool.Run | backend/scripts/plannerSchemaAb.ts:309-320 | the pool on a shared counter and a shared array, under any choice of which task settles next, fills the array with each task's own result |
| ArmInterleaving.Interleave | backend/scripts/plannerSchemaAb.ts:405-411 | the nested loops give the transposed task list |
| ArmInterleaving.InterleavingIsPermutation | backend/scripts/plannerSchemaAb.ts:405-411 | it is a permutation of the task list |
| ArmInterleaving.EachRoundHasEveryArm | backend/scripts/plannerSchemaAb.ts:405-411 | each aligned block of one task per arm has every arm, in order |
| ArmInterleaving.RoundTakesNextTasks | backend/scripts/plannerSchemaAb.ts:409-411 | each round takes the next task of every arm |
| ArmInterleaving.CountOfArmIs | backend/scripts/plannerSchemaAb.ts:405-411 | the number of an arm's tasks in every prefix |
| ArmInterleaving.ArmsStayBalanced | backend/scripts/plannerSchemaAb.ts:405-411 | in every prefix the arms' counts differ by at most one |
| CrawlOverlay.DeriveSourceCrawlState | frontend/lib/document-sources-query-state.ts:54-80 | the loops give exactly the sources presented as active and as paused |
| CrawlOverlay.ActiveAndPausedAreDisjoint | frontend/lib/document-sources-query-state.ts:54-80 | no source is both |
| CrawlOverlay.ReconcileSourceCrawlOverlay | frontend/lib/document-sources-query-state.ts:89-120 | the loop drops exactly the entries the snapshot reflects |
| CrawlOverlay.DropsExactly | frontend/lib/document-sources-query-state.ts:85-120 | exactly which entries are dropped: a recrawl once its job is listed, a pause once the source is shown paused, a resume once it is not, by a request that began strictly after the action |
| CrawlOverlay.ActiveForTenMinutes | frontend/lib/document-sources-query-state.ts:59-66 | a queued job is active, a processing one for ten minutes after its update, no other |
| CrawlOverlay.ReconcilingIsIdempotent | frontend/lib/document-sources-query-state.ts:89-120 | reconciling again at the same time changes nothing |
| CrawlOverlay.ReconcilingPresents | frontend/lib/document-sources-query-state.ts:84-120 | only sources with a dropped entry change, a dropped pause changes nothing, a dropped resume is not shown as paused, and entries are dropped only by requests that began strictly after the action completed |
| CrawlOverlay.DroppingIsUnseen | frontend/lib/document-sources-query-state.ts:84-120 | dropping an entry leaves the source's presentation as it was if and only if the entry is a pause or the server has the source active |
| CrawlOverlay.DroppedRecrawlCanPause | frontend/lib/document-sources-query-state.ts:103-106 | a dropped recrawl can turn a source from active to paused |
| CrawlOverlay.DroppedResumeCanBeIdle | frontend/lib/document-sources-query-state.ts:111-113 | a dropped resume can turn a source from active to neither |
| CrawlOverlay.ActionOutlivesEarlierRequests | frontend/lib/document-sources-query-state.ts:84-143 | over any run of actions and polls, an action is presented until a poll requested after it |
| CrawlOverlay.ActionsReplace | frontend/lib/document-sources-query-state.ts:122-143 | an accepted action replaces its source's entry, a withdrawn one removes it, and no other changes |
| EntityRegistry.OnRegisterIsOk | frontend/lib/copilot-context.tsx:78-145 | registering keeps the bounds and lists the entity registered |
| EntityRegistry.OnUnregisterIsOk | frontend/lib/copilot-context.tsx:102-159 | after unregistering, the key is listed and has live registrations if and only if it had more than one |
| EntityRegistry.FocusAfterRegistering | frontend/lib/copilot-context.tsx:92-94 | after a registration an entry is focused exactly when it was and fewer than three before it are |
| EntityRegistry.ListedWithoutFocus | frontend/lib/copilot-context.tsx:94-99 | of the entries without focus the list keeps the latest, as many as fit |
| EntityRegistry.RegisteredOrder | frontend/lib/copilot-context.tsx:95-99 | the focused entries come first, and otherwise the order of registration is kept |
| EntityRegistry.NormalizedReads | frontend/lib/copilot-context.tsx:84-89 | an entity is listed under its trimmed name, cut at 120 characters, or its id where that is blank |
| EntityRegistry.RegistrationsStack | frontend/lib/copilot-context.tsx:139-159 | a registration goes on top of its key's others, and withdrawing the key undoes it |
| EntityRegistry.WithdrawalTakesTop | frontend/lib/copilot-context.tsx:147-157 | withdrawing takes the key's latest registration off and no other |
| EntityRegistry.EveryRunIsOk | frontend/lib/copilot-context.tsx:78-159 | in every run keys are unique, at most 30 entities and 3 focused ones are listed, and each shows the latest live registration of its key |
| EntityRegistry.ListsEveryLiveKey | frontend/lib/copilot-context.tsx:78-159 | while at most 30 keys were ever live at once, the list has exactly the live keys |
| EntityRegistry.Provider.RegisterEntity | frontend/lib/copilot-context.tsx:139-145 | the mutable stacks and the list follow the registry's function |
| EntityRegistry.Provider.UnregisterEntity | frontend/lib/copilot-context.tsx:147-159 | likewise for the last registration of a key being withdrawn |
| CrawlJobs.MergeCrawlJobs | frontend/lib/crawl-jobs.ts:192-231 | the merge with its loop gives the jobs, completions in order, statuses and deletions to forget |
| CrawlJobs.MergeFacts | frontend/lib/crawl-jobs.ts:192-231 | exactly which jobs are listed, which are reported completed and which deletions are forgotten; unique ids stay unique |
| CrawlJobs.MergeOrder | frontend/lib/crawl-jobs.ts:206-226 | the payload's jobs come first in its order, then the current list's others in theirs |
| CrawlJobs.CompletedInOrder | frontend/lib/crawl-jobs.ts:210-216 | completions are reported in the payload's order |
| CrawlJobs.StartedIsListed | frontend/components/dashboard/documents-view.tsx:681-686 | a job that starts is listed first unless listed already |
| CrawlJobs.DeletedIsRemembered | frontend/components/dashboard/documents-view.tsx:731-742 | deleting takes the job alone off the list and remembers it |
| CrawlJobs.DeletedUntilConfirmed | frontend/lib/crawl-jobs.ts:203-231 | in every run after a deletion the job stays away while every poll still reports it |
| CrawlJobs.DeletedJobsStayAway | frontend/lib/crawl-jobs.ts:203-231 | over any run of polls, starts and deletions, ids are unique and no recently deleted job is listed |
| CrawlJobs.CompletedAgainOnlyAfterSeenOtherwise | frontend/lib/crawl-jobs.ts:210-229 | over any run, a job is reported completed again only after a poll in between saw it with another status |
| CrawlJobs.ReportedExactlyWhenSeenToComplete | frontend/lib/crawl-jobs.ts:209-229 | over any run from an empty list, a poll reports a job completed if and only if it sees it completed and the last poll before saw it otherwise, with no deletion of it in between |
| CrawlJobs.CompletionCanGoUnreported | frontend/lib/crawl-jobs.ts:210-216 | a run in which a completion is never reported |
| Contrast.ParseOfWritten | frontend/lib/color.ts:20-36 | parsing written channels gives them back, rounded and clamped |
| Contrast.ParseReads | frontend/lib/color.ts:5-30 | six hex digits of either case, or three doubled, after an optional number sign and within white space, and nothing else, read as the colour they say |
| Contrast.ChannelIsNearest | frontend/lib/color.ts:32-36 | a channel is written as the nearest whole number in its range, halves going up |
| Contrast.MixStaysBetween | frontend/lib/color.ts:38-50 | a mix lies between its colours channel by channel, reaches them at the ends, and is symmetric |
| Contrast.MixIsNearest | frontend/lib/color.ts:38-50 | each channel of a mix is the whole number nearest to the weighted mean, with the weight kept between 0 and 1 |
| Contrast.MixOfNoColor | frontend/lib/color.ts:38-43 | a text that is no colour is not mixed |
| Contrast.ChannelReads | frontend/lib/color.ts:65-68 | a channel's light is proportional up to 10, and above that the power 2.4 of its shifted share |
| Contrast.PrimaryLuminance | frontend/lib/color.ts:70-78 | full red, green and blue have their weights as luminance, black and what is no colour none |
| Contrast.BlackOnWhite | frontend/lib/color.ts:80-86 | black on white has the ratio 21 |
| Contrast.PowerAtMostSquare | frontend/lib/color.ts:65-68 | up to one the power 2.4 is at most the square |
| Contrast.ContrastRatioBounds | frontend/lib/color.ts:80-86 | the ratio of any two texts is symmetric and between 1 and 21 |
| Contrast.DarkLuminance | frontend/lib/color.ts:70-93 | the luminance of the dark default is at most 0.0192 |
| Contrast.PickedForegroundIsLegible | frontend/lib/color.ts:88-95 | the picked colour contrasts at least as well as either choice, the dark one only if it is strictly better, and the defaults give above 3.89 on every background |
| Contrast.EnsuredForegroundIsLegible | frontend/lib/anonymous-chat-context.tsx:21-23 | the legibility fallback keeps a legible foreground, and its contrast is always at least 3 |

## Left out

- The table of event kinds and query families (`matchesWorkspaceInvalidation`): a finite table; an invalidation carries the set of queries it matches.
- React, the DOM and React Query: state updates are atomic steps, and the cache is the environment described above; a query other than the one called for does not change its status or observers during a call.
- QueryInvalidationRuns.NoLostInvalidation: a refetch is the call to the cache; whether the network answers it is not part of this model, nor is a rejected promise, which is treated as settled.
- Byte decoding and JSON text: readers start from characters, and payloads come from a decoder that is a parameter; fields passed on as they are stand together as `details`.
- Json.SameJsonIsEquality: `Object.prototype` is as the language gives it, with `__proto__` the only inherited name that reads an object.
- Line ends of a single carriage return, which the WHATWG HTML Standard (section 9.2) allows and neither reader looks for.
- UTF-16: strings are sequences of characters, and white space for trimming is a list of code points.
- ChatReader.Reader.Stream: after a payload that does not decode the source throws; the model goes on reading with a failed state that no later event changes.
- Identity of arrays and objects that React compares: a read carries a number for it, and results that come back as the same object come back as equal values.
- Order of object keys and of map entries, where nothing depends on it.
- Dates: stamps are instants or text that is no date, so two spellings of one instant are one stamp.
- TestExecutionRuns.TranscriptGrows: a new turn's messages have ids no message of their side has, for the reason of the next line.
- TestExecutionRuns.TranscriptFrame: message ids are unique, and a retry gives its reply an id no other message of the side has; the source builds ids from turn and attempt ids that it takes to be fresh.
- TestExecutionOutcomes.TurnOutcome: the new reply's id is fresh, for the same reason.
- TestExecutionOutcomes.RetryOutcome: likewise for the restarted reply.
- TestExecutionConfluence.Confluence: a running side's stream has one terminal event, its last, as the server sends it.
- TestExecutionHydration.HydratedTurnResumes: side ids are distinct, as the server gives them.
- TestExecutionReopened.InitialStateReads: side ids are distinct, likewise.
- WorkerPool.EveryRun: a task that rejects is not modelled; the source then rejects the whole pool. Concurrency is an integer.
- ArmInterleaving.Interleave: the list is whole blocks of tasks, as its caller builds it; sample counts are natural numbers.
- EntityRegistry.EveryRunIsOk: entity types are a closed list of names without a colon, so a key is the pair of type and id.
- `sourceCrawlInterval`, the crawl query's fetching, and the resume and failure summaries of crawl jobs: single expressions or wording.
- CrawlJobs.DeletedJobsStayAway: each poll's payload lists an id once, and a job that starts has an id that was not deleted before.
- Contrast.PickedForegroundIsLegible: arithmetic is over the reals, without floating point rounding; that a function with the stated law of the power 2.4 exists is assumed of the reals.
- `mixHexRgba` and `isLightHex`: the same arithmetic, formatted or compared.
- Conversation list, label and wording helpers, HTTP clients, browser storage, seeding and command lines.
