# Verified model of the AI server's delivery protocol and retry pipeline

This project models, in Dafny, the parts of the AI server whose correctness spans many steps, threads or rounds, and
proves what they promise. `dafny verify dfyconfig.toml` checks all of it.

**Session to callback delivery.** A session moves through a transition table (`Sessions`, `SessionTraces`), is kept in a
store with a partial mirror in an archive (`SessionStore`), and every accepted change becomes an event. `EventBuilder`
turns events into numbered callbacks. `Outbox` is the sending side as a step relation: lanes, the ready queue, any number
of workers with their program counters, `closed` and `stopping`, and logs of what was given, accepted, sent and recorded.
Send results, waiting and the order of all steps are arbitrary. `OutboxInvariant` is the inductive invariant,
`OutboxTheorems` what follows from it, `CallbackOutbox` the object with its queue, lanes and flags, whose methods are
proved to perform the steps. `SessionHistory` says what a session carries of the changes that reached it,
`CallbackContents` what the callbacks say of the events, `CallbackNumbers` when they are numbered without gaps.
`Delivery` joins builder, lock and outbox; `SessionCallbacks` joins traces and builder.

**Retry pipeline.** `Json` is the text `json.dumps` prints, with a proof that it determines the value; `Canonical` is the
canonical form; `EarlyStop`, `SnapshotTheorems` and `SnapshotAgreement` are the no-progress test; `ToolExecutor` and `RetryMerging` the
execution and merging of tool results over any number of rounds; `Pipeline` and `PipelineTheorems` the bounded loop for
arbitrary stages. `Questions` and `Interview` are the questions to the seller, the answers written into the product and
what is asked again in later runs.

**Self-contained algorithms.** `Embedding` (matching lines from the back), `ImageSplit` (overlapping tiles and their
budget), `AnnexScore` (pairing rows), `Cache` (database first, client second).

Assumptions at the boundary: a run id is fresh, belongs to one product and has one run type; `close` of the outbox is
called once; the monotonic clock starts at zero or later and does not run backwards; the sha256 request key keeps requests apart, and a stored row
belongs to the fetcher that reads it; every answered question round carries at least one answer, which the request schema
demands. The image width is at least one pixel.

## What the code does not promise

Some properties one would expect hold only under a condition. The code is modelled as it is; an input on which the
property fails and the exact condition under which it holds are proved.

- *Gapless numbering.* `EventBuilder` takes the next number before the callback is validated. A refused callback (a
  question round above 2, no questions, a blank or overlong error code, an empty diagnosis id) raises after its number
  is gone. For any events in any order the callbacks of a run are numbered 1 to n exactly when no event of the run whose
  callback is refused comes before one that gives a callback (`CallbackNumbers.GaplessExactly`). A failure without an
  error code, handed over before the start of a stage, leaves a gap (`SessionCallbacks.GapAfterRefusal`). In the order of
  the store there is never a gap (`SessionCallbacks.StoreOrderIsGapless`): only the ending callback can be refused.
- *No suppression.* The store's order of events never makes the builder suppress one
  (`SessionCallbacks.TracesAreNeverSuppressed`). But listeners run after the store lock is released
  (ai/app/sessions/manager/updater.py:78-82), so events can be handed over in another order. For any order an event is
  suppressed exactly when an event handed over before it ended its run with an accepted callback
  (`SessionCallbacks.SuppressedExactly`); a run of the store and an order of its events in which the start of a stage is
  lost is `SessionCallbacks.ReorderedEventIsSuppressed`.
- *A challenged finding stays away.* A tool may report its failure as a result that lists findings instead of raising. If
  then no unchallenged finding is left, that result is taken as it is, and a challenged finding comes back
  (`RetryMerging.ChallengedFindingReturns`, by one request to the executor). One round shows nothing new exactly when an
  unchallenged finding is left or the failed result lists none (`RetryMerging.NothingReappears`); either condition is
  enough over any number of rounds (`RetryMerging.FailuresKeepExactly`).
- *Answered questions stay answered.* A question that contains an arrow between blanks (` → `), counting one blank before
  and one after it, does not parse back from its answer line (`Interview.LineParsesBack`). A conversation in which an
  answered question is asked anew exists exactly for these questions (`Interview.ComesBackExactly`; "a → b" is
  `Interview.ArrowExample`), and what a run asks on its own is `Interview.AskedAnewExactly`. The job asks anew in the
  third run at the earliest; with two question rounds allowed the runner then ends that session at the question limit.
- *A request for no tool.* A verification that asks for tools but names none makes the run raise if a retry is due
  (`Pipeline.Run`); requests that repeat a tool are never judged to lack progress (`PipelineTheorems.NoProgressExactly`).
- *Negative retry limits.* `CallbackOutbox` accepts a negative `max_retries`, with which sending an event raises
  (`CallbackOutboxes.Deliver` returns no record).

## Model

| member | source | states |
|---|---|---|
| `OutboxInvariant.EveryRun` | ai/app/callbacks/outbox.py:89-184 | every state that any number of workers, any callers of put and close can reach, in any interleaving, satisfies the invariant (tokens, ledger, wire, shape, stopping) |
| `OutboxTheorems.OneTokenOrOneOwner` | ai/app/callbacks/outbox.py:95-105 | a product has a lane key exactly when it has one token in the ready queue or one owning worker, never both and never two |
| `OutboxTheorems.OneSenderPerProduct` | ai/app/callbacks/outbox.py:142-156 | two workers never send for the same product |
| `OutboxTheorems.EveryEventIsInOnePlace` | ai/app/callbacks/outbox.py:95-156 | every event ever given to put is in exactly one place: recorded by a worker, in flight, in the lane, recorded by close, recorded by a late put; per product in the order given |
| `OutboxTheorems.SendsFollowAcceptance` | ai/app/callbacks/outbox.py:158-184 | events whose sending has begun are an in-order prefix of what was accepted; the sender's calls are these events, each once plus once per recorded retry, never more than the maximum |
| `OutboxTheorems.EmptyLanesMeanDone` | ai/app/callbacks/outbox.py:125-127 | when close sees no lanes, nothing is in flight and every accepted event has its record |
| `OutboxTheorems.CloseReturnsDropped` | ai/app/callbacks/outbox.py:130-140 | what close returns is the number of queued events it found, each recorded as dropped; zero if the lanes were empty |
| `OutboxTheorems.ShutdownProgress` | ai/app/callbacks/outbox.py:136-163 | once stopped, every step but a late put leaves strictly less work |
| `OutboxTheorems.ShutdownTerminates` | ai/app/callbacks/outbox.py:136-163 | so no run makes more such steps than the work left, whatever else happens |
| `OutboxTheorems.ShutdownComplete` | ai/app/callbacks/outbox.py:142-156 | when nothing more can happen, each worker has taken exactly one end token and exited, no lane key is left and every accepted event is recorded |
| `CallbackOutboxes.CallbackOutbox.Put` | ai/app/callbacks/outbox.py:89-105 | the object's put performs the put step on its queue and lanes |
| `CallbackOutboxes.CallbackOutbox.Pending` | ai/app/callbacks/outbox.py:107-114 | the number of queued events, without those in flight, in whatever order the lanes are counted |
| `CallbackOutboxes.QueuedAnyOrder` | ai/app/callbacks/outbox.py:113-114 | counting the queued events does not depend on the order of the lanes |
| `CallbackOutboxes.CallbackOutbox.TakeLane` | ai/app/callbacks/outbox.py:146-152 | takes the first event of a lane, or removes the key of an empty one |
| `CallbackOutboxes.CallbackOutbox.Stop` | ai/app/callbacks/outbox.py:129-135 | drops and records every queued event, keeps the keys, counts them |
| `CallbackOutboxes.EndTokensArePoisonSteps` | ai/app/callbacks/outbox.py:136-137 | putting k end tokens into the queue is k steps of close |
| `CallbackOutboxes.Deliver` | ai/app/callbacks/outbox.py:158-194 | every send but the last was a transport failure, a server error or the conflict that asks to send again; the record is a delivery exactly after a 2xx answer, and each drop reason exactly after its kind of last answer; as many sends as retries plus one |
| `CallbackOutboxes.DeliverIsWorkerSteps` | ai/app/callbacks/outbox.py:158-184 | the retry loop is what a worker's steps do: same record, same sends |
| `SessionTraces.EveryRun` | ai/app/sessions/store.py:64-156 | in any run of additions, replacements and purges with stale or illegal changes, the events of each run stand exactly where the session's status says |
| `SessionTraces.OneStartOneEnd` | ai/app/sessions/transitions.py:185-219 | each run emits at most one Started and at most one ending event, which is its last |
| `SessionTraces.EveryStory` | ai/app/sessions/store.py:64-156 | in any run of the store the session of a product is the one last added for it after the changes that reached it since, and the events of the product since then are those these changes made |
| `SessionHistory.AcceptedExactly` | ai/app/sessions/transitions.py:103-183 | a change is accepted exactly when the status allows it, and questions exactly when there are some, their keys and orders are distinct and no key is of the round before; the two rejections are told apart |
| `SessionHistory.EverySession` | ai/app/sessions/transitions.py:185-219 | in any run of the store every field of a session is the one its last accepted change of that kind since it was added brought, answers and rounds adding up; its product's events since then are one for each accepted change, announce it and carry the session after it |
| `SessionHistory.LastChangeShows` | ai/app/sessions/transitions.py:185-219 | a waiting session shows the questions, result and reason of its last change, a completed one result and reason, a failed one code and retryable; a resumed one waits without stage, start and reason |
| `SessionTraces.EndedStays` | ai/app/sessions/transitions.py:106-115 | whatever else the store does, a completed or failed session stays and its product makes no event until a session is added for the product or it is purged |
| `SessionTraces.EveryContext` | ai/app/sessions/store.py:109-134 | in any run of the store the sessions and events of a run all carry the same context |
| `SessionStores.StoringKeepsMirrorExactly` | ai/app/sessions/store.py:158-175 | storing a session keeps the mirror exactly when it does not put changed content under an unchanged status of an unchanged run |
| `SessionStores.TransitionsMoveOnlyTheStage` | ai/app/sessions/transitions.py:185-216 | a transition never does that: with status and run unchanged only stage, stage start and update time move |
| `SessionStores.ArchiveMirrors` | ai/app/sessions/store.py:64-180 | after any run the archive holds exactly the sessions that have not ended, test runs left out, each equal to the live one up to stage and times, although same-state changes are not written |
| `SessionStores.SessionStore.Add` | ai/app/sessions/store.py:64-76 | the store and archive after adding sessions |
| `SessionStores.SessionStore.Replace` | ai/app/sessions/store.py:109-134 | the store and archive after a replacement, which is ignored for another run and leaves all as it was when refused |
| `SessionStores.SessionStore.Purge` | ai/app/sessions/store.py:136-156 | removes exactly the expired sessions and their archived copies and counts them |
| `SessionStores.SessionStore.ExpiredExactly` | ai/app/sessions/store.py:146-150 | ended sessions expire by the one retention time, waiting ones by the other, counted from the last update; others never |
| `EventBuilders.NumberedWithoutGaps` | ai/app/callbacks/events.py:170-178 | the numbers a run uses up are 1, 2, 3, … in order |
| `CallbackNumbers.GaplessExactly` | ai/app/callbacks/events.py:170-178 | for any events in any order the callbacks of a run are numbered 1 to n exactly when no event whose callback the schema refuses comes before one that gives a callback |
| `EventBuilders.LossExactlyWhenRefused` | ai/app/callbacks/events.py:93-121 | a number is lost exactly when the event asks for a callback that the schema refuses |
| `CallbackContents.EveryEventSays` | ai/app/callbacks/events.py:74-178 | for any events in any order, what an event adds to the log of its run as shown so far: a stage start completes the open stage, a tool shows in the open tool stage, a completion gives the presented result or the pipeline failure, questions and failures give what session and event carry, under the session's ids and the next numbers; refused bodies lose one number |
| `EventBuilders.RunGrammar` | ai/app/callbacks/events.py:87-178 | for any events in any order each run's callbacks obey the grammar: stages bracketed, tool callbacks only inside an open tool stage, a terminal callback last and only once, finished exactly when it was made |
| `EventBuilders.EveryStream` | ai/app/callbacks/events.py:93-121 | running and finished runs stay disjoint and the state of each run is what its callbacks show |
| `EventBuilders.EventBuilder.BuildCallbacks` | ai/app/callbacks/events.py:74-121 | the object builds the specified callbacks and moves to the specified state |
| `EventBuilders.EventBuilder.ShowStage` | ai/app/callbacks/events.py:147-157 | completes the open stage and starts the new one; internal and unchanged stages give nothing |
| `EventBuilders.EventBuilder.ShowTool` | ai/app/callbacks/events.py:136-145 | a tool's progress is shown only in the open tool stage |
| `EventBuilders.EventBuilder.Finish` | ai/app/callbacks/events.py:104-121 | the terminal callback; a refused one leaves the run open |
| `SessionCallbacks.FinishedMeansEnded` | ai/app/callbacks/events.py:94-95 | a run the builder has finished has emitted its ending event |
| `SessionCallbacks.TracesAreNeverSuppressed` | ai/app/callbacks/events.py:94-95 | events handed over in the order the store made them never belong to a run the builder has finished |
| `SessionCallbacks.FinishedExactly` | ai/app/callbacks/events.py:104-121 | for any events in any order the builder has finished a run exactly when one of its ending events gave an accepted callback |
| `SessionCallbacks.SuppressedExactly` | ai/app/callbacks/events.py:94-95 | an event gives nothing because its run is finished exactly when an event handed over before it closed the run |
| `SessionCallbacks.ReorderedEventIsSuppressed` | ai/app/sessions/manager/updater.py:78-82 | a run of the store and an order of its events in which the start of a stage is suppressed |
| `SessionCallbacks.StoreOrderIsGapless` | ai/app/callbacks/events.py:170-178 | whatever the sessions go through, events handed over in the order of the store give every run callbacks numbered 1 to n |
| `SessionCallbacks.GapAfterRefusal` | ai/app/callbacks/events.py:170-178 | a run of the store and an order of its events whose only callback is numbered 2 |
| `Delivery.BegunIsPrefix` | ai/app/callbacks/__init__.py:24-30 | the events of a run whose sending has begun are an in-order prefix of the callbacks built for it |
| `Delivery.SenderSeesRunInOrder` | ai/app/callbacks/__init__.py:24-30 | however session threads, workers and close interleave, the sender's calls for a run never go back in number, repeat only whole callbacks and stop at its terminal one |
| `Delivery.DeliveriesAreOrdered` | ai/app/callbacks/__init__.py:24-30 | the delivered callbacks of a run increase strictly in number; at most one is terminal, after all others |
| `Json.EncodeInjective` | ai/app/pipeline/early_stop.py:35-36 | the text of a JSON value with sorted keys determines the value |
| `Canonical.SortedUnique` | ai/app/pipeline/early_stop.py:30-32 | two lists of the same values sorted by text are the same list, duplicates counted |
| `Canonical.NormalExactly` | ai/app/pipeline/early_stop.py:24-33 | two values normalize alike exactly when they are equal up to list order |
| `Canonical.CanonicalExactly` | ai/app/pipeline/early_stop.py:20-38 | two values share the canonical text exactly when they are equal up to reordering lists at any depth, except lists directly under the key hs_code_candidates |
| `EarlyStop.Resolve` | ai/app/pipeline/early_stop.py:98-101 | the texts the ids stand for, or nothing if an id is unknown |
| `EarlyStop.TakeSnapshot` | ai/app/pipeline/early_stop.py:76-123 | the loops compute the snapshot: nothing for a repeated or unknown finding id, else the canonical text with ids replaced by content |
| `EarlyStop.HasNoProgress` | ai/app/pipeline/early_stop.py:126-165 | true exactly for two adjacent rounds that both asked for tools, executed exactly the requested tools normally and have equal snapshots |
| `SnapshotTheorems.SnapshotForgetsNames` | ai/app/pipeline/early_stop.py:76-123 | any one-to-one renaming of finding ids and any change of the excluded metadata leaves the snapshot as it was, comparable or not |
| `SnapshotTheorems.SnapshotsExactly` | ai/app/pipeline/early_stop.py:103-123 | two comparable states have equal snapshots exactly when their contents are equal up to list order |
| `SnapshotAgreement.ComparableExactly` | ai/app/pipeline/early_stop.py:76-106 | a state can be compared exactly when no two findings share an id and every id the verification mentions is that of a finding |
| `SnapshotAgreement.SnapshotsAgreeExactly` | ai/app/pipeline/early_stop.py:76-123 | two comparable states share their snapshot exactly when results, findings, issues, questions and checked findings correspond one-to-one and agree field by field up to list order |
| `SnapshotAgreement.UnimprovedExactly` | ai/app/pipeline/early_stop.py:126-165 | for any two states the test says yes exactly when both verdicts ask for tools, the executed tools are those the first one names, none twice, each has one result and a last entry of the same id and round that came to a judgement, earlier before and in this round now, and the states agree field by field |
| `ToolExecutor.ExecuteInitial` | ai/app/pipeline/tool_executor.py:72-94 | the first execution: one result a tool in order, the executed ones as history |
| `ToolExecutor.ExecuteAll` | ai/app/pipeline/tool_executor.py:162-189 | in whatever order the tools finish, the results stand in the order of the tools |
| `ToolExecutor.ExecuteRetry` | ai/app/pipeline/tool_executor.py:96-160 | refuses a request about other results; otherwise the requested tools run once each and the loops leave the specified decisions, results and history |
| `ToolExecutor.MergeRetries` | ai/app/pipeline/tool_executor.py:143-151 | the merge loop: history grows by what was executed, requested results are merged, the others stay |
| `RetryMerging.RoundKeepsSound` | ai/app/pipeline/tool_executor.py:142-160 | a round keeps one result a tool in order and leaves unrequested tools alone |
| `RetryMerging.ResultsAreMerged` | ai/app/pipeline/tool_executor.py:143-151 | over any number of rounds each result is the merge of the tool's own attempts |
| `RetryMerging.InitialState` | ai/app/pipeline/tool_executor.py:72-94 | the first execution runs each tool once in the order of ToolName and keeps the selected ones as history |
| `RetryMerging.HistoryGrows` | ai/app/pipeline/tool_executor.py:143-145 | over any rounds the history is the old one followed by the execution of every requested tool, round by round in the order of ToolName |
| `RetryMerging.DecisionsAfterRounds` | ai/app/pipeline/tool_executor.py:117-133 | a requested tool becomes selected with the reason of the last round that requested it; other decisions stay |
| `RetryMerging.LastSuccessReplaces` | ai/app/pipeline/tool_executor.py:262-263 | a tool whose last execution did not fail has that execution as its result |
| `RetryMerging.StreakStartsAgain` | ai/app/pipeline/tool_executor.py:282-284 | once a round leaves no unchallenged finding, the streak starts again from that round's failure |
| `RetryMerging.OnlyRemovedTwice` | ai/app/pipeline/tool_executor.py:280-293 | what only removed findings require adds up over rounds |
| `RetryMerging.FailuresKeepExactly` | ai/app/pipeline/tool_executor.py:254-313 | rounds in which a tool fails each time it runs, with any findings while one of the tool's findings is never challenged, and without findings otherwise, leave exactly the findings no round reported a critical tool failure or missing evidence against, in their order; exactly the actions go that a challenged finding requires and no finding left does; the last failure becomes Partial and keeps the earlier result, missing information, query and raw response; with nothing left the last failure is the result |
| `RetryMerging.ExecutionRecorded` | ai/app/pipeline/tool_executor.py:191-252 | an execution carries its round, reason, time and id; a tool not selected is skipped, one that raises or returns a result that is not its own fails with nothing but the error, any other result is the tool's own |
| `RetryMerging.NothingReappears` | ai/app/pipeline/tool_executor.py:278-284 | a failed round shows nothing new or challenged exactly when an unchallenged finding is left or the failed result lists none |
| `RetryMerging.ChallengedFindingReturns` | ai/app/pipeline/tool_executor.py:278-284 | a state and a retry request after which the executor shows a challenged finding again |
| `Pipeline.StateAt` | ai/app/pipeline/runner.py:189-231 | after k retries there is one result a tool in order, none of a round later than k |
| `Pipeline.RetryOnce` | ai/app/pipeline/runner.py:217-228 | the request is refused only when it names no tool; the executor never refuses |
| `Pipeline.Run` | ai/app/pipeline/runner.py:189-246 | the loop ends within the allowed retries, at the first round that stops it, with the assessment and reason of that round, or raises when a due retry names no tool |
| `PipelineTheorems.EndIsUnique` | ai/app/pipeline/runner.py:202-246 | the stages determine the number of retries and the outcome |
| `PipelineTheorems.ReasonMatchesStatus` | ai/app/pipeline/runner.py:103-144 | the assessment is that of the last round, with the verifier's questions; VERIFIED exactly when it approves, VERIFIED_WITH_WARNINGS exactly when it does so with warnings, COMPLETED exactly then, NO_PROGRESS exactly when the last retry made none; RETRY_LIMIT_EXCEEDED only after exactly the maximum |
| `PipelineTheorems.StateIsAfterRounds` | ai/app/pipeline/runner.py:216-231 | the laws of the executor over rounds hold of every run of the pipeline |
| `PipelineTheorems.RoundChecksNeverFail` | ai/app/pipeline/early_stop.py:153-161 | inside the pipeline the round checks of the no-progress test never decide it |
| `PipelineTheorems.EveryTool` | ai/app/pipeline/tool_executor.py:142-160 | after any number of retries the history of a tool ends with its last run, which is its result unless it failed |
| `PipelineTheorems.NoProgressExactly` | ai/app/pipeline/early_stop.py:126-165 | a retry made no progress exactly when both verdicts ask for tools, those asked for first are not repeated, each of them came to a judgement (own result, id, success or partial, no error, detail and findings) in its last run before and in this one, and the two states agree field by field up to list order |
| `Questions.KeysNeverRepeat` | ai/app/diagnosis/questions.py:11-21 | a question key determines its round and its place |
| `Questions.QuestionsOfRound` | ai/app/diagnosis/questions.py:24-47 | the questions of a round ask exactly the non-blank texts, each once, under distinct keys of that round |
| `Questions.LastIsKept` | ai/app/diagnosis/questions.py:35-36 | of questions with the same text the last one is kept |
| `Questions.HelpOfLast` | ai/app/diagnosis/questions.py:43-44 | the help of a question is the reason given with the last question of its text |
| `Text.StripExactly` | ai/app/diagnosis/questions.py:35-44 | stripping takes whitespace off both ends of a text, all of it and nothing else |
| `Questions.FirstAppearanceOrder` | ai/app/diagnosis/questions.py:35-36 | texts keep the order in which they first appear |
| `Questions.QuestionOrder` | ai/app/diagnosis/questions.py:35-47 | a question built from a required follow-up has only required ones before it, and two that are both required or both not stand in the order in which their texts first appear |
| `Interview.LineParsesBack` | ai/app/diagnosis/job.py:152-154 | an answer line gives its question back exactly when the question has no arrow between blanks |
| `Interview.AnswerFindsItsQuestion` | ai/app/diagnosis/answers.py:31-37 | rebuilding the questions from the report before finds the text each answer belongs to |
| `Interview.RoundsCount` | ai/app/diagnosis/job.py:181-183 | after n answered rounds the next question round is n + 1 |
| `Interview.AskMissingInformation` | ai/app/diagnosis/job.py:135-178 | the loops add exactly the specified questions and change the ending only if there are any |
| `Interview.WantedExactly` | ai/app/diagnosis/job.py:156-166 | each missing text that is neither blank nor known is added once, for exactly the tools that miss it |
| `Interview.WantedInOrder` | ai/app/diagnosis/job.py:155-165 | the added texts stand in the order in which they are first missed, the tools of each in the order in which they first miss it |
| `Interview.AskingEnds` | ai/app/diagnosis/job.py:166-178 | adding a question ends the run waiting for the seller; each added question is required and names exactly the tools that miss its text |
| `Interview.AskingNothing` | ai/app/diagnosis/job.py:167-168 | a report that gets no question stays as it is |
| `Interview.AddsExactly` | ai/app/diagnosis/job.py:150-178 | the added questions ask exactly the missing texts that are not blank, that the verifier does not ask, and that the run before neither asked nor gives back from an answer line |
| `Interview.LineStays` | ai/app/diagnosis/answers.py:27-38 | the line of an answer is in the product of every later run |
| `Interview.AnswersAreWritten` | ai/app/diagnosis/answers.py:27-38 | every later run adds to the product exactly one line for each reply to the run before, in order, with the text of the question replied to |
| `Interview.AskedAnewExactly` | ai/app/diagnosis/job.py:135-178 | over any number of runs, a run asks a text on its own exactly when a tool misses it, the verifier does not ask it, and the report of the run before neither asked it nor has an answer line that gives it back |
| `Interview.NeverAskedAgain` | ai/app/diagnosis/job.py:135-178 | over any number of runs, a question an earlier run asked and the seller answered is never added again unless it has an arrow; the questions of the run just before never are |
| `Interview.ComesBackExactly` | ai/app/diagnosis/job.py:152-154 | some conversation asks an answered question anew exactly when the question has an arrow between blanks |
| `Interview.ArrowExample` | ai/app/diagnosis/job.py:152-154 | "a → b" is answered in the first run and asked anew in the third |
| `Embedding.FoundExactly` | ai/scripts/make_seller_region_skeletons.py:74-79 | the backward match exists exactly when the kept lines are a subsequence, and lies to the right of every other embedding |
| `Embedding.MatchFromBack` | ai/scripts/make_seller_region_skeletons.py:74-79 | the loop over the flags finds that match |
| `Embedding.UnknownBoundaries` | ai/scripts/make_seller_region_skeletons.py:64-88 | the reported problems are those of the rightmost match |
| `Embedding.ReportExactly` | ai/scripts/make_seller_region_skeletons.py:80-88 | "not found in order" exactly when no embedding exists; nothing exactly when every boundary of the rightmost one has a marker |
| `Embedding.LinesReported` | ai/scripts/make_seller_region_skeletons.py:82-87 | the reported lines are the first twenty characters of the lines behind the boundaries without a marker |
| `ImageSplit.SplitTallImage` | ai/app/pipeline/image_split.py:32-57 | tiles exactly for images taller than one and a half times their width |
| `ImageSplit.TilesCover` | ai/app/pipeline/image_split.py:49-55 | tile tops rise strictly, tiles lie in the image, no row is missed, and every band at most one row taller than the overlap lies whole in a tile |
| `ImageSplit.TilesAt` | ai/app/pipeline/image_split.py:49-51 | the tops are the multiples of the step, the whole number nearest to four fifths of the width, as many as are needed, and the one that touches the bottom |
| `ImageSplit.Prepare` | ai/app/pipeline/image_split.py:95-110 | what is sent, in the order of the images |
| `ImageSplit.BudgetHolds` | ai/app/pipeline/image_split.py:97-106 | never more tiles than allowed, and an image is left whole for the limit only if its tiles would exceed it |
| `ImageSplit.ImageResults` | ai/app/diagnosis/tracing.py:112-133 | the second computation classifies every image as prepare treated it |
| `ImageSplit.ReportMatches` | ai/app/diagnosis/tracing.py:98-101 | the images counted as sent are those prepared |
| `AnnexScore.ScoreRows` | ai/app/eval/annex_scoring.py:92-105 | the loop computes the pairing and the errors of its pairs |
| `AnnexScore.PairsInOrder` | ai/app/eval/annex_scoring.py:94-99 | for every key, rows are paired in source order and none is left over on both sides |
| `AnnexScore.PairingIsLargest` | ai/app/eval/annex_scoring.py:94-105 | matched rows are the sum over keys of the smaller count, which no pairing exceeds; matched and missing make up the expected rows, matched and extra the actual ones |
| `Cache.CachedFetcher.FetchParsed` | ai/app/db/fetchers.py:133-171 | the object performs the specified lookup on its rows and skip time |
| `Cache.CachedFetcher.RefreshParsed` | ai/app/db/fetchers.py:269-287 | the refresh stores only an accepted answer |
| `Cache.ResponsesAreGiven` | ai/app/db/fetchers.py:133-171 | over any run a response returned for a request is one the client gave for it, and on-demand data is younger than its keeping time |
| `Cache.RowsAreGiven` | ai/app/db/fetchers.py:226-239 | every stored row holds a client's answer to its request with the right expiry |
| `Cache.AnswerIsReused` | ai/app/db/fetchers.py:145-171 | a stored answer is returned again until its keeping time is over, whatever the client would say and whatever happened to other requests |
| `Cache.SkipIntervalHolds` | ai/app/db/fetchers.py:61-76 | no use of the database within the retry interval after a failure, in any run |
| `Cache.RowsExactly` | ai/app/db/fetchers.py:226-239 | in any run the row of a request is the one stored last for it: a needed and accepted answer, written while the database may be used |
| `Cache.UsedExactly` | ai/app/db/fetchers.py:61-76 | in any run the database is used exactly when there is one and every failure is at least the retry interval ago |
| `Cache.FetchExactly` | ai/app/db/fetchers.py:133-171 | after any run a fetch gives the row it reads while that has not expired, else the client's answer, unless scheduled data does not accept it and a row was read; when the client fails scheduled data falls back on the row, and without one the fetch fails |

## Left out

- Sessions manager, HTTP clients, routers, model calls, logging and measurements: input and output around the modelled
  parts; the manager appears only as the environment that calls the store and hands events to the builder.
- Event ids, uuids, digests and image bytes are opaque. Thread joins with their timeouts and the delay before a retry are
  not modelled: a wait may end at any time.
- Listener errors and archive failures, which the program logs and ignores.
- Protection by deep copies against components that change their inputs: results are values here.
- Exceptions raised by the extraction, selection, aggregation and verification stages; they pass through the pipeline.
- Limits on text length in the schemas, except for the error code of a failure callback, and unpaired surrogates in text.
- Numbers in JSON are held as the text printed for them, so `1` and `1.0` count as different, as they do in the source's
  comparison of texts.
- `Outbox` and `Delivery` model threads as interleaved atomic steps on values; the object `CallbackOutbox` shows the same
  steps as updates in place.
- The question-round limit of the session runner and the labels of results that reach it.
- Splitting of the raw page into lines, and the marker lists, in `Embedding`: lines and the marker test are inputs.
- Several fetchers that share one database or one skip state, purging of expired responses, and the counting of hits and
  misses, in `Cache`.
