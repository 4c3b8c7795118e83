# Lightspeed: a model of its projections, waits, pages, ids and locks

A Dafny 4.11 model of the parts of Lightspeed where the answer to a client depends on a whole history:
an event log other parties append to, runs that move between buckets while they are paged through, ids
that must never meet, objects that two containers share. `dafny verify dfyconfig.toml` checks it all.

| file | what it models |
|---|---|
| `RunLog`, `ToolStatus`, `ToolResults`, `ResultViews`, `ToolBatches`, `RunProjection`, `CallViews`, `Approvals` | the projection of one run from the interleaved event log: entries, tool results with media, tool batches, approvals |
| `RunPaging`, `RunStatuses`, `RunWalk` | the reducer's run buckets with pruning, the pages over them, and a walk of the pages while the session goes on |
| `RetryTransient`, `AwaitRun`, `AwaitOutcomes` | the TypeScript client's wait for a run against a log that grows between any two requests |
| `JsText`, `Framing`, `WorkflowIds`, `Identity`, `IdForms` | UTF-16 strings, length-prefixed hash preimages, workflow ids and the two session id checks |
| `RunTimeline`, `TimelineItems` | the merge of entries and calls through objects shared by a list and a map |
| `GrantLocks`, `GrantRelease` | the table of per-grant locks, as a machine over all schedules and as shared objects |
| `SchemaRefs`, `SchemaTree` | the rewrite of schema references, on values and in place |
| `Utf8`, `ApiIds`, `Sequences`, `Wrappers` | UTF-8 (section 3 of RFC 3629) with truncation, printed ids, first places in sequences, option and result |

Where the source changes state step by step, a method does the same and is proved equal to a function that
says what the result is; the main results are about that function, for every input and every run.

What the blob store holds is a total function from reference to text. What the server says of sessions and
runs, what others append, when attempts fail and in which order tasks run are parameters that every theorem
ranges over. An events page is always a block of the log next after the cursor, as the page contract has it.

## What does not hold as one might read it

Each of these is a lemma with a concrete input, next to one that says exactly when the property holds.

- `session/read` reads no pruned runs back, so a session can have pruned its newest run while older ones are
  still held, and the newest-first page leaves it out (`SessionReadMissesNewest`, `SessionReadWholeExactlyWhen`).
- `onEvent` is documented as called for the run's own events. A run that ends between an empty page and the
  read of its state is returned without its last events having been seen (`LateEndIsNotSeen`,
  `SeesTerminalExactlyWhen`); the returned cursor still leads to them.
- A second tool result for a call leaves the call's media on neither (`RepeatedResultLosesMedia`,
  `RepeatedResultHappens`, `MediaConserved`).
- `TextEncoder` puts one replacement character for every lone surrogate, so strings that differ in those only
  share an emission id (`LoneSurrogatesCollide`, `EmissionIdsAgreeExactlyWhen`).
- A rewritten reference that led to another reference leads to that one's new form, not to its old one
  (`ReferenceToReferenceMoves`, `ReferencesKeepMeaning`).

## Model

| member | source | states |
|---|---|---|
| `ToolBatches.ProjectToolBatches` | crates/api-projection/src/lib.rs:1295-1460 | The replay that looks batches and calls up by printed id and changes them in place, and the finalisation pass, compute `RunBatches`, which is defined with no replay: a call shows the last completion and start that come after its batch |
| `ToolBatches.ReplayLog` | crates/api-projection/src/lib.rs:1305-1431 | The replay alone, entry by entry over the vector, leaves the declarative batches of the log |
| `ToolBatches.OpenBatchesReplay` | crates/api-projection/src/lib.rs:1308-1431 | One more log entry changes the declarative batches exactly as one turn of the replay loop changes its vector, so batch lookup by printed id never reaches another batch |
| `ToolBatches.StartCall` | crates/api-projection/src/lib.rs:1371-1393 | A started call is the first with its id in the first batch with its id; it becomes running only if it was requested, and no other call changes |
| `ToolBatches.CompleteCall` | crates/api-projection/src/lib.rs:1394-1421 | A completion settles exactly the addressed call, whatever its status was, with status, error flag, times and sizes of the result |
| `ToolBatches.FinishBatch` | crates/api-projection/src/lib.rs:1433-1457 | The last pass over one batch: a completed batch leaves no live call, an open batch of an ended run cancels the calls without a completion, and the batch status is that of the calls |
| `ToolBatches.ToolEffectsForRun` | crates/api-projection/src/lib.rs:2776-2798 | The loop over completions: a call has effects exactly when some completion of it has any, and they are those of the last that has, without the workflow tool's own |
| `ToolBatches.EffectsAreLast` | crates/api-projection/src/lib.rs:2776-2798 | The same of the declarative map, which the projection is about |
| `ToolBatches.AttachmentsAreLast` | crates/api-projection/src/lib.rs:2800-2847 | And of attachments: a call has those of its last completion with any that the API shows |
| `ToolBatches.CallsAfterOne` | crates/api-projection/src/lib.rs:1371-1421 | An event that addresses a batch changes the first call with its id and leaves every other call of that batch |
| `RunProjection.ShownStatus` | crates/api-projection/src/lib.rs:1301-1457 | For every log the reducer can commit, the status shown for each call is: its last later completion, else its result in context, else unavailable without a tool, else running if started, else requested; then the rules for a completed batch and an ended run |
| `CallViews.CompletedCallShows` | crates/api-projection/src/lib.rs:1394-1421 | Whatever the log: a call whose last completion succeeded, failed or was cancelled is shown so, each if and only if; it is an error exactly when it is not shown as succeeded; and it has that completion's times, output size and truncation |
| `CallViews.AnsweredCallShows` | crates/api-projection/src/lib.rs:1318-1357 | A call with no completion but a result in context is shown failed exactly when the last result is an error, else succeeded, and cancelled with an error if the run ended with its batch open |
| `CallViews.UnansweredCallShows` | crates/api-projection/src/lib.rs:1337-1457 | A call with neither is cancelled with an error if the run ended over it, unavailable if its batch completed or it names no tool, running if it was started, else requested; otherwise it is no error |
| `CallViews.StartShows` | crates/api-projection/src/lib.rs:1371-1388 | The start time is that of the last start the call hears, and none if it hears none |
| `CallViews.CallShowsRequest` | crates/api-projection/src/lib.rs:1322-1361 | Ids, tool, arguments cut to 4096 bytes, and output, output reference and media of the call's last result, or none |
| `CallViews.EffectsShow` | crates/api-projection/src/lib.rs:2776-2798 | The effects shown are those of the last completion with any, in their order, without exactly those of the workflow tool's kind |
| `CallViews.AttachmentsShow` | crates/api-projection/src/lib.rs:2800-2847 | The attachments shown are exactly the files of the last completion with a file, in their order |
| `CallViews.BatchShows` | crates/api-projection/src/lib.rs:1363-1457 | Printed number, turn and a status that says by cases how the calls stand: running, failed, cancelled, succeeded, or unavailable for no calls |
| `CallViews.BatchesAreStarts` | crates/api-projection/src/lib.rs:1313-1370 | There are as many batches as starts of the run in the log, in their order |
| `CallViews.AllSucceeded` | crates/api-projection/src/lib.rs:1433-1457 | A batch all of whose calls last completed with success has succeeded, whether or not the run ended |
| `RunProjection.CallStatusIsOutcome` | crates/api-projection/src/lib.rs:1313-1421 | Before finalisation a call's status is that order of precedence, read off the events after its batch started |
| `RunProjection.BatchAt` | crates/api-projection/src/lib.rs:1313-1370 | Where the batch started at a log position stands in the projection, and that its calls depend only on the log after that position |
| `RunProjection.RunsDoNotInterfere` | crates/api-projection/src/lib.rs:1295-1457 | The entries and tool batches of a run are the same on the full log and on the log without every event and entry of other runs, effects, attachments and media included |
| `RunProjection.OnlyRunIsOwn` | crates/api-projection/src/lib.rs:1898-1909 | The log that is compared with holds exactly the run's own tool and approval events, and entries that come from the run only |
| `RunProjection.ProgressNeverFalls` | crates/api-projection/src/lib.rs:1301-1517 | Whatever is appended, and whether or not the run ends, every batch and call keeps its place and no call goes back from settled to running or from running to requested |
| `RunProjection.EndedRunIsSettled` | crates/api-projection/src/lib.rs:1433-1457 | Once the run has ended, no call is requested or running and no batch is running, for every log the reducer can commit |
| `RunProjection.EndedCallLiveExactlyWhen` | crates/api-projection/src/lib.rs:1437-1453 | And a call of an ended run looks live exactly when its batch is open and its last completion is accepted or pending, which the reducer refuses to commit |
| `ToolResults.ProjectToolResults` | crates/api-projection/src/lib.rs:1462-1517 | The two passes over the entries give each call its last result, and the media of the call if it has one result only |
| `ResultViews.ResultShown` | crates/api-projection/src/lib.rs:1462-1517 | A call has a result exactly when an entry is one; it shows the last one's reference, its text cut to 4096 bytes and whether it failed, and the media standing right after it up to the next entry that is not a tool's media message, or none if the call has another result |
| `ToolResults.GroupMedia` | crates/api-projection/src/lib.rs:1467-1486 | The first pass groups tool media under the call whose result they follow, in their order |
| `ToolResults.CurrentCallIsNearestResult` | crates/api-projection/src/lib.rs:1467-1486 | The running `current_call` is the call of the nearest earlier result with only tool media in between, and none otherwise |
| `ToolResults.AttachedIsNearest` | crates/api-projection/src/lib.rs:1469-1486 | A media view is attached to a call exactly when it is the view of some tool media whose nearest result, past media only, is of that call |
| `ToolResults.MediaConserved` | crates/api-projection/src/lib.rs:1469-1516 | The results carry as many media as the entries attach to results exactly when no call with several results has media, and never more |
| `ToolResults.RepeatedResultLosesMedia` | crates/api-projection/src/lib.rs:1493-1516 | On every log, a call with more than one result among its run's entries is shown with no media, and the projection then holds fewer media than the entries attach if any was attached to that call |
| `ToolResults.RepeatedResultHappens` | crates/api-projection/src/lib.rs:1493-1516 | And it happens: a log with an image between a failed and a successful result of one call |
| `ToolResults.FirstByIdKeepsFirsts` | crates/api-projection/src/lib.rs:1876-1896 | Each entry id is kept once, the first time it comes up, and no id is lost |
| `ToolResults.FirstByIdKeepsOrder` | crates/api-projection/src/lib.rs:1876-1896 | The entries kept stand in the order in which their ids first came up |
| `ResultViews.RunEntries` | crates/api-projection/src/lib.rs:1876-1909 | What is shown for a run was applied by the log and comes from that run, which edits and the runtime's own entries do not, and each id applied for the run is shown once |
| `ToolResults.ContextEntriesGrow` | crates/api-projection/src/lib.rs:1876-1896 | A longer log only adds context entries at the end |
| `ToolResults.ContextEntriesOfRunAlone` | crates/api-projection/src/lib.rs:1876-1909 | Entries of other runs have no part in which entries a run shows |
| `ToolStatus.AggregateIsMaximum` | crates/api-projection/src/lib.rs:2731-2765 | A batch has the status of its weightiest call, running above failed above cancelled above succeeded; the last fallthrough is never reached with a call |
| `ToolStatus.AggregateIsPermutationInvariant` | crates/api-projection/src/lib.rs:2731-2765 | The batch status depends only on the multiset of its calls' statuses |
| `ToolStatus.AggregateJoins` | crates/api-projection/src/lib.rs:2731-2765 | The status of two non-empty batches put together is the join of theirs |
| `Approvals.PendingApprovalsForRun` | crates/api-projection/src/lib.rs:438-478 | Exactly the approvals whose last event is a request are pending, each with that request's time and subject, in the order of their ids |
| `Approvals.PendingMeans` | crates/api-projection/src/lib.rs:438-478 | A view is listed exactly when the log has that request, with its time and subject, and nothing later about the approval; at the first place two ids differ the earlier one has the lower character or has ended |
| `Approvals.PendingAlone` | crates/api-projection/src/lib.rs:438-478 | Whether an approval is pending is decided by the run's own events |
| `Approvals.PendingListsAlone` | crates/api-projection/src/lib.rs:438-478 | So the whole list for a run is the same on the full log and on the run's own |
| `ApiIds.ToolBatchIdInjective` | crates/api-projection/src/lib.rs:2058-2060 | Two batches have the same printed id exactly when they have the same number |
| `ApiIds.PrintedReadsBack` | crates/api-projection/src/lib.rs:2034-2041 | Every printed id reads back as the number it was printed from |
| `ApiIds.PrintedForms` | crates/api-projection/src/lib.rs:2034-2060 | Runs are printed as `run_` and batches as `tool_batch_` and the number in decimal, and a printed run is read by that form |
| `ApiIds.LeadingZerosReadTheSame` | crates/api-projection/src/lib.rs:2034-2041 | The reader also takes a plus sign and any number of leading zeros, so reading is not injective |
| `ApiIds.ReadsNothingElse` | crates/api-projection/src/lib.rs:2034-2041 | And it takes nothing else: what it reads is the prefix, a plus sign or none, zeros or none, and the number in decimal |
| `Utf8.TruncateUtf8` | crates/api-projection/src/lib.rs:2015-2024 | The loop takes at most three steps back, so it cannot underflow; it keeps the longest prefix of whole characters within the limit, and returns at most three bytes more than that |
| `Utf8.TruncatedIsLongestPrefix` | crates/api-projection/src/lib.rs:2015-2024 | What is kept is a prefix of the characters, one character more would not fit, and a text that fits is unchanged |
| `Utf8.BoundaryIsPrefixEnd` | crates/api-projection/src/lib.rs:2020-2022 | A byte offset is a character boundary exactly when some prefix of the characters ends there |
| `RunPaging.ReachableIsValid` | crates/harness/src/core/components/run.rs:835-1134 | Every state of the reducer keeps runs numbered without gaps, each held once or pruned and in the log, with the bound on pruned runs above every record that was dropped |
| `RunPaging.StepKeepsValid` | crates/harness/src/core/components/run.rs:835-1081 | And every single event keeps that, refused ones included |
| `RunPaging.ProjectRunSummaries` | crates/api-projection/src/lib.rs:167-208 | Merging four sources under the cursor, sorting and cutting give the page; with limit zero it needs that there is no candidate, since the code's `expect` fails otherwise |
| `RunPaging.PageIsWhole` | crates/temporal-runtime/src/gateway/service/pruned_runs.rs:11-72 | With the pruned runs read back for it, from a log that may have grown since state was loaded, a page is the page of every run there was: the next ids in descending order with no gap, and the right cursor and older-runs flag |
| `RunPaging.LogGrows` | crates/harness/src/core/components/run.rs:981-1081 | From every session on, whatever happens, the log keeps each terminal record as it is |
| `RunStatuses.TakenExactlyWhen` | crates/harness/src/core/components/run.rs:835-1081 | By the state of its runs the reducer takes an acceptance with the next number, a start of the first queued run while none is active, an end of the active run with a terminal status, and a cancellation of a queued run, and no other |
| `RunStatuses.StatusIsLast` | crates/harness/src/core/components/run.rs:835-1081 | After any events, the status of a run is what the last event about it that the reducer took made of it |
| `RunStatuses.PageShowsLast` | crates/api-projection/src/lib.rs:167-208 | And a page shows the run queued, running, cancelled or with the status it finished with accordingly, pruned or not |
| `RunPaging.NewerIsRange` | crates/temporal-runtime/src/gateway/service/pruned_runs.rs:40-72 | The gateway's count of newer held runs is the number of ids between the pruned bound and the cursor |
| `RunPaging.CandidatesAreRuns` | crates/api-projection/src/lib.rs:170-195 | Held and read-back records never show the same run twice, and each run is shown with the status the session has for it |
| `RunPaging.ListRuns` | crates/temporal-runtime/src/gateway/service/mod.rs:3051-3094 | `session/runs/list` loads state, reads the log as it is by then, refuses a zero limit and an unreadable cursor, and otherwise returns the whole page of the loaded state. For a limit `n` it has the least of `n`, 100 and the runs below the cursor, without a limit of 20 and those; it says that there are older runs, with its last run as cursor, exactly when more lie below |
| `RunWalk.WalkRuns` | crates/api-projection/src/lib.rs:167-208 | Following `next_cursor` to the end, with any events while a page is read and between the reads, returns every run that existed at the first read exactly once, in descending order, in the fewest pages of the limit asked for, at most 100 and by default 20, that hold so many |
| `RunWalk.WindowSuffices` | crates/api-projection/src/lib.rs:167-207 | A history that lacks only runs below more than `limit` pruned runs it has gives the same page, cursor and flag as the whole history |
| `RunWalk.SessionReadWholeExactlyWhen` | crates/api-projection/src/lib.rs:104-110 | `session/read` passes no pruned runs: its page is the newest runs exactly when nothing is pruned or the newest pruned run lies below the page |
| `RunWalk.SessionReadMissesNewest` | crates/api-projection/src/lib.rs:104-110 | A reachable session whose newest run `session/read` leaves out, for every limit |
| `AwaitRun.AwaitRun` | clients/typescript/src/client.ts:263-339 | The wait, its inner loop and its reads compute the protocol `AwaitAll` over any finite list of rounds: appends before every request, failed attempts, pages of any length the contract allows, and session and run answers that may be true or not |
| `AwaitRun.ReadEvents` | clients/typescript/src/client.ts:293-309 | The loop over one page stops at the terminal event with that event's cursor, or goes on to the page's `nextCursor` or its last event |
| `AwaitRun.ExactlyOnce` | clients/typescript/src/client.ts:278-312 | In every run of the protocol `onEvent` saw exactly the run's own events between `after` and the cursor, in order and once, and never past the first terminal event; a returned run has ended |
| `AwaitOutcomes.NeverPastEndOfRun` | clients/typescript/src/client.ts:278-337 | In every run of the protocol, no event gone past but the last is this run's completion, failure or cancellation, nor the last while the wait goes on; what is returned is a completed, failed or cancelled run |
| `AwaitOutcomes.SawWhatJoins` | clients/typescript/src/client.ts:297-301 | `onEvent` saw exactly the events between `after` and the cursor that join the run, in the log's order |
| `AwaitOutcomes.StopsAtEndOfRun` | clients/typescript/src/client.ts:293-312 | After any rounds: the wait stops at the first event of its page that completes, fails or cancels this run, with that event's cursor; it returns exactly when the read of the run is answered with a completed, failed or cancelled one, and otherwise says which of the two went wrong |
| `AwaitOutcomes.GoesOnPastOthers` | clients/typescript/src/client.ts:293-309 | It goes on from behind a page that has events and none of these |
| `AwaitOutcomes.AsksAfterEmptyPage` | clients/typescript/src/client.ts:314-337 | After an empty page: which reads follow, when it returns, is rejected for a failed read or a stopped session, or goes on |
| `AwaitOutcomes.PageRefused` | clients/typescript/src/client.ts:286-291 | A page read that is given up rejects the wait with its error, and so does a limit outside 1 to 512 |
| `AwaitOutcomes.PageGiven` | clients/typescript/src/client.ts:282-289 | The page is the block of the log next after the cursor, at most the limit long, or 128 |
| `AwaitRun.ChainedWaits` | clients/typescript/src/client.ts:278-312 | Any list of waits for any runs, each from the cursor the last one left, with appends between and during them: marks lead from `after` to the cursor, each wait saw its run's own events between two of them, and nothing is skipped or repeated |
| `AwaitRun.ChainedWaitsAreOne` | clients/typescript/src/client.ts:278-312 | If they are all for one run, they saw together what one longer wait would have |
| `AwaitRun.ReturnsAtTerminal` | clients/typescript/src/client.ts:282-312 | After any rounds of waiting, once the terminal event is in the log ahead of the reader and page reads are answered, the wait stops within as many further rounds as there are events up to it, with that event's cursor, whatever is appended meanwhile; it returns exactly when the round it stops in is told that the run has ended |
| `AwaitRun.ReturnsOnceEnded` | clients/typescript/src/client.ts:314-337 | After any rounds of waiting, once the run has ended the wait returns even if its terminal event lies behind `after`, within one further round more than there are events ahead and still to come |
| `AwaitRun.SeesTerminalExactlyWhen` | clients/typescript/src/client.ts:278-337 | A wait that returns went up to and including the terminal event exactly when its last page held something |
| `AwaitRun.LateEndIsNotSeen` | clients/typescript/src/client.ts:314-326 | A wait resumed after the run's first event, and a run that ends between the empty page and the read of its state: the wait returns and `onEvent` never saw the run's last event |
| `RetryTransient.RetryRequest` | clients/typescript/src/client.ts:493-518 | At most six requests, each but the last a transient failure; it stops at the first answer or other error, gives up exactly after six transient failures, and has slept 2^(k-1) - 1 seconds after k attempts, at most 31 |
| `Framing.Absorb` | clients/typescript/src/workflow.ts:244-255 | The loop over the parts gives the digest each part after its length, and nothing else |
| `Framing.FrameInjective` | clients/typescript/src/workflow.ts:244-255 | Two lists of parts are framed to the same bytes only if they are the same list |
| `Framing.UnframedFramesBack` | clients/typescript/src/workflow.ts:244-255 | And bytes that read as parts are exactly those parts framed |
| `Framing.U64RoundTrip` | clients/typescript/src/workflow.ts:463-467 | The eight big-endian bytes and a number below 2^64 determine each other |
| `IdForms.EightBytes` | clients/typescript/src/workflow.ts:463-467 | The eight bytes are the digits of the number to base 256, the highest first |
| `Identity.MakeEmissionId` | clients/typescript/src/workflow.ts:49-102 | Each kind of emission id checks its inputs in the code's order, then hashes domain, kind and parts, or takes the invocation id as it stands |
| `IdForms.EmissionTaken` | clients/typescript/src/workflow.ts:49-102 | Which inputs of each kind are taken, and for the others the error of the first fault, down to each check |
| `IdForms.HashedReadsBack` | clients/typescript/src/workflow.ts:49-102 | What is hashed reads back as the domain `lightspeed.emission.v1`, the kind, and the inputs in their order: universe id in lower case, session id, run number and token; universe id, producer, holder and promise; invocation id and completion key |
| `Identity.EmissionIdsAgreeExactlyWhen` | clients/typescript/src/workflow.ts:49-102 | Two hashed emission ids of any kinds have the same preimage exactly when kind and inputs are the same, up to the case of the universe id and to lone surrogates |
| `Identity.NormalOfWellFormed` | clients/typescript/src/workflow.ts:49-102 | For strings in good form only the case of the universe id is normalised away |
| `Identity.LoneSurrogatesCollide` | clients/typescript/src/workflow.ts:459-461 | Two different completion keys, each one lone surrogate, with the same cancellation id |
| `Identity.ConnectorTaskQueue` | clients/typescript/src/workflow.ts:200-218 | The queue's digest is over domain, universe, provider and account, after the checks in the code's order |
| `IdForms.QueueReadsBack` | clients/typescript/src/workflow.ts:200-218 | The queue is for the provider as it stands, refused for its first fault, and what is hashed reads back as the domain, universe id in lower case, provider and account |
| `Identity.QueuesAgreeExactlyWhen` | clients/typescript/src/workflow.ts:200-218 | Two queues have the same preimage exactly for the same universe, provider and account, up to the same two normalisations |
| `Identity.DomainsSeparate` | clients/typescript/src/workflow.ts:208-255 | No emission id and no task queue ever have the same preimage |
| `JsText.WellFormedIsUnchanged` | clients/typescript/src/workflow.ts:459-461 | Encoding keeps a string exactly when it has no lone surrogate |
| `JsText.Utf8Agrees` | clients/typescript/src/workflow.ts:459-461 | Two strings have the same bytes exactly when they differ in lone surrogates at most |
| `IdForms.EncodedExamples` | clients/typescript/src/workflow.ts:459-461 | The examples of section 7 of RFC 3629 are encoded as they stand there |
| `IdForms.SurrogateExamples` | clients/typescript/src/workflow.ts:459-461 | A pair of surrogates is one character of four bytes; in the other order each is the replacement character |
| `WorkflowIds.ComposedSplits` | clients/typescript/src/workflow.ts:175-236 | A composed workflow id splits into the lower-case universe id and the session id |
| `IdForms.WorkflowIdForm` | clients/typescript/src/workflow.ts:175-181 | A bad session id is refused first, then a bad universe id; otherwise the id is the lower-case universe id, a slash and the session id |
| `WorkflowIds.SplitComposes` | clients/typescript/src/workflow.ts:221-236 | An id that splits composes back to itself up to the case of its universe id |
| `WorkflowIds.WorkflowIdInjective` | clients/typescript/src/workflow.ts:175-181 | No two sessions share a workflow id |
| `WorkflowIds.ValidatorsAgree` | crates/api/src/ids.rs:38-60 | The Rust check of the characters and the TypeScript pattern with its byte length accept exactly the same session ids, and none has the separator in it |
| `IdForms.SessionIdForm` | clients/typescript/src/workflow.ts:41-46 | A session id is 1 to 128 letters, digits and the four marks, a letter or digit first |
| `IdForms.UniverseIdForm` | clients/typescript/src/workflow.ts:45 | A universe id has the UUID form with hexadecimal digits of either case |
| `IdForms.InvocationIdForm` | clients/typescript/src/workflow.ts:42 | An invocation id is `wti:sha256:` and 64 lower-case hexadecimal digits |
| `IdForms.LowerForm` | clients/typescript/src/workflow.ts:175-181 | Lower case changes the capitals A to Z and nothing else |
| `IdForms.RefusedSessionId` | crates/api/src/ids.rs:33-60 | The Rust check takes exactly that form too, and the error is the first fault: empty, too long, a bad start, or a bad character |
| `WorkflowIds.SessionIdErrors` | crates/api/src/ids.rs:15-25 | Each error names what is wrong, the character error with its byte offset and only good characters before it |
| `RunTimeline.RunTimeline` | clients/typescript/src/run-timeline.ts:32-85 | The list it builds through shared objects is the timeline, and the tool items are exactly the objects of the map, each under the id of its call |
| `TimelineItems.CallOfBatchesShown` | clients/typescript/src/run-timeline.ts:33-60 | A call id of the batches is exactly one item, which shows the last call with that id, its batch's id, its tool name, and the last call entry and result entry for it if there are any |
| `TimelineItems.CallOfEntriesShown` | clients/typescript/src/run-timeline.ts:42-76 | A call id that only entries name is exactly one item, with neither call nor batch, under the name of its first entry, or unknown if that is a result |
| `TimelineItems.NoOtherCallShown` | clients/typescript/src/run-timeline.ts:62-83 | There is no tool item for any other id |
| `TimelineItems.PlainEntryShown` | clients/typescript/src/run-timeline.ts:62-80 | An entry that is neither call nor result is an item as it stands: a message with its role, reasoning, or other |
| `RunTimeline.CollectViews` | clients/typescript/src/run-timeline.ts:33-38 | The insertion-ordered map of the batches' calls: first place, last value |
| `RunTimeline.ViewsHoldLastCalls` | clients/typescript/src/run-timeline.ts:33-38 | A call id of the batches leads to its last call |
| `RunTimeline.ViewsInFirstOrder` | clients/typescript/src/run-timeline.ts:33-38 | The keys of that map stand in the order in which their calls first come up in the batches, so none stands twice |
| `RunTimeline.TimelineInOrder` | clients/typescript/src/run-timeline.ts:62-83 | Which places the list has, and that they stand in the order they first come up: entries in theirs, calls no entry is about last in the order of the batches, none twice |
| `RunTimeline.PlainEntriesOnceInOrder` | clients/typescript/src/run-timeline.ts:62-80 | The items that are not tools are the entries about no call, once each and in their order |
| `RunTimeline.OneItemPerCall` | clients/typescript/src/run-timeline.ts:41-60 | Every call id of entries or batches is exactly one item |
| `RunTimeline.ItemHoldsLast` | clients/typescript/src/run-timeline.ts:70-76 | The item of a call holds the last call entry and the last result entry for its id |
| `RunTimeline.TimelineBuilder.ToolFor` | clients/typescript/src/run-timeline.ts:42-60 | `toolFor` returns the object there is and changes nothing, or adds one new object to map and list alike |
| `RunTimeline.TimelineBuilder.SetEntry` | clients/typescript/src/run-timeline.ts:70-76 | An entry set through the returned reference brings that object up to date and leaves every other |
| `GrantLocks.MutualExclusion` | crates/auth/src/locks.rs:39-66 | Under every schedule at most one live guard for a grant |
| `GrantLocks.StepKeepsValid` | crates/auth/src/locks.rs:52-66 | Every step keeps locks and tasks in agreement on who owns, who waits, and which lock is whose |
| `GrantLocks.EarlierLookupStaysCurrent` | crates/auth/src/locks.rs:56-64 | A task that looked its lock up keeps it until it gives up its call or guard, whatever others do meanwhile, and the table still has that lock for the grant |
| `GrantLocks.TableOnlyGrows` | crates/auth/src/locks.rs:56-62 | An entry of the table is never removed or replaced, whatever the schedule |
| `GrantLocks.PollAcquiresExactlyWhen` | crates/auth/src/locks.rs:63-64 | A task gets its guard at once exactly when no task owns that grant |
| `GrantLocks.OtherGrantsDoNotBlock` | crates/auth/src/locks.rs:52-66 | A step about another grant changes neither the phases nor the lock of this grant's tasks |
| `GrantLocks.OtherSchedulesDoNotBlock` | crates/auth/src/locks.rs:52-66 | And no schedule of such steps does, however long |
| `GrantLocks.GrantsDoNotInterfere` | crates/auth/src/locks.rs:52-66 | Under every schedule a grant's tasks are in the phases, and its lock in the state, that the schedule without every step about other grants brings about, up to the lock's number |
| `GrantLocks.WaitedForIsOwned` | crates/auth/src/locks.rs:63-64 | While a task waits for a grant, some task owns it: no wake-up is lost |
| `GrantLocks.LettingGoEnablesWaiter` | crates/auth/src/locks.rs:16-20 | Dropping a guard, or a call that was just handed the lock, lets a waiter of the grant go on to its guard |
| `GrantRelease.LettingGoFrees` | crates/auth/src/locks.rs:16-20 | A task that drops its guard, or its call before it has one, is idle; if none waited for its grant, no task owns the grant afterwards and no other task changed |
| `GrantRelease.NextPollHasGuard` | crates/auth/src/locks.rs:63-64 | So a task that has looked the grant up and polls next has its guard |
| `GrantRelease.FreeOnceAllLetGo` | crates/auth/src/locks.rs:39-66 | Under every schedule: once every other task that was on the grant or looked it up has let go again, a task that has looked it up and polls has its guard at once |
| `GrantLocks.NoWaiterStarves` | crates/auth/src/locks.rs:63-64 | A task at place `k` of a queue that does not give up has its lock after `k + 1` hand-overs at the latest, under every schedule, and keeps it |
| `GrantRelease.HandOversAre` | crates/auth/src/locks.rs:16-20 | The hand-overs counted there are exactly the steps by which the owner of the lock drops its guard, or its call once it was handed the lock |
| `GrantLocks.InMemoryGrantLocks.LookUpLock` | crates/auth/src/locks.rs:56-62 | The look-up half on the shared objects is the machine's step: the entry there is or a new one, or the error of a poisoned table |
| `GrantLocks.InMemoryGrantLocks.LockOwned` | crates/auth/src/locks.rs:63-64 | The waiting half is the machine's step, and says whether the guard is in hand |
| `GrantLocks.InMemoryGrantLocks.DropLockGuard` | crates/auth/src/locks.rs:16-29 | Dropping the guard is the machine's hand-over |
| `GrantLocks.InMemoryGrantLocks.DropCall` | crates/auth/src/locks.rs:52-66 | Dropping a call that has no guard yet is the machine's cancellation, in each of its phases |
| `SchemaTree.JsonNode.RewriteRefs` | crates/api/src/schema_export.rs:173-194 | Overwriting strings in place over the tree makes the document the rewrite of what it was |
| `SchemaRefs.ResolveRewritten` | crates/api/src/schema_export.rs:173-194 | Every path leads to the rewritten form of what it led to and nowhere if it led nowhere; a path that ends at a reference leads to the reference with its new prefix |
| `SchemaRefs.EndsAtRefMeans` | crates/api/src/schema_export.rs:173-194 | A path ends at a reference exactly when it ends at the text under `$ref` of an object |
| `SchemaRefs.ReferencesKeepMeaning` | crates/api/src/schema_export.rs:150-163 | What a reference into the bundle's definitions stood for, its rewritten form stands for in the rewritten document, itself rewritten, except exactly where it stood for another prefixed reference; it dangles exactly if it did before |
| `SchemaRefs.ReferenceToReferenceMoves` | crates/api/src/schema_export.rs:150-194 | A schema that refers to itself, and a reference to that reference: it comes to stand for its new form |
| `SchemaRefs.NoReferenceDangles` | crates/api/src/schema_export.rs:355-390 | If every reference of the document is to a definition of the bundle, every reference afterwards has the new prefix and resolves |
| `SchemaRefs.RefsRewritten` | crates/api/src/schema_export.rs:173-194 | The references afterwards are exactly the rewritten references from before |
| `SchemaRefs.UntouchedExactlyWhen` | crates/api/src/schema_export.rs:173-194 | A document is left as it is exactly when none of its references has the old prefix |
| `SchemaRefs.IdempotentExactlyWhen` | crates/api/src/schema_export.rs:173-194 | A second rewrite changes nothing, for every document, exactly when the prefixes are the same or neither starts the other |
| `SchemaRefs.RewriteBackExactlyWhen` | crates/api/src/schema_export.rs:173-194 | Rewriting back restores a document exactly when none of its references had the new prefix already |
| `SchemaRefs.SourcePrefixes` | crates/api/src/schema_export.rs:163 | Neither of the two prefixes in use starts the other |

## Left out

- Field-by-field conversions to the API types, `project_event_kind`, `tool_call_display` and the provider display helpers: branch by branch, with nothing to prove by induction.
- `project_content_text` and citation extraction: they depend on provider JSON and decoders of other crates.
- Errors of the blob store and text that is not valid UTF-8: every blob is text here.
- ToolBatches.ProjectToolBatches: batches and calls are values in a sequence that is reassigned, as the vector of owned structs is; a reference into the vector is not modelled as an object of its own.
- RunProjection.ShownStatus: speaks of the first batch with its number in the run and the first call with its id in the batch, which are the ones events can address; it needs completions to carry a terminal status, as the reducer demands. The lemmas of `CallViews` need neither.
- RunPaging.ProjectRunSummaries: a summary is an id and a status; its previews, times and counts are not modelled.
- Reducer events that do not move a run between its buckets, such as parking, steering or a requested cancellation.
- RunStatuses.TakenExactlyWhen: the reducer also refuses on a closed session, another configuration revision, an invalid run configuration, or a cancellation with work not drained; sequences with these are ranged over too.
- RunStatuses.PageShowsLast: an active run is shown as running; that it may be parked or cancelling is not modelled.
- AwaitRun.AwaitRun: waits and timeouts as wall-clock time, `currentWaitMs`, abort signals, `onPage`, `heartbeat` and callbacks that throw; an endless wait is any finite list of rounds that is still `Waiting`. A server that breaks the contract of its event pages is not modelled.
- AwaitRun.ReturnsAtTerminal: of the rounds after the terminal event is in the log, assumes that page reads are answered within the retries; a failed one rejects the wait.
- AwaitRun.ReturnsOnceEnded: of the rounds after the run has ended, assumes that requests are answered, that the server reports the run as ended, and that the session shows it as ended or not at all.
- Backward pages of `session/events/read`.
- SHA-256, hexadecimal and the truncation of the queue digest: theorems stop at the bytes hashed, and say nothing about collisions of the digest.
- Identity.EmissionIdsAgreeExactlyWhen: needs every part to be shorter than 2^64 bytes, as every byte array is; run ids that are not integers are refused by type.
- `environmentJobWorkflowId`: dashes in either part make it ambiguous as written, so nothing is claimed of it.
- GrantLocks.LettingGoEnablesWaiter: the asynchronous mutex is modelled by its documented order, first come, first served; its wakers and the memory model are not.
- Production's store-backed grant lock.
- SchemaRefs.ResolveRewritten: paths are the tokens of a JSON pointer (RFC 6901); percent-decoding of the fragment is not modelled, and of two members with one key the first counts.
- SchemaTree.JsonNode.RewriteRefs: the shape of the tree is fixed, as the rewrite leaves it; only the text of a node is a mutable field.
- Wire types, service traits, access tables, Temporal, Postgres and the web platform.
