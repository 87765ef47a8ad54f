# Verification model of the enterprise RAG service

This project models the protocols and algorithms at the heart of the service and proves properties of
them for every input, every interleaving and every run.

| part | files | what is modelled |
|---|---|---|
| Document indexing | `Status`, `IndexStore`, `IndexInvariant`, `IndexStatements`, `IndexDatabase`, `IndexWorker`, `IndexSystem`, `IndexHistory`, `IndexOutbox`, `IndexProgress` | Upload, transactional outbox, redelivered messages, leased claims, the parse, chunk, embed and delete handlers, automatic and manual retries, soft deletion. One function per SQL statement, a class whose methods guard and update the same tables in place, workers as program counters that interleave, fail before or after a call took effect, are redelivered, or stop for good at any point. |
| Worker shutdown | `Shutdown`, `ShutdownProgress` | Deliveries, concurrent calls of `Close`, the waiting goroutine and the outbox loop around one mutex, step by step. |
| Chunker | `Text`, `Chunker` | Trimming, boundary search, overlapping windows, the rows of a document. |
| Chat runs | `ChatRuns`, `RunEvents` | The guarded updates of a run and its append-only event log with concurrent appenders and readers. |
| Rate limiter | `RateLimit` | The Lua script over a sorted set whose key expires. |
| Retrieval | `Ranking`, `Fusion`, `Trimming` | Stable sort, min-max normalisation, merging two result lists, candidate limit, citation trimming, merging of neighbouring chunks. |
| Agent | `AnswerLayout`, `Citations`, `UncheckedSelection`, `AgentGraph` | Normalising an answer, reading, checking and renumbering its references, and the graph with its rewrite loop against arbitrary model and tool replies. |

`Options` holds the option type and `Arithmetic` the minimum and maximum of integers. Workers and
threads are state machines because the Go code runs them concurrently; loops, repositories and in-place
algorithms are methods, each proved against a specification function whose own properties are the lemmas
listed below.

The parser is an arbitrary function of the stored file and the processing mode, the model and the tools
are arbitrary replies, SHA-1 names are kept as the data they are computed from (so they are injective),
time is an integer that never goes back, and scores are real numbers.

The worker proof rests on one relation, `IndexInvariant.Evolves`: everything any statement may do to the
tables. Each handler's knowledge at each program counter is stable under it, so stale knowledge is
harmless however long a worker was away.

## Model

| member | source | states |
|---|---|---|
| IndexSystem.IndexAgreement | api/internal/worker/manager.go:463-532 | In every reachable store a live chunked, embedding or indexed document lists exactly the rows the chunker builds from the parse of its file in its upload mode, and an indexed one has exactly their ids as vectors. |
| IndexSystem.SuccessImpliesSuccessor | api/internal/worker/manager.go:294-331 | A succeeded parse or chunk task has its follow-up task; a succeeded embedding task means the document is indexed, in deletion or soft-deleted; a succeeded delete task means soft-deleted. |
| IndexSystem.TasksAndOutboxPaired | api/internal/repository/postgres/outboxrepo.go:71-103 | Task rows and outbox rows correspond one to one, with the same task, document and type, in every reachable store. |
| IndexSystem.OneTaskPerStage | api/internal/worker/manager.go:575-601 | However often messages are redelivered, two tasks of one document and one kind other than delete are the same task. |
| IndexSystem.EveryDocumentHasParseTask | api/internal/repository/postgres/documentrepo.go:46-112 | Every document ever created has a parse task. |
| IndexSystem.NoResurrection | api/internal/repository/postgres/documentrepo.go:246-312 | Over any continuation of any run: deletion states are never left, an indexed document only leaves towards deletion, a soft-deleted document and a succeeded task never change, parsed content is never replaced. |
| IndexSystem.RunKeeps | api/internal/worker/manager.go:232-331 | Every sequence of uploads, requests, publications, deliveries, worker steps and crashes keeps the system invariant, and the store only evolves. |
| IndexSystem.EveryActionKeeps | api/internal/worker/manager.go:107-130 | The same for a single action of a user, a publisher or a worker. |
| IndexSystem.DeploymentIsValid | api/internal/service/documentchunk/chunker.go:18-72 | The modelled chunker meets what the pipeline results ask of one, for every configuration. |
| IndexWorker.KnowledgeIsStable | api/internal/worker/manager.go:418-597 | What a handler relies on at each program counter stays true under anything others do. |
| IndexWorker.WorkerStepKeeps | api/internal/worker/manager.go:418-573 | Each step of each handler, whether its call takes effect, fails or is reported wrongly, keeps the invariant, only evolves the store, and leaves the handler knowing what it needs next. |
| IndexInvariant.EvolvesTransitive | api/internal/model/status.go:16-63 | Evolution composes, so what one statement may not do, no number of them can. |
| IndexInvariant.RetryKeeps | api/internal/repository/postgres/indextaskrepo.go:353-427 | A manual retry, task and document and outbox row together, keeps the invariant. |
| IndexInvariant.DeleteRequestKeeps | api/internal/repository/postgres/documentrepo.go:416-473 | So does creating a delete task. |
| IndexInvariant.UploadKeeps | api/internal/repository/postgres/documentrepo.go:46-112 | So does creating a document with its parse task. |
| IndexHistory.EveryTaskFate | api/internal/repository/postgres/indextaskrepo.go:266-366 | Whatever happens, an existing task is claimed with a fresh lease, put back to pending with one more retry, finished, or left alone; nothing else. |
| IndexHistory.ClaimsAreExclusive | api/internal/repository/postgres/indextaskrepo.go:290-313 | Two accepted claims of one task are separated by expiry of the first lease or by a retry that put the task back to pending. |
| IndexHistory.RunningTasksAreLeased | api/internal/repository/postgres/indextaskrepo.go:266-366 | In every reachable store a task is running exactly while it has a lease. |
| IndexHistory.RetriesAreBounded | api/internal/repository/postgres/indextaskrepo.go:315-351 | Over a whole run a task is retried automatically at most three times, and its retry count is automatic plus manual retries. |
| IndexHistory.RetriesAddUp | api/internal/repository/postgres/indextaskrepo.go:315-366 | The same from any system, where the automatic retries and those before together stay within three. |
| IndexOutbox.EveryRowFate | api/internal/repository/postgres/outboxrepo.go:29-103 | Whatever happens, an outbox row is left alone, locked by a claim while due, published and unlocked, put off by 1, 2, 4 and so on up to 64 seconds with one more attempt, or made due at once by a manual retry of its task; nothing else. |
| IndexOutbox.NewTasksAreReady | api/internal/repository/postgres/outboxrepo.go:71-103 | Whatever action makes a task, the task is pending and its message due at once. |
| IndexOutbox.ConfirmedIsNotSentAgain | api/internal/repository/postgres/outboxrepo.go:29-62 | A confirmed message is never claimed again before its task is retried by hand. |
| IndexOutbox.RowClaimsAreExclusive | api/internal/repository/postgres/outboxrepo.go:29-69 | Two claims of one row are more than a minute apart, unless the first was rejected or the task retried by hand in between. |
| IndexOutbox.UnsentBecomesDue | api/internal/repository/postgres/outboxrepo.go:32-37 | A row that is not published becomes due after some time, and stays due. |
| IndexOutbox.LeaseDecides | api/internal/repository/postgres/indextaskrepo.go:290-313 | In every reachable store and at any later moment a pending task can be claimed, a running one exactly when its lease is over, and no other. |
| IndexOutbox.RetriedTaskStarts | api/internal/repository/postgres/indextaskrepo.go:353-427 | After an accepted manual retry, in any system, the message can be claimed at once, and on publication and delivery a worker takes up the task. |
| IndexOutbox.NewTaskStarts | api/internal/worker/manager.go:107-130 | The same for every new task, whatever action made it. |
| IndexOutbox.UnsentTaskCanStart | api/internal/worker/manager.go:107-130 | In every reachable system a pending task whose message is not confirmed can be started, if need be after a wait. |
| IndexProgress.UploadCanBeIndexed | api/internal/worker/manager.go:418-601 | From every reachable system a new upload the chunker can make something of can go on to be indexed, with its three tasks succeeded and exactly the rows and vectors of its file. |
| IndexProgress.DocumentCanBeDeleted | api/internal/worker/manager.go:544-573 | From every reachable system a live document not yet in deletion can be asked to be deleted by its owner and go on to be gone, with no row listed and no vector left. |
| IndexProgress.FailureIsRescheduled | api/internal/worker/manager.go:347-384 | A stage that fails for now while it works on its document is put back to pending and to the status it started from, up to three times, and after that fails for good. |
| IndexProgress.FailureCanBeRetried | api/internal/worker/manager.go:333-345 | A stage that fails for good leaves task and document failed, and then a manual retry by the owner is accepted. |
| IndexStatements.StatusIsKept | api/internal/repository/postgres/documentrepo.go:267-312 | A guarded status update of either kind keeps the invariant whenever the new status is allowed for the document as it stands. |
| IndexStatements.ParseIsKept | api/internal/repository/postgres/documentrepo.go:246-265 | Completing a parse keeps the invariant when the content is the parse of the document's file in its upload mode. |
| IndexStatements.RowsAreKept | api/internal/repository/postgres/chunkrepo.go:19-67 | Replacing chunk rows keeps the invariant whenever they are what the chunker builds from the stored content, at any status. |
| IndexStatements.TaskStatusIsKept | api/internal/repository/postgres/indextaskrepo.go:266-288 | A task may be failed at any time and succeed once its stage has left its follow-up or outcome behind. |
| IndexStatements.ClaimIsKept | api/internal/repository/postgres/indextaskrepo.go:290-313 | A claim keeps the invariant unconditionally. |
| IndexStatements.BatchIsKept | api/internal/repository/postgres/outboxrepo.go:25-56 | So does locking any batch of outbox rows. |
| IndexStatements.FirstDueIsFair | api/internal/repository/postgres/outboxrepo.go:32-37 | A due row is left out of a batch only when the batch is full, and then no row from it on is in the batch: the earliest due rows go first. |
| IndexStatements.RetryDispatches | api/internal/repository/postgres/indextaskrepo.go:353-427 | After an accepted manual retry the task is pending, its document back at the stage before, and its own message due at once with no attempts, no lock and not published, even if it had been published before; other rows stay. |
| IndexStatements.UploadDispatches | api/internal/repository/postgres/documentrepo.go:46-112 | The message of an accepted upload is due at once, in the mode of the upload. |
| IndexStatements.DeleteRequestDispatches | api/internal/repository/postgres/documentrepo.go:416-473 | So is that of an accepted delete request. |
| IndexStatements.FollowUpDispatches | api/internal/repository/postgres/outboxrepo.go:71-103 | A new follow-up task is due at once; an existing one keeps its row, so it is not sent again. |
| IndexSystem.BatchIsActions | api/internal/repository/postgres/outboxrepo.go:29-38 | Claiming a batch with one statement leaves the store the pipeline's single claims would. |
| IndexDatabase.Database.EnqueueOutboxRow | api/internal/repository/postgres/outboxrepo.go:71-103 | Inserts a row unless one exists, replaces it on reset; the mode travels with parse tasks only. |
| IndexDatabase.Database.ClaimBatch | api/internal/repository/postgres/outboxrepo.go:25-56 | Claims exactly the first due rows in creation order, up to the effective limit, and leaves the store that locking them one by one leaves; keeps the pipeline invariant. |
| IndexDatabase.Database.ConfirmPublished | api/internal/repository/postgres/outboxrepo.go:58-62 | Marks one row published and unlocks it. |
| IndexDatabase.Database.RejectPublished | api/internal/repository/postgres/outboxrepo.go:64-69 | Reschedules one row by a power of two of its attempts, at most 64 seconds, computed by a loop. |
| IndexDatabase.Database.CreateDocumentWithTask | api/internal/repository/postgres/documentrepo.go:46-112 | Document, task and outbox row appear together or not at all; the message of the task is then due at once. |
| IndexDatabase.Database.UpdateDocumentStatus | api/internal/repository/postgres/documentrepo.go:267-289 | The guarded status update of a live document. |
| IndexDatabase.Database.ResetDocumentForRetry | api/internal/repository/postgres/documentrepo.go:291-312 | The guarded reset of a live document for a retry. |
| IndexDatabase.Database.CompleteDocumentParse | api/internal/repository/postgres/documentrepo.go:246-265 | Stores content and the parsed status together, only from parsing. |
| IndexDatabase.Database.CreateDocumentDeleteTask | api/internal/repository/postgres/documentrepo.go:416-473 | Status, task and outbox row change together or are rolled back; the message of the task is then due at once. |
| IndexDatabase.Database.CompleteDocumentDelete | api/internal/repository/postgres/documentrepo.go:475-507 | Chunk rows and document are soft-deleted together; when the document's guard fails the row updates are undone; keeps the pipeline invariant either way. |
| IndexDatabase.Database.ReplaceDocumentChunks | api/internal/repository/postgres/chunkrepo.go:19-67 | The delete-then-insert loop leaves exactly the given rows for the document and every other document alone. |
| IndexDatabase.Database.ListDocumentChunks | api/internal/repository/postgres/chunkrepo.go:69-113 | The live rows of the document, in order. |
| IndexDatabase.Database.CreateIndexTask | api/internal/repository/postgres/indextaskrepo.go:30-71 | Creating a task a second time changes nothing; the first time it comes with its outbox row, due at once. |
| IndexDatabase.Database.UpdateIndexTaskStatus | api/internal/repository/postgres/indextaskrepo.go:266-288 | The guarded task update, which also drops the lease. |
| IndexDatabase.Database.ClaimIndexTask | api/internal/repository/postgres/indextaskrepo.go:290-313 | Accepts pending tasks and running ones whose lease is missing or over, and sets a lease of at least a second; keeps the pipeline invariant. |
| IndexDatabase.Database.ScheduleTaskRetry | api/internal/repository/postgres/indextaskrepo.go:315-351 | Puts a running or failed task with retries left back to pending. |
| IndexDatabase.Database.RetryTask | api/internal/repository/postgres/indextaskrepo.go:353-427 | Task, document and outbox row are reset together, and then the task's own message is due at once as if for the first time, every other row as it was; when the document cannot follow, the task update is undone; keeps the pipeline invariant either way. |
| Shutdown.ClosedMeansQuiet | api/internal/worker/manager.go:169-197 | Once closeDone is closed, no handler is running, the outbox loop has ended, and the context is cancelled. |
| Shutdown.ClosedStaysQuiet | api/internal/worker/manager.go:154-167 | That stays so in every continuation: no delivery starts a handler again. |
| Shutdown.ChannelsCloseOnce | api/internal/worker/manager.go:169-186 | No channel is closed twice under any number of concurrent calls of Close, and a finished shutdown has closed each of them once. |
| Shutdown.ReturnedMeansClosed | api/internal/worker/manager.go:190-196 | A call of Close that returns without timing out does so only after everything has stopped. |
| Shutdown.WaitGroupIsUsedRightly | api/internal/worker/manager.go:156-166 | inFlight is the number of handlers and never negative, and is only counted down once somebody may wait for it. |
| Shutdown.StepKeeps | api/internal/worker/manager.go:107-197 | Each atomic step keeps mutual exclusion of the critical sections, the phases of closing, and the counters. |
| ShutdownProgress.SomeThreadMoves | api/internal/worker/manager.go:154-197 | While a call of Close has neither returned nor timed out, some thread can move: nobody deadlocks on the mutex, the wait group or a channel. |
| ShutdownProgress.EveryCloseCanReturn | api/internal/worker/manager.go:169-197 | From any point the threads alone bring every call of Close that has not timed out to its return. |
| ShutdownProgress.InternalStepsWork | api/internal/worker/manager.go:154-197 | And they do so in boundedly many steps: every step leaves less to do. |
| ShutdownProgress.RejectedMeansClosing | api/internal/worker/manager.go:156-161 | A delivery is turned away only by a manager that is closing. |
| ShutdownProgress.EveryDeliveryIsDecided | api/internal/worker/manager.go:154-167 | The threads alone bring every delivery to the end of its handler, or to its rejection if the manager is closing by then. |
| Text.TrimSpan | api/internal/service/documentchunk/chunker.go:110 | Trimming cuts one stretch out of a text, ending in non-space on both sides, and drops only white space. |
| Text.TrimCovers | api/internal/service/documentchunk/chunker.go:120 | A character that is not white space survives trimming. |
| Chunker.NormalizeConfig | api/internal/service/documentchunk/chunker.go:89-107 | The result is always usable by the splitting loop; each field is kept when it is in range and has its default otherwise. |
| Chunker.FindBoundary | api/internal/service/documentchunk/chunker.go:136-145 | The result is the sentence end nearest below the window's end within the lookback and minimum size, or the window's end when there is none. |
| Chunker.BoundaryUnique | api/internal/service/documentchunk/chunker.go:136-145 | That specification determines the position. |
| Chunker.WindowsFormChain | api/internal/service/documentchunk/chunker.go:109-134 | The windows start at the start, each leads to the next as the loop says, and the last ends at the end. |
| Chunker.EndsNeverGoBack | api/internal/service/documentchunk/chunker.go:109-145 | Starts strictly increase, ends never decrease, and never stand still twice in a row. |
| Chunker.WindowsShareOverlap | api/internal/service/documentchunk/chunker.go:109-134 | Each window has 1 to size runes; neighbours share exactly the overlap, or nothing when that would stop the loop. |
| Chunker.StartsAdvance | api/internal/service/documentchunk/chunker.go:109-145 | With size above lookback plus overlap, starts are at least their difference apart. |
| Chunker.WindowCountBound | api/internal/service/documentchunk/chunker.go:109-145 | Then there are at most 1 + (n-1)/(size-lookback-overlap) windows. |
| Chunker.WindowsRestoreText | api/internal/service/documentchunk/chunker.go:109-134 | The windows without their overlaps, put together, are the whole text. |
| Chunker.SplitSegment | api/internal/service/documentchunk/chunker.go:109-134 | The loop emits exactly the trimmed, non-blank windows, in order, and terminates. |
| Chunker.NoRuneIsLost | api/internal/service/documentchunk/chunker.go:109-134 | Every rune of the text that is not white space lies in an emitted chunk. |
| Chunker.ChunksWellFormed | api/internal/service/documentchunk/chunker.go:120-123 | Every chunk is trimmed, not empty, and at most size runes long. |
| Chunker.Build | api/internal/service/documentchunk/chunker.go:18-72 | For any configuration, which is normalised first, the loops over segments and contents produce the specified rows, or none for bad metadata or no content. |
| Chunker.BuiltRowsWellFormed | api/internal/service/documentchunk/chunker.go:31-67 | Rows are numbered 0, 1, 2 and so on across segments, have distinct ids, belong to the document, and hold clean content. |
| Chunker.BuiltRowsFollowSegments | api/internal/service/documentchunk/chunker.go:18-67 | The rows are the chunks of the first segment, then those of the second, and so on, each with the section and page of its segment; without segments they are the chunks of the plain text. |
| Chunker.BuildSucceedsIff | api/internal/service/documentchunk/chunker.go:18-72 | Chunking succeeds exactly when the metadata can be read and some segment, or the plain text when there are no segments, holds a character that is not white space. |
| ChatRuns.RunRepo.Create | api/internal/repository/postgres/runrepo.go:23-30 | A new run under a new id only. |
| ChatRuns.RunRepo.UpdateStatus | api/internal/repository/postgres/runrepo.go:95-113 | Changes the caller's created or running run only; sets the completion time exactly when told the status is terminal. |
| ChatRuns.RunRepo.Start | api/internal/repository/postgres/runrepo.go:59-61 | Has the effect of the MarkRunning statement. |
| ChatRuns.RunRepo.FailRun | api/internal/repository/postgres/runrepo.go:88-93 | Any status other than cancelled is stored as failed. |
| ChatRuns.RunRepo.Complete | api/internal/repository/postgres/runrepo.go:63-86 | Nil exactly for the caller's running run without a cancel request, and then the result is stored; cancelled exactly when one was made, and then the cancellation is stored as the error; otherwise nothing changes; a later failure finds nothing to change. |
| ChatRuns.RunRepo.Cancel | api/internal/repository/postgres/runrepo.go:115-120 | True exactly when the request was recorded on an open run. |
| ChatRuns.RunRepo.Reset | api/internal/repository/postgres/runrepo.go:122-134 | Only failed and cancelled runs start over, with nothing left of the last attempt. |
| ChatRuns.RunRepo.EndAttempt | api/internal/logic/chat/runlifecycle.go:81-127 | An attempt ends its open run terminal now in every case: completed with its result and no error when that was accepted; otherwise with the result as it was and the error stored, cancelled when that was asked for or the context or error is the cancellation, failed otherwise; a run that had ended stays as it was. |
| ChatRuns.FailedAttemptsEndTerminal | api/internal/logic/chat/runlifecycle.go:96-127 | Whatever interleaves, a failed attempt leaves its run terminal, and an open run becomes cancelled exactly when the context was cancelled or, without a context error, the work reported the cancellation. |
| ChatRuns.CancelExcludesComplete | api/internal/repository/postgres/runrepo.go:63-134 | Between creation or reset and the next reset, an accepted cancel and an accepted completion never both happen, whatever interleaves. |
| ChatRuns.ResultOnlyOnCompleted | api/internal/repository/postgres/runrepo.go:63-134 | Completed exactly after an accepted completion; a result exactly when its bytes were not empty; a completion time exactly on terminal runs. |
| ChatRuns.CompletedIsAbsorbing | api/internal/repository/postgres/runrepo.go:59-134 | Nothing changes the row of a completed run. |
| ChatRuns.AcceptedCancelSticks | api/internal/logic/chat/runlifecycle.go:81-105 | After an accepted cancel the run cannot complete before it is reset. |
| ChatRuns.StatementsTakeExactly | api/internal/repository/postgres/runrepo.go:59-134 | In any history, which statements change the row: the owner's only; starting, failing and cancelling while it is open; completing while it is running without an accepted cancel, cancelling instead when there is one; resetting when it failed or was cancelled. |
| ChatRuns.ResumeStartsOver | api/internal/repository/postgres/runrepo.go:122-134 | A run that is reset has the row of a new run, whatever happened before. |
| RunEvents.LogIsGapFree | api/internal/repository/postgres/runrepo.go:136-157 | However appenders of any runs interleave, share lock keys or give up, the committed sequences of every run are exactly 1 to n and no insert meets a taken one; which events they are is `LogIsTheCommits`. |
| RunEvents.EveryCommitAppends | api/internal/repository/postgres/runrepo.go:136-157 | In every reachable log, a commit adds exactly the payload its appender began with as the next event of the run it began with, and leaves every other run; no other action changes any committed event. |
| RunEvents.LogIsTheCommits | api/internal/repository/postgres/runrepo.go:136-157 | The log of a run is exactly the payloads of its commits, in the order they were committed. |
| RunEvents.AppendCanFinish | api/internal/repository/postgres/runrepo.go:136-157 | No append is ever stuck: whatever has happened it can go on to be committed, once the transaction that holds its lock has ended. |
| RunEvents.CatchUpIsLossless | api/internal/repository/postgres/runrepo.go:159-182 | A reader polling from its last sequence has received every event after its start exactly once, in order, despite concurrent appenders. |
| RunEvents.ReadersReceiveTheCommits | api/internal/repository/postgres/runrepo.go:136-182 | From end to end, a reader has received exactly the payloads of the commits to the run it asked for, from its starting point to its last sequence. |
| RunEvents.PollMakesProgress | api/internal/repository/postgres/runrepo.go:159-182 | A poll of a reader that is behind returns the next events, as many as the limit allows: the one asked for from 1 to 500, else 200. |
| RunEvents.PageIsNextStretch | api/internal/repository/postgres/runrepo.go:163-168 | On a gap-free log every answer of the query is the next contiguous stretch. |
| RunEvents.PageExists | api/internal/repository/postgres/runrepo.go:163-168 | Such an answer always exists. |
| RateLimit.Limiter.RunScript | api/internal/infrastructure/ratelimit/limiter.go:15-36 | Step by step on the live key, expiry included, the script has the specified effect and result, and leaves other keys alone. |
| RateLimit.Limiter.Allow | api/internal/infrastructure/ratelimit/limiter.go:52-95 | The sets and the answer are those of the whole-limiter results: unlimited paths are always admitted without touching anything; others run the script for their scope and user, and report at least one second. |
| RateLimit.ScriptCountsWindow | api/internal/infrastructure/ratelimit/limiter.go:22-28 | However the set was trimmed and its key expired, what the script counts is exactly the admitted calls of the last window. |
| RateLimit.AdmittedIffBelowQuota | api/internal/infrastructure/ratelimit/limiter.go:22-35 | A call is admitted exactly when fewer than quota calls were admitted in the window before it. |
| RateLimit.QuotaHolds | api/internal/infrastructure/ratelimit/limiter.go:15-36 | Every half-open interval of the window's length holds at most quota admitted calls. |
| RateLimit.NothingInWindowIsLost | api/internal/infrastructure/ratelimit/limiter.go:22-34 | Neither trimming nor key expiry drops an entry still in the window. |
| RateLimit.RetryAfterInRange | api/internal/infrastructure/ratelimit/limiter.go:24-31 | A rejected caller is told 1 to period seconds: the time until the oldest counted call leaves the window, rounded up. |
| RateLimit.RetryAfterSuffices | api/internal/infrastructure/ratelimit/limiter.go:24-31 | Waiting that long, with no other call on the key admitted meanwhile, gets the caller admitted. |
| RateLimit.QuotaPerUserAndScope | api/internal/infrastructure/ratelimit/limiter.go:52-95 | For the limiter as a whole: in every interval of the period's length each user gets at most the chat quota through on the three chat paths together, the retrieval quota on the search path, and the upload quota on the upload path, whatever anybody else calls. |
| RateLimit.AdmittedByOwnCalls | api/internal/infrastructure/ratelimit/limiter.go:52-95 | A call is admitted exactly when its path has no quota or fewer than the quota of the user's own calls of its scope were admitted in the period before it. |
| RateLimit.KeysAreApart | api/internal/infrastructure/ratelimit/limiter.go:58-68 | Users and scopes do not interfere: each key holds what its own calls left. |
| Ranking.SortStable | api/internal/service/retrieval/citations.go:23-28 | Insertion sort in place has the effect of the stable sort. |
| Ranking.SortSorts | api/internal/service/retrieval/citations.go:23-28 | The stable sort sorts by any weak order. |
| Ranking.SortPermutes | api/internal/service/retrieval/citations.go:23-28 | It permutes its input. |
| Ranking.SortIsStable | api/internal/service/retrieval/citations.go:23-28 | Hits that rank level keep their order. |
| Fusion.NormalizeScores | api/internal/service/retrieval/scoring.go:126-143 | Both arrays end up as their min-max normalisations, in place. |
| Fusion.NormalizedKeepsOrder | api/internal/service/retrieval/scoring.go:126-143 | Normalised scores lie in [0, 1], order is that of the raw scores both ways, the best hit scores 1, and only scores change. |
| Fusion.NormalizedIsLinear | api/internal/service/retrieval/scoring.go:131-141 | Normalising is the linear map from worst to 0 and best to 1; level scores all become 1. |
| Fusion.MergeHits | api/internal/service/retrieval/scoring.go:100-116 | The loop with its index map merges the two lists as specified. |
| Fusion.MergedIds | api/internal/service/retrieval/scoring.go:100-116 | Merged ids are distinct and exactly those of the inputs. |
| Fusion.MergedScores | api/internal/service/retrieval/scoring.go:106-107 | Scores stay in [0, 1] and no input outscores the entry it was merged into. |
| Fusion.LoneHitUnchanged | api/internal/service/retrieval/scoring.go:111-112 | A hit found once is passed on unchanged. |
| Fusion.FoundTwice | api/internal/service/retrieval/scoring.go:105-110 | A hit found twice appears once, as the earlier one, with the better raw score, 0.1 above the better score up to 1, and source hybrid. |
| Fusion.LimitInPlace | api/internal/service/retrieval/scoring.go:118-124 | Sorts in place only when it has to drop something. |
| Fusion.LimitKeepsBest | api/internal/service/retrieval/scoring.go:118-124 | Kept and dropped partition the input, exactly limit are kept when there are more, and no dropped hit outscores a kept one. |
| Fusion.FusionIsSound | api/internal/service/retrieval/search.go:208-209 | Normalised and merged: distinct ids, exactly the union of both lists, scores in [0, 1], each at least what each list gave it. |
| Fusion.FusionBoosts | api/internal/service/retrieval/search.go:208-209 | A chunk found in both lists is passed on as the keyword hit with the boosted score; a keyword hit found in one list only with its normalised score. |
| Fusion.FusionKeepsLone | api/internal/service/retrieval/search.go:208-209 | So is a vector hit that is no keyword hit. |
| Fusion.Fuse | api/internal/service/retrieval/search.go:208-210 | The three operations in the order the search runs them. |
| Trimming.NormalizePolicy | api/internal/service/retrieval/citations.go:52-66 | The result is usable; each field that was usable is kept, and each other one has its default. |
| Trimming.Filter | api/internal/service/retrieval/citations.go:30-48 | The loop with its two maps and its early exit selects as specified, that is greedily: see `SelectionIsGreedy` and `GreedyIsUnique`. |
| Trimming.SelectionIsGreedy | api/internal/service/retrieval/citations.go:30-48 | The selection keeps ranking order, respects limit and document cap, has no duplicates and no score below the absolute threshold or the relative share of the best; and each hit left out is below one of the two, or crowded out by the hits kept before it: by a full selection, a full document, or a duplicate. |
| Trimming.GreedyIsUnique | api/internal/service/retrieval/citations.go:30-48 | There is only one selection like that. |
| Trimming.SignatureMeans | api/internal/service/retrieval/citations.go:103-109 | Within a document, two hits are duplicates exactly when their simplified sections agree and their simplified contents agree on the first 80 characters, unless a section holds the separator. |
| Trimming.AdjacentIndex | api/internal/service/retrieval/citations.go:87-94 | The first neighbour of the same document and section, or -1. |
| Trimming.MergeAdjacentChunks | api/internal/service/retrieval/citations.go:68-85 | The loop merges neighbours as specified. |
| Trimming.JoinsFirstNeighbour | api/internal/service/retrieval/citations.go:68-85 | A chunk goes into the first entry it is a neighbour of, in document order, with the first index and the better score; only a chunk without a neighbour opens an entry. |
| Trimming.MergingPartitions | api/internal/service/retrieval/citations.go:68-85 | Every input is in exactly one output; an output is the newline-join, in document order, of consecutive chunks of one document and section, at the index of the first and with the score of the best. |
| Trimming.MergingKeepsCaps | api/internal/service/retrieval/citations.go:68-85 | Merging a ranked list adds no entry, in all or per document, keeps it ranked, and lowers no score below the last input's. |
| Trimming.TrimEffectiveChunks | api/internal/service/retrieval/citations.go:18-50 | Sorting in place, selecting and merging together; the array keeps its elements; what the list respects is `EffectiveRespectsPolicy`. |
| Trimming.EffectiveRespectsPolicy | api/internal/service/retrieval/citations.go:18-50 | For every input the final list is ranked, respects limit and cap, and holds no score below the absolute threshold or below the relative share of any retrieved hit's score. |
| Trimming.RankingIs | api/internal/service/retrieval/citations.go:23-28 | The ranking behind it permutes the hits, better scores first and of equal scores the earlier chunk. |
| Trimming.EffectivePartitions | api/internal/service/retrieval/citations.go:18-94 | For hits at distinct places with clean contents, the final list shows a partition of exactly the selected hits into runs of consecutive chunks. |
| AnswerLayout.NormalizeAnswer | agent/src/enterprise_agent/citations.py:11-20 | The loop over lines computes the specified layout. |
| AnswerLayout.NormalizedKeepsInk | agent/src/enterprise_agent/citations.py:11-20 | Nothing but white space is added, dropped or moved. |
| AnswerLayout.WordIsKept | agent/src/enterprise_agent/citations.py:11-20 | Of a single word in any amount of white space and line ends, exactly the word remains. |
| AnswerLayout.NormalizedIsTidy | agent/src/enterprise_agent/citations.py:11-20 | The lines are the stripped lines of the answer, less the blank ones at both ends and all but the first of each run of blank ones in between. |
| AnswerLayout.SplitJoins | agent/src/enterprise_agent/citations.py:12 | The lines of a text, joined, are the text. |
| Citations.FindAllReadsTokens | agent/src/enterprise_agent/citations.py:7-8 | Searching one pattern finds exactly the references of that kind in the text as read with both patterns. |
| Citations.ReferencesAreWritten | agent/src/enterprise_agent/citations.py:7-8 | A text starts with a reference exactly when it starts with the bracketed word of its kind and one or more digits. |
| Citations.StructureMeans | agent/src/enterprise_agent/citations.py:41-77 | The check supports an answer if and only if it is a refusal, or its text as read makes a reference of either kind and every reference is in range for its kind; references are missing exactly when an answer that is no refusal makes none, and invalid exactly when it makes some and one is out of range. |
| Citations.RefusalIff | agent/src/enterprise_agent/citations.py:80-82 | An answer is a refusal exactly when it is one of the three texts, followed by any stops, within white space. |
| Citations.RenumberTokens | agent/src/enterprise_agent/citations.py:94-102 | Substituting new numbers creates, splits and loses no reference of either kind and leaves all other text alone. |
| Citations.ReferenceIndexes | agent/src/enterprise_agent/citations.py:85-91 | The loop collects the distinct in-range indexes in order of first appearance. |
| Citations.RemapRenumbers | agent/src/enterprise_agent/citations.py:94-102 | When every reference is in range, remapping deletes nothing. |
| Citations.NewNumbersAreInOrder | agent/src/enterprise_agent/citations.py:85-102 | The new numbers, in order of first appearance, are exactly 1 to the number of selected sources. |
| Citations.BothRemapped | agent/src/enterprise_agent/citations.py:32-35 | Remapping one kind after the other does to each what it would do alone. |
| Citations.SelectionIsGrounded | agent/src/enterprise_agent/citations.py:23-82 | After a structure check that supports the answer, which is the case as `StructureMeans` says: a refusal without sources, or an answer that is no refusal, cites at least one source and numbers its sources in order; the text is the same and each reference names the source it named. |
| Citations.RefusalsStayRefusals | agent/src/enterprise_agent/citations.py:80-82 | An answer that reads as a refusal still does when its layout has been normalised, so selection never turns one into an answer. |
| UncheckedSelection.SelectionIsCleanIff | agent/src/enterprise_agent/citations.py:23-38 | Selection without the check leaves exactly the answer's text and its references with a source, renumbered, if and only if dropping the other references brings no letters together that spell a reference. |
| UncheckedSelection.CleanSelectionIsGroundedIff | agent/src/enterprise_agent/citations.py:23-38 | Then it is grounded exactly when some source is cited or nothing but the refusal is left. |
| UncheckedSelection.CheckedSelectionIsClean | agent/src/enterprise_agent/citations.py:41-77 | A structure check that supports the answer, as `StructureMeans` says when, is enough for that. |
| UncheckedSelection.ReadNeverSpells | agent/src/enterprise_agent/citations.py:7-8 | In a text that has been read into references and letters, letters in a row never spell a reference. |
| UncheckedSelection.SelectionNeedsTheCheck | agent/src/enterprise_agent/citations.py:94-102 | An illustration of the other side: an out-of-range reference nested in another one is dropped and puts a new one together, so that selection alone returns a reference without a source; the structure check refuses that answer. |
| AgentGraph.RunsAreBounded | agent/src/enterprise_agent/graph.py:143-187 | Whatever is replied, with k rewrites allowed at most 4k+6 nodes, k+1 searches and two answer requests. |
| AgentGraph.RunsEnd | agent/src/enterprise_agent/graph.py:143-187 | Some first part of any long enough list of replies, given to the nodes one by one, takes the run to the end node, after 4k+6 nodes in all at the latest. |
| AgentGraph.EveryRunWithinBudget | agent/src/enterprise_agent/graph.py:357-441 | At each node, a bound on nodes, searches and answers in terms of the rewrites made. |
| AgentGraph.FinishedRunsAreGrounded | agent/src/enterprise_agent/graph.py:503-650 | Every finished run is grounded, its sources come from the last tool replies and stay within the citation limit, it is answered exactly when it cites something, and it answers only on evidence: sufficient for retrieval, complete coverage for an overview, content for both tools. |
| AgentGraph.EveryRunSourced | agent/src/enterprise_agent/graph.py:253-260 | At each node, where the sources of the state come from and what was established before it. |
| AgentGraph.ShownSources | agent/src/enterprise_agent/graph.py:455-464 | A candidate answer stands beside the first sources of the last tool replies, on evidence. |
| AgentGraph.AnsweredBySupport | agent/src/enterprise_agent/graph.py:517-575 | An answered run ends with synthesis and validation; it settles on the model's reply to synthesis or on its one repair, which passed the structure check and which the model's own validation called supported. |
| AgentGraph.AnsweredExactlyWhen | agent/src/enterprise_agent/graph.py:253-260 | A finished run is answered if and only if validation was convinced: by the model's reply, or by its repair when the reply did not pass; and it ends without validation if and only if it was refused for lack of evidence, at a tool that brought nothing or an incomplete overview, or at an evaluation that was not satisfied with no rewrite asked for or left. |
| AgentGraph.SearchesForWanted | agent/src/enterprise_agent/graph.py:422-441 | Each retrieval searches for the query wanted last: the planned one or the question at first, and after a rewrite the advice of the evaluation before it, or the model's own when there was none. |
| AgentGraph.AnswersAreTheModels | agent/src/enterprise_agent/graph.py:542-546 | The final answer of a run is the text of that reply, each reference naming the source it named among those shown, which are the first ones of the last tool replies. |
| AgentGraph.SourcesAreNumbered | agent/src/enterprise_agent/graph.py:696-722 | Before it is cut, the context of a prompt shows every chunk and every link under the number by which it is cited. |
| AgentGraph.ContextFits | agent/src/enterprise_agent/graph.py:696-722 | The context is never longer than its limit. |
| AgentGraph.ContextIsNotEmpty | agent/src/enterprise_agent/graph.py:702-722 | With any tool content or source the context is not empty, for every positive limit. |
| AgentGraph.SynthesisAsks | agent/src/enterprise_agent/graph.py:466-489 | A run that reaches synthesis has a context and asks for an answer: the refusal for an empty context is never taken. |

## Left out

- HTTP handlers, streaming transports, message broker, object store, vector store, model and credential clients: they appear as arbitrary replies, sets and sequences.
- Dead letters, tracing, metrics, event payloads and log messages, and the retrieval metrics a tool reply carries: they do not influence the modelled behaviour.
- Parser heuristics, keyword scoring, token overlap reranking, query planning, summaries, keywords and content hashes of chunk rows: no property depends on them; merged hits keep the fields the modelled code reads.
- Text classification of errors in `shouldAutoRetry`: every failure may be of any class.
- Reading a processing mode out of task metadata: the mode is a field of the task.
- Handlers as sequential methods: they run concurrently, so they are program counters; `IndexDatabase` has the statements they call as methods.
- Listing, clearing and filename queries, clear-failed and subject deletion: clear-failed lists, deletes vectors and clears rows in separate steps, so index agreement is stated for runs without it.
- "A deleted document has no rows or vectors": an embedding step in flight can write after the deletion.
- Mutual exclusion of handler bodies after a lease has expired: recovery has no fencing token, so only claims are proved exclusive.
- That tasks do get done: the results of `IndexProgress` say that they can be, with nothing failing; delivery limits and conflicts in failure recording mean that a task can be left behind.
- Unsubscribing in `Close`, and `Close` before `Start` has returned: whether the outbox loop was started is fixed before the first step of `Shutdown`.
- Isolation of attempts across a resume: a late failure can touch the next attempt of the same run.
- Errors of the database driver in `runrepo.go`, and of Redis in `limiter.go`: they change nothing and are returned.
- Floating-point rounding and values that are not numbers: scores are real numbers.
- Text simplification for duplicate detection (case folding and punctuation) is an arbitrary function of the text.
- Python's limit on the length of digit strings: reading a longer one raises, which is a run cut short by an exception. Which characters other than 0 to 9 are decimal digits is a parameter.
- The list of invalid references a structure check returns: the graph uses only whether it is supported and the reason.
- Checkpoints, streaming deltas, step records and the expected-route and expected-outcome metrics of the agent.
- Which exception cut a run short: a run that stops early is a history that has not reached the end node.
