# bigRAG in Dafny

A model of the parts of bigRAG whose correctness rests on interleaving, on state kept across steps
or on arithmetic, with proofs of what those parts promise, for Dafny 4.11. `dafny verify
dfyconfig.toml` checks the whole project.

Code that changes things step by step is modelled by methods and classes, each proved against a
specification function; the promises are lemmas about those functions. Code that runs concurrently is
modelled as a state machine whose steps are single Redis commands, committed row updates or bodies run
under a lock, and the promises are about every run.

| component | files |
|---|---|
| Document chunker | `Text`, `Chunks`, `RecursiveChunks`, `RecursiveStructure`, `ParagraphChunks`, `ParagraphOffsets`, `ParagraphStructure`, `ChunkDocument` |
| Embedding gate and rate-limit cooldown | `Aimd`, `LocalLimiter`, `SharedGate`, `SharedGateScripts`, `GateAgreement`, `Cooldown` |
| Ingestion queue | `IngestionJob`, `QueueRecovery`, `RecoveryRaces`, `IngestionSteps`, `IngestionAccounts`, `IngestionRuns`, `IngestionCrashes`, `IngestionStories`, `IngestionRows`, `IngestionCancellation`, `IngestionProgress`, `IngestionWorker` |
| Chat stream, its printer and its two readers | `SseFormat`, `SseSdkParser`, `SseRoundTrip`, `SseAppParser`, `ChatStream` |
| UUIDv7 generator (sections 5.7 and 6.2 of RFC 9562) | `Uuid7` |
| Idempotency middleware | `IdempotencyBodies`, `Idempotency` |
| Batch deletion | `BatchDelete` |

`Options` holds the option type the other files share, `Selection` what it means to keep some elements of a
sequence in order.

## Findings

Statements about the code that are false as one would first write them, each with its exact condition
or the step that breaks it:

- The SDK's parser drops the pending frame of a stream that ends in an open line of exactly two
  carriage returns, and of no other stream (`SseSdkParser.ParseMissesAFrame`, `SseSdkParser.FrameMissed`).
- Identifiers increase strictly exactly until the greatest UUIDv7 value has been issued; then the
  counter wraps to the first (`Uuid7.RunIncreases`, `Uuid7.NextWraps`).
- The queue's counter is right in every state of a run, and no release meets the clamp at zero, if and
  only if recovery never sends again an entry whose worker died between its release and a new admission,
  after it had sent its retry, or while leaving (`IngestionRuns.BooksAreRightIff`). A run that reaches the
  clamp exists for every job with an attempt to spare (`IngestionCrashes.ClampIsReached`). A death between
  a refused count and its taking back leaves the counter right, but lets the places held exceed the limit
  by one for each such death (`IngestionRuns.CounterIsExact`, `IngestionCrashes.LimitIsExceeded`).
- Cancelling a collection leaves a job able to write "ready" if and only if it is about to write it, or
  about to make its last look at a document epoch that is still as captured
  (`IngestionCancellation.CancellationComesInTimeIff`).
- Recovery passes that overlap each return an entry that is stale: it comes back once for every pass that
  began before it was first taken off the list (`RecoveryRaces.ReturnedOnceIff`). A pass that read the list
  before a run ended well returns that job too, because the lease is gone when it looks
  (`RecoveryRaces.FinishedJobComesBack`).
- A chat answer that is closed as complete is the model's whole answer if and only if no read of a delta
  timed out: the timeout that sends a heartbeat ends the model's stream (`ChatStream.AnswerIsWholeIff`),
  and a reader cannot tell (`ChatStream.ReaderSeesACutAnswer`).
- A processing entry that is JSON but not an object stops the whole recovery pass: the error it raises
  is not among those the pass catches (`QueueRecovery.Stores.RecoverStuckJobs`).
- A request whose second look finds the key empty runs its handler without a sentinel, so the next
  request runs it too; a failed execution is enough to get there (`Idempotency.SecondLookLetsTwoIn`,
  `Idempotency.FailureLeavesTheKeyEmpty`).
- The fallback `idx = cursor` of the paragraph loop is never needed: `find` always succeeds, at the
  place where the split cut (`ParagraphOffsets.EveryParagraphIsFound`).

## Assumptions of the queue model

- Recovery takes only entries of workers that died. The code ensures this neither between the push of an
  entry and the setting of its lease, nor for passes that overlap with other passes or with the end of a
  run; what those do is in `RecoveryRaces`.
- What a finalizer does besides admission, row updates and the list (statistics, events, staged files,
  cache invalidation) does not raise, and a retry's message can be sent.
- A retry's message becomes visible only after the finalizer that sent it is done or its worker has died;
  its delay is at least two seconds.
- The broker delivers each message once; a recovery pass does not die.
- A worker dies only while its job's entry is in the processing list, at any point of the run or the
  finalizer; a death before the push is the broker's to repair.
- The queue's maximum depth and a job's identity do not change.

## Model

| member | source | states |
|---|---|---|
| RecursiveChunks.SplitText | api/bigrag/services/ingestion.py:135-185 | the loop over the parts of a split, with its open chunk and cursor, computes the recursive specification: greedy groups, each split at its own offset by the remaining separators |
| RecursiveChunks.SliceText | api/bigrag/services/ingestion.py:150-164 | the last resort cuts fixed-width slices and drops the blank ones |
| RecursiveChunks.RecursiveChunkText | api/bigrag/services/ingestion.py:128-187 | a blank text or a chunk size of zero or less gives no chunks; anything else the split by all five separators |
| RecursiveChunks.ConcatGroups | api/bigrag/services/ingestion.py:166-185 | packing pieces into groups keeps every character in order and makes no empty group |
| RecursiveChunks.GroupsAreMaximal | api/bigrag/services/ingestion.py:173-181 | packing is greedy: no two neighbouring groups would have fitted together |
| RecursiveChunks.RecursiveChunksTile | api/bigrag/services/ingestion.py:128-187 | the chunks of any text tile it: exact stripped slices of at most the chunk size in order, with only whitespace before, between and after, and the same non-whitespace characters |
| RecursiveStructure.StructureIsKept | api/bigrag/services/ingestion.py:133-187 | a paragraph, a line of one that is too long, a sentence of such a line or a word of such a sentence is not divided if it fits with its separator; one that does not fit shares no chunk with its surroundings, its own parts are packed greedily, and a word that is too long is cut every chunk size |
| RecursiveStructure.ParagraphsStayWhole | api/bigrag/services/ingestion.py:133-187 | the same of paragraphs, chunk by chunk: one that fits meets at most one chunk, and no chunk reaches over the border of one that does not |
| RecursiveStructure.OnlyLongWordsAreCut | api/bigrag/services/ingestion.py:133-187 | a cut between two adjacent non-whitespace characters divides a word that is longer than a chunk, at a multiple of the chunk size from its beginning |
| Chunks.TilesExactly | api/bigrag/services/ingestion.py:135-187 | what tiling means chunk by chunk: exact slices, pairwise disjoint and ordered, and every character outside all of them is whitespace |
| ParagraphChunks.SplitOversizedSentence | api/bigrag/services/ingestion.py:29-43 | all slices of a long sentence but the last are emitted, the last is carried with its offset |
| ParagraphChunks.SplitOversizedParagraph | api/bigrag/services/ingestion.py:46-78 | the sentence loop, with its cursor, carry and flushes, computes the packing specification |
| ParagraphChunks.ParagraphChunkText | api/bigrag/services/ingestion.py:81-125 | the paragraph loop computes the packing specification and flushes what is left |
| ParagraphChunks.PackStepKeepsInk | api/bigrag/services/ingestion.py:59-77 | adding a part adds exactly its non-whitespace characters, whether it is merged, starts anew or is cut |
| ParagraphChunks.SentencesKeepInk | api/bigrag/services/ingestion.py:52-52 | turning ". " into ".\n" and splitting at line feeds loses no non-whitespace character |
| ParagraphChunks.ParagraphChunksKeepInk | api/bigrag/services/ingestion.py:81-125 | the paragraph strategy keeps all non-whitespace characters of the document in order and adds none |
| ParagraphChunks.ParagraphChunksFit | api/bigrag/services/ingestion.py:81-125 | no chunk of the paragraph strategy exceeds the chunk size |
| ParagraphStructure.ParagraphsAreJoined | api/bigrag/services/ingestion.py:92-120 | neighbouring paragraphs that fit are joined by a blank line in one chunk, or the second begins a chunk because it did not fit behind what was collected |
| ParagraphStructure.ParagraphIsHeld | api/bigrag/services/ingestion.py:92-120 | a paragraph that fits stands in one chunk, undivided |
| ParagraphStructure.SentencesAreJoined | api/bigrag/services/ingestion.py:52-78 | the same of the sentences of a paragraph that is too long, joined by a space |
| ParagraphStructure.LongSentencesAreSliced | api/bigrag/services/ingestion.py:29-43 | a sentence that is too long is cut every chunk size, one chunk to a slice, the last slice beginning one |
| ParagraphOffsets.EveryParagraphIsFound | api/bigrag/services/ingestion.py:85-100 | of every text, every paragraph is found by the loop's search, from the loop's cursor, exactly where the split cut it, and stripped it lies at the start the loop computes; the fallback is never taken |
| ParagraphOffsets.ParagraphSpansInOrder | api/bigrag/services/ingestion.py:81-125 | paragraph chunks come in order, report spans as long as their text or shorter ones after merging, do not overlap and stay inside the document |
| ChunkDocument.ApplyOverlap | api/bigrag/services/ingestion.py:190-212 | the loop puts the end of each predecessor's own text in front, never that of an already merged one |
| ChunkDocument.OverlappedMeans | api/bigrag/services/ingestion.py:197-204 | what goes in front is a suffix of the predecessor's text that does not start inside a word; the start moves back by the window and the space, but not below zero, the end stays, and the text grows by at most the overlap and a space |
| ChunkDocument.OverlapPromise | api/bigrag/services/ingestion.py:190-212 | overlap keeps the count, every end and each original text as a suffix, puts such a bridge before every chunk but the first, and bounds every start and length |
| ChunkDocument.ChunkText | api/bigrag/services/ingestion.py:215-226 | the strategy named recursive is the recursive one, any other name the paragraph one; then overlap |
| ChunkDocument.RecursivePromise | api/bigrag/services/ingestion.py:128-187 | the recursive strategy through the entry point: non-empty exact slices of at most the chunk size, ordered, disjoint, and nothing but whitespace outside |
| ChunkDocument.ContentIsKept | api/bigrag/services/ingestion.py:215-226 | both strategies keep the document's non-whitespace characters, in order |
| ChunkDocument.BarePromise | api/bigrag/services/ingestion.py:215-226 | both strategies give chunks within the chunk size, in order and inside the document |
| ChunkDocument.ChunkDocumentPromise | api/bigrag/services/ingestion.py:215-226 | end to end: overlap changes neither count nor ends, spans stay inside the document, and no text exceeds chunk size, overlap and one |
| Aimd.RaisedByAtMostOne | api/bigrag/services/embedding_gate.py:92-96 | a success raises the whole number of places by at most one and never past the ceiling |
| Aimd.StepMeans | api/bigrag/services/embedding_gate.py:92-106 | a success adds the inverse of the limit up to the ceiling; a rate limit more than a second after the last decrease halves it, not below one; a sooner one changes nothing |
| Aimd.SquareBounds | api/bigrag/services/embedding_gate.py:49-56 | after k successes the square of the limit lies between min(C², L² + 2k) and L² + 3k |
| Aimd.RecoveryTime | api/bigrag/services/embedding_gate.py:92-96 | how many successes full recovery takes, from both sides |
| Aimd.RunOfSuccesses | api/bigrag/services/embedding_gate.py:92-96 | a run of the automaton over k successes is k raises |
| Aimd.HalvingsApart | api/bigrag/services/embedding_gate.py:98-106 | on any clock, n halvings in a row span more than (n - 1) times the guard |
| Aimd.HalvingsInWindow | api/bigrag/services/embedding_gate.py:58-71 | any window of T milliseconds holds at most T/1000 + 1 halvings |
| LocalLimiter.ActIsSound | api/bigrag/services/embedding_gate.py:81-106 | every body run under the condition keeps the invariant: the counter is the number of holders, and free places never outnumber the notified waiters while anyone waits |
| LocalLimiter.ActMeans | api/bigrag/services/embedding_gate.py:81-106 | nobody is lost: a task takes a place exactly when there is one and waits otherwise, a release frees one place and wakes one waiter, and the number of tasks changes with arrivals and releases alone |
| LocalLimiter.NoLostWakeup | api/bigrag/services/embedding_gate.py:74-106 | in every reachable state without a pending notification, a waiting task means a full gate with somebody in it |
| LocalLimiter.LimitFollowsAimd | api/bigrag/services/embedding_gate.py:92-106 | over any run the limiter's limit is that of the automaton on the same events |
| LocalLimiter.Limiter.Acquire | api/bigrag/services/embedding_gate.py:81-85 | one turn of the wait loop, for a task that arrives or was woken, is the protocol's step, and enters exactly when there was room |
| LocalLimiter.Limiter.ReleasePlace | api/bigrag/services/embedding_gate.py:87-90 | a release frees one place and wakes one waiter; the clamp at zero is never used by a holder |
| LocalLimiter.Limiter.OnSuccess | api/bigrag/services/embedding_gate.py:92-96 | the limit rises by its inverse up to the ceiling and one waiter is woken |
| LocalLimiter.Limiter.OnRateLimited | api/bigrag/services/embedding_gate.py:98-106 | the limit is halved, not below one, exactly when the guard has passed, and the result says so |
| SharedGateScripts.Redis.AcquireScript | api/bigrag/services/embedding_gate.py:36-47 | the script, command by command, is the specified acquisition |
| SharedGateScripts.Redis.SuccessScript | api/bigrag/services/embedding_gate.py:49-56 | the script, command by command, is the specified raise |
| SharedGateScripts.Redis.DecreaseScript | api/bigrag/services/embedding_gate.py:58-71 | the script, command by command, is the specified decrease, and reports whether it changed anything |
| SharedGateScripts.Redis.Release | api/bigrag/services/embedding_gate.py:200-207 | a release removes its own token and leaves every other lease with its end |
| SharedGateScripts.Redis.WaitForPlace | api/bigrag/services/embedding_gate.py:177-197 | the retry loop takes the first try that succeeds, with that try's token, whatever scripts others run between the tries |
| SharedGateScripts.RoomLetsIn | api/bigrag/services/embedding_gate.py:177-197 | with any calls of others in between, a waiting caller stays out if and only if no try of it meets room under the limit |
| SharedGateScripts.WhoGetsInHoldsALease | api/bigrag/services/embedding_gate.py:177-197 | who gets in holds a lease of a minute under the token of the try that succeeded |
| SharedGateScripts.WaitingEndsWithTheLeases | api/bigrag/services/embedding_gate.py:169-197 | if no other caller acquires meanwhile, a waiting caller gets in at the latest at its first try after all leases ran out, although nobody released anything |
| SharedGate.DoIsSound | api/bigrag/services/embedding_gate.py:36-71 | every script keeps the lease set within the ceiling, every lease inside the set's own expiry, and the limit in range |
| SharedGate.RunIsSound | api/bigrag/services/embedding_gate.py:36-71 | the same for every state of every run of scripts on a clock that never goes back |
| SharedGate.LeasesFit | api/bigrag/services/embedding_gate.py:36-47 | unexpired leases never exceed the ceiling at any later time, and the expiry of the whole set discards only leases that ran out a full lease before |
| SharedGate.LeasesAlwaysFit | api/bigrag/services/embedding_gate.py:36-71 | from an empty gate, after any run of scripts and at every later moment, the unexpired leases fit under the ceiling, and a set that has expired held only leases that ran out a full lease before |
| SharedGate.AcquireDecides | api/bigrag/services/embedding_gate.py:36-47 | an acquisition succeeds exactly when the unexpired leases leave room under the limit, and then adds its token alone |
| SharedGate.AcquireStores | api/bigrag/services/embedding_gate.py:36-47 | an acquisition stores a lease of a minute, keeps every unexpired one with its end, and lets the set live a minute longer than its newest lease |
| SharedGate.ReleaseEndsOneLease | api/bigrag/services/embedding_gate.py:200-207 | after a release its token is not held, and everything else is as before |
| SharedGate.ReleaseLetsTheNextIn | api/bigrag/services/embedding_gate.py:36-47 | a full gate turns the next caller away, and admits it once one holder has left |
| SharedGate.LimitScriptsKeepLeases | api/bigrag/services/embedding_gate.py:49-71 | a success and a rate limit leave all leases alone and store a limit for an hour |
| SharedGate.AbandonedGateReopens | api/bigrag/services/embedding_gate.py:36-47 | when all leases have run out the next call enters |
| SharedGate.ScriptsFollowAimd | api/bigrag/services/embedding_gate.py:49-71 | each script takes the automaton's step for its event, and halves exactly when the automaton does |
| SharedGate.RunFollowsAimd | api/bigrag/services/embedding_gate.py:49-71 | a timed run of scripts, key expiry included, is a run of the automaton |
| GateAgreement.SameLimits | api/bigrag/services/embedding_gate.py:49-106 | the limiter and the scripts hold the same limit after the same events, while the stored limit does not expire |
| Cooldown.RateLimitDelay | api/bigrag/services/embedding_rate_limit.py:84-87 | the delay asked for, where it lies between zero and a minute; a negative one counts as zero, a longer one as a minute |
| Cooldown.Ttl | api/bigrag/services/embedding_rate_limit.py:117-121 | a recorded cooldown lasts the delay and the padding, but at least the padding and at most a minute |
| Cooldown.LocalTable.Note | api/bigrag/services/embedding_rate_limit.py:132-136 | recording keeps the later of the two deadlines of its key and touches no other key |
| Cooldown.RedisKey.Note | api/bigrag/services/embedding_rate_limit.py:123-131 | the script renews the key exactly when it is gone or would expire earlier |
| Cooldown.LocalKeepsTheLatest | api/bigrag/services/embedding_rate_limit.py:132-136 | after any records the process holds the greatest recorded deadline, and it is one of them |
| Cooldown.RedisKeepsTheLatest | api/bigrag/services/embedding_rate_limit.py:122-131 | Redis holds the same deadline in whole milliseconds, although expired keys forget |
| Cooldown.DelaysAgree | api/bigrag/services/embedding_rate_limit.py:90-96 | at every moment both forms ask for the same wait to within a millisecond |
| Cooldown.WaitsEndAtTheDeadline | api/bigrag/services/embedding_rate_limit.py:90-96 | a caller waits until the recorded deadline, no longer, and not at all after it |
| IngestionJob.RoundTrip | api/bigrag/services/ingestion_job.py:35-65 | reading a serialized job gives the job back, epochs, attempt and flag included, also with unknown keys added and whatever fresh id would be drawn |
| IngestionJob.UnknownKeysAreIgnored | api/bigrag/services/ingestion_job.py:61-65 | keys that name no field change nothing, for readable and unreadable payloads alike |
| IngestionJob.SerializeIsInjective | api/bigrag/services/ingestion_job.py:35-58 | two jobs with the same bytes are the same job |
| IngestionJob.AbsentFieldsDefault | api/bigrag/services/ingestion_job.py:11-29 | a field that an older record lacks takes its default, three attempts among them, and a record without an id the fresh one |
| QueueRecovery.Stores.RecoverStuckJobs | api/bigrag/services/queue_state.py:70-99 | a pass that nobody disturbs removes what cannot be read and returns, in list order, exactly the jobs whose lease is gone or has less than 26 minutes left, leaving exactly the leased entries; a JSON value that is no object stops it |
| QueueRecovery.Stores.Recover | api/bigrag/services/queue_recovery.py:16-45 | after such a pass exactly the stale jobs whose document is pending or processing are sent again, in list order; exactly the rows of their documents read pending, and every other row is as before |
| QueueRecovery.SentAsOftenAsListed | api/bigrag/services/queue_recovery.py:29-45 | a stale job is sent again as often as it was listed if its document waits for it, and not at all otherwise |
| QueueRecovery.EveryEntryIsInOnePart | api/bigrag/services/queue_state.py:70-99 | as multisets, the list is the malformed entries plus the leased ones plus the stale ones |
| QueueRecovery.StaleJobsComeBackUnchanged | api/bigrag/services/queue_state.py:70-99 | on a list of pushed jobs nothing is malformed, and each stale job is returned as often as it is listed, with every field as pushed |
| RecoveryRaces.LooksDecide | api/bigrag/services/queue_state.py:71-99 | however passes, workers and the clock interleave, a pass returns exactly the entries it saw whose lease was stale at its own look, whatever became of the entry since |
| RecoveryRaces.UndisturbedPass | api/bigrag/services/queue_state.py:71-95 | where the leases stand still, that is what a pass alone returns |
| RecoveryRaces.OncePerSighting | api/bigrag/services/queue_state.py:71-99 | once all passes are through, a job whose lease no look found alive was returned exactly as often as passes saw it listed, although workers push and remove entries meanwhile |
| RecoveryRaces.ReturnedOnceIff | api/bigrag/services/queue_state.py:71-99 | a dead worker's entry comes back once for every pass that began before it was first taken, so once if and only if exactly one did |
| RecoveryRaces.FinishedJobComesBack | api/bigrag/services/queue.py:219-227 | a run that ends well between a pass's reading of the list and its look at the lease is returned all the same, and sent again if its row is pending |
| IngestionAccounts.StepMovesCounter | api/bigrag/services/queue_state.py:28-43 | every step moves the shared counter by what its job owes more or less, what a dead worker leaves behind included, and gives a place only within the limit |
| IngestionAccounts.StepMovesList | api/bigrag/services/queue.py:213-226 | every step moves the processing list by its own job's entry |
| IngestionAccounts.StepKeepsPlace | api/bigrag/services/queue.py:95-108 | admissions and releases of a job alternate, and its flag tells which came last |
| IngestionAccounts.StepKeepsAttempt | api/bigrag/services/queue_processing.py:49-49 | the attempt is the number of finished runs plus the one going on, and the listed record is the one before that run |
| IngestionAccounts.StepKeepsRunsLeft | api/bigrag/services/queue_processing.py:141-177 | a retry is only on its way while attempts are left |
| IngestionAccounts.ApplyIsSound | api/bigrag/services/queue_state.py:28-99 | every event of the system, by any job, by a worker's death or from outside, keeps the list exact, and the counter and the places in step up to the unbacked returns and the deaths above the limit, counted job by job |
| IngestionRuns.AdmissionIsBounded | api/bigrag/services/queue.py:84-141 | in every reachable state, deaths at any point included, the places held and lost exceed the limit at most by the deaths above the limit and the unbacked returns, and a job with the broker is flagged exactly when it holds none |
| IngestionRuns.BooksAreRightIff | api/bigrag/services/queue_finalize.py:119-142 | the counter is the places held, being taken back and lost in every state of a run, and no release meets the clamp, if and only if recovery never sends again an entry whose worker died without its place or after sending the retry |
| IngestionRuns.UnbackedDeaths | api/bigrag/services/queue_finalize.py:119-142 | which deaths those are: after the release, after a refused admission, after the retry was sent, and while leaving |
| IngestionRuns.CounterIsExact | api/bigrag/services/queue_state.py:28-43 | after a run without them the counter is exact, and the places exceed the limit by no more than the deaths between a refused count and its taking back |
| IngestionRuns.NoReleaseMeetsTheClamp | api/bigrag/services/queue_state.py:38-43 | after such a run every release finds the counter above zero and takes one off |
| IngestionCrashes.ClampIsReached | api/bigrag/services/queue_finalize.py:119-142 | for every job with an attempt to spare there is a run, with one death after the retry was sent, in which a release finds the counter at zero |
| IngestionCrashes.LimitIsExceeded | api/bigrag/services/queue_state.py:28-35 | with a limit of one, a death between a refused count and its taking back leads to two jobs that hold a place, although nothing came back unbacked |
| IngestionRuns.ListHoldsWhatWasPushed | api/bigrag/services/queue.py:210-227 | in every reachable state the list is, as a multiset, the entries of the jobs between push and removal, dead workers' included, with the attempt they were pushed with |
| IngestionRuns.AttemptsAndPlacesAddUp | api/bigrag/services/queue_finalize.py:22-202 | a job, or a retry its dead worker left behind, finishes at most max_attempts runs (one at least); when it is over, admissions and unbacked returns were each followed by one release; a retry under way holds exactly one place |
| IngestionStories.HowRunsEnd | api/bigrag/services/queue_finalize.py:22-202 | the exact effects, in order, of each ending and of a retry: a cancelled run asks for vector deletion and writes failed, a permanent failure is buried, every ending releases once, a retry releases before it is admitted and is admitted before it is sent |
| IngestionRows.EffectsNameTheirWrites | api/bigrag/services/queue_processing.py:75-122 | a step that tells of a write to the row has written just that status, "ready" only over "processing"; other steps of a run write no row |
| IngestionRows.RowSaysHowItEnded | api/bigrag/services/queue_finalize.py:85-196 | in any interleaving that leaves a job's row to it, the row of an ended job reads ready if it succeeded and failed if not, and pending while its retry leaves, through deaths, deferrals and retries |
| IngestionCancellation.StoppedForGood | api/bigrag/services/queue_state.py:127-133 | a job whose captured epoch has been passed stays stopped, with the retries it leaves behind, through deaths and recovery: no later check finds both epochs as captured, and none of its messages writes ready again |
| IngestionCancellation.CancellationIsFinal | api/bigrag/services/queue_state.py:136-144 | after any history, a cancellation of the collection or document that comes before a job's last look at that epoch, in all its messages, stops it for good |
| IngestionCancellation.CancellationIsFinalForOne | api/bigrag/services/queue_state.py:136-144 | the same for one message of a job, whatever becomes of the others |
| IngestionCancellation.CancellationComesInTimeIff | api/bigrag/services/queue_processing.py:108-122 | in any reachable state, after a cancellation of its collection some continuation has a job write ready if and only if it is about to write, or about to look at a document epoch that is as captured |
| IngestionProgress.StepsDescend | api/bigrag/services/queue_processing.py:49-177 | each step a job takes undisturbed brings it nearer to its end, counted in runs left and phases left |
| IngestionProgress.SomeStepIsEnabled | api/bigrag/services/queue_processing.py:73-177 | a job has no step left exactly when it has ended, was rejected or was dropped |
| IngestionProgress.StepsAreBounded | api/bigrag/services/queue_processing.py:141-177 | without crashes, deferrals and full queues a job takes at most 33 steps per attempt left and 32 more, however others interleave |
| IngestionWorker.PathsAreRuns | api/bigrag/services/queue.py:210-227 | what the methods below do is a run of the whole system |
| IngestionWorker.IngestionQueue.AdmitInflight | api/bigrag/services/queue_state.py:28-35 | a place exactly when the counter was below the limit; otherwise the counter ends where it was |
| IngestionWorker.IngestionQueue.ReleaseInflight | api/bigrag/services/queue_state.py:38-43 | one less, but not below zero |
| IngestionWorker.IngestionQueue.Enqueue | api/bigrag/services/queue.py:110-127 | a new job captures both epochs and is sent with a place, or is rejected and leaves the counter as it was |
| IngestionWorker.IngestionQueue.DeferAdmittedJob | api/bigrag/services/jobs/actors.py:104-107 | during maintenance the place is given back once, the flag set, and the job sent again |
| IngestionWorker.IngestionQueue.RestoreDeferredAdmission | api/bigrag/services/queue.py:100-108 | a flagged job gets a place and loses the flag, or is sent again unchanged when the queue is full |
| IngestionWorker.IngestionQueue.EnsureJobCurrent | api/bigrag/services/queue_state.py:127-133 | passes exactly when both epochs are those the job captured |
| IngestionWorker.IngestionQueue.DoTheWork | api/bigrag/services/queue_processing.py:73-122 | the run up to its write of ready: cancelled when an epoch is stale, failed with what was raised, or done with the row ready where it was processing |
| IngestionWorker.IngestionQueue.FinalizeCancelled | api/bigrag/services/queue_finalize.py:66-96 | the document's row reads failed, every other row is as before, and the place is given back |
| IngestionWorker.IngestionQueue.FinalizeRetry | api/bigrag/services/queue_finalize.py:99-155 | a retry keeps one place and its row reads pending; on a full queue the row reads failed and no place is held; every other row is as before |
| IngestionWorker.IngestionQueue.FinalizePermanent | api/bigrag/services/queue_finalize.py:158-202 | the job is buried, its row reads failed, every other row is as before, and the place is given back |
| IngestionWorker.IngestionQueue.FinalizeSuccess | api/bigrag/services/queue_finalize.py:22-63 | the place is given back |
| IngestionWorker.IngestionQueue.ProcessLeasedJob | api/bigrag/services/queue.py:210-227 | from push to removal: the outcome for every stale epoch, fault and fill level; the row reads ready, pending or failed by it and every other row is as before; the counter, the attempt, and the list as it was before |
| SseSdkParser.Parser.ConsumeLine | sdks/typescript/src/sse.ts:22-37 | one line changes the pending event and yields at most one frame as specified |
| SseSdkParser.ParseSSEFrames | sdks/typescript/src/sse.ts:6-57 | for every way of cutting a text into chunks, the frames are those of the whole text |
| SseSdkParser.YieldedFramesStay | sdks/typescript/src/sse.ts:44-51 | frames already yielded do not depend on what comes later |
| SseSdkParser.ParseIsBlocks | sdks/typescript/src/sse.ts:16-57 | the frames are those of the blocks between blank lines, the last, unterminated one included, except when the text ends in an open line of two carriage returns |
| SseSdkParser.ParseMissesAFrame | sdks/typescript/src/sse.ts:54-57 | a frame is missed if and only if the open line is two carriage returns and the pending block holds a payload |
| SseSdkParser.FrameMissed | sdks/typescript/src/sse.ts:54-57 | such a stream exists: one data line, a line feed and two carriage returns |
| SseRoundTrip.StreamRoundTrip | api/bigrag/services/chat/formatting.py:17-23 | printed events with heartbeats anywhere between them and the sentinel at the end are read back by the SDK exactly, in order |
| SseRoundTrip.CutStream | sdks/typescript/src/sse.ts:40-52 | a stream cut off anywhere has yielded a prefix of the events |
| SseAppParser.ParseFrame | app/src/lib/chat-stream.ts:82-105 | the loop over the lines of a frame computes name and payload, and nothing, the sentinel or an event from them |
| SseAppParser.FrameMeans | app/src/lib/chat-stream.ts:82-105 | a frame is nothing without a payload, the end if its payload is the sentinel, an event under the last name given with its data lines joined by line feeds if that is JSON, and nothing otherwise |
| SseAppParser.StreamChat | app/src/lib/chat-stream.ts:46-80 | the events delivered are those of the text up to the chunk that completes the sentinel, or of all of it; when nothing follows the sentinel, how the text was cut makes no difference |
| SseAppParser.StreamRead | app/src/lib/chat-stream.ts:46-105 | printed events with heartbeats and the sentinel are delivered by the app exactly, in order |
| ChatStream.StreamCompletion | api/bigrag/services/chat/completion.py:64-146 | for every stream of the model, every timeout and every leaving reader, the generator yields a heartbeat first, then exactly the frames of the turn, heartbeats aside, with the sentinel last unless the reader left |
| ChatStream.WhatArrives | api/bigrag/services/chat/completion.py:88-109 | the deltas that arrive are all of the model's, with its own ending, when no read times out; otherwise those before the slow read, and an ordinary end |
| ChatStream.AnswerIsWholeIff | api/bigrag/services/chat/completion.py:88-124 | a turn closed as complete brings the model's whole answer if and only if no read of a delta timed out; one that did leaves a shorter answer, closed as complete |
| ChatStream.ReaderSeesTheTurn | api/bigrag/services/chat/completion.py:78-124 | the SDK reads the user message, the sources, every delta in order, the message that is their concatenation, and done |
| ChatStream.ReaderSeesACutAnswer | api/bigrag/services/chat/completion.py:88-124 | after a timeout the SDK reads a message of what arrived before it, and done |
| ChatStream.TurnsThatFail | api/bigrag/services/chat/completion.py:64-146 | a model that fails gives the deltas so far and one error, a set-up that fails the error alone, both with the sentinel; a reader who leaves gets neither error nor end |
| ChatStream.ReaderSeesTheFailure | api/bigrag/services/chat/completion.py:125-146 | the SDK reads the deltas so far and the error, and neither a message nor done |
| Uuid7.Generator.NewId | api/bigrag/ids.py:41-52 | a call returns a UUIDv7 greater than the previous one, or the first one after the last |
| Uuid7.PackFields | api/bigrag/ids.py:15-22 | the fields come back from the packed integer, with version 7 and variant 2 |
| Uuid7.UnpackFields | api/bigrag/ids.py:25-28 | every UUIDv7 is the packing of its own fields |
| Uuid7.PackKeepsOrder | api/bigrag/ids.py:15-22 | integers compare exactly as (ms, rand_a, rand_b) |
| Uuid7.NextIsSuccessor | api/bigrag/ids.py:25-38 | the next value is the least UUIDv7 above, except after the greatest |
| Uuid7.NextWraps | api/bigrag/ids.py:34-38 | after the greatest value comes the first |
| Uuid7.CandidateFields | api/bigrag/ids.py:44-47 | no bit of the clock is lost before the millisecond field is exhausted |
| Uuid7.IssueIsGreater | api/bigrag/ids.py:48-51 | whatever the clock, an identifier is greater than the last if and only if the last was not the greatest |
| Uuid7.RunIncreases | api/bigrag/ids.py:41-52 | a run increases strictly if and only if the greatest value is issued at most as its last |
| Uuid7.RunDrift | api/bigrag/ids.py:48-51 | a run gets ahead of its clock by at most one counter step per call |
| Uuid7.RunIncreasesBeforeTheEnd | api/bigrag/ids.py:41-52 | a condition on the clock and the number of calls under which all identifiers increase |
| IdempotencyBodies.ReadRequestBody | api/bigrag/middleware/idempotency.py:74-91 | the loop returns the whole body and the messages up to its end exactly when the body ends within the limit |
| IdempotencyBodies.ReplayReceive.Receive | api/bigrag/middleware/idempotency.py:98-106 | the messages come again in order, then empty final parts |
| IdempotencyBodies.ReplayKeepsTheBody | api/bigrag/middleware/idempotency.py:98-106 | an application reading the replayed messages to the end finds the same messages and so the same body |
| IdempotencyBodies.BodiesAreInOrder | api/bigrag/middleware/idempotency.py:74-91 | a body is put together in the order of its messages |
| IdempotencyBodies.ResponseRecorder.Send | api/bigrag/middleware/idempotency.py:233-256 | recording follows every message, which is sent on unchanged |
| IdempotencyBodies.RecordingIsWholeOrNothing | api/bigrag/middleware/idempotency.py:247-255 | a recording may be cached exactly when the whole body is within 64 KiB, and then it is the whole body |
| IdempotencyBodies.LastStartCounts | api/bigrag/middleware/idempotency.py:239-246 | status and headers of a recording are those of the last start that was sent |
| Idempotency.ReplaysAreGenuine | api/bigrag/middleware/idempotency.py:194-304 | in every interleaving with expiry at any moment, a replay has status, headers and whole body of a finished 2xx execution for the same key and request body, and after the headers the mark of a replay and the length of the body sent |
| Idempotency.ReplayHasOneLength | api/bigrag/middleware/idempotency.py:293-304 | a replay carries the length of its own body and no other, the mark of a replay, and no cookie |
| Idempotency.HarmlessStay | api/bigrag/middleware/idempotency.py:268-272 | of the headers of a response exactly those that are neither a length nor a cookie are kept, in order |
| Idempotency.OutcomeIs | api/bigrag/middleware/idempotency.py:261-290 | what is stored, in plain terms: nothing after a failure, an answer that is not 2xx or a body over 64 KiB; the mark of a one-time route; otherwise status, headers and body as sent |
| Idempotency.RetryIsReplayed | api/bigrag/middleware/idempotency.py:194-290 | after a finished 2xx request, the next one with the same body gets its response again and one with another body a conflict, without a call of the handler |
| Idempotency.ExpiryForgets | api/bigrag/middleware/idempotency.py:194-217 | once the entry has expired, a request finds the key empty and runs its handler |
| Idempotency.LastingStays | api/bigrag/middleware/idempotency.py:261-290 | an entry is left behind exactly by a 2xx execution that did not raise and is small enough or of a one-time route |
| Idempotency.AtMostOnceFromTheStart | api/bigrag/middleware/idempotency.py:194-290 | if nothing expires and every execution ends in a lasting response, the handler is called at most once |
| Idempotency.ExecutionsDoNotOverlap | api/bigrag/middleware/idempotency.py:213-231 | failed executions included, executions never overlap while nothing expires and no second look finds the key empty |
| Idempotency.StoredResultRules | api/bigrag/middleware/idempotency.py:194-231 | once a result is stored with nobody executing, and until it expires, the handler is not called again, and every later answer comes from that entry: its replay if and only if it is a response to the same body, a conflict for other bodies, already completed for a one-time route |
| Idempotency.SecondLookLetsTwoIn | api/bigrag/middleware/idempotency.py:218-231 | from any state in which a second look finds the key empty, two executions can be under way |
| Idempotency.FailureLeavesTheKeyEmpty | api/bigrag/middleware/idempotency.py:288-290 | a failed execution between another request's set-if-absent and second look leads there without any expiry |
| Idempotency.Middleware.Call | api/bigrag/middleware/idempotency.py:194-290 | alone, a request is answered from the entry (a replay exactly for the same body, and otherwise the conflict that fits it), or calls the handler and leaves what its outcome calls for |
| Idempotency.AloneIsTheProtocol | api/bigrag/middleware/idempotency.py:194-290 | a request alone goes through the protocol to the same answer and entry |
| BatchDelete.BatchDeleteChunks | api/bigrag/routers/documents_batch.py:86-100 | the batches are non-empty, at most 1000 long, as few as the windows of 1000 ids, and together the ids that come first under their canonical form |
| BatchDelete.FirstOnesCoverOnce | api/bigrag/routers/documents_batch.py:86-100 | every canonical id asked for is kept exactly once |
| BatchDelete.FirstOnesComeFirst | api/bigrag/routers/documents_batch.py:86-100 | what is kept was asked for, and is the first of its form: no later id displaces it |
| BatchDelete.DeniedAreOthers | api/bigrag/routers/documents_batch.py:59-83 | permitted and denied entries add up, and no denied entry names a permitted document |
| BatchDelete.PermittedInPlainTerms | api/bigrag/routers/documents_batch.py:59-83 | exactly the documents that are asked for and allowed are permitted |
| BatchDelete.BatchAddsUp | api/bigrag/services/document_deletion.py:38-73 | in a batch, deleted and reported documents add up to the ids asked for |
| BatchDelete.DeletedOrReported | api/bigrag/services/document_deletion.py:46-73 | only documents of the collection that were asked for are deleted, and none of them is reported |
| BatchDelete.DoingsAreOrderly | api/bigrag/services/document_deletion.py:56-67 | every epoch is bumped before anything of its document is removed, and a row goes only after its file and its vectors |
| BatchDelete.Stores.DeleteBatch | api/bigrag/services/document_deletion.py:38-73 | document by document, for every pattern of faults: which rows, files and vectors go and which stay, whose epoch rises, what is reported, the count, and the order of removals |
| BatchDelete.Stores.DeleteStagedFiles | api/bigrag/services/document_deletion.py:94-123 | exactly the documents whose file could be removed go on, the others are reported |
| BatchDelete.Stores.DeleteVectors | api/bigrag/services/document_deletion.py:126-176 | all at once, or one by one when that fails; the result is exactly the documents whose vectors are gone, and no other document loses any |
| BatchDelete.Stores.BatchDeleteDocuments | api/bigrag/routers/documents_batch.py:249-264 | over all batches, only permitted documents lose rows, files, vectors or jobs, and each of them is deleted or reported; the denied are reported; deleted plus reported is the number of distinct permitted documents plus the denied entries, the count is of rows really gone, and all removals keep their order |

## Left out

- Text: characters are Dafny characters; JavaScript's UTF-16 units, the byte decoding of `TextDecoder` and its cuts inside a character are not modelled.
- ParagraphChunks.ParagraphChunkText: demands a positive chunk size, as Python's `range` refuses a step of zero.
- ParagraphOffsets.ParagraphSpansInOrder: after merging, a chunk's end may fall short of its true end, because separators are rejoined with a fixed glue; exact slices are claimed of the recursive strategy alone.
- Aimd: limits are real numbers; rounding is not modelled.
- LocalLimiter: the ceiling is constant; cancellation of a waiting task and resets while requests are in flight are not modelled.
- SharedGate: tokens are fresh and the clock does not go back; the token returned when Redis fails is not modelled.
- GateAgreement.SameLimits: supposes that the stored limit does not expire between calls, which the automaton would see as a return to the ceiling.
- Cooldown.RateLimitDelay: the reading of headers and messages is a parameter; the wait loop with its random jitter is not modelled.
- IngestionJob.RoundTrip: values of the wrong JSON type count as malformed; the dataclass takes them and fails later.
- QueueRecovery.Stores.RecoverStuckJobs: describes a pass that nobody disturbs; passes that overlap are in `RecoveryRaces`. Document ids are taken as canonical.
- RecoveryRaces.LooksDecide: entries are well-formed jobs; what an unreadable entry does to a pass is in `QueueRecovery`.
- IngestionAccounts.StepMovesCounter: a release's decrement and its repair to zero are one step.
- IngestionSteps: conversion, embedding, the replacement of elements, events and statistics are steps that succeed or raise.
- IngestionCancellation.CancellationIsFinal: the several increments of one document cancellation are one step.
- IngestionProgress.StepsAreBounded: says nothing of a job that is deferred again and again or finds the queue full each time it returns.
- IngestionWorker.IngestionQueue.ProcessLeasedJob: runs without interruption; what interruption adds is in the protocol.
- ChatStream.StreamCompletion: the model's stream fails over to another credential inside itself, which is not modelled; a delta that arrives while its read is being cancelled counts as not sent.
- Uuid7: bit operations on fields that do not overlap are written as sums, products and remainders.
- Idempotency.ReplaysAreGenuine: the hash of a request body is the body; the byte-for-byte claim is for bodies that survive decoding and encoding, as valid UTF-8 does.
- Idempotency: routes, principals and the tests that let a request bypass the middleware are not modelled; a key stands for all of them.
- IdempotencyBodies.ReadRequestBody: what the application sees of a body over 8 MiB is left open.
- BatchDelete.Stores.DeleteBatch: candidates are in the order asked for, and the concurrent deletions of a batch are done one after the other.
- BatchDelete.Stores.DeleteVectors: a bulk removal that fails is taken to have removed only documents it was asked for.
- BatchDelete.Stores.BatchDeleteDocuments: malformed ids are refused beforehand; a database error in the middle is not modelled.
- Retrieval, connectors, webhooks, uploads, usage sums, scopes and the web pages would only add easier members.
