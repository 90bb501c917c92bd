# unilog delivery layer: model and proofs

unilog is a structured logging library for Go. This project models the part that carries an event from a
logger to its destination, and proves what that part promises over every run, every interleaving, every
configuration tree and every input. `dafny verify dfyconfig.toml` checks all of it.

## What is modelled

* **AsyncSink and BatchSink as one interleaved step machine** (`Worker`, `Protocol`, `ProtocolInvariants`,
  `ProtocolSteps`, `ProtocolTheorems`, `Results`, `Stranding`, `NilAnswers`, `DownstreamCalls`). Any number of Write, Sync and Close calls, each with a program
  counter, a bounded FIFO channel, the flags `closing` and `closed`, the `done` channel and one worker.
  `enqueue` reads the flags in one step and sends in a later one, and it counts in a third; cancelling a
  context is a step that may happen wherever the code selects on it; ticks may come whenever the worker is idle. A state
  carries its history: jobs ever sent, inputs the worker has handled with what `next` answered, the
  Writes that stood between flag check and send when a Close set `closing`. `Worker` says what the worker does with one
  job as a function of its own memory, and what a whole stream of jobs leads to. The answers of `next` are an oracle.
  `Results` says where the result of every call comes from, `DownstreamCalls` which calls `next` gets. Where a promise fails,
  `Stranding` and `NilAnswers` say exactly when it holds.
* **The two sinks' own state** (`AsyncSinkState`, `BatchSinkState`): classes whose methods change fields in
  place and are proved against the functions the protocol is built from. Write, Sync, Close and enqueue span several
  steps that interleave with other calls, so they exist as steps of the protocol, their critical sections as methods,
  and enqueue also as a method for a call that nothing overlaps. BatchSink's buffer is an array that is
  cut back and reused; the slices handed to `next` stay what they were.
* **CircuitBreakerSink** (`CircuitBreaker`): admission, downstream call and completion are separate
  acts, so completions of overlapping writes reach any state. The state is shown to be a function of the history.
* **Synchronous composition** (`Pipeline`, `Reaching`, `TreeNodes`): `buildSink` turns a configuration tree into nested fanout, retry,
  breaker and level-filter sinks; the meaning of a tree is proved by structural induction, with the fanout's and the retry loop inside it.
* **Supporting cores**: the retry loop and its backoffs (`Retry`), nested redaction as a function of values (`Redaction`)
  and on the shared maps and slices themselves (`RedactionHeap`), the text
  line and a decoder that reads it back (`TextEncoder`), sampling counts with 64-bit wrap-around (`Sampling`), and slice
  ownership in the logger, with backing arrays, capacities and the containers that loggers, events and callers share (`Loggers`).

## Where the code differs from what it is meant to do

The model follows the code; each difference is stated by a lemma or method of the table.

* An event sent behind the close job is accepted and never delivered, and a Sync queued behind it is never answered:
  `StrandedRun` is such a run. `AllDeliveredIff` says when every accepted event is delivered (no Write is past the flag check
  when the Close sets `closing`), `StrandedExactly` which events can be stranded, `StrandedBound` how many, `NeverAnswered` which Syncs wait forever.
* `joinErrors` keeps only the first non-nil error (builder.go:762-773): `JoinErrors`.
* BatchSink discards the errors of size- and tick-triggered flushes (batch_sink.go:238 and 245), so a nil Sync says
  less than AsyncSink's: `BatchLosesErrors` is an input. `BatchNilCoversWritesIff` says when it does cover every write since
  the last flush or close: fewer than MaxBatchSize events came in since, and no tick met any of them.
* The BatchWriter branch adds to `Flushed` twice (batch_sink.go:214 and 228): `BatchCounters` has the exact factor. `WriteErrors` counts failed batches in that branch
  only: with a plain sink it stays zero however many writes fail (batch_sink.go:210-231).
* `shouldRedact` throws its trimmed key away in case-sensitive mode (redact_processor.go:72): `SpacedKeysEscape`, `SpacedKeyExample`.
* The text of the final retry error names MaxAttempts even when an error that is not retryable ended the loop earlier: `Do`.
* The first backoff is not clamped to MaxBackoff, so sleeps are non-decreasing only if InitialBackoff respects it: `BackoffMonotone`.
* The repository's README says that sampling keeps "every 10th debug event"; the code keeps the 1st, 11th, 21st and so on: `KeptCount`, `ExpectedIsCeiling`.
* Two different messages share a sampling counter when a bar in a logger name or a message moves between the two: `SharesCounterIff`.
* Field keys are not quoted in a text line: `EqualsKeyAmbiguous`, `ReservedKeyAmbiguous`.

## Model

| member | source | states |
|---|---|---|
| Basics.JoinErrors | builder.go:762-773 | The loop answers with the first non-nil error of the list, and with nil exactly when all are nil |
| Basics.FirstError | builder.go:762-773 | The first-error rule: nil iff every error is nil, otherwise an element with only nils before it |
| Worker.AsyncDeliversInOrder | async_sink.go:185-200 | For any stream of jobs and any answers, the events handed to next.Write are exactly the events of the received jobs, in order |
| Worker.AsyncErrorConservation | async_sink.go:204-228 | All drained error lists followed by the errors still held are all write errors so far, in order, each once; WriteErrors counts them |
| Worker.AsyncHeldBack | async_sink.go:204-228 | workerErrs is empty iff no write since the last flush or close failed |
| Worker.AsyncBarrier | async_sink.go:191-199 | A flush or close is answered nil iff no write since the previous drain failed and next.Sync (and next.Close) succeeded; drained errors win over those of next.Sync, and these over those of next.Close; both are called whatever failed |
| Worker.BatchAfter | batch_sink.go:242-246 | Between two turns of the worker, pending stays below MaxBatchSize, for any mix of ticks and jobs |
| Worker.BatchHandsBatches | batch_sink.go:199-225 | What next was handed is the delivered batches flattened, in either branch, and each batch has 1 to MaxBatchSize events |
| Worker.BatchRefinesFifo | batch_sink.go:235-260 | Delivered batches flattened, then the pending batch, are the events taken in so far: BatchSink refines a plain FIFO |
| Worker.BatchCounters | batch_sink.go:199-233 | Batches counts delivered batches; Flushed counts every event of an error-free batch once for plain sinks and exactly twice in the BatchWriter branch; WriteErrors counts failed batches in that branch and is zero in the other |
| Worker.BatchReply | batch_sink.go:248-256 | A flush or close turn hands over the pending batch, then calls next.Sync (and next.Close) whatever failed; its reply is nil iff all of these succeeded, otherwise the first failed write of the batch wins over next.Sync, and that over next.Close |
| Worker.BatchEmptied | batch_sink.go:237-257 | A tick, flush or close leaves nothing pending |
| Worker.BatchFlushesAll | batch_sink.go:248-256 | When a flush or close is answered, every earlier event has been handed to next exactly once, in order |
| Worker.BatchBarrier | batch_sink.go:248-256 | The same over whole streams: the calls of the turn behind any stream, and the reply |
| DownstreamCalls.TurnGoesOver | batch_sink.go:210-225 | Every turn's batch goes to a BatchWriter in one call with the whole batch, to any other sink in one Write per event in order, each with its own answer of next |
| DownstreamCalls.StreamCalls | batch_sink.go:199-260 | Over any stream a BatchWriter never gets a Write and its calls carry the delivered batches in order; any other sink never gets a batch and its Writes carry their events one by one |
| DownstreamCalls.AsyncJobCounters | async_sink.go:191-196 | Flushes and Closes are the numbers of flush and close jobs handled |
| DownstreamCalls.BatchJobCounters | batch_sink.go:248-254 | The same for BatchSink |
| NilAnswers.BatchLosesErrors | batch_sink.go:244-246 | A stream on which BatchSink answers a Sync with nil after a failed size-triggered write, where AsyncSink answers with the error |
| NilAnswers.HandedUnlessQuiet | batch_sink.go:235-246 | Since the last flush or close some turn has handed a batch over iff MaxBatchSize events have come in or a tick has met one; otherwise all of them are pending |
| NilAnswers.BatchNilCoversWritesIff | batch_sink.go:235-257 | For given jobs and ticks: whatever next answers, a nil Sync or Close says that no write since the last flush or close failed, iff fewer than MaxBatchSize events came in since then and no tick met any of them |
| NilAnswers.AsyncNilCoversWrites | async_sink.go:191-199 | A nil Sync or Close of AsyncSink says so on every stream |
| ProtocolSteps.StepOk | async_sink.go:97-202 | Every step of every call and of the worker keeps the invariant: queue, worker, flags, answers, gap, counters, every call |
| ProtocolSteps.RunOk | async_sink.go:97-202 | Every run keeps the invariant |
| ProtocolSteps.ReachableOk | async_sink.go:52-202 | Every reachable state of every interleaving satisfies the invariant |
| ProtocolTheorems.DeliveredPrefix | async_sink.go:138-202 | Received jobs, the job in hand and the channel are all jobs ever sent, in order; the events handed to next are those of the received jobs, but for a batch below MaxBatchSize |
| ProtocolTheorems.DeliveredAtClose | async_sink.go:185-200 | Once the close job is handled, the delivered events are exactly those sent ahead of it and the channel is what was sent behind it |
| ProtocolTheorems.AcceptedIsDeliveredOrStranded | async_sink.go:138-202 | After the worker has taken the close job, the accepted events are the delivered ones followed by the stranded ones |
| ProtocolTheorems.StrandedBound | async_sink.go:97-174 | Stranded events number at most the Writes between flag check and send when the owning Close set closing, and at most the buffer; without such Writes every accepted event is delivered |
| ProtocolTheorems.GapIsAtOwning | async_sink.go:112-113 | The set of that bound is the set of those Writes in the state in which the current owner set closing |
| ProtocolTheorems.CloseOnce | async_sink.go:97-126 | At most one close job is ever sent and next.Close is called at most once, through any failed and retried Closes; closing and closed are never both set |
| ProtocolTheorems.CloseCallsAreCloseJobs | async_sink.go:195-199 | next.Close is called exactly once per received close job |
| ProtocolTheorems.ClosedForGood | async_sink.go:177-183 | Along any run closed never reverts, and the worker never handles another input |
| ProtocolTheorems.NoCallsAfterClose | async_sink.go:97-126 | After any Close has returned nil, no call on next is ever made again |
| ProtocolTheorems.ReplySucceeded | async_sink.go:191-199 | A flush or close turn replies nil iff the promise of its sink held at that turn |
| ProtocolTheorems.SyncBarrier | async_sink.go:89-95 | When a Sync has returned nil, there was a turn for its flush job whose last call was next.Sync, by which every event sent before it had been handed to next, and at which next.Sync and the writes in question succeeded |
| ProtocolTheorems.AnsweredIff | async_sink.go:191-199 | A control job is answered exactly when the worker has finished with it |
| ProtocolTheorems.DistanceZero | async_sink.go:185-200 | The response distance of a control job without a close job ahead is never negative, and zero iff it is answered |
| ProtocolTheorems.WorkerNeverBlocks | async_sink.go:185-200 | While such a job is unanswered the worker can step: it never blocks on a response channel |
| ProtocolTheorems.DistanceFalls | async_sink.go:138-202 | Each step of the worker except a tick strictly lowers the distance; sends, ticks and every other step of a call leave it as it is |
| ProtocolTheorems.AnsweredInTurn | async_sink.go:185-200 | When a control job is being answered, the worker has received exactly the jobs sent up to it |
| ProtocolTheorems.NeverAnswered | async_sink.go:195-200 | A Sync or Close job queued behind the close job is never answered |
| ProtocolTheorems.CountersAccount | async_sink.go:153-173 | In every intermediate state Enqueued plus the calls between send and increment is the number of jobs sent, and likewise for Dropped |
| ProtocolTheorems.WriteSentOrDropped | async_sink.go:138-174 | A returned Write is nil iff it is exactly one send or one drop, of its own event; a failed one is neither |
| Results.ResultsExplained | async_sink.go:81-174 | In every run every result of every call has one of these sources: its own context cancelled at that point, turned away at the flag check or by the stopped worker, one send or drop (Write), the reply of its own job (Sync and Close), a closed sink (Close) |
| Results.AnswerArrives | async_sink.go:89-126 | A Sync or Close whose job is in the channel and whose wait is not cancelled returns the reply of its own turn, nil iff that turn kept its sink's promise |
| Results.CloseResult | async_sink.go:97-126 | Uncancelled, a Close returns its own answer, nil on a closed sink (also after joining another Close), or that it was turned away |
| Results.SentCloseWaits | async_sink.go:123-125 | A Close whose job is in the channel returns, even with an error, only after the worker is done |
| Results.DroppedWhenFull | async_sink.go:165-173 | A Write is dropped only under the dropping policy with a full channel |
| Results.CancelledOnlyIfBlocking | async_sink.go:153-163 | A cancelled context ends a Write only under the blocking policy |
| Results.DroppingWriteResult | async_sink.go:138-174 | Under the dropping policy a Write returns nil for one send or drop, or that the sink was closing or closed |
| Results.SyncCanReturn | async_sink.go:89-95 | From every reachable state in which no Close has begun, some run lets a new Sync return, with nil if the downstream is healthy and no error is held back |
| Results.CloseCanReturn | async_sink.go:97-126 | Every Close that sets closing can return, with nil under the same conditions |
| Results.DeliveringRun | async_sink.go:81-95 | A run of a new sink of either kind in which a Write and a Sync return nil and the event has been handed over |
| Stranding.StrandAll | async_sink.go:97-174 | From a state in which a Close has just set closing, any calls past the flag check, in any order and up to the size of the buffer, can be sent behind its job: Writes return nil, Syncs wait, the worker is done, and the Close returns, with nil if no write error was held back |
| Stranding.StrandedExactly | async_sink.go:97-174 | The events some run of that Close leaves undelivered are exactly those of distinct Writes past the flag check when it set closing, at most as many as the buffer holds |
| Stranding.AllDeliveredIff | async_sink.go:97-174 | Every run of a Close that stops the worker delivers every accepted event iff no Write is past the flag check when it sets closing |
| Stranding.StrandedRun | async_sink.go:97-174 | For either sink with room for two jobs: a run in which Write and Close return nil and the worker is done, with the event never delivered and a Sync waiting for an answer that cannot come |
| AsyncSinkState.AsyncSink.constructor | async_sink.go:52-75 | Defaults for buffer and policy, and an empty sink |
| AsyncSinkState.AsyncSink.EnterClose | async_sink.go:98-113 | Close's first critical section moves the flags as the protocol's step does |
| AsyncSinkState.AsyncSink.Reopen | async_sink.go:116-121 | The rollback of a failed Close moves the flags as the protocol's step does |
| AsyncSinkState.AsyncSink.Admit | async_sink.go:139-151 | The flag checks of enqueue decide as the protocol's step does |
| AsyncSinkState.AsyncSink.Send | async_sink.go:155-168 | A job sent goes to the end of the channel and is counted; handled jobs, then the channel, stay all jobs sent |
| AsyncSinkState.AsyncSink.Enqueue | async_sink.go:138-174 | enqueue without overlap: nil is exactly one counted send, or one counted drop when an unforced send meets a full channel; an error is neither |
| AsyncSinkState.AsyncSink.RecordWorkerError | async_sink.go:204-215 | A non-nil error is appended and counted, nil changes nothing |
| AsyncSinkState.AsyncSink.DrainWorkerErrors | async_sink.go:217-228 | The joined errors, in order, and an empty list behind them |
| AsyncSinkState.AsyncSink.Step | async_sink.go:185-200 | One pass of the worker's loop refines WorkAsync: memory, calls on next and reply |
| AsyncSinkState.AsyncSink.Pass | async_sink.go:185-200 | The loop takes the first job out of the channel and handles it: memory and calls are those of the longer stream, and no job is lost |
| AsyncSinkState.AsyncSink.Loop | async_sink.go:185-200 | Jobs come out of the channel in order until it is empty or a close job has been handled, and none is lost |
| AsyncSinkState.AsyncSink.Run | async_sink.go:176-202 | Behind the close job nothing is taken, and the deferred calls set closed, clear closing and close done |
| BatchSinkState.BatchWorker.constructor | batch_sink.go:53-82 | Defaults of batch size, interval, queue size and policy, and an empty buffer of that capacity |
| BatchSinkState.BatchWorker.WriteEach | batch_sink.go:220-224 | The loop writes every event once, in order, whatever fails, and keeps the first error |
| BatchSinkState.BatchWorker.HandOver | batch_sink.go:210-232 | Either branch hands over the batch and counts it, with Flushed raised twice in the BatchWriter branch |
| BatchSinkState.BatchWorker.FlushBatch | batch_sink.go:199-233 | Delivers the pending events as a slice of their own, empties the buffer, and never alters a slice delivered before |
| BatchSinkState.BatchWorker.Append | batch_sink.go:242-246 | Appends into the reused buffer and flushes at MaxBatchSize; refines WorkBatch |
| BatchSinkState.BatchWorker.OnFlush | batch_sink.go:248-251 | Refines WorkBatch on a flush job, reply included |
| BatchSinkState.BatchWorker.OnClose | batch_sink.go:253-257 | Refines WorkBatch on a close job, reply included |
| BatchSinkState.BatchWorker.Step | batch_sink.go:235-260 | One pass of the loop, tick or job, refines WorkBatch; delivered slices keep their contents |
| BatchSinkState.BatchWorker.Pass | batch_sink.go:235-260 | One more tick or job leaves the state, calls and deliveries of the longer stream |
| BatchSinkState.BatchWorker.Run | batch_sink.go:235-260 | The whole loop: memory, calls and delivered batches are those of the stream up to the first close job |
| CircuitBreaker.WithDefaults | circuit_breaker_sink.go:35-57 | Configured positive values are kept, others become 3 and five seconds |
| CircuitBreaker.BreakerIsItsHistory | circuit_breaker_sink.go:92-158 | For any overlapping writes, with t trailing failures: the count is min(t, threshold), closed iff t is below it, otherwise openUntil is the last failure plus OpenTimeout and half open iff an attempt since came that late |
| CircuitBreaker.HalfOpenIffAdmitted | circuit_breaker_sink.go:92-149 | With threshold failures trailing, half open iff some write was admitted since the last failure |
| CircuitBreaker.RunIsHistory | circuit_breaker_sink.go:63-76 | Sequential failing writes are acts of a history like any other |
| CircuitBreaker.FailingRun | circuit_breaker_sink.go:63-76 | Sequential writes to a failing downstream, from any breaker: once the calls left to the threshold are used up, calls are OpenTimeout apart |
| CircuitBreaker.CallsInSpan | circuit_breaker_sink.go:92-149 | Consecutive calls that far apart number at most the free ones plus their span over OpenTimeout |
| CircuitBreaker.WindowBound | circuit_breaker_sink.go:92-149 | The same count for any window of the clock |
| CircuitBreaker.RateBound | circuit_breaker_sink.go:63-76 | After any history, however many sequential writes are attempted on a failing downstream, any window of length T has at most FailureThreshold less the failures already counted (or one) plus T / OpenTimeout calls |
| CircuitBreaker.CircuitBreakerSink.constructor | circuit_breaker_sink.go:35-57 | Starts closed with an empty history |
| CircuitBreaker.CircuitBreakerSink.BeforeWrite | circuit_breaker_sink.go:92-112 | Refuses with the circuit-open error exactly as the admission function does, and the state stays the function of the history |
| CircuitBreaker.CircuitBreakerSink.OnSuccess | circuit_breaker_sink.go:114-122 | From any state, the state stays the function of the history |
| CircuitBreaker.CircuitBreakerSink.OnFailure | circuit_breaker_sink.go:124-149 | From any state, the state stays the function of the history |
| CircuitBreaker.CircuitBreakerSink.TransitionLocked | circuit_breaker_sink.go:151-158 | The state becomes the target |
| CircuitBreaker.CircuitBreakerSink.Write | circuit_breaker_sink.go:63-76 | next is called iff the breaker is not open before openUntil; the error is its answer or circuit-open; exactly the acts of this write enter the history |
| Retry.WithDefaults | retry_sink.go:24-51 | Configured positive values and a multiplier above one are kept, others become 3, 50 ms, 1 s and 2 |
| Retry.Do | retry_sink.go:71-100 | At most MaxAttempts calls and MaxAttempts-1 sleeps; nil iff the last call made returned nil; which of five reasons ended the loop and the error each gives; sleep k is Backoff k |
| Retry.LaterBackoffsClamped | retry_sink.go:102-108 | The first sleep is InitialBackoff unclamped, later ones at most MaxBackoff |
| Retry.BackoffMonotone | retry_sink.go:102-108 | Sleeps never shrink iff InitialBackoff is at most MaxBackoff |
| Retry.SleepGrows | retry_sink.go:102-108 | For every multiplier, each later sleep is the one before it times the multiplier, truncated, or MaxBackoff if that is less |
| Retry.GeometricBackoff | retry_sink.go:102-108 | With a whole multiplier b, sleep k is min(InitialBackoff * b^k, MaxBackoff) |
| Pipeline.ChildrenInOrder | builder.go:391-399 | Children are built in order; the first child that fails gives the error, and all are built otherwise |
| Pipeline.Build | builder.go:382-543 | The recursive construction with its loop over children, its error cases and the level filter around the result, as the function the meanings are proved about |
| Pipeline.TopMeaning | builder.go:363-380 | The three claims of PipelineMeaning for the list of top-level configurations, none, one or several |
| Pipeline.Deliver | fanout.go:32-40 | One Write with the fanout's and the retry sink's loops computes the meaning function |
| Pipeline.RetryIsOutcome | retry_sink.go:71-100 | A retry node of a tree answers as RetrySink's loop does when each of its calls is one Write of next |
| Pipeline.NilMeansDelivered | retry_sink.go:71-100 | If the top Write returns nil, every leaf whose filters admit the level returned nil at least once |
| Pipeline.OnlyAdmitted | level_filter_sink.go:22-27 | Only leaves whose filters all admit the level are called |
| Pipeline.CallsBounded | retry_sink.go:71-100 | No leaf is called more often than the product of the MaxAttempts of the retry nodes above it |
| Pipeline.HealthyWrite | fanout.go:32-40 | Without failure, cancellation or open breaker the Write returns nil and calls each admitted leaf exactly once, in configuration order |
| Pipeline.BuiltMeans | builder.go:382-543 | Admission, call bounds and positive MaxAttempts of a built tree are those read off its configuration |
| Pipeline.PipelineMeaning | builder.go:382-543 | From the configuration alone: nil means all admitted leaves returned nil, no other leaf is called, none more often than the product of MaxAttempts above it |
| Reaching.FanoutWritesEveryChild | fanout.go:32-40 | Whatever the children answer, a fanout's calls are, child by child, those of each child's Write in the world its predecessor left, and its error lists exactly the failing children's errors in order |
| Reaching.LeafAnswers | fanout.go:35 | A leaf is called once and answers what the log says |
| Reaching.AnswersGiven | fanout.go:32-40 | Every logged answer is one the environment gave |
| Reaching.PlainOrder | fanout.go:32-40 | A tree of fanouts and filters calls its admitted leaves in configuration order, whatever they answer |
| Reaching.PlainOnce | level_filter_sink.go:22-27 | In such a tree every admitted leaf is called exactly once and no other at all |
| Reaching.CalledIffReached | circuit_breaker_sink.go:63-76 | In any tree a leaf is called iff on its own path every filter admits, every breaker admits when it is asked, and some attempt made by every retry gets there |
| Reaching.MissedOnlyIfBlocked | retry_sink.go:75-80 | An admitted leaf is missed only under a breaker that refuses or a retry whose context is cancelled before its first attempt, on the leaf's own path |
| TreeNodes.BuiltNodes | builder.go:382-543 | Every node of a built tree has the type, parameters or defaults, and MinLevel filter of the configuration at its path, and there are no other nodes |
| TreeNodes.BreakersElsewhere | circuit_breaker_sink.go:63-76 | A Write changes no breaker outside its own path |
| TreeNodes.BreakerNode | circuit_breaker_sink.go:63-76 | A Write through a breaker node is one attempt in its history, followed, if admitted, by a success or failure as its own next answered; a refused one calls nothing |
| TreeNodes.BreakersKeepHistory | circuit_breaker_sink.go:92-149 | After any Writes every breaker of a tree is where some history of its own brings it, so the breaker theorems hold of all of them |
| Redaction.NewProcessor | redact_processor.go:22-46 | The key set is exactly the non-empty normalised configured keys; an empty mask gets the default |
| Redaction.TrimmedOnce | redact_processor.go:29-34 | Trimming leaves the one substring with only white space around it and none at its ends |
| Redaction.RedactedIffAsked | redact_processor.go:22-76 | From the options alone: a key is redacted iff some configured key trims to a non-empty string that is the key itself or, case-insensitively, the trimmed key letter by letter up to ASCII case |
| Redaction.SpacedKeysEscape | redact_processor.go:68-76 | A field whose normalised key is configured is redacted iff matching is case-insensitive or the key has no surrounding space |
| Redaction.SpacedKeyExample | redact_processor.go:68-76 | The key "password " escapes case-sensitive redaction of "password" |
| Redaction.NestedIsValue | redact_processor.go:78-130 | redactNested is redactValue under any key that is not sensitive; under a sensitive one the value is the mask |
| Redaction.FoundAfterRedaction | redact_processor.go:78-130 | At any path into the result: the mask at the first sensitive key, nothing below it, and elsewhere the redaction of what was there |
| Redaction.ShapeKept | redact_processor.go:78-130 | Containers keep kind, keys and length, other values are unchanged |
| Redaction.RedactTwice | redact_processor.go:78-130 | Redacting twice is redacting once, at any nesting |
| Redaction.FieldsAsValue | redact_processor.go:57-59 | An event's field list is redacted as the value it is, so all of these hold for it |
| RedactionHeap.HoldsOne | redact_processor.go:78-130 | What a value holds at a moment is determined by its containers |
| RedactionHeap.RedactValue | redact_processor.go:78-105 | The mask under a sensitive key, otherwise new containers only, holding the redaction of what the old ones hold, which stay as they were |
| RedactionHeap.RedactNested | redact_processor.go:107-130 | New containers only, holding the redaction of what the old ones hold, which stay as they were |
| RedactionHeap.RedactMap | redact_processor.go:84-89 | A new map, holding the redaction of the old one; nothing that existed is written |
| RedactionHeap.RedactList | redact_processor.go:90-95 | A new slice, holding the redaction of the old one; nothing that existed is written |
| RedactionHeap.RedactFieldList | redact_processor.go:96-101 | A new field list, holding the redaction of the old one; nothing that existed is written |
| RedactionHeap.Process | redact_processor.go:52-66 | The loop overwrites exactly the slots of the event's slice, nothing behind it, with values that hold the redaction of the old ones; the old values still hold what they held, and the error is masked only when configured |
| TextEncoder.UnquoteBack | text_sink.go:20-28 | Reading a quoted value gives back the value and the rest of the line, for every string |
| TextEncoder.ValueReadsBack | text_sink.go:20-28 | A printed value, quoted or not, reads back as itself and stops where it ends |
| TextEncoder.QuoteInjective | text_sink.go:20-28 | Two values print alike iff they are equal |
| TextEncoder.EscapeLength | text_sink.go:24-26 | Each character is copied or escaped in the form %q gives it: by one character, or by two, four or eight digits |
| TextEncoder.EscapedLength | text_sink.go:24-26 | Quoting copies a value iff it has only printable characters other than quotes and backslashes |
| TextEncoder.PlainIff | text_sink.go:20-28 | A value is printed as it is iff it is not empty and holds none of the six special characters, and quoted otherwise |
| TextEncoder.TokensByKey | text_encoder.go:35-98 | A line's tokens are what the event holds under the encoder's eleven keys, in their order, with the sorted fields before the stack |
| TextEncoder.KeyOrder | text_encoder.go:83-86 | The order of fields is that of the first differing character of their keys |
| TextEncoder.LineReadsBack | text_encoder.go:28-102 | With keys free of '=', the decoder recovers time, level, core tokens in order and the fields as the key-sorted permutation |
| TextEncoder.OneNewline | text_encoder.go:100 | A line has exactly one newline, at its end, whatever messages and values hold |
| TextEncoder.LineDeterminesEvent | text_encoder.go:28-102 | When no field key has '=' or is a reserved name, two lines are equal iff the events are, up to the order of the fields |
| TextEncoder.ReservedKeyAmbiguous | text_encoder.go:53-98 | For each of the seven reserved keys and any value, a field with that key and the token itself give two different events one line |
| TextEncoder.EqualsKeyAmbiguous | text_encoder.go:88-93 | For any keys in order and any values, a single field whose key has '=' and a space gives the line of two fields |
| TextEncoder.WriteSlots | text_encoder.go:35-48 | The conditional core tokens are appended in order, empty ones skipped |
| TextEncoder.WriteAll | text_encoder.go:88-93 | The loop over the sorted fields appends each as key=value |
| TextEncoder.Encode | text_encoder.go:28-102 | The builder's steps produce the line the decoding lemmas are about |
| Sampling.CounterCounts | sampling_processor.go:73-77 | The counter of a debug, info or warn key with a rate above one is the number of events with that key modulo 2^64, whatever other events interleave |
| Sampling.KeptCount | sampling_processor.go:36-67 | For any interleaving, of n events with one key at the rate configured for their level exactly Expected(n, rate) are kept |
| Sampling.ExpectedIsCeiling | sampling_processor.go:49-51 | Up to 2^64 calls that is the ceiling of n / e |
| Sampling.CeilingForever | sampling_processor.go:49-51 | It stays the ceiling for every n iff e divides 2^64 |
| Sampling.KeyLevel | sampling_processor.go:69-71 | A debug, info or warn key tells the level |
| Sampling.KeyInjective | sampling_processor.go:69-71 | A debug, info or warn event shares its key with no other when neither logger name has a bar |
| Sampling.SharesCounterIff | sampling_processor.go:69-71 | A sampled event shares its counter with a different one iff its logger name or its message has a bar |
| Sampling.SamplingProcessor.constructor | sampling_processor.go:24-30 | Rates of zero become one; no counters yet |
| Sampling.SamplingProcessor.NextCount | sampling_processor.go:73-77 | Increments the key's counter, wrapping, and leaves all others |
| Sampling.SamplingProcessor.Process | sampling_processor.go:36-54 | Keeps or drops as the counting lemmas assume; error and fatal events and rate one are always kept without counting |
| Loggers.Append | logger.go:119-124 | Go's append: in place exactly within spare capacity, a new array otherwise, with the right contents and the old prefix untouched |
| Loggers.CloneFields | field.go:50-58 | A copy in an array of its own without spare capacity |
| Loggers.ChainStops | logger.go:134-142 | The chain stops an event iff some processor does, wherever it stands |
| Loggers.ChainMasks | logger.go:134-142 | The chain keeps every field's place and key, and a field whose key any processor finds sensitive ends as the mask of the last one that does |
| Loggers.JoinNameTwice | logger.go:167-178 | Deriving by two names in turn is deriving by the joined name |
| Loggers.Logger.constructor | logger.go:204-214 | The fields as given |
| Loggers.Logger.Clone | logger.go:204-214 | Same name, processors and fields, in a backing array of its own without spare capacity |
| Loggers.Logger.With | logger.go:159-165 | Parent fields followed by the arguments; nothing that existed before is written |
| Loggers.Logger.WithName | logger.go:167-178 | Dotted name, same fields, nothing that existed before is written |
| Loggers.Logger.EventFields | logger.go:119-124 | The event gets a slice of its own, with the logger's fields followed by the arguments |
| Loggers.Logger.LogErr | logger.go:100-157 | The event that reaches the sink holds what the whole chain makes of the logger's fields and the arguments; these, down to the maps and slices the event shares with them, still hold what they held |
| Loggers.RunCall | logger.go:100-178 | One call on a logger of the tree derives a logger that holds what it should, all the way down |
| Loggers.RunCalls | logger.go:100-178 | After any sequence of With, WithName and LogErr calls on any logger of the tree, every logger still has the name it was derived with and fields that hold, all the way down, what they held, and so has every argument |

BatchSink's enqueue, Sync and Close (batch_sink.go:96-183) are the same code as AsyncSink's, so one protocol serves both:
its memory is either worker's, and every theorem of `ProtocolTheorems` holds for both.

## Left out

- File, HTTP and writer sinks, JSON encoding and YAML, JSON or environment configuration: I/O and library behaviour; leaves are oracles.
- Parameter decoding, name normalisation and Registry locking in builder.go: independent checks; a configuration holds decoded parameters, or the error their decoding ends in.
- Tick timing, fairness and wall-clock time: ticks and clock readings are arbitrary; beyond the response distance no liveness is claimed.
- Stranding.StrandedExactly: which Writes a Close strands is said of one that keeps `closing`; a Close whose enqueue fails opens the sink again, and the next one counts afresh.
- ProtocolTheorems.DistanceFalls: the calls on `next` made for one job are one step of the protocol, so a downstream call that never returns is not modelled.
- IEEE floating point and int64 overflow in nextBackoff: the multiplier is a rational above one with truncation, durations are unbounded.
- Counters of AsyncSink, BatchSink and the breaker are unbounded; only the sampling counters wrap.
- CircuitBreaker.FailingRun: the downstream that always fails is met by writes that do not overlap, and the clock does not go back; under overlap the bound is not claimed.
- Pipeline.Write: inside Pipeline an AsyncSink or BatchSink is a leaf, because its Write only enqueues; Writes of one pipeline do not overlap there, and Sync and Close of a tree are not modelled.
- Panics, interceptors, caller and stack capture, OnError and OnStateChange callbacks, and context values.
- The `%w` wrapping of joinErrors and the sink-name prefixes of FanoutSink: error identity is kept, text is not.
- NewFanoutSink's removal of nil children and the NopSink replacement of a nil next: built children are never nil.
- RedactionHeap.RedactNested: a nested slice is the whole of its backing array, so two slices of one array that overlap are not modelled; cyclic values hold nothing. That the event's own slots are not reached from its values excludes cyclic values only.
- Redaction.SpacedKeysEscape: trimming and lower-casing are those of ASCII; other Unicode spaces and letters are not modelled.
- TextEncoder.ValueReadsBack: strings are sequences of code points; bytes that are no UTF-8 are not modelled, and unicode.IsPrint beyond ASCII is an arbitrary predicate.
- TextEncoder.Encode: sort.Slice is any key-sorted permutation, and field values, time, level, error and caller come rendered.
- TextEncoder's time layout: the theorems ask that time and level have no space or newline, as the default layout gives.
- MetricsSink, ContextEnricher, EventPayload, level and policy parsing: easy members only.
