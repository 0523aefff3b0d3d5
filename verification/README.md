# ddflagd: a verified model

ddflagd is a small daemon between OFREP callers and the Datadog OpenFeature provider. It keeps two HTTP
listeners, one for flag evaluations and one for operations, starts the provider in the background, and on
a signal or a failure runs an ordered termination sequence. This project models that behaviour in Dafny
and proves what the code, its comments and its contract test promise. `dafny verify dfyconfig.toml` checks
all of it.

## What is modelled

- **The process** (`Lifecycle`, `Invariants`, `Guarantees`, `Origins`, `Termination`, `Deadlines`, `Drains`) is a
  transition system. One action is one atomic section of the code: a step of one of any number of request
  handlers, of the evaluator goroutine of each, of the starter, of a listener, of the termination sequence, a
  signal, or a tick of the clock. `Exec(c, run)` is the state after a sequence of actions, and exists only when each
  action was enabled, so a lemma about every `run` is a statement about every interleaving. `Invariants`
  holds the inductive invariant, `Guarantees` what follows for every run, `Origins` where the causes, times
  and reports of a run come from, `Termination` the exit error, progress and the order of the stops,
  `Deadlines` by when things happen, `Drains` when the flush comes last, and `Witnesses` concrete runs that
  show what does not hold.
- **The request pipeline** (`Text`, `Json`, `Request`, `Ofrep`, `Evaluation`, `Bridge`) goes from raw JSON
  value texts to the reply and to what the handler leaves in the registry. `Json` holds a declarative
  grammar of value texts (RFC 8259, sections 2 to 7), against which the decoder's prefix tests and its
  reader are proved, and an encoder into that grammar, against which the content of strings is proved;
  lengths and order of strings are those of a UTF-8 encoding. The transition system computes replies with the same functions as the `Handler` class.
- **The registry** (`Metrics`, `MetricsRegistry`, `Exposition`) is a class whose bucket counters are
  incremented in place, proved against a pure function per critical section. The meaning of that function
  is given by counting and summing a list of observations. The Prometheus text is built by loops and read
  back.
- **The termination sequence as a method** (`ShutdownSequence`) takes the same steps, with the same
  errors, as the transition system.
- **Configuration** (`Config`) supplies the bounds the timing lemmas require, and **the end-to-end suite's
  process handle** (`ProcessHandle`) is the one-value exit channel shared by several callers.

Durations are integers (nanoseconds) in the transition system and in `Config`, and reals (seconds) in the
registry. Counters wrap modulo 2^64 as the code's do; results that need them not to have wrapped say so.

## Assumptions

They are the guards of the steps in `Lifecycle` and, for the deadlines, `MayTick` in `Deadlines`.

- `http.Server.Shutdown` stops the listener from accepting; it returns nil only when no connection is
  active, and an error only once its deadline has passed.
- `ListenAndServe` returns `ErrServerClosed` once its server is shutting down, also when it had not started.
- The cleanup starts once the context has ended; `Wait` returns when the cleanup and every task have
  finished, with everything they reported.
- `Start` is called once; the provider's initialization and its shutdown may fail; an evaluation may take
  arbitrarily long or never return.
- For the deadlines only, in a prompt run: time does not pass while a timer is overdue or while the
  termination sequence is between two of its own statements, and the provider's and the operational
  listener's shutdowns honour their deadline. The tracer's stop honours none, and its time is counted apart.
- For `Drains.DrainsCleanlyExactly` and `Drains.ShortHandlersFlushLast` only, in a swift run, moreover: time
  does not pass while a handler is between two of its own statements, while a connection without a request
  holds up a closing listener, or while a drain with nothing active has not noticed it.
  `Deadlines.ClockGoesOn` shows that neither assumption ever stops the clock.

## Where the code and what is said about it differ

- `internal/bridge/bridge.go:207-209` and `cmd/root.go:236-238` say that the provider is flushed only after
  the evaluation listener has drained. After a clean drain nothing is left to answer
  (`Guarantees.FlushAfterDrain`). When the drain ran out of time the flush begins all the same, and in every
  configuration a request can then be inside its evaluation and be answered from it
  (`Witnesses.FlushDuringEvaluation`). `Drains.FlushOrderExactly` says exactly when that can happen. When the
  handlers' own statements take no time, it cannot if the handler timeout is shorter than the shutdown
  timeout (`Drains.ShortHandlersFlushLast`), and exactly then is every drain clean
  (`Drains.DrainsCleanlyExactly`). The defaults, 200 ms and 10 s, meet that; loading does not check it.
- `cmd/root.go:225-226` says every step is bounded by the shutdown timeout. The three stops share one
  timeout, and the tracer's stop inside the second has no bound (`Witnesses.SlowTracer`); the whole stays
  within the drain delay and the timeout exactly when the tracer stopped by the shared deadline
  (`Deadlines.ShutdownBudget`).
- `cmd/root.go:203-209` excuses a failed start once the context has ended. What counts is the moment the
  error is examined: a signal that arrives between the failure and that moment excuses it
  (`Witnesses.FailedStartExcused`), a later one does not (`Termination.StartBlamed`).
- The OFREP 0.3.0 document accepts a 200 reply only when it has no value or a list, because
  `codeDefaultFlag` matches everything (`Ofrep.BooleanFlagRejected`). With the repair of
  `internal/ofrep/contract_test.go:23-31` it still rejects integral numbers, which are both `integerFlag` and
  `floatFlag`, and lists (`Ofrep.IntegerFlagRejected`). `Ofrep.PublishedSchema` and `Ofrep.RepairedSchema`
  say for exactly which evaluation results each accepts the reply.
- `internal/metrics/metrics.go:30-31` calls `invalid_request` a 400 outcome; the code also counts a 413 so.
- `internal/bridge/config.go:134-139` checks for empty addresses, which loading never produces because an
  empty setting falls back to its default (`Config.EveryProblemReported`).

## Model

| member | source | states |
|---|---|---|
| Guarantees.FlushAfterDrain | cmd/root.go:250-263 | from the moment the evaluation listener drained without error, in every continuation of every run: no handler is or becomes active, the counters stay, every request answered from an evaluation has had it finish, and any evaluation still pending belongs to a request already answered with the timeout |
| Drains.FlushOrderExactly | internal/bridge/bridge.go:207-218 | at every state from the end of the drain on, clean or not, some continuation answers a request from an evaluation that was not over exactly when some handler is past its stopped check and still on the way to the end of its evaluation |
| Drains.CleanDrainFlushesLast | cmd/root.go:250-263 | after a clean drain no continuation answers a request from an evaluation that was not over when the flush began |
| Drains.DrainsCleanlyExactly | cmd/root.go:252-259 | when the handlers' own statements take no time, the drain is clean in every run exactly when the handler timeout is shorter than the shutdown timeout |
| Drains.ShortHandlersFlushLast | cmd/root.go:250-263 | under that condition the flush comes after every evaluation a request is answered from, however the run goes on |
| Witnesses.FlushDuringEvaluation | internal/bridge/bridge.go:207-218 | in every configuration there is a run with all timers served in which the flush begins while a request is inside its evaluation, and the request is then answered from it |
| Invariants.Reachable | cmd/root.go:110-269 | every state of every run meets the invariant relating handlers, evaluators, channels, lifecycle, starter, termination sequence, registry, log and last error |
| Invariants.InvStep | internal/ofrep/ofrep.go:124-195 | each atomic step of each actor keeps that invariant |
| Invariants.RunGrows | internal/bridge/bridge.go:134-205 | along every run the lifecycle, the stopped flag, the termination sequence, the log and each request only move forward, and a reply once given never changes |
| Guarantees.LifecycleTrace | internal/bridge/bridge.go:134-205 | the state trace is Starting, Ready, ShuttingDown in that order; the time of readiness is set at most once, never after shutdown began, always while Ready and never while Starting |
| Guarantees.ReadyAtWriter | internal/bridge/bridge.go:143-151 | only the critical section of Start that moves Starting to Ready writes the time of readiness, and it writes the time taken before the lock |
| Guarantees.RefusedExactly | internal/ofrep/ofrep.go:143-148 | a request is answered "shutting down" exactly when its stopped check saw the flag |
| Guarantees.RefusedNeverReady | internal/admin/admin.go:101-119 | once any request was refused with "shutting down", no later readiness probe answers 200 |
| Guarantees.NoLateEvaluation | internal/ofrep/ofrep.go:108-113 | a request whose stopped check runs after StopServing is refused and never evaluated, however the run continues |
| Guarantees.DrainStillEvaluates | cmd/root.go:231-250 | between BeginShutdown and StopServing a well-formed request that gets a reply gets that of an evaluation or of its timeout |
| Guarantees.EvaluatesOnlyPastStarting | internal/ofrep/ofrep.go:155-163 | no Evaluate call starts while the state is Starting; without the provider ever having become ready one starts only during shutdown |
| Guarantees.Conservation | internal/ofrep/ofrep.go:124-140 | in every reachable state each outcome counter is the number of requests counted with it modulo 2^64, and the responses written are the sum of the counters and the handlers between writing and counting |
| Guarantees.CleanDrainCounts | cmd/root.go:257-263 | after a clean drain the counters sum to the number of requests handled |
| Guarantees.AnsweredAndCountedOnce | internal/ofrep/ofrep.go:124-130 | in every run each request's response is written at most once and counted at most once, exactly when its handler is past that point |
| Guarantees.NothingBlocks | internal/ofrep/ofrep.go:174-194 | in every reachable state an evaluator that was started can begin, one that runs can end with any result, one that returned can complete its one send, a result sent can be received, and a handler at its deadline or whose caller hung up can leave |
| Guarantees.EveryReplyMeetsContract | internal/ofrep/ofrep.go:142-195 | every reply of every interleaving is the sequential handler's reply to what that handler saw, and meets the response contract |
| Guarantees.MetricsAgree | internal/bridge/bridge.go:143-158 | the provider-ready metric implies the bridge's time of readiness and equals it, with the converse once Start has returned |
| Guarantees.LastErrorExactly | internal/ofrep/ofrep.go:130-139 | with no handler between counting and recording, the status report has a last error exactly when an error or timeout was counted or Start recorded a failed initialization |
| Origins.CauseIsFirst | cmd/root.go:189-218 | in every run the context has ended exactly when a signal arrived, a listener failed or a failed start was blamed, and its cause is the first of these |
| Origins.ListenerActs | cmd/root.go:190-199 | only a serving listener accepts, and one that stops serving reports an error exactly when it was not told to stop |
| Origins.OutsideActs | cmd/root.go:188-218 | no state of any run rules out what the process does not decide: time, signals, callers that connect, come, leave or hang up, also after StopServing, listeners that fail, and stops and initializations that succeed or fail |
| Origins.ReadySinceInitialized | internal/bridge/bridge.go:138-151 | the time of readiness is the clock at which the provider's initialization returned, not that of the lock |
| Origins.DurationSinceEntered | internal/ofrep/ofrep.go:124-130 | the observation a request leaves carries its reply's outcome and the time since its handler was entered |
| Origins.TimeoutEarned | internal/ofrep/ofrep.go:165-194 | a select that expires does so no earlier than the handler timeout after the evaluation was started, unless the caller has hung up |
| Origins.HangUpFrees | internal/ofrep/ofrep.go:165-194 | once the caller hangs up a handler in its select can leave at once |
| Origins.RunSumBracketed | internal/metrics/metrics.go:142-150 | in every run the exported buckets of an outcome bracket the sum of the durations of the requests answered so |
| Origins.LastErrorTold | internal/ofrep/ofrep.go:130-139 | in every run the last error becomes the text of a concluded timeout or error under its flag key, or that of a failed initialization, and no other action touches it |
| Origins.ProbeExactly | internal/admin/admin.go:101-119 | the readiness probe answers 200 exactly from the moment the provider became ready until shutdown begins, with that time, and 503 otherwise |
| Origins.StatusExactly | internal/admin/admin.go:128-156 | the status report's counters are the requests counted, its state agrees with the probe and the termination sequence, and its times with the metrics |
| Termination.ExitError | cmd/root.go:182-229 | for every run that has exited, what Wait returns is nil exactly when no listener failed, every termination step succeeded, and Start either did not fail or had its error examined after the context had ended |
| Termination.CauseIsAnError | cmd/root.go:193-216 | a context ended by a listener or by Start leaves an error that Wait returns |
| Termination.FailedListenerStops | cmd/root.go:190-199 | after a listener has failed, however the run goes on, the context has ended, the termination sequence has begun or can begin, and until the exit some step that brings it closer is enabled |
| Witnesses.FailedStartExcused | cmd/root.go:202-210 | a run in which Start fails while the context is alive, a signal arrives before the error is examined, and the process exits with nil |
| Termination.StartBlamed | cmd/root.go:201-218 | a failed start is blamed exactly when the context was alive when its error was examined, whatever follows |
| Termination.StopsInOrder | cmd/root.go:239-269 | in every run the termination steps taken are an initial part of the fixed sequence, each once and in order, whatever failed before |
| Termination.MeasureNeverGrows | cmd/root.go:220-229 | no step of any actor increases the distance to the exit, and each step of the starter, a listener or the termination sequence, and each tick the sequence waits for, decreases it |
| Termination.Progress | cmd/root.go:220-229 | once the context has ended, until the process exits, one of those steps is enabled, whatever the requests do |
| Termination.Terminates | cmd/root.go:220-229 | every schedule exits: in every continuation at most as many such steps occur as the distance says, after that many the process has exited, and before another one is enabled |
| Deadlines.OnTime | cmd/root.go:245-256 | in a run with the timers served, the termination sequence and every waiting handler stay within their deadlines |
| Deadlines.HandlersLeaveInTime | internal/ofrep/ofrep.go:165-194 | in every continuation with the timers served, once the clock is past the deadline of a handler that was in its select, its request has its reply, whatever its evaluator did |
| Deadlines.ClockGoesOn | internal/ofrep/ofrep.go:182-194 | serving the timers never stops the clock: every such run goes on, by expired selects and termination steps alone, to one that ends in a tick, even if no evaluator ever returns; likewise when the handlers' own statements take no time |
| Deadlines.ShutdownBudget | cmd/root.go:245-268 | with the timers served, the termination takes at most the drain delay and one shutdown timeout for all three stops together exactly when the tracer's stop returned by the shared deadline |
| Witnesses.SlowTracer | internal/bridge/bridge.go:210-218 | in every configuration and for every n, a run with the timers served in which the second stop takes more than n, and the termination more than n beyond the drain delay and the shutdown timeout |
| ShutdownSequence.Process.Drain | cmd/root.go:239-250 | readiness drops, the drain delay passes if it is positive, and serving stops, each noted where it happens |
| ShutdownSequence.Process.StopBridge | internal/bridge/bridge.go:210-218 | the flush under the deadline and then the tracer's stop, with their effects, steps and exact time |
| ShutdownSequence.Process.StopAll | cmd/root.go:252-268 | the three stops are each taken in order, each fails exactly when it cannot finish within what the earlier ones left of the one timeout, the errors are those of the failed ones in order, and the time is exactly what the script determines |
| ShutdownSequence.Process.Shutdown | cmd/root.go:239-269 | the whole sequence: final lifecycle, effects on provider and tracer, steps, errors and exact elapsed time |
| ShutdownSequence.StoppedInTime | cmd/root.go:252-266 | that time stays within the timeout exactly when the tracer had stopped by then, and without the tracer it always does |
| ShutdownSequence.StopMeaning | cmd/root.go:254-264 | a stop under the shared deadline succeeds in its own time exactly when it can finish by then or has nothing to do; any other fails and returns at the deadline, or at once when that has passed |
| ShutdownSequence.SequenceReports | cmd/root.go:256-268 | the errors the steps of a full sequence report are the joined errors of its failed stops, and its steps are numbered as in every run |
| ShutdownSequence.SameErrors | cmd/root.go:256-268 | in every run of the transition system the errors collected are those the termination steps taken report, in order |
| Bridge.Bridge.Start | internal/bridge/bridge.go:134-159 | a failed initialization is recorded and returned, each in its own words, and leaves the state; a successful one makes a starting bridge ready at its time and tells the metrics, and a bridge already shutting down advertises nothing |
| Bridge.Bridge.Shutdown | internal/bridge/bridge.go:210-218 | the provider is shut down, then the tracer is stopped even if that failed, and the failure is reported |
| Evaluation.Handler.EvaluateFlag | internal/ofrep/ofrep.go:142-195 | the gates in order: stopped, decoding, state, then the race between evaluation and timeout; the decoding is the one the request determines |
| Evaluation.RepliesOnce | internal/ofrep/ofrep.go:142-195 | the stopped flag, the request, the state and the race result determine the reply |
| Evaluation.Handler.Record | internal/ofrep/ofrep.go:130-139 | a written reply is counted once with its duration, and a failure or timeout is recorded with its key and text |
| Evaluation.Handler.HandleEvaluateFlag | internal/ofrep/ofrep.go:124-140 | a request gets the reply its gates determine, which meets the contract, and leaves exactly its observation and its error in the registry; one that timed out raises the timeout counter and becomes the last error with its key |
| Evaluation.ReplyContract | internal/ofrep/ofrep.go:142-195 | for every request, stopped flag, decoding, state and race result: status follows outcome, Retry-After is present exactly on 503, a value exactly for outcome value, a variant only with a value, reason, metadata and error code lie in the OFREP vocabulary for their status |
| Evaluation.GatesAnswer | internal/ofrep/ofrep.go:143-163 | a request that meets the stopped flag, a refused decoding or a provider that never became ready gets that gate's own status, code, outcome and details, in this order of precedence |
| Evaluation.SelectAnswers | internal/ofrep/ofrep.go:181-194 | past the gates an expired select is answered 503 GENERAL with outcome timeout, and a received result with its mapping |
| Evaluation.TimeoutExactly | internal/ofrep/ofrep.go:142-195 | a reply counts as a timeout exactly when the request got past every gate and its select expired |
| Evaluation.RecordedTells | internal/ofrep/ofrep.go:130-139 | of the counters exactly the reply's own grows by one, and the last error is set exactly by a timeout or an error |
| Evaluation.ErrorTextTells | internal/ofrep/ofrep.go:131-134 | the recorded text is the key, a colon and what happened |
| Ofrep.OfrepMetadata | internal/ofrep/response.go:152-170 | the loop keeps the allowed entries in any iteration order, and returns none rather than empty |
| Ofrep.KeptExactly | internal/ofrep/response.go:152-170 | an entry is kept exactly when its value is a boolean, string or number, with that value |
| Ofrep.MappedContract | internal/ofrep/response.go:47-97 | every mapped evaluation result meets the response contract |
| Ofrep.ValueWithheld | internal/ofrep/response.go:77-120 | a value is withheld exactly when the provider gave none or gave DISABLED or DEFAULT; otherwise value, variant and a protocol reason arrive unchanged, and everything else becomes UNKNOWN |
| Ofrep.FailureTold | internal/ofrep/response.go:63-75 | status, error code, outcome, details and Retry-After of every evaluation that failed with an error code |
| Ofrep.ShortCircuitTold | internal/ofrep/response.go:53-61 | the same for an evaluation the client cut short without an error code |
| Ofrep.PublishedSchema | testdata/ofrep/openapi.yaml:510-545 | as published, the success schema accepts the reply to an evaluation exactly when the evaluation did not fail and yields no value (none given, or DISABLED or DEFAULT) or a list |
| Ofrep.RepairedSchema | internal/ofrep/contract_test.go:23-31 | as repaired, it accepts the reply exactly when the evaluation did not fail and yields no value, or one that is neither a list nor an integral number |
| Ofrep.BooleanFlagRejected | testdata/ofrep/openapi.yaml:666-676 | a concrete boolean flag whose reply the published schema rejects |
| Ofrep.IntegerFlagRejected | testdata/ofrep/openapi.yaml:640-656 | a concrete integer flag whose reply the repaired schema rejects |
| Request.ClassificationRefines | internal/ofrep/request.go:128-162 | on every JSON value text, with or without surrounding blanks, the prefix classification returns exactly the attribute the parsed value stands for |
| Request.OnlyScalarsDecode | internal/ofrep/request.go:128-162 | a JSON value text decodes exactly when its value is null, a boolean, a string within the byte limit or a number whose rounding to float64 does not overflow |
| Request.EncodedDecodes | internal/ofrep/request.go:128-162 | every JSON value, encoded and surrounded by any blanks, decodes to what it stands for |
| Request.TextDecodes | internal/ofrep/request.go:149-154 | every text, quoted and escaped, decodes to itself as an attribute and as the targeting key when its UTF-8 form is within the limit, and is otherwise refused with its length and the limit |
| Request.PlainTextDecodes | internal/ofrep/request.go:143-154 | a text without quotes, backslashes and control characters, between quotes, decodes to itself |
| Request.NeverUnsupported | internal/ofrep/request.go:158-160 | on JSON value texts the unsupported-type branch is dead |
| Request.NotJsonExactly | internal/ofrep/request.go:136-147 | a property is refused as malformed exactly when its trimmed text is that of no scalar and starts neither an object nor an array |
| Request.TargetingKeyRefines | internal/ofrep/request.go:117-126 | a targeting key text is accepted exactly when it denotes null or a string within the limit, with that string |
| Request.KeyIsText | internal/ofrep/request.go:117-126 | of all JSON values only null and strings are taken for a targeting key |
| Request.NumberRefines | internal/ofrep/request.go:167-178 | on every number literal the decoder returns the integer, the float or the refusal its exact value calls for |
| Request.ShiftedNext | internal/ofrep/request.go:173-177 | each place a decimal point moves multiplies by ten, to either side |
| Request.ExactValueMoved | internal/ofrep/request.go:173-177 | the value of a literal is its digits as one numeral, moved by its exponent less the length of its fraction, under its sign |
| Request.OverflowIsHalfAboveMax | internal/ofrep/request.go:173-176 | the bound from which a literal is refused lies half a unit in the last place above the largest float64 |
| Request.IntegersStayExact | internal/ofrep/request.go:164-178 | a literal without fraction or exponent decodes to the integer of exactly its value when that fits in 64 bits, and otherwise takes the float path; no other literal decodes to an integer |
| Request.IntegersNeverCollide | internal/ofrep/request.go:164-178 | literals that decode to the same integer have the same value |
| Request.EveryInt64Reached | internal/ofrep/request.go:164-178 | every 64-bit integer is reached by its decimal literal |
| Request.SortedKeys | internal/ofrep/request.go:184-191 | the result is strictly increasing in byte order and holds exactly the map's keys |
| Request.SortedUnique | internal/ofrep/request.go:184-191 | there is only one such sequence, so map iteration order cannot show |
| Request.DecodeContext | internal/ofrep/request.go:48-112 | the checks in order, then the least rejected property in byte order if any, else every property decoded, stated without reference to an order of the properties |
| Request.WalkProperties | internal/ofrep/request.go:77-104 | the sorted walk fails exactly when some property is rejected, names the least one, and otherwise yields every property's own value |
| Request.DecodesOnce | internal/ofrep/request.go:75-77 | that specification determines the result |
| Request.ContextMeaning | internal/ofrep/request.go:72-112 | decoding JSON value texts succeeds exactly when the count is within the limit and every property is acceptable, and the attributes are then the properties other than the targeting key, each standing for its own value |
| Request.FailureAnswered | internal/ofrep/request.go:34-70 | a refused request is an invalid request, answered 413 exactly when its body is too large and 400 otherwise, never with Retry-After |
| Request.FailureExplained | internal/ofrep/request.go:48-104 | the error code and details name the first check that failed, and of the rejected properties the one whose UTF-8 name comes first |
| Json.NumeralRead | internal/ofrep/request.go:143-157 | the reader gives back the parts of every number literal |
| Json.NumeralReadBack | internal/ofrep/request.go:143-157 | whatever the number reader accepts is a number literal, the one whose parts it returns |
| Json.ReaderExact | internal/ofrep/request.go:143-157 | the reader returns a value for a text exactly when the grammar assigns that scalar to it |
| Json.EncodeDenotes | internal/ofrep/request.go:143-157 | every value is denoted by its encoding, so the grammar leaves no value out |
| Json.EscapeRoundTrip | internal/ofrep/request.go:143-154 | every text is read back from the form that escapes quotes, backslashes and control characters |
| Json.EscapeAllRoundTrip | internal/ofrep/request.go:143-154 | every text is read back from the form that writes each character as a code unit or a surrogate pair |
| Json.SimpleDenotes | internal/ofrep/request.go:143-154 | what each two-character escape denotes |
| Json.LoneSurrogate | internal/ofrep/request.go:143-154 | a surrogate without its partner denotes U+FFFD and what follows is read by itself |
| Text.ByteLengthIsUtf8 | internal/ofrep/request.go:151-152 | the length compared with the limit is that of the UTF-8 encoding |
| Text.BeforeIsByteOrder | internal/ofrep/request.go:184-191 | the order of the names is that of their UTF-8 bytes |
| MetricsRegistry.HistogramCell.Observe | internal/metrics/metrics.go:142-150 | one duration is added in place to the sum, the total and every bucket whose bound it does not exceed |
| MetricsRegistry.Registrar.ObserveEvaluation | internal/metrics/metrics.go:134-151 | the registry becomes the one with one more observation, its histograms staying unshared |
| Metrics.ReplayTells | internal/metrics/metrics.go:134-151 | after any observations each outcome's counter, bucket counters, sum and total are exactly the counts and sum of its own observations, and both maps have exactly the outcomes seen |
| Metrics.OrderIrrelevant | internal/metrics/metrics.go:134-151 | the registry depends only on the multiset of observations |
| Metrics.Cumulative | internal/metrics/metrics.go:56-58 | bucket counters do not decrease and do not pass the total, which is the outcome's counter |
| Metrics.SumBracketed | internal/metrics/metrics.go:142-150 | the sum lies above the counters weighed with lower edges plus the overflow at the last bound, and below them weighed with upper edges when nothing overflows |
| Exposition.Render | internal/metrics/metrics.go:205-257 | the text is exactly the lines the registry calls for, in order |
| Exposition.WriteBuckets | internal/metrics/metrics.go:231-234 | the bucket loop writes one line per bound with its own counter |
| Exposition.WriteDurations | internal/metrics/metrics.go:224-239 | the outcome loop writes the histograms that exist and skips the others |
| Exposition.UnlinesInjective | internal/metrics/metrics.go:205-257 | the text determines its lines |
| Exposition.SectionsRead | internal/metrics/metrics.go:224-239 | equal histogram lines mean the same histograms exist, with equal buckets and totals |
| Exposition.KeysAlwaysAgree | internal/metrics/metrics.go:137-141 | counters and histograms always exist for the same outcomes |
| Exposition.RenderingLosesNothing | internal/metrics/metrics.go:205-268 | two registries with the same text have the same counters, buckets and totals for every outcome, are both ready or both not, and print one time of readiness |
| Exposition.RenderedSum | internal/metrics/metrics.go:217-219 | the evaluation counters read back from the text sum to the number of observations |
| Exposition.RenderedHistogram | internal/metrics/metrics.go:229-238 | in the text each histogram is cumulative, and its +Inf bucket and count are the outcome's evaluation counter |
| Exposition.ProviderReadyTold | internal/metrics/metrics.go:240-246 | the text carries the line that the provider is ready exactly when it is, and the line that it is not exactly when it is not |
| Exposition.TailTold | internal/metrics/metrics.go:240-254 | the text ends with the readiness and its time, each under its own two comments |
| Exposition.HeadTold | internal/metrics/metrics.go:211-222 | it begins with the build info and the heading of the counters, and has no series at all before the first evaluation |
| Exposition.TimeoutLine | internal/metrics/metrics.go:217-219 | a counter line in full, with the label of its outcome |
| Config.LoadConfig | internal/bridge/config.go:76-117 | loading succeeds exactly when the provider is enabled, tracing is not disabled, every duration given reads and the values meet their bounds; it then gives each setting the environment's own value or, if absent or empty, its default, and otherwise reports exactly the problems there are, in order |
| Config.LoadedAsDescribed | internal/bridge/config.go:76-108 | what is loaded is what the environment describes under each setting's own name, defaults included |
| Config.Validate | internal/bridge/config.go:120-159 | nothing is wrong exactly when the provider is enabled, tracing is not disabled and the values meet the bounds the lifecycle requires |
| Config.LoadsExactly | internal/bridge/config.go:76-159 | loading succeeds exactly when the provider is enabled, tracing is not disabled, every duration reads, and the values meet the bounds the lifecycle requires |
| Config.EveryProblemReported | internal/bridge/config.go:76-159 | the problems reported are exactly those that can be read off the environment |
| Config.ReportedOnce | internal/bridge/config.go:103-108 | a setting that is not a duration is never also reported as out of range |
| ProcessHandle.Accounted | e2e/bridge.go:254-285 | at every point the exit is either in the channel or has been taken exactly once |
| ProcessHandle.OneShotReaping | e2e/bridge.go:254-285 | for every interleaving of asks the channel is received from at most once, positive answers carry the one exit, and none is followed by a negative one |
| ProcessHandle.PollIsExact | e2e/bridge.go:266-273 | a poll is positive exactly when the process has exited, and a wait misses an exit only by its timer |
| ProcessHandle.Process.Reap | e2e/bridge.go:259-285 | the answer is the one the sequence of asks determines, and the first to receive keeps it |
| ProcessHandle.Process.WaitExit | e2e/bridge.go:220-222 | the same, as a poll or as a wait during which the process may exit, by its timeout |
| ProcessHandle.Process.Signal | e2e/bridge.go:289-300 | fails exactly when the process was started, has not been reaped and cannot be signalled |
| ProcessHandle.Process.Terminate | e2e/bridge.go:240-252 | ends with the signal's failure, the exit, or a kill, each exactly when it should |
| ProcessHandle.Process.Stop | e2e/bridge.go:227-236 | unless the signal failed, the process has been reaped or is killed and waited for once more |

## Left out

- The OpenFeature client, the Datadog provider, the tracer, Remote Configuration and the exposure hooks: an
  evaluation is an arbitrary result, the provider's initialization and shutdown are steps that may fail.
- HTTP routing, the bulk endpoint's 501, the API key wrapper, /healthz, pprof, logging and the JSON encoding
  of replies: a reply is a value with status, body, outcome and Retry-After.
- Reading the body and decoding its outermost object: a request is too large, malformed, or a finite map
  from names to raw value texts. Error texts are abstracted to what they say (`Detail`, `Rejection`).
- `bridge.New`, `NewHandler`'s defaults and argument checks, `Redacted`, `DDTraceGoVersion` and the copying
  in `Snapshot`: single-branch facts.
- Request.NumberRefines: does not model float64 rounding; a float attribute is the exact value of its
  literal, standing for the nearest float64, and is refused from the magnitude at which rounding overflows.
- Metrics.SumBracketed: sums are exact reals, so rounding of the float64 sum is not modelled.
- Metrics.ReplayTells: states the sum as an exact real, where the code adds float64 values.
- Metrics.OrderIrrelevant: holds of exact sums; the code's float64 sum can depend on the order in its last
  digits. The counters, buckets and totals do not.
- Exposition.Render: the printers of floats, of quoted labels and of timestamps and the wording of HELP and
  TYPE lines are parameters, assumed to print one line; the reading lemmas recover counts, not sums.
- Request.DecodeContext: a raw text that is not one JSON value text, which the decoding of the outermost
  object never produces, is read as a whole, where the code would read a first value and leave the rest.
- Text is a sequence of Unicode scalar values; byte order and byte lengths are those of its UTF-8 form.
- Each connection carries at most one request, so a kept-alive connection appears as several connections.
- Scheduler fairness beyond the assumptions above: `Termination.Progress` says which step helps, not that
  the scheduler takes it.
- The operational endpoints are the functions `Bridge.Readyz` and `Bridge.Status` of one state; the status
  report reads lifecycle and registry together although the code takes the two locks one after the other.
- Evaluation.Handler.HandleEvaluateFlag: takes the result of the select and the time it took as arguments.
- Evaluation.Handler.EvaluateFlag: runs without interference and takes the result of the select as an
  argument; interleavings are the subject of the transition system.
