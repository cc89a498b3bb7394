# The resilience and admission-control layer, modelled and verified in Dafny

The backend decides in a handful of small hand-written state machines whether a call is let
through, retried, rate-limited, counted or forgotten. This project models them and proves what
they guarantee over whole runs, for every input and, where they are shared between goroutines,
for every interleaving of their critical sections.

`dafny verify dfyconfig.toml` checks everything.

| file | what it models |
|---|---|
| `Breaker.dfy` | the three-state circuit breaker: critical sections as functions, and the object |
| `BreakerInterleaving.dfy` | that breaker shared by any number of callers, one action per critical section |
| `Retry.dfy` | the retry loop with capped exponential backoff |
| `Reporter.dfy` | the bounded, de-duplicating error log |
| `Recovery.dfy` | retry inside breaker plus reporting, and the load on a dead backend |
| `SlidingLimiter.dfy` | the one-minute sliding window that forgets, beside one that does not |
| `TokenBucket.dfy` | the integer token bucket, beside the ideal one |
| `ProviderBreaker.dfy` | the LLM manager's own breaker, and its agreement with the generic one |
| `ProviderInterleaving.dfy` | that breaker shared by several requests |
| `Manager.dfy` | provider choice, fallback loops and statistics of the LLM manager |
| `BatchLogger.dfy` | the logger that batches successful requests |
| `Trackers.dfy` | the throughput and latency windows |
| `LoadBalancer.dfy` | the rotation over worker pools and the least-loaded choice |

`Common.dfy` holds clock constants and Go's truncating division, `Errors.dfy` the error values.

Every operation that the source runs on fields is a method of a class with those fields. Its
contract equates the new state with a function of the old one, and the lemmas are about those
functions: invariants, refinement of a simpler reference, bounds over all runs. Instants are
integers in nanoseconds and enter as parameters; where the source reads the clock more than once
there is one parameter for each reading.

## Where the code does less than it says

Each of these is a lemma with the exact condition under which the code keeps its word, and with
a witness for all other cases.

- The limit on half-open calls limits nothing: any number of callers can be in flight in the
  half-open state at once (`HalfOpenLimitIsVacuous`), because calls are only counted when they
  succeed, and by then the breaker closes.
- A caller that raced for the write lock can be refused by a breaker that is closed, under every
  configuration. Only a caller that has the breaker for itself is refused by cool-downs alone
  (`RefusalsJustifiedIff`, `ClosedBreakerRefuses`).
- The retry loop writes an annotation into the metadata map of the final error. For an error
  without that map, such as the ones `NewNetworkError` makes, this panics, the breaker is never
  told, and the bound on the load of a dead backend is lost (`LoadBoundIff`).
- With no permitted attempt the retry loop returns nil without running anything
  (`NilMeansSuccessIff`).
- The manager's breaker moves from open to half-open without a second look, on a copy that may be
  out of date. What the generic breaker guarantees to any number of callers holds of this one only
  while requests come one at a time: the cool-down (`CooldownKeptIff`), the failure count of a
  breaker that is not closed (`InvKeptIff`), and the single half-open request that the comment in
  the source announces (`OneProbeAtATimeIff`).
- Fallback to another provider cannot happen when a primary provider is configured or one is
  requested, although the comments on `Complete` and `Chat` announce the primary first and
  fallback after it (`FallbackPossibleIff`).
- The token bucket restarts its clock at every call and loses the fraction. It serves what the
  ideal bucket serves on all schedules with gaps of at least `g` exactly when such a gap is worth
  a token (or in degenerate cases, `SameAnswersIff`); callers that poll faster starve after the
  first burst (`FastPollingStarves`).
- The throughput tracker cuts nothing off when no sample is newer than the cutoff
  (`AddedIsWindowIff`).
- The token limit of the sliding window depends on estimates not being negative; for the limits
  with which negative ones do no harm see `TokensSafeIff`. The providers' estimates never are
  negative.
- The least-loaded choice returns no pool exactly when all are fully busy, although there are
  pools to wait for (`NoneIffAllBusy`, `BusyPoolIsPassedOver`).
- The batch logger keys its metrics by method, space and endpoint: two methods can be confused
  exactly when one of them, with a space, begins the other (`AmbiguousIff`). Among HTTP methods
  that never happens (`KeyIsUnambiguous`).

## Model

| member | source | states |
|---|---|---|
| Breaker.WithDefaults | pkg/errors/recovery.go:65-89 | a positive setting is kept, any other becomes 5 failures, 30 s or 3 calls |
| Breaker.CircuitBreaker.AllowRequest | pkg/errors/recovery.go:118-145 | the gate, with both clock readings, changes the state as `Allow` says and keeps the invariant |
| Breaker.AllowMeaning | pkg/errors/recovery.go:118-145 | an uninterrupted gate refuses exactly while the breaker is open and the cool-down is not over; the half-open limit never refuses |
| Breaker.CircuitBreaker.RecordResult | pkg/errors/recovery.go:148-205 | new state of a recorded outcome; while closed, failures counts the failures since the last recorded success |
| Breaker.CircuitBreaker.RecordSuccess | pkg/errors/recovery.go:168-186 | new state after a success, invariant kept |
| Breaker.CircuitBreaker.RecordFailure | pkg/errors/recovery.go:189-205 | new state after a failure, invariant kept |
| Breaker.SectionsKeepInv | pkg/errors/recovery.go:131-135 | every write section keeps: closed iff failures below the limit, and half-open counts equal and below the quota |
| BreakerInterleaving.StateInvariant | pkg/errors/recovery.go:118-205 | the same invariant in every state of every interleaving of any number of callers |
| BreakerInterleaving.NoAdmissionDuringCooldown | pkg/errors/recovery.go:118-145 | in no interleaving is a call admitted until more than the reset timeout after any earlier trip |
| BreakerInterleaving.TripsAreApart | pkg/errors/recovery.go:118-205 | two trips are more than a reset timeout apart, in every interleaving |
| BreakerInterleaving.ClosedCountsTrailing | pkg/errors/recovery.go:168-205 | while closed, failures is the length of the run of failures that ends the recorded outcomes |
| BreakerInterleaving.TripsExactlyWhen | pkg/errors/recovery.go:189-205 | a closed breaker opens exactly when that run reaches the limit, a half-open one exactly on a failure |
| BreakerInterleaving.InFlightIsBalance | pkg/errors/recovery.go:92-115 | in every state of every interleaving the calls in flight are those let through and not yet ended |
| BreakerInterleaving.HalfOpenAdmitsEveryone | pkg/errors/recovery.go:139-141 | every reachable half-open state admits every caller at the gate, so it cannot get stuck |
| BreakerInterleaving.HalfOpenClosesAfterQuota | pkg/errors/recovery.go:176-184 | without a failure, a half-open breaker counts successes and closes exactly with the one that fills max(1, limit/2) |
| BreakerInterleaving.LoadBound | pkg/errors/recovery.go:92-205 | n callers of a function that only fails get at most maxFailures - 1 + n(1 + floor(elapsed / (resetTimeout + 1 ns))) calls through, in every interleaving |
| BreakerInterleaving.LoadMaximum | pkg/errors/recovery.go:92-205 | for every n from one on and every duration the bound is the exact maximum over all interleavings: one of them lets as many calls through |
| BreakerInterleaving.UninterruptedGate | pkg/errors/recovery.go:118-145 | the three lock sections of one caller, with any time spent waiting for the write lock, are the gate of the sequential model with its two clock readings |
| BreakerInterleaving.RefusesExactlyWhen | pkg/errors/recovery.go:139-141 | the gate refuses exactly in a cool-down, or at the re-read when the breaker is not half-open any more |
| BreakerInterleaving.HalfOpenLimitIsVacuous | pkg/errors/recovery.go:140-141 | the half-open limit bounds the calls in flight over all runs iff there are no more callers than the limit |
| BreakerInterleaving.ClosedBreakerRefuses | pkg/errors/recovery.go:125-139 | for every configuration and two or more callers, an interleaving in which a closed breaker refuses a caller |
| BreakerInterleaving.RefusalsJustifiedIff | pkg/errors/recovery.go:118-145 | over all runs of n callers only a cool-down refuses, and a closed breaker never does, iff n is at most 1 |
| Retry.Execute | pkg/errors/recovery.go:342-412 | the loop returns, calls and waits as `ExecuteSpec` says, cancellation (with the wait it cuts short) and panicking annotation included |
| Retry.ExecuteMeaning | pkg/errors/recovery.go:342-412 | at most maxAttempts runs, all but the last failing with an error worth retrying; the result is the last run's (started before the context was done), the context's, or a panic |
| Retry.ExecutionIff | pkg/errors/recovery.go:342-412 | and only one report has that meaning: runs, waits, the length of a wait cut short, and result are determined by the surroundings, for all of them |
| Retry.NoRunAfterDone | pkg/errors/recovery.go:346-351 | no run starts once the context is found done; a cancelled execution runs nothing and returns the context's error |
| Retry.ExecuteUndisturbed | pkg/errors/recovery.go:342-412 | without cancellation: nil iff the last run succeeded, else its error, which was final or not retryable |
| Retry.ConstantErrorRuns | pkg/errors/recovery.go:279-301 | a function that always returns one error is run maxAttempts times iff that error is marked retryable and of a listed category, else once |
| Retry.NilMeansSuccessIff | pkg/errors/recovery.go:343-345 | nil vouches for a successful run iff maxAttempts is at least 1 |
| Retry.DelayGrowsUpToCap | pkg/errors/recovery.go:304-322 | the delay is the largest whole number within cap and exponential, and never decreases with the attempt |
| Retry.DelaysBegin | pkg/errors/recovery.go:304-322 | the first delay is the initial one, capped; the one before any attempt is not capped |
| Retry.RawTotalIsGeometric | pkg/errors/recovery.go:309-309 | the delays before cap and rounding form a geometric series: (x - 1) times their total is d (x^n - 1) |
| Retry.WaitsMakeUpSeries | pkg/errors/recovery.go:304-322 | until the cap is reached n waits make up that series but for less than n nanoseconds |
| Retry.DefaultDelays | pkg/errors/recovery.go:262-275 | the default policy waits 100 ms, doubled each time, at most 30 s |
| Retry.WaitsAreDelays | pkg/errors/recovery.go:342-401 | the time of n completed waits is the sum of the first n delays |
| Retry.WaitsGeometric | pkg/errors/recovery.go:304-322 | the closed form of the geometric sum bounds any number of waits |
| Retry.TotalWaitBounded | pkg/errors/recovery.go:342-401 | all waits of one execution, with the part of a wait that a cancellation cuts short, are at most (maxAttempts-1) caps and at most the geometric sum |
| Reporter.ErrorReporter.ReportError | pkg/errors/recovery.go:456-521 | the store is the one prescribed by the history with this report appended; nil is ignored |
| Reporter.ErrorReporter.ResolveError | pkg/errors/recovery.go:578-592 | likewise for a resolution; found iff some stored error has the identifier |
| Reporter.ErrorReporter.ClearOldErrors | pkg/errors/recovery.go:595-614 | likewise for a clearing; returns the number removed |
| Reporter.SearchKey | pkg/errors/recovery.go:467-480 | finds the first report with the same code, category and message |
| Reporter.SearchID | pkg/errors/recovery.go:582-589 | finds the first report with the identifier |
| Reporter.FilterKept | pkg/errors/recovery.go:600-612 | keeps the surviving reports and counts the others |
| Reporter.ReportedKeepsIndex | pkg/errors/recovery.go:456-505 | a report keeps the index invariant: distinct keys in creation order, bounded; each entry shows the error and time of the report that created it, the time of the latest one and the exact count; conservation |
| Reporter.KnownReportCounts | pkg/errors/recovery.go:467-480 | a further report of a stored error adds to its count and sets its last time; nothing else in the store changes, a resolution included |
| Reporter.EvictedIsOldest | pkg/errors/recovery.go:500-505 | a new error is stored last, and a full store gives up the report created before all others |
| Reporter.ResolvedKeepsIndex | pkg/errors/recovery.go:578-592 | a resolution keeps the index invariant |
| Reporter.ResolvedMeaning | pkg/errors/recovery.go:582-589 | the first report with the identifier is resolved at that instant and otherwise unchanged, as are all others |
| Reporter.UnknownResolvesNothing | pkg/errors/recovery.go:591-591 | an unknown identifier changes no report |
| Reporter.ResolvedIsCleared | pkg/errors/recovery.go:578-614 | over whole runs: a report once resolved is gone after any later clearing whose cutoff is not before the latest event, whatever happened in between |
| Reporter.NothingResolvedNothingCleared | pkg/errors/recovery.go:456-521 | over whole runs: without a resolution nothing is resolved and nothing is cleared |
| Reporter.ClearedKeepsIndex | pkg/errors/recovery.go:595-614 | a clearing keeps the index invariant |
| Reporter.ClearedMeaning | pkg/errors/recovery.go:603-610 | clearing keeps, in order, exactly the reports that are unresolved or resolved after the cutoff |
| Reporter.KeptAndDropped | pkg/errors/recovery.go:600-612 | the counts of the kept and of the dropped reports add up to those before the clearing |
| Reporter.IndexOverRuns | pkg/errors/recovery.go:437-614 | after any run each entry agrees with the list of all reports (creating error, first and last time, count since then), and retained + evicted + cleared equals all reports |
| Reporter.ErrorReporter.StoreIsIndex | pkg/errors/recovery.go:437-614 | the object's store has all this after any of its operations |
| Recovery.RecoveryManager.AddCircuitBreaker | pkg/errors/recovery.go:636-645 | a fresh breaker with defaults applied, others untouched |
| Recovery.ExecuteGuarded | pkg/errors/recovery.go:92-115 | gate, retries and recording; a refused call runs nothing and a panic records nothing |
| Recovery.RefusedIff | pkg/errors/recovery.go:92-115 | a call is refused iff it comes in a cool-down; then it runs nothing, changes nothing and gets the 503 error; otherwise it gets the answer of the retries |
| Recovery.NilMeansSuccess | pkg/errors/recovery.go:92-115 | nil from a call through the breaker means that it was admitted and its last run succeeded |
| Recovery.PanicIsUnrecorded | pkg/errors/recovery.go:105-112 | after a panic the breaker is as the gate left it |
| Recovery.RecoveredBackendIsServed | pkg/errors/recovery.go:148-186 | after any past, once calls succeed and the cool-down is over all are admitted, and the breaker closes with exactly the success that fills the quota |
| Recovery.QuietAfterTrip | pkg/errors/recovery.go:189-205 | over any run, after a call that trips the breaker none is admitted until more than the reset timeout after that call's end |
| Recovery.RecoveryManager.ExecuteWithRecovery | pkg/errors/recovery.go:648-675 | only the operation's breaker changes, and an enhanced error is reported exactly when returned |
| Recovery.RecoveryManager.ExecuteOperation | pkg/errors/recovery.go:648-675 | the retries run inside the operation's breaker if it has one, and bare otherwise |
| Recovery.DeadBackendLoad | pkg/errors/recovery.go:648-675 | a backend that only fails gets at most maxFailures + floor(elapsed / (resetTimeout + 1 ns)) calls, its function at most maxAttempts times that, for all call times |
| Recovery.ProbesAreAdmitted | pkg/errors/recovery.go:118-145 | a schedule of any length, one call per exceeded reset timeout once the breaker is open, on which every call to a failing backend is admitted |
| Recovery.DeadBackendMaximum | pkg/errors/recovery.go:648-675 | the most calls that reach a failing backend in a given time are exactly maxFailures + floor(time / (resetTimeout + 1 ns)): never more on any schedule, and as many on one |
| Recovery.LoadBoundIff | pkg/errors/recovery.go:404-409 | that bound holds on all schedules iff the returned error has a metadata map to annotate (or is not enhanced) |
| SlidingLimiter.RateLimiter.CheckRequest | internal/ai/providers/openai.go:685-729 | decides and records exactly like a limiter that never forgets; a rejected request is not recorded |
| SlidingLimiter.RateLimiter.CleanOldEntries | internal/ai/providers/openai.go:731-749 | both windows become the history behind the cutoff, with the same timestamps |
| SlidingLimiter.NewerTimes | internal/ai/providers/openai.go:733-739 | the loop keeps exactly the newer timestamps |
| SlidingLimiter.NewerUsage | internal/ai/providers/openai.go:742-748 | the loop keeps exactly the newer usages |
| SlidingLimiter.AddTokens | internal/ai/providers/openai.go:707-710 | the loop adds up the tokens of the window |
| SlidingLimiter.AcceptedIff | internal/ai/providers/openai.go:696-727 | a request is accepted iff the minute that ends with it stays within both limits |
| SlidingLimiter.RejectedBecause | internal/ai/providers/openai.go:696-719 | a rejection gives the number of requests as its reason iff it is used up in the last minute, and else the tokens |
| SlidingLimiter.AfterAfter | internal/ai/providers/openai.go:731-749 | pruning twice is pruning once at the later cutoff |
| SlidingLimiter.AcceptedKeepsWindowSafe | internal/ai/providers/openai.go:696-722 | one acceptance keeps the window that ends at any instant within both limits |
| SlidingLimiter.EveryWindowWithinRequests | internal/ai/providers/openai.go:685-729 | over any run, every minute, ending at any instant, has at most requestsPerMin accepted requests |
| SlidingLimiter.EveryWindowWithinTokens | internal/ai/providers/openai.go:706-727 | and at most tokensPerMin tokens, when no estimate is negative |
| SlidingLimiter.HistoryIsAnswers | internal/ai/providers/openai.go:720-728 | in every minute of every run the recorded requests are those that were answered with acceptance, in order |
| SlidingLimiter.TokensSafeIff | internal/ai/providers/openai.go:706-727 | for all limits: the token guarantee holds over all runs with estimates of at least `least` iff `least` is not negative, or at most one request a minute is allowed, or the token limit is below `least`, or it equals `least` with two requests a minute |
| TokenBucket.RateLimiter.Allow | internal/websocket/enhanced_client.go:1158-1182 | refill rounded down, capped, clock restarted, token taken; 0 <= tokens <= burst kept |
| TokenBucket.WindowBound | internal/websocket/enhanced_client.go:1149-1182 | in any interval [s, t] of any run at most burst + floor(rate (t - s)) calls are allowed |
| TokenBucket.DominatedByIdeal | internal/websocket/enhanced_client.go:1158-1182 | on the same call times it never allows a call the ideal real-valued bucket refuses |
| TokenBucket.LagIsLost | internal/websocket/enhanced_client.go:1163-1173 | on every schedule it lags behind the ideal bucket by at most the fractions of tokens its gaps were worth: whole tokens are never lost |
| TokenBucket.RefusedForLoss | internal/websocket/enhanced_client.go:1175-1181 | a call that only the ideal bucket allows was refused for those fractions |
| TokenBucket.WholeGapsLoseNothing | internal/websocket/enhanced_client.go:1163-1173 | with gaps worth whole tokens the two buckets decide alike |
| TokenBucket.FastPollingStarves | internal/websocket/enhanced_client.go:1163-1173 | with all gaps below one token, call k is allowed iff k < burst |
| TokenBucket.SameAnswersIff | internal/websocket/enhanced_client.go:1158-1182 | on all schedules with gaps of at least g it answers like the ideal bucket iff rate x g is at least one token, or the burst is not positive, or g = 0 and the rate is a whole number of tokens per nanosecond or fills the bucket in one |
| ProviderBreaker.CircuitBreaker.CheckGate | internal/ai/manager.go:356-381 | the gate of an uninterrupted request |
| ProviderBreaker.CircuitBreaker.Record | internal/ai/manager.go:565-586 | the new state after an outcome |
| ProviderBreaker.SequentialStepsKeepInv | internal/ai/manager.go:356-381 | in sequential runs the breaker is closed iff fewer than five failures are counted |
| ProviderBreaker.GatesAgree | internal/ai/manager.go:365-377 | in matching states the two breakers' gates answer alike and stay matched |
| ProviderBreaker.OutcomesAgreeIff | internal/ai/manager.go:565-586 | an outcome keeps the states matched iff it is not recorded behind an open breaker (or changes nothing there) |
| ProviderBreaker.BreakersAgree | internal/ai/manager.go:356-381 | on every sequential run it admits the same requests as the generic breaker with equivalent settings, in matching states |
| ProviderBreaker.AlwaysAgreeIff | internal/ai/manager.go:356-381 | the generic breaker answers alike on all sequential runs iff it is set to 5 failures, 60 s and at most 3 half-open calls |
| ProviderBreaker.DeadProviderMaximum | internal/ai/manager.go:356-381 | the most calls that a provider that never answers can get in a sequential run are exactly 5 + floor(elapsed / (60 s + 1 ns)) |
| ProviderInterleaving.WeakInvariant | internal/ai/manager.go:565-586 | under every interleaving of copying, deciding, writing, recording and leaving unrecorded, an open breaker has five failures and a closed one has not |
| ProviderInterleaving.FailuresAreTrailing | internal/ai/manager.go:565-586 | in every state of every interleaving the counter is the length of the run of failures that ends the recorded outcomes |
| ProviderInterleaving.StateTellsTrailing | internal/ai/manager.go:565-586 | an open breaker was last told of five failures in a row or more, a closed one of fewer |
| ProviderInterleaving.InFlightIsBalance | internal/ai/manager.go:356-381 | in every state of every interleaving the requests past the gate are those let through and not yet ended |
| ProviderInterleaving.LastFailureIsLatest | internal/ai/manager.go:577-579 | in every state of every interleaving the cool-down is counted from the latest recorded failure |
| ProviderInterleaving.WritesIffReadFailureIsOld | internal/ai/manager.go:360-372 | a request goes on to the half-open write iff the cool-down is over after the failure that was the latest when it read, whatever was recorded since |
| ProviderInterleaving.InvLostExactlyWhen | internal/ai/manager.go:367-371 | the step that loses the sequential invariant is a half-open write after the failures were reset, and no other |
| ProviderInterleaving.CooldownUnlessStale | internal/ai/manager.go:365-374 | with any number of requests the cool-down after a trip is kept when no write is stale and no earlier request succeeds meanwhile |
| ProviderInterleaving.AdmittedDuringCooldown | internal/ai/manager.go:367-371 | for every number of requests from two on, an interleaving that admits a request in the instant of a trip |
| ProviderInterleaving.HalfOpenWithoutFailures | internal/ai/manager.go:367-371 | for every number of requests from two on, an interleaving that ends half-open with no failure counted |
| ProviderInterleaving.CooldownKeptIff | internal/ai/manager.go:360-374 | in all runs of n requests no admission falls within the cool-down after a trip, iff n is at most 1 |
| ProviderInterleaving.InvKeptIff | internal/ai/manager.go:367-371 | in all runs of n requests the breaker is closed exactly below five counted failures, iff n is at most 1 |
| ProviderInterleaving.OneProbeAtATimeIff | internal/ai/manager.go:375-376 | in all runs of n requests at most one is past the gate of a half-open breaker, iff n is at most 1 |
| Manager.LLMManager.IsProviderAvailable | internal/ai/manager.go:356-381 | gate and self-reported availability; only that provider's breaker changes |
| Manager.LLMManager.TryProvider | internal/ai/manager.go:383-429 | one call's effect on counters, time and breaker of that provider only |
| Manager.LLMManager.Chat | internal/ai/manager.go:151-222 | providers, result and calls made are those of `ChatSpec` |
| Manager.LLMManager.ChatWithFallback | internal/ai/manager.go:431-563 | likewise for the fallback path, with and without fallback enabled |
| Manager.LLMManager.FirstAvailable | internal/ai/manager.go:440-449 | without fallback the first available provider gets the only call |
| Manager.LLMManager.OnlyTurn | internal/ai/manager.go:440-444 | one turn without fallback: any reply ends the loop, a skip goes on to the next provider |
| Manager.LLMManager.Rounds | internal/ai/manager.go:452-496 | the loop over retries computes `Fallback` |
| Manager.LLMManager.OneRound | internal/ai/manager.go:456-483 | the loop over providers takes the turns of one round |
| Manager.LLMManager.LoopBody | internal/ai/manager.go:457-482 | one turn: skip, call, answer, non-retryable error, wait cut short by cancellation |
| Manager.FallbackMeaning | internal/ai/manager.go:431-563 | at most maxRetries x providers calls in provider order; all but the last fail and are not followed by a cancellation; an answer is returned at once, else cancelled iff the context ended in the wait after the last failure, else the last error, or unavailable |
| Manager.LoopTakesAllTurns | internal/ai/manager.go:455-485 | only an answer or a cancellation keeps the loops from visiting every provider in every round |
| Manager.LoopTakesPrefix | internal/ai/manager.go:455-485 | providers and calls after the loops are those of a beginning of the plan, cut short only by an answer or a cancellation |
| Manager.FirstReadyIsCalled | internal/ai/manager.go:439-451 | without fallback and without a named provider one provider that is up is called and none before it was ready; nobody is called only if nobody was ready |
| Manager.SkippedForCause | internal/ai/manager.go:457-459 | a provider is skipped iff its breaker is in its cool-down or it reports itself unavailable; a skip changes no statistics, but leaves a cooled breaker half-open |
| Manager.NamedProviderOnly | internal/ai/manager.go:159-181 | with a provider requested or configured only that one is called or changed; not found, unavailable, or its reply |
| Manager.NamedProviderCalledIff | internal/ai/manager.go:202-214 | the named provider is called iff it is registered, up, and not in a cool-down, however many failures are counted |
| Manager.UngatedPath | internal/ai/manager.go:432-438 | the path around the gate calls the primary provider whatever its breaker says, and no request gets there |
| Manager.FallbackPossibleIff | internal/ai/manager.go:159-184 | a second provider call is possible iff no provider is requested or configured as primary, fallback is on and maxRetries x providers is at least 2 |
| Manager.RetriesAreCapped | internal/ai/manager.go:455-485 | a fallback within one cool-down calls each provider at most max(1, 5 - failures) times, whatever maxRetries |
| Manager.ChatKeepsConsistent | internal/ai/manager.go:383-429 | one request keeps, for every provider: requests = errors + successes, and the breaker is closed iff fewer than five failures followed the last success |
| Manager.StatisticsOverRuns | internal/ai/manager.go:383-429 | and so it is after any sequence of requests to a new manager |
| Manager.ChatRecordsTrace | internal/ai/manager.go:407-429 | a request adds to every provider's history exactly its calls, with outcome and duration, of which requests, errors and busy time are the totals |
| Manager.FailuresInARowBounded | internal/ai/manager.go:151-222 | over any sequence of requests to a new manager, under all settings and replies, no provider gets more than 5 + floor(elapsed / (60 s + 1 ns)) failing calls in a row |
| BatchLogger.KeyIsUnambiguous | pkg/logger/logger.go:90-90 | two requests whose methods contain no space share metrics iff method and endpoint agree |
| BatchLogger.AmbiguousIff | pkg/logger/logger.go:90-90 | for all strings: two different requests with these methods can share metrics iff one method followed by a space is a beginning of the other |
| BatchLogger.RequestMetrics.Add | pkg/logger/logger.go:99-109 | count, total, extremes and truncated average after one more latency |
| BatchLogger.Logger.LogRequest | pkg/logger/logger.go:70-83 | a 200 goes into the batch, any other code changes no batch |
| BatchLogger.Logger.BatchSuccess | pkg/logger/logger.go:86-117 | the history grows by the request and a full batch is sent |
| BatchLogger.Logger.FlushBatch | pkg/logger/logger.go:120-135 | an empty batch sends nothing, otherwise one summary with the batch's size and metrics |
| BatchLogger.Logger.FlushPending | pkg/logger/logger.go:138-142 | a manual flush |
| BatchLogger.MetricsAreSummaries | pkg/logger/logger.go:92-109 | the metrics counted step by step are count, sum, least, greatest and average of the endpoint's latencies |
| BatchLogger.MetricsInRange | pkg/logger/logger.go:99-109 | Count x Min <= TotalTime <= Count x Max and Min <= Avg <= Max |
| BatchLogger.AverageMakesUpTotal | pkg/logger/logger.go:109-109 | count times average makes up the total but for less than one nanosecond each |
| BatchLogger.CountsAddUp | pkg/logger/logger.go:111-111 | the counts of all endpoints add up to the size of the batch |
| BatchLogger.NothingIsLost | pkg/logger/logger.go:86-142 | sent and pending requests together are the whole history in order; batches have 1 to batchSize requests, fewer are pending |
| BatchLogger.PendingIsRemainder | pkg/logger/logger.go:111-142 | a manual flush leaves nothing pending; after it the pending requests are the remainder of the successes by batchSize |
| BatchLogger.FullBatchesOnly | pkg/logger/logger.go:111-116 | without manual flushes n successes give exactly floor(n / batchSize) full summaries |
| Trackers.ClientThroughputTracker.AddSample | internal/websocket/enhanced_client.go:960-985 | append, cut and limit; nothing of the history is reordered |
| Trackers.CutPrefix | internal/websocket/enhanced_client.go:973-979 | the loop cuts in front of the first newer sample, if there is one |
| Trackers.AddedIsWindow | internal/websocket/enhanced_client.go:960-985 | the samples are the last min(maxSamples, newer) of all samples newer than the cutoff in the whole history |
| Trackers.AddedIsWindowIff | internal/websocket/enhanced_client.go:973-979 | and this holds iff the new sample is newer than the cutoff (or nothing may be kept) |
| Trackers.LatencyTracker.AddSample | internal/websocket/enhanced_client.go:1043-1058 | the samples are always the last min(maxSamples, all) of the history |
| Trackers.LatencyTracker.GetAverageLatency | internal/websocket/enhanced_client.go:1060-1074 | the truncated mean, or 0 |
| Trackers.AverageBetween | internal/websocket/enhanced_client.go:1060-1074 | the mean lies between any bounds on the samples |
| Trackers.AverageMakesUpSum | internal/websocket/enhanced_client.go:1060-1074 | the mean taken as often as there are samples makes up their sum but for less than one nanosecond each |
| LoadBalancing.LoadBalancer.SelectWorkerPool | internal/websocket/optimization.go:888-897 | rotation for every strategy but the least-loaded one |
| LoadBalancing.LoadBalancer.RoundRobinSelect | internal/websocket/optimization.go:899-906 | the next pool in turn, none without pools |
| LoadBalancing.LoadBalancer.LeastLoadedSelect | internal/websocket/optimization.go:908-924 | the first pool of least utilization, none iff all are fully busy |
| LoadBalancing.NoneIffAllBusy | internal/websocket/optimization.go:908-924 | the choice is determined, and it is no pool iff all are fully busy |
| LoadBalancing.BusyPoolIsPassedOver | internal/websocket/optimization.go:908-924 | an instance: a pool, and none selected |
| LoadBalancing.RotationIsFair | internal/websocket/optimization.go:899-906 | any k consecutive selections choose each of n pools floor(k/n) or ceil(k/n) times |
| LoadBalancing.RotationOrder | internal/websocket/optimization.go:899-906 | a new balancer begins with the second pool and goes round in order |

## Left out

- Retry.DelayGrowsUpToCap: delays are computed in real numbers and truncated; float64 rounding and int64 overflow are not modelled. The jitter term multiplies a remainder modulo 1 of a whole number and is zero. The law is stated for a non-negative initial delay and a factor of at least 1, the range of the documented configurations.
- TokenBucket.WindowBound: rate times elapsed seconds is exact and rounded down; float64 rounding is not modelled. The rate is positive, as at the only place that creates limiters (internal/websocket/enhanced_client.go:583-589); the burst is arbitrary.
- LoadBalancing.RotationIsFair: overflow of the 64-bit counter is not modelled.
- Clock: instants never go backwards within one object, and counters do not overflow.
- Concurrency of objects whose every operation holds one exclusive lock (reporter, limiters, logger, trackers): they are modelled one operation at a time.
- Manager.LLMManager.Chat: in the sequential object the gate is one step; the two-lock gate under concurrency is the subject of ProviderInterleaving. Settings are fixed for a run (`SaveSettings` is left out), the provider list is given to the constructor (the source builds it before any factory can be registered), and `TestConnection`, `GetModels` and the `lastUsage` timestamps are left out.
- Time limits on contexts: the moment a context is done enters as an input of each attempt or turn.
- Recovery.RecoveryManager.ExecuteWithRecovery: the asynchronous report of a breaker that opens (pkg/errors/recovery.go:687-711), callbacks, logging (including its look at a context that may be missing, line 517), metrics and the free-form context of a report are left out. A panic of the caller's own function is not modelled there; in the interleavings it is the action `Abandon`.
- Manual reset of a breaker, named in docs/ERROR_HANDLING.md, has no code.
- `GetErrorStats`, `GetErrorReports`, `GetMetrics` and the throughput rates: counts and copies that would only add easy members.
- `GetPercentileLatency`: it indexes samples that were never sorted, so nothing holds of the result.
- The circuit breaker of internal/websocket/optimization.go: it never assigns its half-open state.
- Loops over stored reports, windows, samples and provider rounds are methods of their own where the source writes them inside a larger method; locks have no counterpart in the sequential objects.
- Worker pools are values with a busy and a total count, not objects with goroutines.
- Provider HTTP code, JSON, adapters, the websocket hub, routing, configuration loading and the database.
