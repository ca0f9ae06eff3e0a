# Verified model of the gateway's stateful algorithms

This project models, in Dafny, the small stateful algorithms that the gateway
(`src/gateway`), the account gateway (`acugw/src`) and the tunnel
(`tunnel/tunnel.py`) are built from, and proves what they guarantee over whole
runs: every history of calls, every interleaving of tasks, every way of cutting
a byte stream. `dafny verify dfyconfig.toml` checks everything.

Where the source updates an object in place, the model is a class whose methods
update the same fields; each method is proved equal to a function on the
object's value, and the theorems over runs are about these functions. Time is a
number passed into each step; one call reads the clock once. Floating-point
numbers are reals.

| file | models |
|---|---|
| `Scheduler`, `SchedulerRuns`, `KeyHistory`, `InFlight` | the upstream key scheduler: selection, health, cooldown, in-flight counts |
| `RotationClock`, `Rotation`, `Blocks`, `SharedRotation`, `ModelRuns` | its sticky round robin: one model by itself, and many models that share the index |
| `RetryLoop`, `RetryRuns`, `RetryVerdicts` | the retry loop of an ordinary chat request |
| `Circuit`, `JsonDepth` | the circuit breaker and the request guard's depth scanner |
| `EditDistance` | model-name correction |
| `RateLimit`, `BucketTable`, `Eviction` | token buckets and the idle eviction of their table |
| `Cache`, `CacheRuns` | an LRU level over a time-to-live level |
| `AccountPool`, `AccountHeals`, `AccountChoice` | account leases, healing, and the choice of an account |
| `Sse`, `SseLines`, `SseMeaning`, `SseText`, `SseParser` | the incremental event-stream parser (WHATWG HTML, section 9.2.6) |
| `Consumers`, `Streaming`, `StreamRuns`, `Collecting` | its two readers, and the bounded channels between parser, reader and client |
| `TunnelCodec`, `Tunnel`, `TunnelRuns` | the frame codec and the multiplexed streams behind SOCKS5 (RFC 1928, sections 3, 4 and 6) |
| `Signing`, `Tokens` | request tokens and their nonce table |
| `Translator` | tool calls across two chat protocols |
| `Basics`, `JsonValue`, `TextLines` | shared types and functions |

## What the code does not keep

Some guarantees that the code's comments promise, or that one would expect of
it, fail. The model follows the code; each failure is a lemma with a concrete
run, next to the exact condition under which the guarantee holds.

- The round-robin index is shared by all models. One model by itself gets exactly
  fair shares (`Rotation.EqualShares`). Among others it does if and only if the
  index points at different positions when its blocks start
  (`ModelRuns.ModelSharesIff`), and its blocks follow the id order if and only if
  the others move the index by multiples of the number of keys in between
  (`ModelRuns.ModelFollowsOrderIff`). The comment promises equal use; two models in
  turn can each be bound to one key for ever (`ModelRuns.PinningRun`).
- The comment gives the 403 back-off as 60, 120, 240, 480, 600 seconds. 403s never
  escalate it (`SchedulerRuns.RepeatedRejectionsNeverEscalate`), since its exponent
  counts 429s and 5xx only; `SchedulerRuns.KthRejectionAsPromisedIff` says when the
  k-th 403 waits as promised.
- A sweep of a bucket in use makes the in-flight count too low
  (`InFlight.LongRequestIsForgotten`); the count is exact throughout a run if and
  only if no such sweep happens in it (`InFlight.ExactIffSweepsIdle`). Without such
  sweeps the cap bounds the requests on a key (`InFlight.CapHoldsForRequests`); with
  them nothing does (`InFlight.SweepsLiftTheCap`).
- A client that goes away while an upstream answer or its body is awaited takes the
  request with it, and its key is not released
  (`RetryRuns.AbandonedKeyKeepsRunning`): every key begun has ended if and only if
  that does not happen (`RetryRuns.RetriesKeepTheBooks`,
  `RetryRuns.NothingLeftRunning`).
- Warm-up never leaves 100, and the effective score computed in the filter loop
  is not read by anything that follows.
- Ten 5xx failures in a minute need not trip the breaker: eighteen may pass
  across the border of two windows (`Circuit.EighteenFailuresMayPass`). Exactly
  when a failure trips it is `Circuit.TripsIff`, and when the tenth does
  `Circuit.TenthFailureTripsIff`.
- A half-open breaker waits for its three probes to report, and a request that ends
  without a report, as one does whose client goes away or whose stream breaks off,
  never does: the model then stays shut for good (`Circuit.SilentProbesBlock`).
- The rate limit is tested against a window that only a new response closes: a key
  that has used up its limit is not taken again when the minute is over, but when it
  serves as a last resort or its bucket is swept (`KeyHistory.FullWindowLocksOut`).
- Error is stored before the cooldown that should keep the heal away, so that one
  heal can double-lease an account (`AccountHeals.OneHealDoublesLease`), and heals
  one at a time can make it invalid (`AccountHeals.WholeHealsInvalidate`). Leases
  are right if and only if heals store Idle while no guard is live
  (`AccountPool.LeasesFitIff`), which for uninterrupted heals means that none begins
  on an account in error with a live guard (`AccountHeals.HealsUnguardedIff`); a
  cooldown that covers the guard is enough (`AccountHeals.CoveredHealsAreSafe`).
  Heals that stall between their stores do harm of their own
  (`AccountHeals.TwoStalledHealsInvalidate`).
- The event parser cuts data at byte 200 for a log message, and dies where a
  character lies across that byte: neither that event nor any later one is sent
  (`SseMeaning.LongLineSilencesTheRest`). It stops if and only if some flush has such
  data (`SseMeaning.StopsIff`), and everything is sent if and only if nothing is
  meant from there on (`SseMeaning.AllSentIff`).
- A streamed answer goes through a channel of 64 frames that refuses more, and the
  client cannot read before the parser has ended. Up to 63 pieces of text always
  arrive, from 128 on some text is always lost (`StreamRuns.HowManyPieces`).
  `StreamRuns.EveryClientReadsAllIff` and `StreamRuns.SomeClientReadsAllIff` say for
  any events when all runs, and when some, deliver the whole text.
- A collected request waits for the parser, but no longer reads its events: it hangs,
  with its account, if and only if more than 64 events follow the first ending one
  (`Collecting.HangsIff`, `Collecting.HowManyMayFollow`).
- A token dated exactly 300 seconds ahead is accepted twice
  (`Signing.EdgeClaimIsAcceptedAgain`); as long as the table does not overflow, no
  other is (`Signing.AcceptedAgainOnlyAtEdge`).
- Eviction is visible under any plan with refill × 600 < capacity, and under no other
  (`Eviction.EvictionInvisibleIff`).

## Model

| member | source | states |
|---|---|---|
| SchedulerRuns.HealthFloor | src/gateway/scheduler.rs:469-491 | a bucket whose success, 429 and 5xx counts share one request total scores between 20 + 60 × success rate and 100 |
| SchedulerRuns.ReachableSound | src/gateway/scheduler.rs:382-491 | in every state any run of selections, responses, begins, ends and sweeps can reach, every health score is in [20, 100] and at least 20 + 60 × success rate once there was a response, and warm-up is still 100 |
| SchedulerRuns.ScopeMeaning | src/gateway/scheduler.rs:208-222 | whom the scope filter lets pass: the keys with a scope in which the model's name occurs, if there are any, and otherwise exactly the keys without a scope |
| SchedulerRuns.SelectFailsIff | src/gateway/scheduler.rs:201-274 | in a sound state a selection errs if and only if every in-scope key was tried already, and then it changes nothing; the health filter never bars the last resort |
| SchedulerRuns.ReachableSelectFailsIff | src/gateway/scheduler.rs:201-274 | the same if-and-only-if in every reachable state |
| SchedulerRuns.SelectChooses | src/gateway/scheduler.rs:208-298 | a selection returns an untried in-scope key, one that passes every filter if any does, otherwise one of highest health, and changes that key's stamp and the model's serving entry only |
| SchedulerRuns.LastResortServes | src/gateway/scheduler.rs:243-274 | when no key passes every filter, the first of the healthiest untried keys in scope serves, starts a new count, and the round-robin index does not move |
| SchedulerRuns.SelectErrs | src/gateway/scheduler.rs:203-206 | a selection reports that there are no active keys if and only if there are none |
| SchedulerRuns.SelectTouches | src/gateway/scheduler.rs:255-297 | the only bucket a selection changes is the chosen one, and only its time of last use |
| SchedulerRuns.CooldownRange | src/gateway/scheduler.rs:404-443 | every failure cools its key for 10 to 600 seconds |
| SchedulerRuns.RepeatedRejectionsNeverEscalate | src/gateway/scheduler.rs:419-425 | a 403 raises neither counter that its back-off reads: whatever 429s and 5xx failures a key has behind it, each of any number of 403s in a row cools it for one and the same time |
| SchedulerRuns.KthRejectionAsPromisedIff | src/gateway/scheduler.rs:419-425 | the k-th 403 in a row waits the k-th of the 60, 120, 240, 480, 600 seconds that the comment gives, if and only if min(429s + 5xx + 1, 5) = min(k, 5) |
| SchedulerRuns.BucketKept | src/gateway/scheduler.rs:223-298 | no run of other operations changes anything of a key's bucket but its time of last use and its in-flight count, as long as no response is recorded for it and no sweep drops it |
| SchedulerRuns.FailedKeySitsOut | src/gateway/scheduler.rs:402-443 | after a failure, through any such run, a selection before the cooldown ends takes the key only when no key at all passes the filters; the failure itself leaves no model sticky to it |
| KeyHistory.BucketTells | src/gateway/scheduler.rs:382-491 | in every run of the scheduler, every bucket tells exactly the responses recorded for its key since a sweep last dropped it: totals and window counters, each window opened by the first response more than 60 s after the one that opened the last; the cooldown of the last failure among them; and a health of 40 points for successes, 20 each for the absence of 429s and of 5xx, and 20 for an average latency between 10 s and 0.5 s |
| KeyHistory.FailureCools | src/gateway/scheduler.rs:402-443 | after any run, the k-th 429 of its window cools the key for 30 s (k < 3), 120 s (k < 10) or 600 s; a 403 for the time the comment gives for the 429s and 5xx so far; a 5xx for 10 s, status 0 for 30 s, every other status for 60 s |
| KeyHistory.ResponseIsLocal | src/gateway/scheduler.rs:368-467 | a response changes no other key's bucket and not the index, and releases exactly the models that its key serves, if it is a failure |
| KeyHistory.StreakCools | src/gateway/scheduler.rs:405-418 | the k-th of 429s that all come within 60 s of the first cools for 30 s, from the third on for 120 s, from the tenth on for 600 s |
| KeyHistory.AdmissibleIff | src/gateway/scheduler.rs:211-242 | after any run, a key passes every filter if and only if it is untried and in scope, its last failure's cooldown is over, fewer than 8 requests are in flight, and the window of its last response holds at most as many responses as its limit allows; health never decides |
| KeyHistory.FullWindowLocksOut | src/gateway/scheduler.rs:234-237 | a key at its rate limit stays out, however long ago its window opened, until a response is recorded for it or its bucket is swept |
| KeyHistory.WarmupLadder | src/gateway/scheduler.rs:447-467 | below full warm-up successes climb by way of 60 and 90, and a failure takes one step back |
| Scheduler.SurgeScheduler.SelectKey | src/gateway/scheduler.rs:201-298 | the whole new state and the answer, as the selection function the theorems are about |
| Scheduler.SurgeScheduler.Collect | src/gateway/scheduler.rs:210-242 | collects exactly the admissible keys, in pool order |
| Scheduler.SurgeScheduler.Passes | src/gateway/scheduler.rs:211-242 | the cascade of filters decides admissibility: untried, in scope, not cooling, healthy, below the concurrency cap and the rate limit |
| Scheduler.SurgeScheduler.SelectFallback | src/gateway/scheduler.rs:243-274 | with no admissible key, the healthiest untried key in scope serves and becomes sticky; without one nothing changes |
| Scheduler.SurgeScheduler.Best | src/gateway/scheduler.rs:268-270 | the front of the stable sort by health is the first of the healthiest |
| Scheduler.SurgeScheduler.Rotate | src/gateway/scheduler.rs:275-297 | stays with the serving key below its target, otherwise takes the key at the global index in id order |
| Scheduler.SurgeScheduler.RecordResponse | src/gateway/scheduler.rs:382-467 | counts, cools, rescores and releases stickiness in place, as the response function |
| Scheduler.SurgeScheduler.Count | src/gateway/scheduler.rs:385-437 | the counters after a response: an expired window is emptied first, and each failure raises exactly one total |
| Scheduler.SurgeScheduler.BeginRequest | src/gateway/scheduler.rs:508-511 | one more in flight on the key, its bucket made if missing |
| Scheduler.SurgeScheduler.EndRequest | src/gateway/scheduler.rs:513-519 | one less in flight, never below zero |
| Scheduler.SurgeScheduler.RunBackgroundTasks | src/gateway/scheduler.rs:522-536 | removes exactly the buckets unused for more than 600 seconds |
| Scheduler.SortById | src/gateway/scheduler.rs:292 | the rotation order is a permutation of the candidates sorted by id |
| Scheduler.IndexIsRemainder | src/gateway/scheduler.rs:293 | the position taken is the index modulo the number of candidates |
| Scheduler.IndexWraps | src/gateway/scheduler.rs:294 | the index counts up in 64 bits |
| Scheduler.Pick | src/gateway/scheduler.rs:275-297 | the chosen key is always one of the candidates |
| Rotation.RotationTargetRange | src/gateway/scheduler.rs:195-198 | a key serves between 6 and 40 requests in a row, 6 per unit of weight |
| Rotation.PickTicks | src/gateway/scheduler.rs:275-297 | one selection serves the key of the next clock slot and leaves entry and index in agreement with that slot |
| Rotation.SelectionsFollowClock | src/gateway/scheduler.rs:275-297 | over any run with unchanging candidates, selection i serves the key of the clock's slot i: keys in id order, each its target times in a row |
| Rotation.FreshModelAgrees | src/gateway/scheduler.rs:275-297 | a model nobody serves yet starts that clock at the global index |
| Rotation.EqualShares | src/gateway/scheduler.rs:195-298 | a model by itself: every window of as many selections as the targets sum to, wherever it starts, serves each key exactly its target |
| RotationClock.RoundIsFair | src/gateway/scheduler.rs:275-297 | from any slot, one round of the clock gives every position exactly its target and returns to the slot |
| RotationClock.WindowIsFair | src/gateway/scheduler.rs:275-297 | a sequence that lists the slots' values holds each value exactly its target times in every window of one round |
| SharedRotation.NextStart | src/gateway/scheduler.rs:293-294 | after a block start and n further steps of the index the next position in id order is due if and only if the number of keys divides n, and the same position again if and only if it divides n + 1 |
| SharedRotation.BlocksServe | src/gateway/scheduler.rs:275-297 | however the other models move the index, each block of a model serves the key that the index points at when it starts, for exactly its target |
| SharedRotation.NextBlockIff | src/gateway/scheduler.rs:290-295 | a model's next block is of the next key in id order if and only if, between the two starts, the other models move the index by a multiple of the number of keys |
| SharedRotation.EqualSharesIff | src/gateway/scheduler.rs:195-298 | over as many blocks as there are keys, each key serves the model exactly its target if and only if the index points at a different position at each block start |
| ModelRuns.OwnHistory | src/gateway/scheduler.rs:201-298 | out of a run of selections of any number of models, the selections for one model follow one another through its own serving entry and the shared index, and their answers are those of that history |
| ModelRuns.ModelSharesIff | src/gateway/scheduler.rs:195-298 | the same if-and-only-if about the answers that one of many models gets in a run of all of them: equal use means distinct index positions at its block starts |
| ModelRuns.ModelFollowsOrderIff | src/gateway/scheduler.rs:290-295 | and about the order: its next block is answered with the next key if and only if the others move the index by a multiple of the number of keys in between, and with the same key again if and only if they complete a round with it |
| ModelRuns.InterleavedModelsPinKeys | src/gateway/scheduler.rs:290-295 | two models that ask in turn for blocks over the same two keys: every selection for the first is answered with the one key and every selection for the second with the other, for as long as the run goes on |
| ModelRuns.SelectionsAreSystem | src/gateway/scheduler.rs:201-298 | any run of selections from an empty scheduler, each on the buckets, entries and index that the ones before have left, is such a system of selections |
| ModelRuns.PinningRun | src/gateway/scheduler.rs:290-295 | such runs are runs of the scheduler: for any two models, any number of selections and any clock, an empty scheduler that offers two keys answers the one model with the one key and the other with the other, every time |
| Blocks.SharesIff | src/gateway/scheduler.rs:195-297 | in a sequence made of blocks, as many as there are values and each as long as its value's target, every value occurs exactly its target times if and only if no two blocks are of one value |
| Blocks.EachOnceIff | src/gateway/scheduler.rs:293 | positions below their own number: each occurs once if and only if none occurs twice |
| InFlight.Moves | src/gateway/scheduler.rs:508-536 | how each event moves the scheduler's count and the true counts of selected and running requests |
| InFlight.NeverOvercounts | src/gateway/scheduler.rs:508-536 | over any interleaving of requests and sweeps, the count never exceeds the requests between begin and end |
| InFlight.CountsExactly | src/gateway/scheduler.rs:508-536 | the count is exact as long as no sweep drops a bucket in use |
| InFlight.FirstBadSweepUndercounts | src/gateway/scheduler.rs:522-536 | up to the first sweep that drops a bucket in use the count is exact, and that sweep makes it zero while requests are running |
| InFlight.ExactIffSweepsIdle | src/gateway/scheduler.rs:508-536 | the count is exact in every state of a run if and only if no sweep of the run drops the bucket in use |
| InFlight.LongRequestIsForgotten | src/gateway/scheduler.rs:522-536 | a run with such a sweep: a request that still runs 600 seconds and a nanosecond after its selection is not counted any more |
| InFlight.ShortRequestsCountExactly | src/gateway/scheduler.rs:508-536 | the count is exact if no request outlives the idle limit of 600 seconds |
| InFlight.OrdinarySelectionBelowCap | src/gateway/scheduler.rs:231-233 | a selection with an admissible key returns a key with fewer than 8 requests in flight |
| InFlight.CapHolds | src/gateway/handler/public.rs:450-577 | if every selection of a key is ordinary and at most n requests sit between selection and begin, the scheduler's count and those n together stay within 7 + n |
| InFlight.CapHoldsForRequests | src/gateway/handler/public.rs:450-577 | and so do the requests that really run on the key, as long as no sweep drops its bucket while in use |
| InFlight.SweepsLiftTheCap | src/gateway/scheduler.rs:522-536 | without that condition there is no bound: for every n a run exists in which n requests run on one key although each selection was ordinary and each request began at once |
| RetryLoop.ChatCompletions | src/gateway/handler/public.rs:402-578 | the verdict, the keys used, the effects on scheduler and breaker and the sleeps are those of the attempt function, for every reply, every clock reading and every place where the client may go away |
| RetryLoop.Attempt | src/gateway/handler/public.rs:408-459 | one turn of the loop: budget and back-off, the breaker's answer, then a selection |
| RetryLoop.TryKey | src/gateway/handler/public.rs:450-577 | one selection among the keys not tried, and the exchange with the selected key |
| RetryLoop.Converse | src/gateway/handler/public.rs:459-577 | what an attempt tells scheduler and breaker, in order, and how the loop goes on: decryption and build errors, success, retryable and final answers, connection errors, and a client that goes away while the answer or its body is awaited |
| RetryLoop.Succeed | src/gateway/handler/public.rs:507-519 | a success is recorded for the key at once, for the breaker at once or when the stream completes, and the key is released |
| RetryLoop.BackOff | src/gateway/handler/public.rs:416-434 | the sleep fits into what is left of the 8 s budget, and without a Retry-After into the 3 s cap |
| RetryLoop.StoppedForGood | src/gateway/handler/public.rs:402-578 | no attempt follows one that ends the loop |
| RetryRuns.SuccessSettles | src/gateway/handler/public.rs:507-519 | after a success the key is released and scheduler and breaker have heard of the same failures |
| RetryRuns.FailureSettles | src/gateway/handler/public.rs:523-562 | so they have after an upstream error, of which both hear once |
| RetryRuns.ConnectionSettles | src/gateway/handler/public.rs:565-575 | and after a connection error |
| RetryRuns.ExchangeSettles | src/gateway/handler/public.rs:459-577 | whatever the upstream does: one begin, equal failure reports, a verdict that fits the reports, and one end unless the client goes away inside the attempt |
| RetryRuns.AttemptsKeep | src/gateway/handler/public.rs:402-578 | all of this holds after any number of attempts |
| RetryRuns.RetriesKeepTheBooks | src/gateway/handler/public.rs:402-578 | no key is used twice, scheduler and breaker heard of the same failures, only a served request or one whose body was being read reports success to the breaker, and every sleep ends less than 9 s after the start; every key begun has ended if and only if the client did not go away inside an attempt, and otherwise exactly the last key is left running |
| RetryRuns.LoopLeavesAsSaid | src/gateway/handler/public.rs:402-578 | the loop ends with the client gone only at a place where, in one of its attempts, the client goes |
| RetryRuns.NothingLeftRunning | src/gateway/handler/public.rs:402-578 | if in no attempt the client goes away while the answer, an error body or the body is awaited, every key begun has ended |
| RetryRuns.AbandonedKeyKeepsRunning | src/gateway/handler/public.rs:450-510 | a client that goes away while the answer is awaited leaves the key in flight when nothing runs on it any more |
| RetryRuns.ProgressStep | src/gateway/scheduler.rs:211-213 | each attempt on a stable pool uses one more key of the scope until there is none left |
| RetryRuns.AttemptsProgress | src/gateway/handler/public.rs:402-459 | after n attempts without a stop on a stable pool, min(n, in-scope keys) keys are used |
| RetryRuns.RetriesTryEveryKey | src/gateway/handler/public.rs:402-459 | on a stable pool only keys of the scope are used, and unless it stops on a success, a final answer, the budget or the breaker the loop tries min(attempts, in-scope keys) of them |
| RetryVerdicts.PassedThroughIff | src/gateway/handler/public.rs:523-562 | an upstream error s is passed on if and only if some key that is tried reads an answer s other than 2xx and other than 429, 500, 502, 503 and 504 |
| RetryVerdicts.ServedIff | src/gateway/handler/public.rs:500-522 | a request is served if and only if some key that is tried gets a 2xx whose body, unless it is streamed, is read |
| RetryVerdicts.TransientFailuresTryAllKeys | src/gateway/handler/public.rs:402-578 | on a stable pool, when every exchange ends with one of those five statuses, without a connection or before it is sent, and neither breaker, budget nor client stops it, the loop tries min(attempts, in-scope keys) keys |
| RetryVerdicts.GateIs | src/gateway/handler/public.rs:435-458 | after the wait an attempt ends the loop with the breaker's refusal, or with the client gone during the selection, and touches no key; otherwise a key begins if and only if the selection returns one, and if it fails the loop goes on with its error |
| RetryVerdicts.LastErrorIs | src/gateway/handler/public.rs:402-602 | a loop that runs out of attempts answers with what its last exchange said: decryption, request, connection or the upstream's status |
| RetryVerdicts.WaitsAre | src/gateway/handler/public.rs:424-430 | without a Retry-After the waits before attempt n are exactly those up to 1, 2 or 3 s (n = 1, 2, more) and up to what is left of 8 s |
| RetryVerdicts.PauseIs | src/gateway/handler/public.rs:408-434 | before every further attempt: nothing after a lost connection; otherwise the end once 8 s are over, or else exactly one sleep, of the seconds a 429 asked for, at most 12, or of a drawn length, within the 8 s |
| Circuit.CircuitBreaker.CanRequest | src/gateway/circuit.rs:54-76 | the answer and the whole new table; only the model's own entry changes |
| Circuit.CircuitBreaker.RecordSuccess | src/gateway/circuit.rs:78-87 | closes a half-open breaker and touches nothing else |
| Circuit.CircuitBreaker.RecordFailure | src/gateway/circuit.rs:89-120 | counts in the current window, trips at ten, reopens from half open; only the model's own entry changes |
| Circuit.RunIsSound | src/gateway/circuit.rs:54-120 | in every run: fewer than ten failures counted while closed, one to three probes while half open, the 429 count always zero |
| Circuit.CounterIsExact | src/gateway/circuit.rs:89-120 | while a breaker is closed, its counter is exactly the number of 5xx failures since its window was opened or it last closed, whichever is later |
| Circuit.TripsIff | src/gateway/circuit.rs:89-120 | an event trips a closed breaker if and only if it is a 5xx failure and nine counted ones lie before it in the window that it falls into |
| Circuit.TenthFailureTripsIff | src/gateway/circuit.rs:89-120 | the tenth 5xx failure of a breaker that stayed closed trips it if and only if it comes at most 60 s after the start of the window that the first of the ten fell into |
| Circuit.TripNeedsTenFailures | src/gateway/circuit.rs:89-120 | a trip from closed means at least ten 5xx failures in the last 60 s, the tripping one included |
| Circuit.ClosedStretchSpreads | src/gateway/circuit.rs:89-120 | the failures of a closed stretch fall into windows that began more than 60 s apart, nine at most in each |
| Circuit.ClosedStretchHasFewFailures | src/gateway/circuit.rs:89-120 | a stretch of n minutes during which a model stays closed holds at most 9(n + 1) of its 5xx failures: 18 in one minute |
| Circuit.EighteenFailuresMayPass | src/gateway/circuit.rs:89-120 | a run in which eighteen failures, all within a nanosecond, leave the breaker closed: the bound of 18 is reached |
| Circuit.OutageEpisodes | src/gateway/circuit.rs:54-95 | each probing episode of an outage waits a full minute and admits at most three requests |
| Circuit.OutageAdmitsFew | src/gateway/circuit.rs:54-95 | until a tripped model closes again, at most 3 × (full minutes since the trip) requests are admitted |
| Circuit.OpenUntilItsTime | src/gateway/circuit.rs:54-120 | once a breaker has opened, by a trip or a failed probe, it stays as it is through all events before the time set, 60 s later, and lets the next request through if and only if it comes at that time or later |
| Circuit.OpenAdmitsNothingEarly | src/gateway/circuit.rs:54-120 | no event of a run within 60 s after a trip is admitted or changes the breaker |
| Circuit.ClosesIff | src/gateway/circuit.rs:78-87 | a breaker that is not closed is closed by an event if and only if it is half open and the event is a success; all its counters are then zero |
| Circuit.ClosedAdmitsAll | src/gateway/circuit.rs:54-87 | from then on every request is admitted and changes nothing, up to the next trip |
| Circuit.FailedProbeReopens | src/gateway/circuit.rs:89-95 | a failure of any status while half open leaves the breaker open and unchanged for all events of the next 60 s, and the next request is admitted exactly from then on |
| Circuit.ProbesAdmittedIff | src/gateway/circuit.rs:67-75 | while a breaker is half open, a request is admitted if and only if fewer than three have been since its time was found over, that one included |
| Circuit.SilentProbesBlock | src/gateway/circuit.rs:67-75 | when three probes have been let through and none of them is reported, no request is admitted at any time, whatever else is asked |
| JsonDepth.MaxJsonDepth | src/gateway/circuit.rs:156-189 | the byte loop computes the maximum of the scanner's run |
| JsonDepth.ValidateRequestSafety | src/gateway/circuit.rs:123-135 | the verdict by size and scanned depth, the size first |
| JsonDepth.ScanChars | src/gateway/circuit.rs:156-189 | whatever escaped quotes, backslashes and brackets a string holds, the scanner leaves it as it entered it |
| JsonDepth.ScanValue | src/gateway/circuit.rs:156-189 | scanning the text of a value keeps the depth and raises the maximum by exactly the value's nesting |
| JsonDepth.ScannerFindsDepth | src/gateway/circuit.rs:156-189 | on the text of every JSON value (RFC 8259, sections 2, 4, 5 and 7) the scanner finds the nesting depth of the tree |
| JsonDepth.ScannerFindsLargestRise | src/gateway/circuit.rs:156-189 | on any bytes, JSON or not, the scanner finds the largest number by which opening exceed closing brackets outside strings over any stretch |
| JsonDepth.GuardJudgesTree | src/gateway/circuit.rs:123-135 | the text of a JSON value is refused if and only if it is over 10 MiB or the value is nested deeper than 20, with the error that says which |
| EditDistance.Levenshtein | src/gateway/validator.rs:15-28 | the two-row table computes the distance of the recurrence |
| EditDistance.NoCheaperScript | src/gateway/validator.rs:15-28 | no script of edits that turns one string into the other costs less than the distance |
| EditDistance.CheapestScript | src/gateway/validator.rs:15-28 | a script of exactly that cost exists |
| EditDistance.DistanceZero | src/gateway/validator.rs:15-28 | the distance is zero on equal strings and on no others |
| EditDistance.DistanceSymmetric | src/gateway/validator.rs:15-28 | it is symmetric |
| EditDistance.TriangleInequality | src/gateway/validator.rs:15-28 | it obeys the triangle inequality |
| EditDistance.DistanceBounds | src/gateway/validator.rs:15-28 | it lies between the difference of the lengths and the longer length |
| EditDistance.SimilarityRatio | src/gateway/validator.rs:31-41 | the ratio is in [0, 1], is 1 exactly on equal strings, and is one minus the distance over the longer length otherwise |
| RateLimit.TokenBucket.constructor | src/gateway/ratelimit.rs:40-48 | a new bucket is full, with capacity at least 1 and a positive refill |
| RateLimit.TokenBucket.TryTake | src/gateway/ratelimit.rs:52-65 | the new state and the answer, as the take function |
| RateLimit.HistoryIsSound | src/gateway/ratelimit.rs:52-65 | in every history the tokens stay between zero and the capacity, and plan and clock are kept |
| RateLimit.LevelIsLeastAllowance | src/gateway/ratelimit.rs:52-65 | the level at a call is the smallest allowance over all intervals that end with it |
| RateLimit.GrantedIff | src/gateway/ratelimit.rs:52-65 | a call is granted if and only if granting it keeps every interval ending now within capacity + refill × length |
| RateLimit.RateBound | src/gateway/ratelimit.rs:52-65 | the grants in any stretch of calls number at most capacity + refill × its length |
| RateLimit.WaitIsExact | src/gateway/ratelimit.rs:52-65 | after a refusal the next call succeeds if and only if it comes at least the stated wait later |
| BucketTable.AcuRateLimiter.constructor | src/gateway/ratelimit.rs:84-117 | per-minute rates become per-second plans; the table starts empty |
| BucketTable.AcuRateLimiter.CheckGlobal | src/gateway/ratelimit.rs:133-138 | takes from the shared bucket and leaves the table alone |
| BucketTable.AcuRateLimiter.Check | src/gateway/ratelimit.rs:141-162 | a key's bucket is made on first use and then its own plan counts; no other key's bucket changes |
| BucketTable.AcuRateLimiter.CheckUser | src/gateway/ratelimit.rs:141-146 | the same under the user plan |
| BucketTable.AcuRateLimiter.CheckSuperUser | src/gateway/ratelimit.rs:149-154 | the same under the owner's plan |
| BucketTable.AcuRateLimiter.CheckScript | src/gateway/ratelimit.rs:157-162 | the same under one request a minute |
| BucketTable.AcuRateLimiter.EvictIdle | src/gateway/ratelimit.rs:118-127 | drops exactly the buckets idle for 600 s |
| Eviction.IdleIsNew | src/gateway/ratelimit.rs:118-127 | a bucket of an ample plan that was idle long enough answers like a new one and is the same afterwards |
| Eviction.TablesAgree | src/gateway/ratelimit.rs:118-162 | for any number of clients under ample plans, the evicting table answers every call of every history as one that never drops anything |
| Eviction.ScarcePlanIsVisible | src/gateway/ratelimit.rs:118-127 | for every other plan a history in clock order exists whose last answer differs |
| Eviction.EvictionInvisibleIff | src/gateway/ratelimit.rs:118-127 | for a client under one plan, no history can tell the difference if and only if refill × 600 ≥ capacity |
| Eviction.DefaultPlansAreAmple | src/constants.rs:243-246 | the default user, owner and script plans meet that condition |
| Cache.LruCache.Get | src/gateway/cache.rs:31-45 | the new state and the answer; an expired entry goes, a hit moves to the end |
| Cache.LruCache.Set | src/gateway/cache.rs:47-59 | the eviction loop leaves the list trimmed from its old end |
| Cache.TtlCache.Get | src/gateway/cache.rs:76-84 | the new table and the answer |
| Cache.TtlCache.Set | src/gateway/cache.rs:85-87 | the new table |
| Cache.MultiLevelCache.Get | src/gateway/cache.rs:103-112 | a second-level hit is promoted into the first level |
| Cache.MultiLevelCache.Set | src/gateway/cache.rs:113-116 | both levels are written |
| CacheRuns.LruInvariant | src/gateway/cache.rs:31-59 | in every history the recency list ranks each listed name by the distinct names touched since, and stale names are only expired ones |
| CacheRuns.GetIsDue | src/gateway/cache.rs:31-45 | a get answers what the history makes due, and keeps that ranking |
| CacheRuns.LruIsExact | src/gateway/cache.rs:31-59 | a get hits if and only if the latest write is no older than the time to live and fewer than capacity other keys have been touched since, and returns that write, despite stale names left by expired gets |
| CacheRuns.LevelsCoherent | src/gateway/cache.rs:103-116 | both levels hold latest values only, and the second keeps each until it expires |
| CacheRuns.LevelsRefineLatestWrites | src/gateway/cache.rs:103-116 | a hit is the latest value set for the key, set at most l1_ttl + l2_ttl ago; a value within l2_ttl is always found |
| CacheRuns.StalenessBoundIsReached | src/gateway/cache.rs:103-112 | the age bound is reached |
| AccountPool.LeaseStep | acugw/src/pool.rs:132-196 | an atomic step keeps "Busy means one live guard, Idle none, never two" if and only if it is not a heal storing Idle beside a guard |
| AccountPool.LeasesFitIff | acugw/src/pool.rs:132-288 | over every interleaving, the lease protocol is right in all states if and only if every heal stores Idle while no guard is live |
| AccountPool.ErrorStep | acugw/src/pool.rs:222-288 | a step keeps the error count within one unforgiven error plus the heals in progress if and only if it is not a heal that stores Idle beside a lease that has stored Error |
| AccountPool.ErrorsFitUpTo | acugw/src/pool.rs:222-288 | so the bound holds in every run whose heals store Idle only while no guard is live |
| AccountPool.InvalidNeedsTwoHeals | acugw/src/pool.rs:222-288 | in runs whose heals store Idle only while no guard is live: until two heals are in progress at once, the count stays at 2 or less and the account never becomes invalid |
| AccountPool.AtMostOneError | acugw/src/pool.rs:222-288 | in such runs, if also nothing comes between a heal's two stores, the count never exceeds one |
| AccountPool.HealComesLater | acugw/src/pool.rs:215-288 | as long as no other step stores a cooldown, no heal begins within a day of a login refused as muted, within the time given of another failure below the third, and within the time given and 300 s of a mute; the third failure stores none and makes the account invalid |
| AccountHeals.HealsUnguardedIff | acugw/src/pool.rs:215-288 | heals that nothing interrupts store Idle only while no guard is live if and only if none begins, past the cooldown, on an account in error whose guard is still live |
| AccountHeals.CoveredHealsAreSafe | acugw/src/pool.rs:215-288 | if moreover the cooldown is in force from the store of Error until the guard is gone, leases are right, the error count stays at one or less and no account becomes invalid, in every state |
| AccountHeals.OneHealDoublesLease | acugw/src/pool.rs:220-234 | the code stores Error before the cooldown, and there one uninterrupted heal is enough to hand an account to two tasks |
| AccountHeals.WholeHealsInvalidate | acugw/src/pool.rs:199-288 | uninterrupted heals, one at a time, can also make an account invalid: two streams run on a token that a third request finds rejected; three leases then have to log in, while the streams are muted and healed in between, and fail together |
| AccountHeals.TwoStalledHealsInvalidate | acugw/src/pool.rs:222-288 | three failed logins a minute apart, with a heal stalled between its stores after each of the first two, make an account invalid although no heal meets a guard |
| AccountHeals.TwoHealsDoubleLease | acugw/src/pool.rs:280-288 | after one failed login, two heals that read the same error hand the account to two tasks |
| AccountChoice.Candidates | acugw/src/pool.rs:146-152 | collects exactly the available accounts, longest idle first |
| AccountChoice.Choose | acugw/src/pool.rs:145-165 | takes the longest idle account that is ready at once, or else the one with the shortest wait; none only if none is available |
| SseLines.LinesJoin | acugw/src/sse.rs:78-82 | cutting bytes anywhere and keeping the unfinished line gives the same lines |
| SseLines.SameRest | acugw/src/sse.rs:76-79 | what later bytes make of two buffers depends on their unfinished lines only |
| SseLines.RestJoin | acugw/src/sse.rs:76-79 | cutting bytes anywhere leaves the same unfinished line |
| SseLines.FirstLine | acugw/src/sse.rs:78-98 | cutting a buffer at its first newline takes exactly its first line |
| SseMeaning.ReceivedIs | acugw/src/sse.rs:71-76 | what is parsed are the chunks up to the first error, put together |
| SseMeaning.LaterBytesAdd | acugw/src/sse.rs:62-107 | the events of the first bytes are a prefix of the events of all bytes, and all of them if the parser has stopped by then |
| SseMeaning.StopsIff | acugw/src/sse.rs:109-119 | the parser stops if and only if the data of some flush is longer than 200 bytes with a character across byte 200; what it sends are the events of the flushes before the first such one, all other streams are read to their end |
| SseMeaning.AllSentIff | acugw/src/sse.rs:109-119 | all events that a byte string means are sent if and only if the flushes from the first such one on mean none |
| SseMeaning.WidthIsLeast | acugw/src/sse.rs:117 | a character counts as many bytes as UTF-8 needs to hold it |
| SseMeaning.LongPatchIsCut | acugw/src/sse.rs:118 | a patch with a three-byte character behind 199 ASCII characters is such data |
| SseMeaning.LongLineSilencesTheRest | acugw/src/sse.rs:78-119 | a stream that begins with that patch sends nothing at all, whatever follows, although it means the patch's text |
| SseText.AppendSays | acugw/src/sse.rs:243-251 | appended fragments send, as thinking, the sanitized content of exactly the items whose type is THINK, and as answer that of all others, in order |
| SseText.SnapshotPatch | acugw/src/sse.rs:139-206 | an event without a path replaces the fragments by its snapshot, and sends and holds of each kind exactly what the items of the snapshot say |
| SseText.StatusPatch | acugw/src/sse.rs:211-222 | a patch of the status ends the answer if its value is FINISHED or INCOMPLETE, and does nothing otherwise |
| SseText.ContentPatch | acugw/src/sse.rs:224-233 | plain content is sent as answer text |
| SseText.FragmentsPatch | acugw/src/sse.rs:240-254 | an append to the list of fragments sends what its items say, of each kind; any other operation on it does nothing |
| SseText.SlotPatch | acugw/src/sse.rs:255-272 | text for a fragment is put behind it and sent under its kind; a negative or unreadable index means the last |
| SseText.OtherPatch | acugw/src/sse.rs:208-274 | every patch of any other path changes nothing and sends nothing |
| SseText.PathPatch | acugw/src/sse.rs:139-188 | a patch applies to its own path, or else to the last one given, with its own operation or else the last one given |
| SseText.BatchPatch | acugw/src/sse.rs:168-186 | the children of a batch are applied one after the other, each to the path it names, from the root or behind the batch's, with its own operation or SET |
| SseText.PiecesFollow | acugw/src/sse.rs:139-272 | once the content of a fragment has been named, events that bring nothing but a string are put behind it, and sent under its kind, in order |
| SseText.OnePatch | acugw/src/sse.rs:76-117 | a stream of lines and an empty one, without an event name, is the patch of its joined data |
| SseText.OneNamedEvent | acugw/src/sse.rs:119-133 | with a name it is that event: ready with its ids, hint with its message, reason and whether it says rate_limit, nothing for update_session and close, and otherwise the name |
| SseText.SnapshotStream | acugw/src/sse.rs:62-206 | so a stream of one snapshot sends, of each kind, exactly what its items say |
| SseParser.Parser.Parse | acugw/src/sse.rs:62-107 | what is sent, whether the parser stops, and the final patch state depend on the bytes received only, not on how they are cut into chunks, for receivers that hang up at any point |
| SseParser.Parser.Consume | acugw/src/sse.rs:71-99 | chunk after chunk up to the end of the stream, a receiver that hangs up, or the parser's stop |
| SseParser.Parser.Feed | acugw/src/sse.rs:76-98 | after each chunk, state and sent events are those of all bytes so far, the stop included |
| SseParser.Parser.Drain | acugw/src/sse.rs:78-98 | the inner loop takes all complete lines and leaves the unfinished one |
| SseParser.Parser.TakeLine | acugw/src/sse.rs:80-96 | one line: dispatch on empty, event and data lines, others are ignored; the stop at a flush whose data is cut inside a character |
| SseParser.Parser.CutLine | acugw/src/sse.rs:78-79 | cuts exactly the bytes up to the first newline off the buffer |
| SseParser.Parser.NextLine | acugw/src/sse.rs:78-97 | one round of the inner loop: one more line is handled, none is lost |
| SseParser.Parser.Send | acugw/src/sse.rs:86-90 | a receiver gets the first events up to the one it refuses |
| SseParser.Parser.Finish | acugw/src/sse.rs:101-106 | the end of the stream flushes what is pending |
| SseParser.Parser.Flush | acugw/src/sse.rs:109-136 | data lines and type are used up; the parser stops exactly if byte 200 of the data lies inside a character, and otherwise the events are those of the type or of the patch |
| SseParser.Parser.NamedEvents | acugw/src/sse.rs:120-133 | the events of a named type |
| SseParser.Parser.ApplyPatch | acugw/src/sse.rs:139-189 | path and operation persist; the new patch state and the events |
| SseParser.Parser.ApplyBatch | acugw/src/sse.rs:168-186 | the children of a batch are applied in order under the parent path |
| SseParser.Parser.ApplySnapshot | acugw/src/sse.rs:191-206 | a snapshot replaces the fragments |
| SseParser.Parser.ApplyPatchAt | acugw/src/sse.rs:208-274 | one patch by its target |
| SseParser.Parser.AppendFragments | acugw/src/sse.rs:243-251 | new fragments are kept and sent in order |
| Sse.PatchAccounts | acugw/src/sse.rs:208-274 | the text of each kind that the fragments hold after a patch is what they held before with exactly what the patch sends put in, in front of the fragments behind the one addressed; only the plain content is sent without being kept |
| Sse.AppendOnlyKeepsText | acugw/src/sse.rs:208-274 | on a stream that never addresses a fragment with text of the kind behind it, the fragments hold, of each kind, exactly the concatenation of what was sent |
| Sse.SnapshotAccounts | acugw/src/sse.rs:191-206 | a snapshot sends, of each kind, exactly the text the fragments then hold |
| Sse.AppendAccounts | acugw/src/sse.rs:243-251 | appended fragments send, of each kind, exactly the text they add at the end |
| Sse.SlotAccounts | acugw/src/sse.rs:255-272 | text added to one fragment is sent under that fragment's kind; a negative or unreadable index means the last |
| Consumers.AggregateResponse | acugw/src/api.rs:222-247 | returns the answer text up to the first ending event and what that event was |
| Consumers.StreamResponse | acugw/src/api.rs:250-340 | the frames that are sent for an event sequence, in order, and the account's penalty, as the frame function; whether the channel takes them is the subject of `Streaming` |
| Consumers.Close | acugw/src/api.rs:297-301 | the finish reason and the end marker are appended, and add no text |
| Consumers.FramesAre | acugw/src/api.rs:250-343 | the frames are the role, one for each piece of answer text before the first ending event, and the end: the reason that event gives, or else stop, and the end marker, none of both if the answer breaks off without any text |
| Consumers.FramesSay | acugw/src/api.rs:267-333 | what is sent carries exactly the answer text up to the first ending event, and one end marker, last, if and only if an ending event or some text came |
| Consumers.ReadersAgree | acugw/src/api.rs:222-340 | on one event sequence the text sent equals the collected text; completion and rate limit are reported alike, and there is at most one end marker, sent last |
| Streaming.RunFits | acugw/src/api.rs:173-181 | in every run of parser, forwarding task and client over two channels of 64 slots: what was taken has been offered up to pending frames, what was offered was accepted or lost, the first 64 frames never are lost, and the client has read nothing before the parser ended |
| Streaming.Finish | acugw/src/api.rs:173-181 | no run gets stuck: from any state both tasks can be brought to their ends, and once the parser has ended without any further loss, if the client reads as soon as it can |
| StreamRuns.EveryClientReadsAllIff | acugw/src/api.rs:259-340 | all runs of an answer let the client read its whole text if and only if no text lies beyond the first 64 frames |
| StreamRuns.ShortAnswersArriveWhole | acugw/src/api.rs:259-340 | an answer of at most 64 frames, role, finish and end marker included, arrives whole in every run |
| StreamRuns.SomeClientReadsAllIff | acugw/src/api.rs:173-181 | some run lets a client read the whole text if and only if none lies beyond the first 64 frames, or at most 64 events follow the first ending one and no text lies beyond 64 frames among those of all but the last 65 events |
| StreamRuns.LongAnswersLoseText | acugw/src/api.rs:173-181 | an answer of more than 128 pieces of text loses text in every run, however fast its client reads |
| StreamRuns.HowManyPieces | acugw/src/api.rs:173-340 | of an answer in n equal pieces, the client gets all text in every run if and only if n ≤ 63, and in some run if and only if n ≤ 127 |
| Collecting.HangsIff | acugw/src/api.rs:183-184 | a collected request can get stuck, and then is never answered in any run, if and only if more than 64 events follow the first ending one |
| Collecting.RunSound | acugw/src/api.rs:183-184 | every run of a collected request is short: each event is sent and taken at most once, and either side ends once |
| Collecting.HowManyMayFollow | acugw/src/api.rs:183-184 | an answer that finishes at once and is followed by n events can be returned if and only if n ≤ 64 |
| TunnelCodec.PackUnpack | tunnel/tunnel.py:61-82 | a 32-bit field survives packing |
| TunnelCodec.FrameBytes | tunnel/tunnel.py:61-63 | a frame is the four magic bytes, version 1, the command, stream id and payload length with the most significant byte first, and the payload |
| TunnelCodec.RefusedIff | tunnel/tunnel.py:70-75 | a stream is refused if and only if its first four bytes are there and are not the magic ones |
| TunnelCodec.ReadMade | tunnel/tunnel.py:61-82 | a made frame at the head of a stream is read back, and nothing after it is touched |
| TunnelCodec.ReadPartial | tunnel/tunnel.py:70-82 | an incomplete frame is the end of the stream, never another frame or an error |
| TunnelCodec.ReadAllMade | tunnel/tunnel.py:61-82 | decoding the frames made gives the list back; decoding any part of their bytes gives a prefix of the list |
| Tunnel.StepIsLocal | tunnel/tunnel.py:186-473 | multiplexing is transparent: a step of one stream is that stream's step alone, and no other stream notices |
| Tunnel.AloneFits | tunnel/tunnel.py:186-473 | a stream alone keeps its books in order whatever step it takes |
| Tunnel.EveryStreamFits | tunnel/tunnel.py:186-473 | so does every stream in every run of all of them together |
| Tunnel.StreamsDeliverPrefixes | tunnel/tunnel.py:186-473 | the bytes delivered on each stream in each direction are a prefix of its own source bytes, and a SOCKS client hears exactly one reply first and bytes only after a success |
| Tunnel.NothingIsLost | tunnel/tunnel.py:186-473 | as long as a receiving end is open, what was read and not delivered is still travelling |
| TunnelRuns.EveryStreamTells | tunnel/tunnel.py:186-473 | in every run, for every stream, what either end holds is what has happened to the stream: how its request went, which closes and failed writes were handled, who gave up and who ended |
| TunnelRuns.ReplyIsOutcome | tunnel/tunnel.py:315-332 | the reply that a SOCKS client gets says whether the connection to its target was made, and it gets one unless it gave up or the request or the answer is still travelling |
| TunnelRuns.OpenIff | tunnel/tunnel.py:207-255 | the target's end is open exactly from a successful connect, and the SOCKS client's from the reply to it, until a close is handled or a write fails |
| TunnelRuns.EndsAreHeard | tunnel/tunnel.py:186-255 | when nothing of a stream travels any more, an end of the SOCKS client has closed the target's side and an end of the target the SOCKS client's |
| Signing.SigningManager.VerifyToken | src/gateway/signing.rs:39-72 | the checks in their order, the refusal each gives, and what an accepted token does to the table |
| Signing.SigningManager.Evict | src/gateway/signing.rs:66-70 | drops oldest entries only, down to 10000 |
| Signing.Oldest | src/gateway/signing.rs:67 | an entry with the smallest time |
| Signing.TablesFit | src/gateway/signing.rs:59-70 | in every run within capacity the table holds every recent acceptance and nothing that was not accepted |
| Signing.TableIsLastWindow | src/gateway/signing.rs:59-70 | with at most 10000 acceptances in any 600 s, the table after an acceptance is exactly the nonces accepted in the last 600 s |
| Signing.TableIsBounded | src/gateway/signing.rs:65-70 | in every run the table holds at most 10000 nonces |
| Signing.AcceptedAgainOnlyAtEdge | src/gateway/signing.rs:55-71 | a claim accepted twice was dated exactly 300 s ahead and came back exactly 600 s later; dated less far ahead, never |
| Signing.EdgeClaimIsAcceptedAgain | src/gateway/signing.rs:55-71 | at that edge every claim is accepted a second time |
| Tokens.AcceptedIff | src/gateway/signing.rs:39-72 | a token is accepted for a client if and only if it is a payload, a dot and the payload's signature without a dot, the payload decodes to client, time stamp and nonce between dots, alone or followed by a dot and more, the time stamp is readable and at most 300 s from now, and the nonce was not accepted in the last 600 s |
| Tokens.RefusedIff | src/gateway/signing.rs:40-53 | each other refusal is given if and only if its condition is violated and those before it are not: a dot, the signature, a payload that decodes, a second part, a readable one, a third part |
| Tokens.OutsideWindowIff | src/gateway/signing.rs:55-58 | a token in order is refused for its date if and only if that is more than 300 s from now |
| Tokens.ReplayIff | src/gateway/signing.rs:59-64 | and as used if and only if it is timely and its nonce was accepted less than 600 s ago |
| Translator.AnthropicToOpenai | src/gateway/translator.rs:87-165 | the messages, or the error, of the translation function |
| Translator.ConversationMessages | src/gateway/translator.rs:94-165 | fails exactly when a turn has no role, otherwise the turns' messages in order |
| Translator.TurnMessages | src/gateway/translator.rs:94-164 | one turn by its role; the method fails exactly without a role |
| Translator.AssistantTurn | src/gateway/translator.rs:98-128 | tool uses become calls and the remaining text is run together; without tool uses the content is kept |
| Translator.UserTurn | src/gateway/translator.rs:129-162 | tool results become messages of their own before the rest of the turn |
| Translator.TurnKeeps | src/gateway/translator.rs:94-164 | one turn keeps its tool uses with names and arguments, its tool results and its text, and makes one message and one more for each tool result |
| Translator.TranslationKeepsConversation | src/gateway/translator.rs:87-165 | a translated conversation makes the calls of its tool uses, in order, with ids, names and printed arguments, answers with its tool results, in order, and says the text of its turns after the system prompt; one message for each turn, one more for each tool result and at most one for a system prompt |
| Translator.TranslationKeepsIds | src/gateway/translator.rs:87-165 | each tool use and each tool result keeps its id, in order; only a use without one gets a new id |
| Translator.SystemSays | src/gateway/translator.rs:61-84 | the system prompt is one system message with its text, or with the string texts of its blocks joined by newlines, and none if there is no text at all |
| Translator.TranslationKeepsRoles | src/gateway/translator.rs:87-165 | the messages are the system's, if it says anything, and then turn by turn one of the tool for each tool result and one in the turn's own role |
| Translator.BlocksStay | src/gateway/translator.rs:98-162 | a user's turn keeps every block that is no tool result, in order, and an assistant's turn without tool uses stays as it is |
| TextLines.JoinedComeBack | acugw/src/sse.rs:110 | joined lines come back when the text is cut at its newlines |
| Translator.OpenaiResponseToAnthropic | src/gateway/translator.rs:204-229 | the content blocks of the translated answer |
| Translator.UsesComeBack | src/gateway/translator.rs:213-229 | the tool uses of the answer are the only ones found in its blocks, in order, and its text is kept |
| Translator.ArgumentsBecome | src/gateway/translator.rs:213-229 | the input of a tool use is the value of the call's argument text, and an empty object if there is none, if it is no JSON, or if it is not text |
| Translator.AnswerComesBack | src/gateway/translator.rs:97-128 | an answer fed back as an assistant turn restores its text and its ordered tool calls, arguments equal up to JSON parse and print |

## Left out

- HTTP routing, SQL, SMTP, admin and console handlers, web pages, the model
  catalog, deploy scripts and the browser proxy: input and output or data.
- AES, HMAC, HKDF, bcrypt, base64, UTF-8 decoding, JSON parsing and printing,
  trimming, integer parsing and content sanitizing: parameters about which nothing
  is assumed. The constant-time comparison is equality.
- Scheduler: `load_active_keys` is a parameter of each call; the special, line and
  acu key selectors are not modelled. One selection is one atomic step; in the
  source its lookup and its update of the serving entry take separate locks. The
  scope test reads a scope as one string, as the code does. The effective score is
  not computed, since nothing reads it.
- Rotation.EqualShares: one model by itself with unchanging candidates and an
  index that does not overflow 64 bits during the run.
- ModelRuns.ModelSharesIff: the model's candidates do not change from one of its
  selections to the next, no failure of its serving key removes its serving entry
  in between, and the index does not overflow 64 bits; the same for
  ModelRuns.ModelFollowsOrderIff and ModelRuns.InterleavedModelsPinKeys.
- RetryLoop.ChatCompletions: ordinary requests only; special, line and acu
  requests, caching, logging and the quota messages are left out. Key decryption
  and request building are outcomes given from outside; neither of them waits, so the
  client can go away only during a sleep, a selection, a call or the reading of a
  body. A stream goes on by itself once its answer has begun.
- InFlight.CapHolds: the fallback ignores the cap, so the bound speaks of
  ordinary selections; `multi_protocol_handler` and `embeddings_handler`, whose
  streams end a request they did not begin, are not among the requests.
- Token buckets: rounding of floats and durations; the wait and retry of the
  handler, which proceeds after sleeping without taking a token.
- Caches: hit and miss counters; concurrent interleaving of the two levels within
  one call of the combined cache.
- Account pool: what a session token is (only whether there is one), login
  throttling, the sleeping and the deadline of `acquire`, and the automatic deletion
  of sessions. The seconds of a cooldown, which are partly random, are a parameter of
  the step; humanize.rs is not part of this model.
- Event stream: ds.rs and prompt.rs are not part of this model. Token estimates,
  time stamps and ids inside frames are not modelled. `Streaming` follows a client that
  reads to the end; whatever buffers lie behind the body's channel count as read.
- Tunnel: authentication, ping and pong, parsing of the SOCKS request, the choice of
  a tunnel and its death (the end of a run), random id collisions, and cancellation
  inside a frame.
- Signing: 64-bit overflow of time stamps; `generate_token`.
- Translator: request parameters copied over, stop reason and usage, the Gemini and
  Responses formats, and bodies that are not objects. An id drawn for a tool use
  without one is a function of the block.
- Validator: the correction levels that use the similarity, the parameter checks
  and the key cleaning.
