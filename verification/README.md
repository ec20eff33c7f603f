# ThrottleDeck in Dafny

ThrottleDeck is a local broker in front of two venues. It admits reads in
weighted fair order, keeps each venue's token bucket and rolling ceiling,
coalesces and caches identical reads, retries with care and counts everything it
does. A control plane beside it stops and resumes callers through a durable log
and a published policy file, and keeps a bounded history of the counters. This
project models those parts and proves what they promise.

`dafny verify dfyconfig.toml` checks everything.

How it is laid out:

- `FairScores` is the scheduler's arithmetic: scores, credit, debt.
  `ShippedWeights` is that arithmetic at 8:2:1, and `SteadyBacklog` what it does to
  callers that stay queued together. `Lanes` is one class's deque of
  callers and their queues. `FairAdmission` is the limiter's state with one
  function per critical section; `FairTasks` runs those sections in any
  interleaving; `FairLiveness` bounds every wait; `FairRuns` shows that runs of
  tasks and runs of the arithmetic are the same, `FairClosing` says what every event
  and a close do, and `ShippedPolicy` reads the promise for the policy that is shipped. `WeightedFairLimiters` holds the
  object whose methods update the fields in place, proved against those functions.
- `TokenBuckets` has the bucket as a function of the two clock readings each
  attempt takes, the run theorems, and the object with its waiting loop. The
  object keeps a ghost log of all its attempts. `TokenLedger` decides admission from
  that history alone.
- `SingleFlight` is the coalescing cache as atomic steps; `BrokerCaches` is the object.
  `FlightHistory` traces every answer back to the fetch that returned it.
- `RetryLoop` is one upstream read with retries, and `ReadAnswers` what it answers,
  counts and waits for; `Metrics` and `BrokerMetrics` are the counters and queue
  reports, and `RequestCounts` holds them against the calls.
- `ControlLog`, `Publication`, `Rollup`, `Collector`, `RequestSeries` and
  `AppRegistry` are the control plane, from the database to the broker's gate and
  the dashboard's request counts.

Conventions. A caller class is named by its position in the policy's weights
table, which is the order the limiter visits and breaks ties in. A waiter's ticket
stands for its object identity. Clock readings are reals (seconds in the rollup
are integers), and a clock never runs backwards; a sleep ends strictly after the
instant it was asked to pass, and by how much is left open. What the outside
world decides (replies, instants, whether a write succeeds) is a parameter or an
arbitrary choice.

## What turned out differently

- README.md:231-234 promises, once callers are queued together, each backlogged
  class a turn within 11 decisions at the shipped weights. Trading and standard keep
  that promise in every run, and bulk does not, not even while all three classes stay
  queued throughout the wait: `TogetherUnlessBulk` and `LimiterPromiseTogether` are
  that equivalence for the arithmetic and for the limiter with its tasks. What
  matters is the scores that earlier traffic has left. `SteadyExactly` says from
  which scores bulk is passed over n times while all three stay queued;
  `SurplusDecides` reads off it that bulk is served in time when the other two
  scores add up to at most twelve more than twice its own, and never when they add up
  to at least 21 more, with the gap between those two deciding in between. `LongestTogether` gives
  fourteen as its longest such wait, and `BulkIgnoredTogether` a run of arrivals,
  cancellations and finished admissions that has one. From zero scores a steady
  backlog is served within the round (`ServedWithinRound`).
- If the other classes may come and go during the wait, trading and standard still
  keep the promise (`PromiseUnlessBulk`, `LimiterPromise`). Bulk can then be made to
  wait for more than eleven decisions exactly from scores -15 to 3
  (`BulkBreaksExactly`; no run leaves it lower), and its longest wait is exactly 28
  selections (`ElevenIsNotABound`). `BulkIgnored` is such a run of tasks.
- A failed publication is fail-closed only if the stale file really goes away:
  governor/store.py:373-379 removes it and the removal can fail as well.
  `CoherentExactly` says exactly when the file is absent or current afterwards,
  `StopLeaksExactly` what the gap costs (the next request of a stopped caller is
  passed on exactly when the old policy could neither be replaced nor removed and
  let that caller through), and `StopLeaks` is such a case from a new installation.
- The dashboard's request series and its recent total are computed differently and
  could disagree. `SeriesAddsUpExactly` says exactly when they do.
  `BrokerHistoriesAgree` shows that they agree on every history one broker instance
  produces, because venue_broker/broker.py:627-668 reports a row for every
  configured caller in both venues from the first sample on.
  `LateVenueSplitsTheTotals` is a history only a foreign payload could give.
- A rolling limit below one is accepted by venue_broker/limiter.py:22-32 and then
  fails every acquisition, whose full empty window has no oldest admission
  (venue_broker/limiter.py:67-68). `Acquire` says so; venue_broker/config.py:398-407
  never configures one.

## Model

| member | source | states |
|---|---|---|
| `FairScores.FirstMax` | venue_broker/fairness.py:170 | the choice is an active class with the top score, and the first such in table order |
| `FairScores.CreditStep` | venue_broker/fairness.py:162-171 | a selection keeps the outstanding credit (the sum of positive scores) at or below (k-1)(W-1), whatever became active or idle |
| `FairScores.DebtStep` | venue_broker/fairness.py:162-171 | a selection keeps every group of j classes above minus W(k-1)+...+W(k-j), whatever became active or idle |
| `FairScores.RunBounded` | venue_broker/fairness.py:159-171 | both bounds hold after every selection of every run |
| `FairScores.ScoreRange` | venue_broker/fairness.py:159-171 | every single score lies in [-(k-1)W, (k-1)(W-1)] |
| `FairScores.PassedOverScore` | venue_broker/fairness.py:165-171 | a class waiting but not served over n selections has gained exactly n times its weight |
| `FairScores.NoStarvation` | venue_broker/fairness.py:159-179 | in every run from zero scores a class passed over n times in a row has n*w at most (k-1)(W-1) minus its score, and at most (k-1)(2W-1) |
| `FairScores.ConstantRun` | venue_broker/fairness.py:162-171 | with a constant backlog the scores sum to zero, none falls to minus W, and each score is what the class earned minus W times its turns |
| `FairScores.Proportional` | venue_broker/fairness.py:162-171 | with a constant backlog, after n selections class i has had more than n*w/W-(m-1) and fewer than n*w/W+1 turns |
| `FairScores.ExactShares` | venue_broker/fairness.py:162-171 | with a constant backlog any W selections in a row serve class i exactly w times and bring the scores back |
| `FairScores.ServedWithinRound` | venue_broker/fairness.py:162-171 | at any weights, while the same classes stay backlogged from zero scores, every class is served within the total weight's number of decisions |
| `ShippedWeights.PaidIsCharge` | venue_broker/fairness.py:162-171 | at 8:2:1 one selection is this step on three scores |
| `ShippedWeights.AlwaysInside` | venue_broker/fairness.py:162-171 | at 8:2:1 every score a run reaches lies within these bounds, among them -16..15, -15..15 and -15..14 for trading, standard and bulk |
| `ShippedWeights.StandardPassed` | venue_broker/fairness.py:162-171 | while standard is passed over, trading and bulk keep less and less, and there is no eleventh pass |
| `ShippedWeights.BulkBreaksExactly` | README.md:231-234 | bulk can be passed over at eleven selections in a row exactly from scores -15 to 3 |
| `ShippedWeights.BulkWaitsAtMost` | venue_broker/fairness.py:162-171 | however the other classes come and go, bulk is passed over at most 28 times in a row |
| `ShippedWeights.PromiseUnlessBulk` | README.md:231-234 | in every run from zero scores, the other classes coming and going, a waiting class is served within eleven decisions, if and only if it is trading or standard |
| `ShippedWeights.ElevenIsNotABound` | README.md:231-234 | bulk's longest wait, the other classes coming and going, is exactly 28 selections in a row |
| `SteadyBacklog.AlwaysLevel` | venue_broker/fairness.py:162-171 | at 8:2:1 bulk never falls further behind the other two than these bounds |
| `SteadyBacklog.SteadyExactly` | venue_broker/fairness.py:162-171 | from whatever scores a run has left, bulk is passed over at n selections in a row with all three queued, if and only if the surplus and the gap of the other two outlast n |
| `SteadyBacklog.SurplusDecides` | README.md:231-234 | with all three queued, bulk is served within eleven decisions when the surplus is at most 12, never when it is at least 21, and in between as the gap says |
| `SteadyBacklog.TogetherUnlessBulk` | README.md:231-234 | in every run from zero scores a class waiting while all three stay queued is served within eleven decisions, if and only if it is trading or standard |
| `SteadyBacklog.LongestTogether` | README.md:231-234 | bulk's longest wait while all three stay queued is exactly fourteen selections |
| `FairRuns.RunsAreMaskRuns` | venue_broker/fairness.py:85-205 | the scores and the served classes of any run of tasks are those of the arithmetic on who was waiting at each selection |
| `FairRuns.EveryMaskRunHappens` | venue_broker/fairness.py:85-205 | any sequence of who is waiting is what some run of arrivals, cancellations and finished admissions selects by, from zero scores |
| `FairRuns.LimiterPromise` | README.md:231-234 | with the shipped weights and a caller in each class, the limiter serves a waiting class within eleven selections in every run, others coming and going, if and only if it is not bulk |
| `FairRuns.LimiterPromiseTogether` | README.md:231-234 | the same of waits during which all three classes stay queued |
| `FairRuns.BulkIgnored` | README.md:231-234 | a run of tasks in which bulk waits at eleven selections in a row and is served at none |
| `FairRuns.BulkIgnoredTogether` | README.md:231-234 | a run of tasks in which all three classes wait at fourteen selections in a row and bulk is served at none |
| `ShippedPolicy.HasOneOfEach` | caller-policy.toml:11-60 | the shipped policy has a caller in every class, so what is proved for a caller in each class is about it |
| `ShippedPolicy.ShippedPromise` | README.md:231-234 | with the shipped policy the limiter keeps the promise of eleven decisions for trading and standard callers and breaks it for bulk, with or without all three staying queued |
| `ShippedPolicy.StrangersAreStandard` | caller-policy.toml:3-12 | a caller the policy does not name waits with the standard ones |
| `Lanes.PushOk` | venue_broker/fairness.py:148-155 | an arrival is added and nothing else changes; the deque holds exactly the callers with a non-empty queue, once each |
| `Lanes.PopOk` | venue_broker/fairness.py:173-179 | a turn removes exactly the head waiter and keeps the deque exact |
| `Lanes.DropOk` | venue_broker/fairness.py:185-196 | an abandonment removes exactly that waiter and keeps the deque exact |
| `Lanes.PushKeepsPlace` | venue_broker/fairness.py:149-155 | an arrival moves nobody back, in the deque or in a queue |
| `Lanes.DropKeepsPlace` | venue_broker/fairness.py:185-196 | a departure moves nobody back |
| `Lanes.PopAdvances` | venue_broker/fairness.py:173-179 | a turn of the class moves every waiter it does not serve forward: one place in the deque, or one in its caller's queue |
| `Lanes.HeadIsEarliest` | venue_broker/fairness.py:173-175 | within a caller the turn goes to the earliest arrival still waiting |
| `FairAdmission.LowerExactly` | venue_broker/config.py:67-68 | two labels become one by lower-casing exactly when they differ in the case of letters at most |
| `FairAdmission.WaitsInClass` | venue_broker/config.py:67-68 | a caller waits in the class of the entry with its label, in whatever case, and in the default class when there is none |
| `FairAdmission.EnqueueOk` | venue_broker/fairness.py:148-157 | an arrival keeps structure, exact depths and score bounds, and only adds itself |
| `FairAdmission.SelectOk` | venue_broker/fairness.py:159-179 | a selection loses nobody, keeps the invariants, and leaves an open limiter's slot free only when nobody waits |
| `FairAdmission.AbandonOk` | venue_broker/fairness.py:181-197 | an abandoning waiter leaves the structure wherever it was, only it does, and the depths stay exact |
| `FairAdmission.ReleaseOk` | venue_broker/fairness.py:199-211 | finishing takes exactly the served waiter out and the depths stay exact |
| `FairTasks.ArrivalSelectsItself` | venue_broker/fairness.py:91-108 | no lost wake-up: the one selection not followed by a notification can only pick the arrival that made it |
| `FairTasks.NextOk` | venue_broker/fairness.py:85-134 | every step of every task (arrival, wake-up, cancellation, finish, close) keeps the whole invariant |
| `FairLiveness.EveryRunIsSafe` | venue_broker/fairness.py:85-211 | in every run: one admission at a time, the slot's owner is awake, a free slot in an open limiter means nobody waits, and each ticket is held or has left exactly once |
| `FairLiveness.SelectAdvances` | venue_broker/fairness.py:159-179 | a selection that does not pick a waiter lowers its distance by at least its class's weight |
| `FairLiveness.EventAdvances` | venue_broker/fairness.py:85-211 | no event of any task ever raises the distance of a waiter that stays in line |
| `FairLiveness.WaitIsBounded` | venue_broker/fairness.py:148-179 | in every run the selections a waiter sits through are bounded by its place in line alone |
| `FairLiveness.CallerTurnIsBounded` | venue_broker/fairness.py:173-179 | the first waiter of the caller at deque place q sits through at most q turns of its class, whoever arrives or leaves |
| `FairClosing.EventsTakeEffect` | venue_broker/fairness.py:85-134 | every event does exactly what it is for: one new waiter joins an open limiter and none a closed one, a cancelled waiter and a finished admission leave and nobody else does |
| `FairClosing.WakesTo` | venue_broker/fairness.py:96-108 | a notified task that wakes leaves a closed limiter, is admitted when the slot is its own, and otherwise sleeps on |
| `FairClosing.ClosedAdmitsNobody` | venue_broker/fairness.py:98-102 | no event of a closed limiter admits anybody, gives anybody the slot or lets anybody in |
| `FairClosing.ClosedRunAdmitsNobody` | venue_broker/fairness.py:98-134 | over every run after close the admitted tasks are among those admitted before it |
| `FairClosing.CloseDrains` | venue_broker/fairness.py:128-134 | close strands nobody: one event of its own for each task empties the limiter |
| `WeightedFairLimiters.WeightedFairLimiter.Enqueue` | venue_broker/fairness.py:148-157 | the in-place edit is the specified arrival |
| `WeightedFairLimiters.WeightedFairLimiter.Best` | venue_broker/fairness.py:170 | the loop finds the first class with the top score |
| `WeightedFairLimiters.WeightedFairLimiter.TotalWeight` | venue_broker/fairness.py:171 | the loop over active classes adds up the weights under the mask |
| `WeightedFairLimiters.WeightedFairLimiter.SelectIfIdle` | venue_broker/fairness.py:159-179 | the in-place selection is the specified one, scores, slot, queues and callers |
| `WeightedFairLimiters.WeightedFairLimiter.Abandon` | venue_broker/fairness.py:181-197 | the in-place edit is the specified abandonment |
| `WeightedFairLimiters.WeightedFairLimiter.Arrive` | venue_broker/fairness.py:91-95 | refused and unchanged when closed, otherwise queued and offered the slot, with the invariant kept |
| `WeightedFairLimiters.WeightedFairLimiter.GiveUp` | venue_broker/fairness.py:104-107 | leaves, offers the slot again, keeps the invariant and is work-conserving afterwards |
| `WeightedFairLimiters.WeightedFairLimiter.Finish` | venue_broker/fairness.py:199-205 | frees the slot, offers it again, keeps the invariant and is work-conserving afterwards |
| `WeightedFairLimiters.WeightedFairLimiter.Close` | venue_broker/fairness.py:128-134 | closes and changes nothing else |
| `WeightedFairLimiters.WeightedFairLimiter.Snapshot` | venue_broker/fairness.py:139-146 | the reported depths are the requests queued or being served, by caller and by class |
| `TokenBuckets.OneSleepSuffices` | venue_broker/limiter.py:49-69 | one sleep past the delay clears both the token deficit and the rolling window |
| `TokenBuckets.DelayBound` | venue_broker/limiter.py:66-69 | the delay is at most max(cost/rate, 1) |
| `TokenBuckets.RollingInvariant` | venue_broker/limiter.py:49-65 | in every run any L+1 admissions in a row span more than a second, and the deque is the history without an old front |
| `TokenBuckets.RollingCeiling` | venue_broker/limiter.py:49-65 | in every run every closed one-second window holds at most L admissions, and none when L is below one |
| `TokenBuckets.WindowCountExact` | venue_broker/limiter.py:87-90 | the pruned deque counts the trailing second as the complete history does |
| `TokenBuckets.TokensConserved` | venue_broker/limiter.py:34-65 | over any interval of refill instants a run spends at most the capacity plus the refill, and the tokens stay in [0, capacity] |
| `TokenLedger.TokensExactly` | venue_broker/limiter.py:34-62 | after any run the tokens are the least, over the instants at which the bucket was made or refilled, of the capacity plus the refill since minus what was spent since |
| `TokenLedger.AdmittedExactly` | venue_broker/limiter.py:49-65 | an attempt is admitted if and only if, counted from every earlier instant, what was spent plus its cost is within the capacity plus the refill, and fewer than the limit were admitted in the second before |
| `TokenLedger.ObjectAdmitsExactly` | venue_broker/limiter.py:49-65 | so an object's next pass is decided by everything it has ever admitted |
| `TokenLedger.NoSleepTooLong` | venue_broker/limiter.py:66-69 | until the delay is over another pass would be refused too |
| `TokenBuckets.ObjectKeepsBothLimits` | venue_broker/limiter.py:40-69 | both limits hold of everything one bucket object has ever admitted, over all its calls |
| `TokenBuckets.MakeBucket` | venue_broker/limiter.py:22-32 | refused exactly when rate or capacity is not positive |
| `TokenBuckets.TokenBucket.PruneWindow` | venue_broker/limiter.py:55-56 | the loop drops exactly the front that is more than a second old |
| `TokenBuckets.TokenBucket.TryOnce` | venue_broker/limiter.py:51-65 | one pass does what the specification of an attempt says and is logged |
| `TokenBuckets.TokenBucket.Acquire` | venue_broker/limiter.py:40-69 | refused unchanged exactly for a cost outside (0, capacity]; failing at its first attempt exactly when the rolling limit leaves no room; otherwise it ends, sleeps at most once, asks for at most max(cost/rate, 1), and only its last attempt is an admission |
| `TokenBuckets.TokenBucket.AdmissionsInWindow` | venue_broker/limiter.py:71-90 | the count is that of the whole admission history, and nothing without a rolling limit |
| `TokenBuckets.TokenBucket.Available` | venue_broker/limiter.py:92-96 | what a refill at that instant would leave, without changing the bucket |
| `SingleFlight.RunOk` | venue_broker/broker.py:349-446 | the cache, flight and waiter invariant holds after every interleaving of lookups, landings and cancellations |
| `SingleFlight.HitExactly` | venue_broker/broker.py:359-366 | a hit exactly when the latest stored response of that key is younger than its lifetime and not pushed out, and then that response, a 2xx |
| `SingleFlight.OneFlightPerKey` | venue_broker/broker.py:373-390 | at most one shared fetch per exact key at a time, leader cancelled or not |
| `SingleFlight.FetchOnlyWhenNeeded` | venue_broker/broker.py:359-390 | a fetch starts only with none under way for the key and no usable stored response |
| `SingleFlight.JoinsRunningFetch` | venue_broker/broker.py:373-399 | a caller not answered at once waits for a fetch of its own exact key that is still running |
| `SingleFlight.OwnKeyDelivered` | venue_broker/broker.py:392-399 | every answer handed over is a response stored for the caller's exact key or the end of a fetch of it, and no call is answered twice |
| `FlightHistory.ResultsAreLandings` | venue_broker/broker.py:427-436 | a fetch is recorded to have ended with a result if and only if it really ended with exactly that |
| `FlightHistory.FetchedWasStarted` | venue_broker/broker.py:373-390 | a fetch is for a key if and only if a read of that key that found nothing started it |
| `FlightHistory.AnswersAreReal` | venue_broker/broker.py:359-436 | in every run whatever a caller is handed, it asked for that exact key, and a fetch of that key really returned it |
| `FlightHistory.DeliversTheEnd` | venue_broker/broker.py:392-399 | a caller that waits for a fetch that has ended is handed exactly what it ended with |
| `FlightHistory.LogsAreEvents` | venue_broker/broker.py:359-430 | a response is stored exactly when a fetch of a cached route ends with a 2xx, and a key is used exactly when it is stored or found fresh |
| `RequestCounts.CountsAreCalls` | venue_broker/broker.py:345-390 | in every interleaving each call is counted once, the counted hits are the answers from the cache, and all other calls joined or started a fetch |
| `SingleFlight.CancellationIsPrivate` | venue_broker/broker.py:392-399 | undoing all cancellations of any calls, leaders included, leaves the cache, the fetches, their results and every other caller's wait and answers the same, over whole runs |
| `SingleFlight.CacheIsBounded` | venue_broker/broker.py:438-446 | the cache never exceeds its limit and is ordered by last use |
| `SingleFlight.EvictionIsLeastRecent` | venue_broker/broker.py:443-446 | a store pushes out only keys used less recently than every key kept |
| `RequestCounts.GateCounts` | venue_broker/broker.py:328-349 | at the gate nothing is counted without a usable policy, a refusal exactly for a caller stopped in the database, otherwise a request served, and a failure with it exactly when the broker is closing |
| `BrokerCaches.BrokerCache.Lookup` | venue_broker/broker.py:359-366 | hit exactly on a fresh entry, which becomes the most recent; an expired one is dropped |
| `BrokerCaches.BrokerCache.JoinOrCreate` | venue_broker/broker.py:373-390 | joins the key's fetch if there is one, else registers a new one |
| `BrokerCaches.BrokerCache.Get` | venue_broker/broker.py:359-390 | the whole atomic section is the specified step and keeps the invariant |
| `BrokerCaches.BrokerCache.StoreCache` | venue_broker/broker.py:438-446 | the eviction loop is the specified store |
| `BrokerCaches.BrokerCache.Land` | venue_broker/broker.py:427-436 | storing and freeing the key is the specified step and keeps the invariant |
| `BrokerCaches.BrokerCache.Await` | venue_broker/broker.py:392-399 | a waiting caller gets what the fetch it joined ended with |
| `RetryLoop.PricePositive` | venue_broker/config.py:324-351 | every price a route can have is positive |
| `RetryLoop.ReadsAreDisciplined` | venue_broker/broker.py:503-623 | whatever the world answers: each call right after its own full-price admission and never once closing is seen, at most max_retries+1 calls, each sleep within ten seconds, counters balanced at every moment, a throttle returned only after the last retry |
| `ReadAnswers.AnswersExactly` | venue_broker/broker.py:486-623 | the caller gets the venue's last response with its own status if there is one, 504 exactly on a timeout, 502 exactly on a failed connection of an open broker, and 503 in exactly the other cases; a stopgap is a Polymarket 429 with that body |
| `ReadAnswers.CountsExactly` | venue_broker/broker.py:494-598 | every counter a read moves, it moves once for each round that calls for it |
| `ReadAnswers.FailuresAreTold` | venue_broker/broker.py:490-592 | a failure, a timeout or a stopgap is counted exactly when the caller is told of one |
| `ReadAnswers.PausesExactly` | venue_broker/broker.py:609-618 | a read pauses once between every two rounds: as long as the venue asked for within ten seconds, or for a time that starts at the base and doubles |
| `ReadAnswers.SplitBatch` | venue_broker/config.py:324-345 | a batch costs ten tokens a ticker wherever it is split, and is refused exactly when it is empty, too long or holds no proper ticker |
| `ReadAnswers.RefusedExactly` | venue_broker/broker.py:461-484 | which reads are refused without admission, each with its own status and code, and that all others are priced by their route |
| `RetryLoop.Attempt` | venue_broker/broker.py:504-621 | one pass does and answers exactly what the reply calls for, and goes round again exactly on a retryable throttle with retries left |
| `RetryLoop.FetchAttempts` | venue_broker/broker.py:503-623 | the loop always returns, and its trace and answer are those of the rounds it went through |
| `RetryLoop.FetchWithRetry` | venue_broker/broker.py:448-501 | refused without any admission when the lane has no budget, the batch is malformed or the price exceeds the capacity; otherwise the price is in (0, capacity] and the loop's promises hold |
| `RetryLoop.DisciplinedSoFar` | venue_broker/broker.py:503-623 | a read that is under way or cancelled has kept the discipline so far |
| `RetryLoop.FetchBalancedSoFar` | venue_broker/broker.py:471-623 | at every point of an upstream read, refused, running, cancelled or done, its counters are balanced |
| `Metrics.CountersConserved` | venue_broker/broker.py:247-262 | in every interleaving each venue metric is the sum of its caller rows, and each Kalshi row the sum of its two lanes |
| `Metrics.RowIsGroup` | venue_broker/broker.py:241-271 | a row's counters are exactly what the reads of its callers did |
| `Metrics.CellsAreCounts` | venue_broker/broker.py:247-262 | every venue, row and lane cell is the number of times its own reads moved that metric, a lane's those of the reads that went through it |
| `Metrics.RowExactly` | venue_broker/broker.py:241-245 | configured callers, in whatever case, and the unknown one have rows of their own, and all others share one |
| `Metrics.UnderwayBalanced` | venue_broker/broker.py:329-390 | however far a request has come, whatever its opening and fetch, its own counters are balanced |
| `Metrics.RowsBalanced` | venue_broker/broker.py:514-598 | in every log that requests, fetches, cancellations and hang-ups can produce, per row, throttles, stopgaps, timeouts and connection failures together never exceed requests, which never exceed admissions |
| `BrokerMetrics.Counting.Increment` | venue_broker/broker.py:247-271 | counters and last-seen stamps after the edit; a row has a stamp exactly when its counter has ever moved |
| `BrokerMetrics.Counting.RecordQueueWait` | venue_broker/broker.py:278-284 | total, maximum and admissions of exactly one row move, and no average exceeds its maximum |
| `BrokerMetrics.BoundedCallers` | venue_broker/broker.py:747-751 | grouping keeps the overall total, and each row is the total of its callers |
| `BrokerMetrics.ReportedDepthsAgree` | venue_broker/broker.py:629-656 | in every run one limiter's depths by caller and by class have the same total |
| `BrokerMetrics.ReportsAreCounts` | venue_broker/broker.py:629-632 | in every run a limiter's snapshot meets the demands of the report |
| `BrokerMetrics.QueueReport` | venue_broker/broker.py:645-716 | two lanes added up and bounded: each row shows the requests of its own callers in both, and the rows shown add up to the class depths |
| `ControlLog.LogReplays` | governor/store.py:290-363 | in every run by any number of stores: event revisions are exactly 1..revision, each scope alternates stop and resume starting with stop, and replaying the events gives every stored state |
| `ControlLog.ReachableValidates` | governor/store.py:209-262 | a process accepts a reachable database exactly when it holds every scope the process is configured for |
| `ControlLog.AddScopesOk` | governor/store.py:209-230 | a newly configured process adds its missing scopes, leaves every existing row as it was, and keeps the log faithful |
| `ControlLog.OneWriterPerRevision` | governor/store.py:310-317 | of all the calls that expect the same revision at most one changes anything |
| `ControlLog.RevisionCountsChanges` | governor/store.py:310-363 | in every run the revision is the number of calls that committed a change; refused and idle calls count for nothing |
| `ControlLog.RowsAreLastEvents` | governor/store.py:336-362 | in every run each scope ever changed stands, in state, revision, time and reason, as its last event says |
| `ControlLog.AppliesExactly` | governor/store.py:290-363 | a stop or resume is accepted exactly when scope, action, reason, tables and revision are in order, and then leaves its scope as asked; it adds one revision, record and event exactly when that changes something |
| `ControlLog.RefusedExactly` | governor/store.py:297-317 | which demand a refused call fails, in order; any action but stop and resume is refused |
| `ControlLog.EventsAreChanges` | governor/store.py:336-363 | in every run the log is the list of the calls that changed something, with their own scope, action, time and reason |
| `ControlLog.UntouchedAreAsBorn` | governor/store.py:209-230 | in every run the scopes are those some process was configured for, and one nobody changed is as it was created |
| `Publication.CoherentExactly` | governor/store.py:370-380 | after a change by any process the file is absent or current if and only if nothing was committed, it was written, the stale file was removed, or there was none |
| `Publication.OpenKeepsCoherent` | governor/store.py:89-98 | a process that starts up on an existing database, published or not, leaves the file absent or current |
| `Publication.StopLeaksExactly` | governor/store.py:370-380 | after a stop committed by any process the next request of a caller it covers is passed on if and only if the policy could neither be replaced nor removed and the old one let the caller through |
| `Publication.StopLeaks` | governor/store.py:370-380 | from a new installation: stop everything, fail to replace and to remove the policy, and any caller is passed on |
| `Publication.PayloadAcceptable` | governor/publisher.py:14-23 | a published policy is acceptable exactly to brokers of the same apps, and then it is the one they would publish |
| `Publication.CacheIsTransparent` | venue_broker/control_policy.py:53-77 | the metadata-cached reader decides as one without a cache |
| `Publication.LetThroughMeansAllowed` | venue_broker/broker.py:328-343 | a request is passed on exactly when the file is there, was written for the broker's apps, and neither everything nor the caller's app is stopped in the database at that moment |
| `Publication.CommittedStopStops` | governor/store.py:290-363 | after an accepted stop of everything or of its app, a caller counts as stopped |
| `Publication.StopIsEnforced` | venue_broker/broker.py:328-343 | after any run of changes that fail closed, a stopped caller is refused and nothing is passed on |
| `Publication.StopThenRefuse` | governor/store.py:370-380 | from a stop accepted by any process on, over any later run without a resume of that scope, whatever processes with whatever configurations take part, no request of a caller it covers is passed on |
| `Publication.ResumeLetsThrough` | governor/store.py:290-380 | a proper resume of a stopped scope leaves it allowed, and once published the next request of a caller is passed on exactly when nothing else stops that caller |
| `Publication.OpenPublishes` | governor/store.py:89-98 | a process that starts up and can write publishes a policy that brokers of its apps accept, and no stored state changes |
| `Publication.DecisionExactly` | venue_broker/control_policy.py:66-77 | unavailable exactly without a usable file; a refusal names a stopped scope that covers the caller, everything before its app, and the current revision |
| `Publication.ReplyExactly` | governor/store.py:324-380 | a failed publication is reported exactly when a change was made, and an accepted call is answered with the record it left |
| `Publication.ControlStore.Apply` | governor/store.py:290-380 | the new tables, the file and the answer, for every refusal, commit and failed publication |
| `Publication.PolicyReader.Read` | venue_broker/control_policy.py:53-61 | the specified read: cached, reparsed or unavailable, and what is remembered |
| `Publication.PolicyReader.Decision` | venue_broker/control_policy.py:66-77 | the decision is that of a reader without a cache |
| `Rollup.UpsertAllAgrees` | governor/store.py:504-525 | row-by-row insert-or-update extends the grouping by exactly those rows |
| `Rollup.DeletionCounts` | governor/store.py:531-533 | deleting old minutes splits the samples into kept and expired |
| `Rollup.RollupIsGroupBy` | governor/store.py:488-535 | any schedule of samples and maintenance leaves the one-shot grouping of all rolled samples from the latest cutoff on, and raw plus rolled-up plus expired is everything recorded |
| `Rollup.RolledInOrder` | governor/store.py:499-530 | when samples arrive in order of time, rolled then raw is exactly what was recorded |
| `Rollup.MaintainedMoves` | governor/store.py:499-530 | maintenance moves exactly the samples more than six hours old, in order of time and equal times as recorded |
| `Rollup.ByTimeSorts` | governor/store.py:499-503 | the order of rolling up is a stable sort by time |
| `Rollup.NothingIsLost` | governor/store.py:404-535 | in every run the accepted samples are those that came while collection was on, and each is raw or was rolled up |
| `Rollup.SlotIsMinute` | governor/store.py:505-508 | a sample goes to the whole minute it was taken in |
| `Rollup.MetricHistory.RecordSample` | governor/store.py:404-434 | the sample is kept, or dropped while collection is paused |
| `Rollup.MetricHistory.RollUp` | governor/store.py:504-525 | the loop is the specified insert-or-update of each row in order |
| `Rollup.MetricHistory.Maintain` | governor/store.py:488-570 | the new raw rows, rollups and pause flag, both reported counts, and the history invariant |
| `Collector.DeltaAtPath` | governor/collector.py:32-45 | taking deltas commutes with descending into the counters |
| `Collector.DeltaExactly` | governor/collector.py:32-45 | at every path a delta is the difference of two numbers that did not fall, an object with the current keys, or nothing |
| `Collector.DeltaNeverNegative` | governor/collector.py:32-45 | no number anywhere in a delta is negative |
| `Collector.DeltasTelescope` | governor/collector.py:79-146 | when no good poll reads lower than the reading before, from one broker instance, the reported deltas add up to last minus first, whatever polls were missed or incompatible |
| `Collector.GraceIsOnce` | governor/collector.py:88-110 | a missed poll passes as healthy exactly when there is a good sample to show and the poll before was not missed too |
| `Collector.RestartsAreChanges` | governor/collector.py:129-144 | over any run the restart flags are as many as the changes of instance between good polls, whatever was missed in between |
| `Collector.SamplesTell` | governor/collector.py:79-146 | what every sample shows, from the polls alone: the latest good figures, deltas only against an earlier reading of the same instance and none on a restart, status, error and staleness |
| `Collector.GovernorCollector.Once` | governor/collector.py:79-146 | the sample with its error label, the new memory, and the sample handed to the store, for every kind of poll |
| `RequestSeries.VenueTotalOf` | governor/viewmodel.py:177-186 | the loop adds up the known values and is unknown when none is |
| `RequestSeries.Series` | governor/viewmodel.py:213-222 | one entry per pair of neighbouring samples, unknown where a total is missing or fell |
| `RequestSeries.RecentRequests` | governor/viewmodel.py:242-277 | the growth since the first sample, venue by venue |
| `RequestSeries.SeriesTelescopes` | governor/viewmodel.py:202-222 | with growing counters the series adds up to the last total minus the first known one |
| `RequestSeries.TotalsAdd` | governor/viewmodel.py:177-186 | the total of a list of callers is that of its parts taken together |
| `RequestSeries.KeepsInstance` | governor/viewmodel.py:411-417 | exactly the samples of the running instance are kept, in their order |
| `RequestSeries.SeriesGaps` | governor/viewmodel.py:213-222 | an entry is unknown exactly when a total is missing or fell, and otherwise the growth |
| `RequestSeries.SeriesAddsUpExactly` | governor/viewmodel.py:202-277 | the series adds up to the recent total if and only if, when the first sample counts a venue, no venue it does not count has served anything by the last, and otherwise nothing was served since a total was known |
| `RequestSeries.BrokerHistoriesAgree` | venue_broker/broker.py:627-668 | on histories with the same rows in both venues of every sample, which is what one broker instance reports, the two always agree |
| `RequestSeries.LateVenueSplitsTheTotals` | governor/viewmodel.py:242-277 | a history, which only a foreign payload could give, in which the two disagree |
| `RequestSeries.AppTraffic` | governor/viewmodel.py:411-417 | only samples of the running instance are used, and for those the equivalence holds |
| `AppRegistry.Claim` | governor/registry.py:75-83 | the app's labels are identifiers and are added in order and mapped to it, or the first that is not one or is taken is named |
| `AppRegistry.LoadRow` | governor/registry.py:57-100 | a row is added exactly when it is well formed, its id new and its labels free; otherwise a fault it really has is named |
| `AppRegistry.CheckMoney` | governor/registry.py:102-114 | accepted exactly when it names a configured real-money app and its phrase fits |
| `AppRegistry.LoadApps` | governor/registry.py:49-119 | accepted exactly when there are apps, each is well formed, ids are distinct, no label is listed twice without regard to case and the money control is good; a refusal names a real fault |
| `AppRegistry.AppForCaller` | governor/registry.py:129-135 | a caller belongs to an app exactly when that app lists it, without regard to case |
| `AppRegistry.IdentifierExactly` | governor/registry.py:57-83 | an identifier is one to 64 letters, digits, underscores, dots and hyphens |

## Left out

- The UI, HTTP and ASGI plumbing, launchers, headers, cookies, adoption audit and security helpers: presentation and I/O.
- HTTP itself: a fetch ends in a status with an optional retry delay, a timeout or a connection failure; a fetcher raising anything else is not modelled.
- Encodings: HMAC, JSON, TOML, regular expressions and percent-coding. A credential scope is part of the key as an opaque string, a Kalshi path arrives classified as a route, lower-casing is ASCII only, and a reason arrives stripped.
- The table of cache lifetimes: the cache theorems hold for every table of lifetimes.
- Reads that cannot be shared (authenticated callers without a name) skip cache and coalescing; only shareable reads are in SingleFlight.
- Floating-point rounding and `nextafter`: clock readings, tokens and waits are exact reals.
- A second cancellation delivered while the limiter is cleaning up, and cancellation inside the bucket: cleanup completes as one step.
- When upstream calls reach the venue: the rolling ceiling is about admissions.
- Timing dictionaries, log lines and the health figures of the dashboard: reporting without rules of its own.
- SQLite: tables are values, a transaction is atomic, the file size is a parameter, ISO timestamps are numbers, and of two samples with equal times the one recorded first is rolled up first.
- Publishers that interleave: committing and publishing, or starting up and publishing, is one step.
- Loading the caller policy, and the types of values in the two configuration files: field checks without state.
- NoStarvation: the exact longest wait is given for bulk at the shipped weights only; elsewhere there are bounds.
- ServedWithinRound: from zero scores only; at the shipped weights LimiterPromiseTogether covers callers queued together from any scores, and bulk is not safe there.
- PromiseUnlessBulk: waits during which the other classes may leave; TogetherUnlessBulk is about callers that stay queued.
- Close: waking the waiters and the closed event are in FairTasks, whose Close event notifies everybody.
- Attempt: the timing record of the attempt and the log line are left out.
- FetchAttempts: `Fetch` and `Acquire` are arbitrary; that a turn comes is FairLiveness's and TokenBuckets' matter.
- ReachableValidates: the schema version, the pause flag and the form of timestamps, which no change of the log touches, are not in the tables.
- RecordSample: the check for a timezone, and the columns stale, restart and error, which no rollup reads.
- Maintain: the stamp of the last maintenance, and giving pages back to the file system.
- Claim: identifiers are checked character by character; the pattern itself is not modelled.
- LoadRow: names arrive stripped; the types of the values are not checked.
