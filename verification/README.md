# Durable work queue: model and proofs

This project models the durable work-queue protocol of the enterprise automation
orchestrator and proves what its code guarantees only indirectly. Requests live as rows of
`automation_requests` with an append-only log in `automation_events`. Any number of
submitters, workers and operators act on them; workers may crash, and the broker list may
lose, duplicate, reorder or invent messages.

The model has four layers.

- **Tables** (`Models`, `Lifecycle`, `Tables`, `Metrics`, `Timestamps`): rows and events as
  values, the effect of every statement, the fold that rebuilds a row from its log, and the
  text form of time stamps that the queries compare.
- **Objects** (`Repository`, `Dispatch`, `Service`, `Worker`, `HttpMetrics`): the classes of
  the program, whose methods change their fields and are proved against the table functions.
- **Protocol** (`Protocol`, `Invariant`, `Effects`, `AtomicQueue`, `Refinement`, `Claims`,
  `Tallies`, `Submissions`, `Fairness`, `Draining`, `Completion`): a state machine over all actors. A transaction that
  reads before it writes is split wherever others may come in between; both lock disciplines
  (row locks with SKIP LOCKED, one immediate write lock) are covered by a flag. Clock
  readings are free arguments of the steps. `Turns` shows that a worker object's turn is a
  path of this machine.
- **Time** (`Backoff`, `LogOrder`, `Pacing`, `Cooldowns`, `Timing`, `Gates`, `Adapters`): backoff
  arithmetic, ordering of the log and retry gates however the clocks of different workers
  disagree, and cooldown windows on a worker's own monotonic clock.
- **Constructed runs** (`Histories`, `Attempts`, `Reopening`, `Backdating`): runs that show where
  the guarantees end.

The invariant at the centre: waiting rows have attempts left; RUNNING rows have between one
and all attempts used and exactly one claimer, live or crashed; DEAD_LETTER rows have used
exactly their budget; every row is what the fold of its log says. From it follow the blind
writes: `complete` and `fail_or_retry` update without a status test, which keeps the tables
consistent exactly on RUNNING rows, and the protocol only ever applies them there.

Assumptions: ids of new requests are fresh; collation is byte order and years have four
digits; `metrics()` sees one snapshot. No result about one clock assumes another: cooldowns need
only that the worker's own monotonic readings do not decrease, retry gates and the order of the
log only that a finish is not stamped before its own claim. One shared clock is assumed exactly
where readings of different clocks are compared: the gate counted from the moment of the decision
instead of the failure's stamp (`Gates.NoClaimBeforeTheDecidedTime`), and the two deferral results,
which compare a monotonic deadline with a wall reading. Clocks have microsecond resolution.

Bounded overtaking holds in every run, with no hypothesis: what an insert with an equal or earlier
creation time, a replay of a row no younger, or a worker lost in the middle of claiming such a row
adds to the bound is counted in it (`Fairness.Given`), and is nothing when none of these happens.
Attempts of finished rows do not count.

Where the documentation and the code differ, the model follows the code. ADR 001 describes
`accepted` and `failed`; no row ever has these statuses. ADR 009 names the configured delay as
the fallback without a hint; the code uses the exponential backoff. ADR 010 says the maximum
caps growth; it caps the base, and jitter may exceed it: under the default settings a delay of 330
seconds occurs (`Backoff.CapIsExceeded`), and every draw stays within the maximum exactly when the
base plus the whole jitter is at most one second above it (`Backoff.WithinCapIff`). Not documented
at all: a cooldown deferral comes after the claim and uses up an attempt, so a dead letter has had
fewer adapter calls than its budget whenever it was deferred
(`Reopening.DeadLetterWithFewerCallsExists`, `Tallies.CallsAndDeferralsMakeUpTheAttempts`).

Four expectations hold only under a condition. Each has its exact condition and a run that fails.

- The bounds on claims before a delay or a cooldown deadline hold within one replay cycle, and a
  replay ends them at once: `Reopening` extends every run that ends in a quiet dead letter to an
  immediate claim, and constructs runs in which that claim comes before the gate of a hint, and
  before a deadline for which the request was already deferred twice.
- A log is in time order within its cycles exactly when no finish was stamped before its claim
  (`LogOrder.LogInOrderIff`); a wall clock set back during a call breaks it
  (`Backdating.UnsteadyFinishExists`).
- Across replays it is in time order exactly when, besides, no replay was stamped before its dead
  letter (`LogOrder.LogChronologicalIff`). The operator's clock is read before the transaction
  opens, so this fails even on one shared clock (`Backdating.BackdatedReplayExists`).
- With an idle worker the queue can be drained exactly when no worker has crashed while it held a
  claim (`Completion.DrainableIff`).

## Model

| member | source | states |
|---|---|---|
| `Invariant.StepInv` | app/repository.py:76-210 | every step of every actor, crashes and broker disturbances included, preserves the full invariant: consistent tables, exclusive grips, one claimer per RUNNING row, persisted publications, unreachable error branches |
| `Invariant.ReachableInv` | app/worker.py:42-142 | the invariant holds in every state of every run, with any number of actors and under either lock discipline |
| `Effects.StepIsAllowedWrite` | app/repository.py:111-145 | each step, although reads and writes are split, changes the tables as one guarded atomic statement would, on a request its actor has exclusive business with |
| `Effects.WriteAndCycle` | app/repository.py:165-182 | the replay cycle of a request advances by one on a requeue and on no other write |
| `Effects.WriteIsLogged` | app/repository.py:338-353 | each write changes one row and appends to that request's log the one event with the row's new status and detail and the write's own stamp |
| `Effects.InsertIsRecorded` | app/repository.py:36-62 | a new row has the submitted fields, no attempts, is due at once, and its log is the one submission event |
| `Effects.ClaimIsRecorded` | app/repository.py:308-336 | a claim starts the attempt that the log counts, numbers it in its event, and keeps the retry time |
| `Effects.CompletionIsRecorded` | app/repository.py:197-210 | a completion records the adapter's outcome in row and log and clears the retry time |
| `Effects.FailureIsRecorded` | app/repository.py:111-145 | a failure records attempt and cause in row and log; a retry is due at its stamp plus the delay, and a burial comes exactly when the budget is used |
| `Effects.ReplayIsRecorded` | app/repository.py:158-182 | a replay records the operator's request, resets the counter and makes the row due at once |
| `Refinement.RunRefinesQueue` | app/repository.py:76-106 | every run projects onto a run of an atomic queue without workers, locks or broker, step by step: each claim takes some entry due at the claimer's own reading, and each finish settles the attempt that was taken |
| `Refinement.WriteRefines` | app/repository.py:308-336 | each guarded write is one operation of the atomic queue with the same due time, attempt and budget |
| `Claims.NoDoubleClaim` | app/repository.py:92-106 | over every interleaving no (request, replay cycle, attempt) is claimed twice; later claims are later in that order |
| `Claims.ExactlyOneHolder` | app/worker.py:42-74 | a RUNNING row has exactly one live or crashed claimer, and any other row has none |
| `Claims.OneHolderPerLock` | app/database.py:88-101 | in every state no two transactions have the same row locked, and with the global write lock no two claiming or replaying transactions are open |
| `Claims.HeldRowIsFrozen` | app/repository.py:197-210 | no step of another actor or of the broker changes a held row, its log or its holder's knowledge |
| `Claims.HeldRowStaysFrozen` | app/repository.py:111-145 | the same over any stretch of a run in which the holder takes no step, however many others do |
| `Claims.HolderReadsAreExact` | app/worker.py:97-98 | the re-read before the backoff and the unlocked select of `fail_or_retry` return the claimed attempt, and no branch for a missing row is ever taken |
| `Claims.EachReplayNeedsItsOwnDeadLetter` | app/repository.py:147-182 | of concurrent replays of one dead letter at most one succeeds; a second success needs another burial in between |
| `Claims.RunProgress` | app/repository.py:308-320 | rows are never deleted, their request fields and creation time never change, and cycle and counter only go forward |
| `Tallies.CallsAndDeferralsMakeUpTheAttempts` | app/worker.py:56-74 | over a whole run, claims equal replays times the budget plus the counter, and every finished claim was an adapter call or a cooldown deferral, so a dead letter's calls are its budgets less its deferrals |
| `Tallies.DeferredDeadLettersHadFewerCalls` | app/worker.py:60-74 | every dead letter that was ever deferred has had fewer adapter calls than its budgets |
| `Submissions.SameKeySameId` | app/repository.py:24-74 | concurrent submissions with one idempotency key all return the same id, at any two moments of any run |
| `Submissions.OneInsertPerKey` | app/database.py:26-27 | at most one insert ever succeeds for a key and for an id |
| `Submissions.FirstSubmissionIsKept` | app/repository.py:36-62 | the stored request fields are those of the winning submission for ever |
| `Submissions.LosingInsertLeavesNothing` | app/repository.py:63-74 | a losing insert leaves the tables as they were, and its second lookup can only return the winner's row |
| `Submissions.SubmissionsNeverFail` | app/service.py:17-26 | neither the re-raised violation nor the failed read-back is reachable with fresh ids |
| `Submissions.PublishedIsPersisted` | app/service.py:17-33 | every id the service has published is a row |
| `Submissions.PublicationsReachTheBroker` | app/dispatch.py:55-65 | each publication appends its id to the list, and no other step of the service does more than take the first message off it |
| `Submissions.AnnouncedIsPublished` | app/service.py:17-26 | with a broker, a submission that reads its row back has published it |
| `Submissions.KnownKeyIsNotInserted` | app/repository.py:26-34 | a submission with a key looks it up first, and if it is known is answered with the owner without an insert |
| `Submissions.BrokerHoldsPersistedIds` | app/dispatch.py:55-65 | with a broker that loses, duplicates and reorders but does not invent, every message in the list is a persisted row |
| `Submissions.EmptyTurnMeansNothingFree` | app/worker.py:42-57 | a whole turn without a claim, from its broker message to its end: at the end every row due on its poll reading was locked by another transaction, and the row the broker named could not be claimed when it was tried |
| `Submissions.EligibleWorkIsFound` | app/repository.py:76-90 | with an eligible unlocked row in the table a polling worker has a step that takes a row at least as old |
| `Fairness.OvertakingIsBounded` | app/repository.py:76-90 | in every run and between any two moments, workers that see a request due and free pick other rows at most as often as the unfinished rows no younger than it had attempts left, plus the attempts such rows were given in between by inserts, replays and workers lost in the middle of a claim |
| `Fairness.NextPickTakesIt` | app/repository.py:76-90 | once no elder has an attempt left beyond one that is being claimed, no such pick takes another row |
| `Fairness.MetBoundUsesUp` | app/repository.py:76-90 | which is so as soon as there have been as many overtakings as the bound |
| `Draining.ClaimsAreBounded` | app/worker.py:137-142 | over any stretch of any run, with any workers, outcomes and crashes, there are at most as many claims as unfinished rows had attempts left plus the budgets of rows inserted or replayed in between; after that many no row waits |
| `Completion.DrainableIff` | app/worker.py:42-142 | every run that ends with an idle worker, whatever transactions and claims are open, can go on to a state in which every request is completed or dead, exactly when no worker has crashed while it held a claim |
| `Completion.CrashedRowStays` | app/worker.py:42-142 | there is no lease: after a crash in mid-claim no run ever completes or buries that row |
| `Draining.WriteAndLeft` | app/repository.py:111-145 | a claim takes one of the attempts that are left, a finish takes none, and only inserts and replays bring in new ones |
| `Fairness.OvertakingCosts` | app/repository.py:84 | a row that overtakes is no younger, and each overtaking uses up one of its attempts |
| `Lifecycle.RebuildsExactlyWords` | app/repository.py:338-353 | the fold of a log succeeds exactly on words of the lifecycle automaton that retry while the cycle has attempts left and bury when it has none |
| `Lifecycle.AttemptsAreRuns` | app/repository.py:308-320 | the rebuilt counter is the number of RUNNING events since the last QUEUED one |
| `Lifecycle.AttemptBounds` | app/repository.py:122-128 | how many attempts each status allows; ACCEPTED and FAILED never occur |
| `Lifecycle.LifetimeAccounting` | app/repository.py:147-182 | QUEUED events are one plus replays, DEAD_LETTER events exceed replays by one exactly on a dead letter, and attempts started exceed attempts finished by one exactly on a RUNNING row |
| `Lifecycle.RunningAccounting` | app/repository.py:308-320 | RUNNING events are replays times the budget plus the current counter |
| `Tables.LogDeterminesRow` | app/repository.py:36-62 | two consistent databases with the same log and budget for a request agree on its status, detail, counter and both time stamps |
| `Tables.RowIsWord` | app/repository.py:338-353 | the log of every row of a consistent database is a lifecycle word within budget, and status, detail and times are read off its ends |
| `Tables.RowAccounting` | app/repository.py:165-182 | the lifetime accounting of a row against its log |
| `Tables.RowBounds` | app/repository.py:122-128 | the attempt bounds of a row by status |
| `Tables.ClaimConsistentIff` | app/repository.py:308-327 | claiming a row keeps the tables consistent exactly when it is waiting and due |
| `Tables.CompleteConsistentIff` | app/repository.py:197-210 | the blind completion is safe exactly on RUNNING rows |
| `Tables.FailConsistentIff` | app/repository.py:111-145 | the blind retry or burial is safe exactly on RUNNING rows, for every delay |
| `Tables.RequeueConsistentIff` | app/repository.py:158-175 | returning a row to the queue is safe exactly on dead letters |
| `Tables.InsertKeepsConsistent` | app/repository.py:36-62 | an insert that violates no key keeps rows and log consistent |
| `LogOrder.LogsAreOrdered` | app/repository.py:92-99 | within a replay cycle time stamps do not decrease, whatever the clocks of different workers, if no worker's clock goes back between claim and finish |
| `LogOrder.WriteKeepsOrderIff` | app/repository.py:122-145 | a write keeps the logs in order exactly when a finish is not stamped before its claim |
| `LogOrder.LogInOrderIff` | app/repository.py:122-145 | in any run a log is in order within its cycles exactly when no finish of its request was stamped before the row's last update |
| `LogOrder.WriteKeepsChronologicalIff` | app/repository.py:148-175 | a write to an existing row, a replay among them, keeps its log chronological exactly when it is not stamped before the row's last update |
| `LogOrder.LogChronologicalIff` | app/repository.py:147-182 | in any run a log is chronological across replays exactly when no finish was stamped before its claim and no replay before its dead letter |
| `Backdating.EarlyReadingBackdates` | app/repository.py:148-149 | wherever an operator read the clock before a dead letter was written and its transaction opens only now, the run extends on one shared clock to a QUEUED event stamped before the DEAD_LETTER event |
| `Backdating.BackdatedReplayExists` | app/repository.py:147-182 | such a run exists |
| `Backdating.UnsteadyFinishExists` | app/repository.py:197-210 | a run exists whose log is out of order within one cycle, because a wall clock was set back during a call |
| `LogOrder.ClaimsRespectTheGate` | app/repository.py:296-306 | every RUNNING event is no earlier than the retry time that gated it, which was present and is kept |
| `Backoff.DelayBounds` | app/worker.py:34-40 | a delay lies between its base and the base plus the truncated largest jitter; the base is at most the cap |
| `Backoff.DelayIsTheWholePart` | app/worker.py:34-40 | under every configuration the delay is the whole part of base plus drawn jitter, or zero if that is negative |
| `Backoff.FirstBase` | app/worker.py:35-38 | the first base is the smaller of the configured delay and the cap |
| `Backoff.WithinCapIff` | app/worker.py:34-40 | every draw keeps the delay of an attempt within the cap exactly when the base plus the whole jitter is at most one second above it |
| `Backoff.DrawExceedsCapIff` | app/worker.py:39-40 | one draw exceeds the cap exactly when the unrounded delay reaches the next whole second |
| `Backoff.CapIsExceeded` | app/worker.py:30-40 | under the default settings a seventh attempt with a draw of one half waits 330 seconds, above the maximum of 300 |
| `Backoff.BaseGrowth` | app/worker.py:35-38 | bases double until the cap and then stay there |
| `Backoff.BaseSumClosedForm` | app/worker.py:34-40 | the summed bases have a closed form in the number of attempts below the cap |
| `Pacing.BurialTakesTheBackoffSum` | app/worker.py:117-130 | a cycle of plain failures cannot reach dead letter sooner after its first claim than the closed-form sum of its bases |
| `Cooldowns.HintsAreHonoured` | app/worker.py:96-116 | after a 429 with hint h at time t of its own monotonic clock the worker never calls that target before t + h |
| `Cooldowns.WindowOutlasts` | app/worker.py:132 | over any stretch of any run no step overwrites, pops or shortens a cooldown window before the worker's own clock has passed its deadline |
| `Cooldowns.DeadlinesNeverDecrease` | app/worker.py:104-105 | each hint sets the deadline to the present plus the hint, and over a whole run the deadlines a worker sets for one target never decrease |
| `Cooldowns.CallsArePastTheDeadline` | app/worker.py:60-61 | during an adapter call the worker's clock has passed the deadline of the target |
| `Gates.NoClaimBeforeTheDelay` | app/repository.py:122-129 | after a failure stamped t with a delay of d, no worker claims that request in the cycle on a reading before t + d, whatever the clocks of the workers |
| `Gates.DecidedDelaysAreWaitedOut` | app/worker.py:117-130 | a claim in the cycle of a retry decision comes after the decider's own failure with that very delay, and no sooner than its stamp plus the delay |
| `Gates.HintGatesTheRequest` | app/worker.py:99-116 | a hint keeps the request itself unclaimed by any worker for that long from the failure's stamp on, within the replay cycle |
| `Gates.NoClaimBeforeTheDecidedTime` | app/worker.py:99-116 | on one shared clock, already from the moment of the decision |
| `Gates.TwoDeferralsReachTheDeadline` | app/worker.py:60-74 | after two deferrals of a request by one worker for one deadline, the next claim in the cycle is after the deadline, despite truncation and two clock readings |
| `Gates.ThirdDeferralIsForALaterDeadline` | app/worker.py:60-74 | so a third deferral in the cycle is for a later deadline |
| `Reopening.ReplayReopensAtOnce` | app/repository.py:165-175 | every run that ends in a quiet dead letter goes on, on the same clock, to a claim of it at that very time in the next cycle, under either lock discipline and either dispatch |
| `Reopening.GatesEndWithTheirCycle` | app/repository.py:147-175 | so wherever the gate of a decision has not passed, the run extends to a claim before it |
| `Reopening.ClaimBeforeTheGateExists` | app/worker.py:99-116 | a run in which a hint of 60 seconds is followed by a claim of the request before its end |
| `Reopening.DeadLetterWithFewerCallsExists` | app/worker.py:56-74 | a run to a dead letter that had fewer adapter calls than attempts |
| `Reopening.ClaimBeforeTheDeadlineExists` | app/worker.py:60-74 | a run with two deferrals of one request for one deadline in one cycle, followed by a claim before the deadline |
| `Turns.TurnIsAPath` | app/worker.py:42-135 | the worker object's undisturbed turn, with either dispatch and either lock discipline, is a path of the protocol, each step of which has the turn's own reading, draw, hint, cause or text for it, with the same final tables, cooldowns and broker list |
| `Turns.IdleTurnIsAPath` | app/worker.py:43-57 | so is a turn that finds nothing, which only consumes a message |
| `Timestamps.TextOrderIsTimeOrder` | app/repository.py:19-20 | byte order of the printed UTC date-times is chronological order, with absent and six-digit fractions mixed |
| `Timestamps.ParseAfterPrint` | app/repository.py:282 | parsing a printed date-time returns it |
| `Timestamps.DateTimesAreInstants` | app/repository.py:19-20 | the instants that have a date-time are exactly those from the first of year 1 to the last of year 9999 |
| `Timestamps.EligibilityIsExact` | app/repository.py:302-305 | for all printable instants, the textual eligibility clause decides exactly what the comparison of instants decides |
| `Timestamps.TextMinimumIsEarliest` | app/repository.py:270 | ordering by, or taking the minimum of, the texts picks exactly the earliest instants |
| `Timestamps.IsoLayout` | app/repository.py:19-20 | where each field, separator, fraction and offset of the printed text stands |
| `Timestamps.MonthLengths` | app/repository.py:20 | the twelve month lengths and the leap-year rule at its four cases |
| `Timestamps.NextYear` | app/repository.py:20 | the day count behind the instants agrees with the Gregorian leap years |
| `Adapters.DelaySecondsRoundTrip` | app/adapters.py:30-35 | a number of seconds in `Retry-After` is read back exactly, with any surrounding blanks and zero padding up to 4300 digits, the conversion limit of the language; beyond it the unguarded conversion fails |
| `Adapters.RateLimitOutcome` | app/adapters.py:47-53 | a response raises exactly when its status is 429; a header of digits gives that hint, an absent or over-long one gives none |
| `Adapters.UnreadableHeaderGivesNoHint` | app/adapters.py:30-44 | an empty header, or one that is neither a number nor a date with a time zone, gives no hint |
| `Adapters.BlankCharacters` | app/adapters.py:33 | which ASCII characters are stripped |
| `Adapters.DateHintIsTruncated` | app/adapters.py:36-42 | a date hint never reaches beyond the date and falls short of a future one by less than a second |
| `Metrics.HistogramIsOfLastEvents` | app/repository.py:254-275 | `by_status` is the histogram of each request's last audit event |
| `Metrics.CountsAddUp` | app/repository.py:260-268 | the counts of the five reachable statuses add up to the number of requests |
| `Metrics.DepthCountsWaiting` | app/repository.py:276-279 | queue depth counts the waiting rows |
| `Metrics.StepMovesOneUnit` | app/repository.py:254-294 | every protocol step moves one unit between statuses, adds one QUEUED, or changes no count |
| `HttpMetrics.ObservationRecorded` | app/observability.py:42-49 | one more observation keeps the counters exact totals and each window the last 1000 durations of its series in order, so trimming after each append loses nothing |
| `HttpMetrics.SeriesOfRequest` | app/observability.py:43 | a request is counted under its method and its path if that is one of four named paths, and under its method and `application` otherwise |
| `HttpMetrics.AtMostFiveSeries` | app/observability.py:43-49 | so whatever paths are requested, a method has samples under at most five series |
| `HttpMetrics.WindowAgreesWithCounters` | app/observability.py:57-76 | a window's length is the smaller of 1000 and the series' counters summed over statuses, hence the true count exactly up to 1000 |
| `HttpMetrics.Registry.Observe` | app/observability.py:42-49 | after any sequence of observations, updated in place, the counters are exact and each window holds the last 1000 durations of its series in order |
| `Worker.TurnOutcome` | app/worker.py:42-135 | a turn keeps the tables consistent, uses exactly one attempt of one row, leaves it completed, retrying with attempts left, or dead, and touches no other row |
| `Worker.CallOutcome` | app/worker.py:87-135 | a turn that calls the adapter stamps its end with its last clock reading, completes exactly on success and with the outcome's text, buries exactly when the budget is used, and otherwise is due after the hint or the backoff of that attempt |
| `Worker.DeferralOutcome` | app/worker.py:60-74 | a turn that meets a cooldown uses the attempt without a call and waits the whole seconds left of it, at least one |
| `Worker.TurnIsLogged` | app/worker.py:42-135 | a turn logs its claim on the claiming reading and then its end |
| `Worker.CooledOutcome` | app/worker.py:104-132 | which cooldown a turn sets, clears or leaves, target by target |
| `Worker.AutomationWorker.RunOnce` | app/worker.py:42-135 | undisturbed, a turn reports work exactly when the broker delivered a row due at the first reading or some row is due at the second, so with readings in order it reports none exactly when no row is eligible; otherwise it makes the two writes of one claimed row |
| `Worker.AutomationWorker.Acquire` | app/worker.py:43-57 | the broker's row first if it can be claimed, else the oldest eligible row |
| `Worker.RunUntilDrained` | app/worker.py:137-142 | polling with arbitrary outcomes ends with every waiting row completed or dead and all others untouched, after at most as many claims as attempts were left |
| `Repository.ResultReportsLog` | app/repository.py:355-366 | what a client is told about a request is what its log says: first and last time, last status and detail, attempts of the cycle; and the channel and budget it was submitted with |
| `Repository.AutomationRepository.GetDetails` | app/repository.py:229-252 | the result and the events it reports, all of that request, or nothing exactly for an unknown id |
| `Repository.AutomationRepository.Create` | app/repository.py:24-74 | the owner of a key wins, a fresh id is inserted, a used id without an owner is refused |
| `Repository.AutomationRepository.ClaimNext` | app/repository.py:76-90 | claims the oldest due row not locked by others and returns its request, or nothing exactly when all due rows are locked |
| `Repository.AutomationRepository.Claim` | app/repository.py:92-106 | claims the named row exactly when it exists, is due and is not locked |
| `Repository.AutomationRepository.Complete` | app/repository.py:108-109 | completes blindly; consistent exactly when the row was RUNNING |
| `Repository.AutomationRepository.FailOrRetry` | app/repository.py:111-145 | retries or buries by the row's own counter, refuses unknown ids, consistent exactly when the row was RUNNING |
| `Repository.AutomationRepository.ReplayDeadLetter` | app/repository.py:147-195 | requeues exactly the dead letters and leaves everything else unchanged |
| `Repository.AutomationRepository.UpdateStatus` | app/repository.py:197-210 | the blind update and its event, or the orphaned or refused event of an unknown id |
| `Repository.AutomationRepository.Snapshot` | app/repository.py:254-294 | an oldest age is present exactly when the queue depth is not zero, and bounds the age of every waiting row |
| `Service.AutomationService.Submit` | app/service.py:17-26 | a request with no key or a new one is inserted as submitted under the fresh id, a known key adds no row; either way a persisted row with its key is returned and its id published |
| `Service.AutomationService.ReplayDeadLetter` | app/service.py:28-33 | publishes exactly when the replay succeeds |
| `Dispatch.DispatchQueue.Consume` | app/dispatch.py:58-65 | first in, first out, and nothing without a broker |

## Left out

- HTTP adapters, UiPath token and job calls and response details: network input and output; an adapter call is an arbitrary success, or failure with an optional hint.
- LLM enrichment, FastAPI routes, API keys, correlation ids, telemetry, logging and Prometheus text: no queue state.
- SQLAlchemy, PostgreSQL and Redis internals: a transaction commits atomically or leaves nothing, keys are unique, row locks or one write lock exclude each other, the broker is a list.
- Payload encoding and id generation: payloads are opaque text, and ids of new requests are fresh.
- Migrations, deployment files and the load test: they repeat the schema or measure.
- Mail-date parsing: a parameter of `Adapters.ParseRetryAfter`; header text is ASCII.
- Time stamps beyond year 9999 after huge hints: instants are unbounded in the protocol and bounded only in `Timestamps`.
- Floating point rounding of jitter and of the monotonic clock: jitter is computed over the reals, clocks in whole microseconds.
- Message texts of the `detail` column: structured values that keep the attempt and the cause.
- Recovery of rows whose worker crashed: the code has no lease, so such rows stay RUNNING in the model as well.
- Worker.RunUntilDrained: returns once nothing waits, where `run_forever` goes on polling, because only the first part can end.
- Turns.TurnIsAPath: the turn is undisturbed, so no lock is held by others during it; disturbed turns are covered by the protocol's steps.
- Fairness.OvertakingIsBounded: counts the picks of the oldest-row query; a claim of a row named by the broker is outside the bound.
