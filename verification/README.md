# Verified model of the auth gateway and its load harness

The gateway is a set of stateless replicas that share one Redis. This project models, in Dafny,
the parts of it whose correctness is not visible in any one function body, and proves properties
over every input or every run:

* **Refresh sessions** (`SessionMachine`, `SessionInvariant`, `SessionTheorems`, `SessionFinality`,
  `SessionHandlers`).
  Login, Refresh and Logout as program counters over one Redis map and one clock. Each Redis command,
  clock read and mint is one step; any number of handlers interleave in any way; a command may be not
  executed, executed with its reply lost, or answered; a handler may stop anywhere. A ledger records
  what was minted, so tokens cannot be forged, and anybody may present any minted token at any time.
  `SessionHandlers` has the handlers as straight-line methods on the shared state, with arbitrary
  steps of other handlers between their commands; their contracts say exactly which steps they take and
  exactly when they send which response. `uuid.NewString` is the one assumption: a drawn identifier is in
  no token yet and nobody else draws it.
* **Account lockout** (`LockoutMachine`, `LockoutTheorems`, `LockoutSliding`, `LockoutRuns`, `LockoutHandlers`). One account's counter,
  with GET, TTL, INCR, EXPIRE and DEL as separate steps of concurrent logins.
* **Open-loop load dispatcher** (`OpenLoopMachine`, `OpenLoopTheorems`, `OpenLoopSamples`,
  `OpenLoopRun`). Dispatcher, bounded queue, workers and the two atomic counters, and the samples they leave.
* **Statistics and reports** (`MannWhitney`, `RankVariance`, `Percentiles`, `Samples`, `Summary`, `Aggregation`, on
  `Sums`, `Sorting`, `Ranging`, `Decimal`). The rank loop, the bootstrap, nearest-rank percentiles,
  the two countings of a phase and the CPU aggregation, as loops proved against simple definitions.
* **Password hash strings** (`PasswordHash`, `Scanning`, `Base64`, `Base64Bits`). Printing and parsing
  the Argon2id string, with the unpadded base64 of sections 3.2 and 4 of RFC 4648.

`dafny verify dfyconfig.toml` checks everything.

## Conventions

* Time is one non-decreasing integer clock in nanoseconds. Redis answers for a key until the clock is
  past its deadline.
* The Redis client sends no expiry for a duration that is not positive, so such a SET makes a record
  that never expires.
* Redis executes each client call at most once. go-redis by default sends a command again when its reply is
  lost, and `internal/redis_db/redis.go:27` leaves that on, so one call can be executed twice; no theorem here
  covers that. A repeated INCR, for one, counts a login twice, and an answered INCR of 2 can then leave a
  counter without its EXPIRE.
* Durations are unbounded integers, float64 values are exact reals, CPU readings are integers in a
  fixed unit, and p-values are not modelled.
* `sort.Slice` makes the slice ordered and keeps it a permutation; the order of equal keys is open.
  `range` over a map meets every key once in an open order.

## What turned out not to hold

* A rotation whose token expires before `time.Until` is read passes a negative lifetime on. The record
  it stores has no deadline, is never redeemable and stays in Redis for good:
  `SessionTheorems.RecordImmortalIff`, `ExpiredRotationLeaks`, `ExpiredRotationHappens`.
* A logout that loses its race to a Refresh leaves the rotated session alive (`SessionFinality.LogoutCanLose`).
  `LogoutEndsSessionIff` says exactly when a logout ends its session for good.
* A lost INCR reply or a crash before EXPIRE can leave a failure counter without a deadline, and such a
  counter can lock an account for good: `LockoutTheorems.OrphanIff`, `LockedForGoodIff`,
  `LockoutRuns.LockedForGoodHappens`.
* `IsLocked` lets a login through when Redis fails, so the counter can exceed MaxLoginFailures - 1 + k with
  k logins at once (`LockoutRuns.OvershootAttained`): by at most one for each login let through a full
  counter that way (`LockoutTheorems.OvershootBound`).
* `inFlight` can read -1: `OpenLoopTheorems.InFlightDipsBelowZero`.
* With a period of zero, so for a `-rate` above 1e9, the dispatcher never leaves its catch-up loop:
  `OpenLoopTheorems.LoopEndsIff`.
* Between the two clock reads of a rotation the lifetime an owner can pass on stands still, so expiry minus
  now rises by the gap at the mint. What never rises is the lifetime left to pass on
  (`SessionTheorems.RotationNeverLengthens`, `GapIsBetweenTwoReads`, `GapHappens`).
* The comment at `cmd/loadreport/input.go:152-153` says the mean of the per-timestamp sums and the sum of
  the per-container averages are the same. For all readings they differ by exactly the sum over containers
  of total * (1/timestamps - 1/readings) (`Aggregation.AverageGap`). For non-negative readings with no
  container reporting more often than there are timestamps they are equal exactly when every container that
  reported less often read zero throughout (`AveragesAgreeIff`, `AveragesCanDiffer`). A container that
  reports twice at one timestamp, as `scripts/loadtest.sh:220-235` produces after a dropped row, can put both
  the combined average and the combined peak above the sums of the container figures although nobody missed a
  timestamp (`DoubleReportExceeds`).
* The hash parser accepts more than the printer prints: anything before the first `$`, text after the version
  or the parameters, other ways to write the numbers, line breaks and non-zero spare bits in base64.
  `PasswordHash.PrintedIff` says exactly which accepted strings are printed ones (`PrefixIgnored`,
  `VersionJunkIgnored`, `ParamsJunkIgnored`, `LeadingZeroIgnored`, `Base64.DecodeThenEncode`).

## Model

| member | source | states |
|---|---|---|
| SessionTheorems.OneCustodian | internal/handlers/auth.go:265-405 | In every reachable state of every interleaving each session has at most one owner (a Redis record or a handler between mint or winning GetDel and Set), every record holds its own token's user and a deadline not before the token's expiry, and minted, stored and taken tokens are related as the history says. |
| SessionTheorems.HistoryIsWhatHappened | internal/handlers/auth.go:276-405 | A token counts as stored or taken exactly when some earlier step of the run executed its Set or its GetDel. |
| SessionTheorems.NeverRedeemedTwice | internal/handlers/auth.go:357-367 | No run hands out the same token's record twice, to whichever handlers. |
| SessionTheorems.ExactlyOneWinner | internal/handlers/auth.go:313-358 | If Redis executes any GetDel on a stored token before its deadline, exactly one step of the whole run takes it, between the Set and that GetDel. |
| SessionTheorems.LogoutLeavesNoOwnerIff | internal/handlers/auth.go:298-329 | After a logout's GetDel nobody owns the session if and only if that GetDel returned the record or nobody owned the session before. |
| SessionFinality.EndedIff | internal/handlers/auth.go:298-421 | No continuation of a run mints or redeems a refresh token of a session if and only if the session has no usable owner: no handler between its claim and its mint, and no unexpired or already verified token that is stored, live or about to be stored. |
| SessionFinality.LogoutEndsSessionIff | internal/handlers/auth.go:298-329 | After a logout's GetDel no continuation mints or redeems in the session if and only if that GetDel returned the record or, that logout apart, the session had no usable owner. |
| SessionFinality.LogoutCanLose | internal/handlers/auth.go:313-405 | In some run a logout's answered GetDel finds nothing because a Refresh claimed first, and the rotated token is then redeemed. |
| SessionTheorems.WinningLogoutIsFinal | internal/handlers/auth.go:313-328 | After a logout whose GetDel returned the record, no later step of the run mints or redeems a refresh token of that session. |
| SessionTheorems.RedeemableIffUnclaimed | internal/handlers/auth.go:357-405 | Redis answers for an unexpired minted token if and only if its Set was executed and no GetDel took it. |
| SessionTheorems.MismatchBranchIsDead | internal/handlers/auth.go:324-374 | In every run whatever record a Refresh or Logout GetDel hands out holds its token's own user, and a Refresh that gets the answer goes on; neither mismatch branch is ever taken. |
| SessionTheorems.RotationNeverLengthens | internal/handlers/auth.go:395-412 | The lifetime a session's owner can pass on (expiry minus now, or between the two clock reads of a rotation the lifetime already read) never increases between any two points of a run, whoever owns it, and is at most 30 days. |
| SessionTheorems.ExpiryIsLoginPlusGaps | internal/auth/paseto.go:98-107 | A token expires at its login's mint time plus 30 days plus exactly the sum of the gaps between the two clock reads of the rotations since. |
| SessionTheorems.GapIsBetweenTwoReads | internal/handlers/auth.go:396-397 | Each gap is the clock at the mint minus the clock at that same handler's earlier time.Until, and by just that much the new token expires after its parent. |
| SessionTheorems.GapHappens | internal/handlers/auth.go:396-397 | For every duration some run has a rotation with exactly that gap, so that the new token expires that much after its parent. |
| SessionTheorems.RecordImmortalIff | internal/handlers/auth.go:396-405 | A stored record lacks a deadline if and only if its token was minted with no lifetime left. |
| SessionTheorems.ExpiredRotationLeaks | internal/handlers/auth.go:396-405 | The record of a token that was minted already expired stays in Redis unchanged for the rest of every run. |
| SessionTheorems.ExpiredRotationHappens | internal/handlers/auth.go:376-405 | Every run in which a Refresh has claimed its token can be continued to such a leaked record. |
| SessionTheorems.ClaimHappens | internal/handlers/auth.go:357-358 | Some run does have a Refresh claim a token. |
| SessionTheorems.SessionsNeverExceedLogins | internal/handlers/auth.go:265-276 | At every point of every run the sessions owned by Redis or by a handler are at most as many as the logins that minted. |
| SessionTheorems.LoginMintsForItsUser | internal/handlers/auth.go:195-276 | In every run a login mints for the user the same handler started that login for, with no step of that handler between. |
| SessionTheorems.SessionBelongsToLogin | internal/handlers/auth.go:254-405 | At every later point of every run each token of a session and each record of it, after any number of rotations, belongs to the user whose login minted the first. |
| SessionTheorems.DeadlineIsDelayed | internal/handlers/auth.go:265-405 | A Set gives the record a deadline of its token's expiry plus exactly the time from the mint to that Set, and none when the token was minted with no lifetime left. |
| SessionTheorems.AcceptedWhile | internal/auth/paseto.go:98-134 | In every run a token is unexpired exactly until 30 days plus the sum of its rotations' gaps after its login's mint, that moment included. |
| SessionHandlers.Gateway.Do | internal/handlers/auth.go:195-421 | One atomic step of any handler keeps the recorded history a run of the machine. |
| SessionHandlers.Gateway.Others | internal/handlers/auth.go:298-421 | Whatever the other handlers do between two commands, this handler's program counter and every minted token stay. |
| SessionHandlers.Gateway.Verify | internal/auth/paseto.go:112-134 | A refresh token is accepted exactly when this service minted it and the clock is not past its expiry. |
| SessionHandlers.Gateway.GetDel | internal/handlers/auth.go:357-367 | The claim yields a user exactly when Redis has the key and its reply arrives, and the user is then the token's own. |
| SessionHandlers.Gateway.Until | internal/handlers/auth.go:396 | The remaining lifetime is the expiry minus the clock at this step, possibly negative, and is what the handler carries on. |
| SessionHandlers.Gateway.Claim | internal/handlers/auth.go:341-374 | A claim takes no step for an unknown token, verifies only for an expired one and sends GetDel otherwise; it succeeds exactly when GetDel was sent, answered and met a live record. |
| SessionHandlers.Gateway.MintAndStore | internal/handlers/auth.go:397-412 | The client gets a rotated cookie exactly when the mint works and the Set is answered, with the lifetime read before the mint; otherwise a 500. |
| SessionHandlers.Gateway.Rotate | internal/handlers/auth.go:376-412 | After the claim a 201 comes exactly when role lookup, access token, mint and Set all work, with expiry minus now as its lifetime; which of them fails first fixes the steps performed. |
| SessionHandlers.Gateway.Refresh | internal/handlers/auth.go:340-421 | Under arbitrary interference: 401 exactly when there is no acceptable cookie or its GetDel was unanswered or met no live record; 201 exactly when that claim and everything after it work, with the lifetime read at time.Until; 500 otherwise; and in each case exactly which steps were performed. |
| SessionHandlers.Gateway.Login | internal/handlers/auth.go:254-289 | A refresh cookie goes out exactly when both tokens can be created, even when the Set then fails with a 500, and its token is minted for the user who logged in; 201 exactly when the Set is answered besides. |
| SessionHandlers.Gateway.Logout | internal/handlers/auth.go:298-329 | Every path answers 200, and GetDel is sent exactly for an unexpired token of this service. |
| LockoutTheorems.OvershootBound | internal/redis_db/lockout.go:28-65 | In every run with at most k logins past the check at once, the live count plus those logins never exceeds MaxLoginFailures - 1 + k plus the number of logins that a failed GET let through a full counter, across expiries and resets. |
| LockoutTheorems.OvershootWhenAnswered | internal/redis_db/lockout.go:28-65 | So with every GET answered it never exceeds MaxLoginFailures - 1 + k. |
| LockoutRuns.OvershootAttained | internal/redis_db/lockout.go:30-60 | For every k and every number f of failed GETs on a full counter some run reaches that bound exactly. |
| LockoutTheorems.StaysFull | internal/redis_db/lockout.go:30-65 | From any point of a run until expiry or reset the live count never goes down, in any interleaving. |
| LockoutTheorems.NobodyPassesWhileFull | internal/handlers/auth.go:210-217 | Once the count has reached MaxLoginFailures, with answered GETs no login joins those past the check at any later step until expiry or reset. |
| LockoutTheorems.OrphanedIff | internal/redis_db/lockout.go:30-40 | A step leaves a sound counter as one that nobody will give a deadline if and only if it loses the last pending EXPIRE (lost INCR reply, unexecuted EXPIRE, or stop in between). |
| LockoutTheorems.OrphanIff | internal/redis_db/lockout.go:30-65 | At any point of any run the counter is such an orphan if and only if some earlier step lost its last EXPIRE and no DEL was executed since. |
| LockoutTheorems.NoOrphan | internal/redis_db/lockout.go:30-40 | Without Redis faults or crashes between INCR and EXPIRE, in every interleaving with resets a counter without deadline has its EXPIRE on the way; once all logins are done every counter has a deadline. |
| LockoutTheorems.OrphanLocksForever | internal/redis_db/lockout.go:48-60 | An orphan counter at the limit with no login in flight keeps the account locked and the counter unchanged for the rest of every run with answered GETs. |
| LockoutTheorems.LockedForGoodIff | internal/redis_db/lockout.go:30-65 | That state is the only one of its kind: an account is in it if and only if no continuation with answered GETs admits another login. |
| LockoutRuns.LockedForGoodHappens | internal/redis_db/lockout.go:30-60 | Some run gets there with one lost INCR reply and four ordinary failures. |
| LockoutTheorems.RetryAfterBounds | internal/redis_db/lockout.go:55-59 | The Retry-After of a refused login lies between zero and one window in every run, and is a whole window when TTL fails or finds no count or no deadline. |
| LockoutTheorems.RetryAfterExact | internal/redis_db/lockout.go:30-60 | The Retry-After is exact: while no EXPIRE is executed and no new count is started, the count a refused login met is gone just after the reported wait, and without a DEL is live until then. |
| LockoutSliding.SlidingBound | internal/redis_db/lockout.go:28-65 | In every run with at most k logins past the check at once, whatever interleaves, fails or crashes, a half-open span as long as the window in which no DEL is executed holds at most 2c - 1 recorded failures, c being the overshoot bound. |
| LockoutSliding.FarApart | internal/redis_db/lockout.go:28-65 | Two recorded failures 2c - 1 apart are more than a window apart or have an executed DEL between them, for any bound c on the count. |
| LockoutSliding.SlidingBoundOneAtATime | internal/redis_db/lockout.go:28-60 | With one login past the check at a time and every GET answered the span holds at most 2 * MaxLoginFailures - 1. |
| LockoutRuns.SlidingAttained | internal/redis_db/lockout.go:28-60 | For every k some run without reset, error or failed GET has a span with exactly 2 * (MaxLoginFailures - 1 + k) - 1 failures. |
| LockoutHandlers.Account.IsLocked | internal/redis_db/lockout.go:48-60 | Locked exactly when the GET is answered and the live count has reached the limit; TTL is asked only then, and the wait is between zero and one window. |
| LockoutHandlers.Account.RecordFailure | internal/redis_db/lockout.go:30-40 | EXPIRE is sent exactly when INCR is answered on an absent or expired key, and errors of either command are returned. |
| LockoutHandlers.Account.ResetFailures | internal/redis_db/lockout.go:62-65 | An answered DEL leaves no live count. |
| LockoutHandlers.Account.Attempt | internal/handlers/auth.go:210-254 | 429 exactly for an answered full count; otherwise accepted exactly for a right password, which alone sends the DEL; an internal error exactly for a database error, which sends neither DEL nor INCR; invalid credentials exactly for an unknown email or a wrong password, which alone send the INCR, with EXPIRE exactly when it was answered on no live counter. |
| LockoutHandlers.EmailsNotRevealed | internal/handlers/auth.go:219-251 | Swapping unknown email and wrong password changes neither the answer nor the commands sent. |
| OpenLoopTheorems.InvInEveryRun | cmd/loadtest/main.go:515-634 | At every step of every run each slot time has been issued as often as it is queued, in hand, recorded or dropped, and inFlight and sent differ from queue, workers and samples by exactly the pending adds. |
| OpenLoopTheorems.InFlightBounds | cmd/loadtest/main.go:532-537 | At every step inFlight lies in [-1, queue capacity + workers]. |
| OpenLoopTheorems.InFlightDipsBelowZero | cmd/loadtest/main.go:606-608 | The lower bound is reached: a worker can finish a job before the dispatcher counts it in. |
| OpenLoopTheorems.EveryRunConserves | cmd/loadtest/main.go:621-634 | At the end of every run the samples' slots are exactly slots 0..issued-1, once each; sent equals issued, inFlight is zero, and no sample's lag was clipped. |
| OpenLoopSamples.SamplesAre | cmd/loadtest/main.go:603-634 | At the end of every run the samples are, as a multiset, the answers the workers recorded with the slot written in and nothing else changed, and one over-capacity sample with its slot and time for each step that met a full queue. |
| OpenLoopSamples.CapacityCount | cmd/loadtest/main.go:609-634 | So in any stretch of time the over-capacity samples are as many as the slots that met a full queue then, plus the answers that themselves carry that error. |
| OpenLoopSamples.ReportedOverCapacity | cmd/loadtest/stats.go:80-104 | And that is the over-capacity count of the report after the window is marked. |
| OpenLoopSamples.CorrectedInEveryRun | cmd/loadtest/stats.go:177-193 | In every finished run the corrected latencies of the window are the times from each timed request's intended slot to its completion. |
| OpenLoopTheorems.SlotsDistinct | cmd/loadtest/main.go:599 | With a positive period different slots have different times. |
| OpenLoopTheorems.ScheduleExact | cmd/loadtest/main.go:597-602 | Whenever the catch-up loop is left, issued is the floor of elapsed time over period, plus one, however many ticks were missed. |
| OpenLoopTheorems.LoopEndsIff | cmd/loadtest/main.go:597-618 | From any point of any run inside the catch-up loop, some continuation leaves the loop if and only if the period is at least one nanosecond. |
| OpenLoopTheorems.FinishHappens | cmd/loadtest/main.go:586-634 | Some run issues a slot, serves it and finishes. |
| OpenLoopRun.OpenLoop.IssueNext | cmd/loadtest/main.go:603-617 | A due slot is issued once: queued as the newest job with inFlight counted up if the queue had room, else left as one sample with the over-capacity error, its slot and the time it was given up and nothing else, with sent counted up. |
| OpenLoopRun.OpenLoop.IssueUpTo | cmd/loadtest/main.go:598-618 | For a positive period the loop terminates, with workers interfering, and the next slot then lies after the tick. |
| OpenLoopRun.OpenLoop.CatchUp | cmd/loadtest/main.go:597-618 | A processed tick leaves exactly the slots up to the time it read issued, with workers interfering. |
| OpenLoopRun.OpenLoop.MergeSamples | cmd/loadtest/main.go:621-634 | The merged list has as many samples as issued slots with nothing in flight, and is, in some order, the answers the workers recorded and the over-capacity samples of the slots that met a full queue. |
| OpenLoopRun.MarkWindow | cmd/loadtest/main.go:774-780 | In place, the whole slice becomes itself with the flag of each sample set exactly when it went out in [t0, t0 + d). |
| MannWhitney.GroupRank | cmd/loadtest/timing.go:285-293 | In a sorted pool the averaged rank of a group of ties is what each member scores against the whole pool by pairwise wins and half ties. |
| MannWhitney.RankAll | cmd/loadtest/timing.go:283-298 | The rank loop gives every observation its pairwise score as rank and accumulates the tie sum defined per observation. |
| MannWhitney.RankSumIsPairs | cmd/loadtest/timing.go:274-308 | Whatever order the sort gives ties, the doubled rank sum of the first sample is na^2 + na plus twice its pairwise wins over the second. |
| MannWhitney.PairsBothWays | cmd/loadtest/timing.go:308-309 | The two one-sided statistics add up to na * nw. |
| MannWhitney.TieSumRange | cmd/loadtest/timing.go:294-313 | The tie sum lies in [0, n^3 - n] and reaches the top if and only if all values are tied. |
| MannWhitney.TiesShrinkSpread | cmd/loadtest/timing.go:294-313 | The law of the tie correction: for every pool three times the squared deviations of the doubled ranks are n^3 - n less the tie sum. |
| MannWhitney.VarUIsRankVariance | cmd/loadtest/timing.go:311-313 | varU is na * nw / (n * (n - 1)) times the squared deviations of the pooled average ranks from their mean. |
| RankVariance.VarUIsTheVariance | cmd/loadtest/timing.go:307-313 | Over all ways to deal the pooled values to two groups of these sizes, with any ties, the mean of U is na * nw / 2 and the mean of (U - na * nw / 2)^2 is varU. |
| RankVariance.SpreadGivesVariance | cmd/loadtest/timing.go:307-313 | Whatever number is na * nw / (n * (n - 1)) times the ranks' squared deviations, as the returned varU is, is the variance of U over all deals. |
| MannWhitney.VarUSign | cmd/loadtest/timing.go:311-316 | The variance is never negative, and zero if and only if the tie sum is n^3 - n. |
| MannWhitney.Statistic | cmd/loadtest/timing.go:307-309 | u is the smaller one-sided statistic and lies in [0, na * nw / 2]. |
| MannWhitney.MannWhitney | cmd/loadtest/timing.go:264-316 | uA is the number of pairs with a above w plus half the ties, u the smaller one-sided statistic, varU na * nw / (n * (n - 1)) times the squared deviations of the pooled average ranks from their mean, and the degenerate exits are taken exactly for an empty sample or all values tied. |
| Percentiles.PercentileIsLeastCovering | cmd/loadtest/stats.go:208-225 | For 0 < p <= 100 the percentile is a sample, at least p percent of the samples are at or below it, and it is the least such sample. |
| Percentiles.PercentileMonotone | cmd/loadtest/stats.go:208-225 | Percentiles never decrease in p, for every real p. |
| Percentiles.SortingKeepsDomination | cmd/loadtest/stats.go:166-191 | If one list is pointwise at most another, it still is after both are sorted. |
| Percentiles.PercentileDomination | cmd/loadtest/stats.go:208-225 | And so is every percentile. |
| Percentiles.PercentileStrictness | cmd/loadtest/stats.go:208-225 | If one list is pointwise below another, every percentile is below too. |
| Percentiles.BootstrapInterval | cmd/loadtest/timing.go:235-258 | For every sequence of draws and any number of rounds lo <= hi, and both lie in [min(w) - max(a), max(w) - min(a)]. |
| Percentiles.MedianIs | cmd/loadtest/stats.go:208-225 | The median is the least value with at least half of the values at or below it. |
| Percentiles.MostDifferencesInside | cmd/loadtest/timing.go:255-258 | At least 95 percent of the rounds' differences lie in the interval, for any number of rounds. |
| Percentiles.Resample | cmd/loadtest/timing.go:245-250 | The reused buffer is refilled completely, each place with the drawn value. |
| Percentiles.AllRounds | cmd/loadtest/timing.go:239-254 | Every entry of diffs is the median difference of its own round's draws, although the buffers are reused and sorted in place. |
| Percentiles.RoundResamples | cmd/loadtest/timing.go:239-254 | Round i uses its own |a| + |w| draws, each for one value of its two resamples, and its difference is the second resample's median less the first's. |
| Percentiles.BootstrapMedianDiffCI | cmd/loadtest/timing.go:235-258 | The two returned values are the 2.5th and the 97.5th percentile of the 2000 median differences, each the least difference covering its share; they are ordered, lie in [min(w) - max(a), max(w) - min(a)] and have at least 1900 of the differences between them; an empty sample gives zeros. |
| Samples.Sample.SchedLag | cmd/loadtest/stats.go:47-57 | The lag is the least non-negative time that, added to the slot, reaches the moment the sample went out; zero without a slot. |
| Samples.Collect | cmd/loadtest/stats.go:138-193 | A collector returns an ascending permutation of the values of exactly the kept samples. |
| Samples.CorrectedDominates | cmd/loadtest/stats.go:159-193 | At every p the percentile of the corrected latencies is at least the one of all latencies. |
| Samples.CorrectedRaises | cmd/loadtest/stats.go:159-193 | When every timed sample went out after its slot, every percentile of the corrected latencies is above the plain one. |
| Samples.BothLatencies | cmd/loadtest/stats.go:159-193 | The corrected slice holds, sorted, completion minus slot for each timed sample sent at or after its slot and the latency for the others, and at every p its percentile is at least that of the plain latencies. |
| Samples.WindowSplits | cmd/loadtest/stats.go:270-283 | Windowed samples are transport errors, accepted, or answered otherwise, each counted once. |
| Samples.KindsSplit | cmd/loadtest/stats.go:80-104 | The five error kinds add up to the transport errors. |
| Samples.ClassifyIs | cmd/loadtest/stats.go:80-104 | Which errors get which kind: the in-flight cap first, then a network timeout, then a refused connection, then an EOF, reset or broken pipe anywhere in the message, else other. |
| Samples.TimedSplits | cmd/loadtest/stats.go:159-175 | The timed samples are the windowed ones less the over-capacity ones. |
| Summary.Tally | cmd/loadtest/stats.go:266-280 | Each map entry of the report is the number of windowed samples of that status or kind. |
| Summary.SumOthers | cmd/loadtest/stats.go:366-371 | Whatever order the map yields, the sum over the other statuses is the number of samples answered with another status. |
| Summary.PrintReport | cmd/loadtest/stats.go:263-374 | The printed counts are the counts of samples. |
| Summary.StatsOrdered | cmd/loadtest/summary.go:98-116 | The summary statistics, in milliseconds cut to microseconds, are the smallest and the largest with the percentiles in order between them, and the mean of all values between them too. |
| Summary.StatsCover | cmd/loadtest/summary.go:102-116 | The p50, p95, p99 and p99.9 of the summary are, in milliseconds, the least durations covering 50, 95, 99 and 99.9 percent of all of them. |
| Summary.ToMSCuts | cmd/loadtest/summary.go:98-99 | The conversion to milliseconds loses less than a microsecond of a duration. |
| Summary.Mean | cmd/loadtest/stats.go:227-236 | The loop returns the total divided by the count, cut towards zero for either sign, and zero for no values. |
| Summary.Summarize | cmd/loadtest/summary.go:121-175 | The JSON counts are the same counts of samples: total - transport - accepted is the non-ok answers, the error kinds add up to transport, Acc.N is accepted, All.N is total less over-capacity, and both statistics are of the right latencies. |
| Summary.BothAgree | cmd/loadtest/summary.go:118-175 | Printed report and JSON summary agree on every count, for every sample list. |
| Decimal.ItoaInjective | cmd/loadtest/summary.go:133 | Different statuses are filed under different text keys. |
| Aggregation.InWindow | cmd/loadreport/input.go:156-173 | The readings used are exactly those in the closed window, in order, or all of them when fewer than three are. |
| Aggregation.InsideKeeps | cmd/loadreport/input.go:156-167 | Every reading of the closed window is kept once, in its place in the order, and no other. |
| Aggregation.GroupBoth | cmd/loadreport/input.go:175-180 | The two maps hold exactly the containers with their readings in order, and exactly the timestamps with their totals. |
| Aggregation.Rows | cmd/loadreport/input.go:184-195 | One row per container that occurs, with its sum, count and peak. |
| Aggregation.SortRows | cmd/loadreport/input.go:196-198 | The rows come out by descending average, rearranged and otherwise unchanged. |
| Aggregation.Times | cmd/loadreport/input.go:200-204 | Every timestamp once, ascending. |
| Aggregation.Instantaneous | cmd/loadreport/input.go:206-213 | The combined total and peak are those of the per-timestamp sums. |
| Aggregation.Aggregate | cmd/loadreport/input.go:156-220 | One correct row per container, busiest first, and the combined figures of the readings that count, with zeros for no readings. |
| Aggregation.TwoWayTotal | cmd/loadreport/input.go:175-180 | Summed by timestamp or by container (average times count), the readings give the same total. |
| Aggregation.CombinedPeakBound | cmd/loadreport/input.go:150-213 | For all readings the combined peak is at most the containers' largest per-timestamp totals added up. |
| Aggregation.CombinedPeakBelowPeaks | cmd/loadreport/input.go:150-155 | So when no container reports twice at one timestamp it is at most the container peaks added up. |
| Aggregation.AverageGap | cmd/loadreport/input.go:150-215 | For all readings the combined average minus the sum of container averages is exactly the sum over containers of total * (1/timestamps - 1/readings). |
| Aggregation.AveragesAgreeIff | cmd/loadreport/input.go:150-215 | For non-negative readings with no container reporting more often than there are timestamps, the combined average never exceeds the sum of container averages and equals it if and only if every container that reported less often read zero throughout. |
| Aggregation.OnePerCellFits | cmd/loadreport/input.go:176-180 | No container reports more often than there are timestamps when none reports twice at one. |
| Aggregation.AveragesAgreeOnEqualCounts | cmd/loadreport/input.go:150-215 | When every container reports as often as there are timestamps the two averages are equal, for readings of any sign. |
| Aggregation.AveragesAgreeOnGrid | cmd/loadreport/input.go:150-215 | So they are when every container reports exactly once at every timestamp. |
| Aggregation.DoubleReportExceeds | cmd/loadreport/input.go:176-213 | A container reporting twice at one timestamp can put both combined figures above the sums of the container figures on a full grid. |
| Aggregation.AveragesCanDiffer | cmd/loadreport/input.go:150-155 | A concrete missed poll makes the two averages differ. |
| Base64.EncodeThenDecode | internal/auth/password.go:43-92 | Every byte string survives encoding and decoding. |
| Base64.DecodesIff | internal/auth/password.go:83-92 | A string decodes if and only if it holds only alphabet characters and line breaks and the former are not one over a multiple of four. |
| Base64.DecodeThenEncode | internal/auth/password.go:83-92 | Re-encoding gives a decodable string back if and only if it has no line break and zero spare bits. |
| Base64.LetterIsTable | internal/auth/password.go:43-44 | The 64 characters are those of Table 1 of RFC 4648. |
| Base64Bits.EncodingKeepsBits | internal/auth/password.go:43-44 | The characters carry the bytes' bits in order, six at a time, zero-filled at the end. |
| Base64Bits.EncodedLength | internal/auth/password.go:43-44 | n bytes take (4n + 2) / 3 characters. |
| Scanning.JoinThenSplit | internal/auth/password.go:60 | Parts without the separator are recovered by splitting their join. |
| Scanning.SplitThenJoin | internal/auth/password.go:60 | Splitting any string and joining it again gives it back, and no part holds the separator. |
| Scanning.ScanPrinted | internal/auth/password.go:70-78 | A printed number is scanned back when it fits its variable, leaving the rest, and refused when it does not. |
| PasswordHash.SixParts | internal/auth/password.go:47-63 | A printed hash splits into exactly its six parts, for any parameters, salt and digest. |
| PasswordHash.ParseEncoded | internal/auth/password.go:47-92 | Parsing a printed hash recovers parameters, salt and digest if the version is 19 and the parameters fit uint32, uint32 and uint8; otherwise the error says which not. |
| PasswordHash.EncodedInjective | internal/auth/password.go:47-48 | Two hashes print alike only if parameters, salt and digest are alike. |
| PasswordHash.StoredString | internal/auth/password.go:16-51 | What HashPassword stores, letter by letter: version 19, 19456 KiB, two passes, one lane, then salt and a key of 32 bytes in base64. |
| PasswordHash.PrefixIgnored | internal/auth/password.go:60-63 | What stands before the first dollar sign has no effect on parsing. |
| PasswordHash.PrintedIff | internal/auth/password.go:47-92 | An accepted string is the printed form of what was parsed if and only if nothing stands before the first dollar sign, the version is written as printed, the parameters are three plain numbers under their keys with nothing after, and both base64 parts have no line break and zero spare bits. |
| PasswordHash.VersionJunkIgnored | internal/auth/password.go:69-72 | Text after the version number that does not start with a digit changes nothing. |
| PasswordHash.ParamsJunkIgnored | internal/auth/password.go:77-80 | Nor does such text after the parameters. |
| PasswordHash.LeadingZeroIgnored | internal/auth/password.go:69-80 | A number with a leading zero, which is not how it is printed, is read like the number without. |
| PasswordHash.VerifyIff | internal/auth/password.go:58-104 | For every usable parameter triple and key length, a stored hash accepts an attempt if and only if Argon2id gives it the same key. |
| PasswordHash.PrintedPanicsIff | internal/auth/password.go:58-104 | Against a printed hash with any costs that fit, verifying panics exactly for a zero time, a zero parallelism or a digest of no bytes modulo 2^32, and otherwise compares keys. |
| PasswordHash.HashThenVerify | internal/auth/password.go:32-104 | What HashPassword stores for a password, VerifyPassword accepts, for every salt. |

## Left out

- SessionTheorems.OneCustodian: one integer clock for replicas and Redis, no eviction, persistence or sub-millisecond rounding of expiries; token identifiers are fresh by assumption.
- SessionFinality.EndedIff: anybody may present any minted token at any time, so a token that was minted but never sent to a client counts as presentable.
- SessionHandlers.Gateway.Login: starts after the password is accepted; the part before is `LockoutHandlers.Account.Attempt`.
- LockoutTheorems.NobodyPassesWhileFull: for runs whose GETs are answered meanwhile; each failed GET on a full counter admits one login, which `OvershootBound` counts.
- LockoutSliding.SlidingBound: counts the logins let through by failed GETs over the whole run up to that point, not only those in the span.
- LockoutSliding.SlidingBoundOneAtATime: the case k = 1 of `SlidingBound` with every GET answered.
- Percentiles.PercentileIsLeastCovering: exact reals for float64. In floating point 99.9 / 100 * 1000 comes out just above 999, so at p = 99.9 and sample counts of 1000, 2000, 3000 and so on the code (`cmd/loadtest/stats.go:217`, called at `cmd/loadtest/summary.go:112`) returns the value one rank higher.
- LockoutTheorems.OvershootWhenAnswered: the case of `OvershootBound` in which every GET is answered.
- Aggregation.Aggregate: readings are integers in some fixed unit; parsing them and printing the section are not modelled.
- Aggregation.CombinedPeakBelowPeaks: the case of `CombinedPeakBound` without double reports; with them it is false.
- Aggregation.AveragesAgreeOnGrid: the case of `AveragesAgreeOnEqualCounts` without double reports; with them it is false.
- OpenLoopTheorems.EveryRunConserves: does not model the abort watcher's threshold (stopping is allowed at any selection), client addresses or the progress printer; the period is a parameter, not computed from a float rate.
- OpenLoopTheorems.FinishHappens: for one worker.
- Samples.Collect: stands for the three collectors over samples; the list of scheduling lags has the same shape and is not modelled.
- Summary.Summarize: rates, window times and the censored flag are not modelled.
- PasswordHash.VerifyIff: Argon2id is any function whose result has the requested length; a zero time, parallelism or digest length is a panic, and timing of the comparison is not modelled.
- MannWhitney.MannWhitney: stops at U and the variance; z, p and the normal distribution are not modelled, nor is float rounding.
- LockoutKey's trimming and lower-casing of emails: one machine is one key.
- HTTP, JSON, cookies, TLS, routes, middleware, Register, seeding and the users table beyond what a lookup comes to.
- PASETO, Ed25519 and UUID internals: tokens are ideal.
- The IP rate limiter and its Redis counter, the XFF parser and the migrator: library behaviour not shown in the repository.
- Response padding and its calibration (`internal/auth/timing.go`).
- CSV and markdown output, environment parsing, closed-loop phases and shell scripts.
