# Verified model of the solar EV charging controller

This project models the stateful core of the solar-surplus EV charging
controller and proves what its protocols keep over whole runs. Check it with
`dafny verify dfyconfig.toml` (Dafny 4.11).

| part | modules |
|---|---|
| Charging controller | `ControlLaw`, `ChargeSessions`, `MinuteAverage`, `Controller`, `ControllerRuns`, `Hysteresis`, `RateLimits`, `StartAttempts`, `TickOutcomes`, `TickHistory`, `PowerFeed`, `Episodes` |
| WiNet-S inverter session | `WiNet`, `WiNetRate`, `WiNetRecovery` |
| Dashboard sessions | `AuthSessions`, `SessionLifetimes`, `SessionOwners`, `SessionSafety` |
| Tesla usage accounting | `ApiUsage`, `UsageRestore`, `UsageBaselines`, `UsageSampling`, `Text`, `BaselineText` |
| Refresh-token rotation | `TokenRotation`, `TeslaClient`, `TokenFile` |

Objects the program updates in place are classes here (`ChargeController`,
`SungrowClient`, `SQLiteStore`, `SessionManager`, `APIUsageTracker`,
`UsageStore`, `Client`, `Directory`), its loops are loops. Each method is proved
equal to a specification function on the object's abstract value; the theorems
are about runs of those functions, so they hold of the methods. A run is a
sequence of states and events in which every step follows; theorems hold for
every run, of any length, with any answers from the environment.

How the outside world appears:

- Time is an integer number of nanoseconds, with 0 as Go's zero time. One tick
  reads the clock three times (`start`, `now`, `end`); runs assume the clock does
  not run backwards and ticks do not overlap.
- The inverter, vehicle, store and token server are inputs: each step receives
  their answers. The WiNet-S module is an adversary whose sound answers serve
  only the newest login.
- Hashes are injective and random ids and issued tokens are new.
- Watts and amps are integers; averages and energy are reals.
- Billing months are an ascending sequence of month starts, the local hour and
  the RFC 3339 timestamp text are parameters.

## What the proofs found

Where the code does less than one might expect, the model follows the code, a
lemma exhibits an input, and the exact condition is proved.

- A session whose EndSession call fails is closed locally but not in the store
  (`Episodes.FailedEndLeavesSessionOpen`). Over any run the successful store calls
  are bracketed if and only if no session starts after a failed end
  (`ControllerRuns.SuccessfulCallsOfRun`).
- A failed wake starts no backoff (`Episodes.StartSoonAfterFailedWake`). A start is
  attempted if and only if it is wanted and the start cooldown and the backoff of
  failed charging commands are over; wakes do not enter
  (`StartAttempts.StartExactly`, `StartAttempts.StartAfterFailedWake`).
- The last minute of a month is flushed by the first tick of the next one, after the
  counters were reset (`UsageRestore.RolloverSnapshotDrops`). A later snapshot of a
  month is at least an earlier one if and only if it was taken in that month or the
  new month's calls already reach it (`UsageRestore.SnapshotsGrowExactly`).
- That first tick may call the car before it flushes, so the snapshot may also count
  a call of the new month under the old one's timestamp
  (`UsageRestore.RolloverSnapshotExceeds`). A snapshot never exceeds the calls of the
  month it is taken in; it keeps to those of its stamped month if and only if it was
  taken in it or they reach what is known of the new one
  (`UsageRestore.SnapshotAtMostTrueExactly`), and always when no call of a later month
  came before it (`UsageRestore.QuietSnapshotAtMostTrue`).
- The OAuth callback writes the token file before it takes the refresh lock
  (`TokenRotation.FileAndMemoryCanDisagree`). File and memory agree at rest if and
  only if the last supplied token had not lost the file before its turn
  (`TokenRotation.FileAgreesExactly`). No consumed token is presented even so.
- A login whose own prune fails can see an earlier one
  (`SessionLifetimes.FailedPruneIsObservable`). Pruning changes no answer of a run if
  and only if no login redeems a stored nonce that a prune before it would have
  dropped (`SessionLifetimes.PruningUnobservable`).
- An insert that lags its clock by the whole skew allowance lets a pruned ID token
  be redeemed again (`SessionSafety.LaggingInsertReplays`). With or without lag, the
  next exchange of a redeemed nonce is accepted if and only if its token is not stale,
  its insert works on a new id, and a prune in between saw the nonce expired
  (`SessionSafety.RedeemedAgainExactly`); with any smaller lag that never happens to
  the same token (`SessionSafety.TokenExchangedOnce`).

## Model

| member | source | states |
|---|---|---|
| ControlLaw.Optimal | internal/controller/controller.go:419-438 | While charging, an amperage from 1 to the maximum leaves no grid import exactly when it is at most the computed one |
| ControlLaw.IdleIsChargingAtZero | internal/controller/controller.go:419-438 | With surplus = max(0, -grid), the branch for an idle car equals the charging branch at 0 A drawn |
| ControlLaw.DeadBeat | internal/controller/controller.go:419-438 | If the car adopts the computed amps, having been charging or just started on the surplus of its grid balance, and nothing else changes, the next reading gives the same amps |
| ControllerRuns.AdoptedAmpsSettle | internal/controller/controller.go:308-361 | After amps adopted from an adjustment or a start, and a new vehicle reading, the next tick sends no command |
| ChargeSessions.ConsistentBegin | internal/controller/controller.go:463-481 | Starting a session from none keeps the bookkeeping equal to the replay of its log, whether or not the insert works |
| ChargeSessions.ConsistentFinish | internal/controller/controller.go:483-498 | Ending a session closes it with the statistics of its samples and leaves none active |
| ChargeSessions.ConsistentRecord | internal/controller/controller.go:700-717 | Peak, total, count and energy follow every recorded sample |
| ChargeSessions.MeanAtMostPeak | internal/controller/controller.go:719-729 | The mean of positive samples does not exceed their peak |
| ChargeSessions.EndReportsItsSamples | internal/controller/controller.go:719-729 | Every EndSession call carries the id of its start and the peak, mean and energy of exactly the samples since, and its mean is at most its peak |
| ChargeSessions.OpenSince | internal/controller/controller.go:700-717 | An open session's samples are the log's entries after its start, in order |
| ChargeSessions.SuccessfulCallsBracketed | internal/controller/controller.go:440-499 | The successful calls form (Start End)* Start? with matching ids if and only if no session starts after a failed end |
| ControllerRuns.SessionLogBracketed | internal/controller/controller.go:440-499 | Over every run the session log is well bracketed, a session is active only in the charging state, and without one the statistics are zero |
| ControllerRuns.SuccessfulCallsOfRun | internal/controller/controller.go:440-499 | Over every run the successful calls are bracketed if and only if no session starts after a failed end |
| ControllerRuns.EndReportsOfRun | internal/controller/controller.go:700-729 | Over every run each EndSession call reports the maximum, the mean, and the energy as amp total times voltage times poll hours in thousandths, of exactly its samples |
| TickHistory.SessionLogFollowsTicks | internal/controller/controller.go:440-499 | Every tick logs the amps it reads of a charging car while a session is active, then the start or the end its change of state calls for |
| Episodes.FailedEndLeavesSessionOpen | internal/controller/controller.go:483-498 | A run of three ticks with a failed end, after which the store sees two starts in a row |
| MinuteAverage.AverageOf | internal/controller/controller.go:800-834 | The averaging loop returns the mean of every quantity over the gathered samples |
| MinuteAverage.FeedInvariant | internal/controller/controller.go:772-798 | After any ordered samples, each persisted batch is a non-empty clock minute with its own average |
| MinuteAverage.SamplesConserved | internal/controller/controller.go:772-798 | Persisted batches followed by the accumulator are all samples, in order |
| MinuteAverage.MinutesIncrease | internal/controller/controller.go:772-798 | The minutes of persisted readings strictly increase |
| MinuteAverage.AverageTimesCount | internal/controller/controller.go:800-834 | A batch's averages times its count give back its totals |
| MinuteAverage.TotalsConserved | internal/controller/controller.go:772-834 | Averages times counts over all persisted readings, with the totals still gathered, sum to the totals of all samples |
| MinuteAverage.SurplusAverageConvex | internal/controller/controller.go:800-834 | A persisted surplus average is at least max(0, minus the grid average) |
| ControllerRuns.MinutesFollowTicks | internal/controller/controller.go:772-798 | Over every run the averager is fed exactly the samples of the ticks that reached the inverter and the vehicle |
| ControllerRuns.RunConservesSamples | internal/controller/controller.go:772-834 | Over every run what was persisted, followed by what is still gathered, is what the ticks read |
| ControllerRuns.RunConservesTotals | internal/controller/controller.go:772-834 | Over every run the persisted averages times their counts, with the totals still gathered, are the totals of what the ticks read |
| ControllerRuns.PersistedReadings | internal/controller/controller.go:800-834 | Every persisted reading averages one clock minute, carries its last amps and battery level, and shows at least the surplus of its grid balance |
| PowerFeed.PersistedReadingsOfPolls | internal/inverter/sungrow.go:345-362 | The same with no assumption on the surplus, when the power comes from polls of the inverter |
| PowerFeed.StartsOnExportOnly | internal/controller/controller.go:308-333 | Over every run a charge is only started with amps that the power exported to the grid covers |
| Controller.ChargeController.constructor | internal/controller/controller.go:118-140 | A new controller is idle, automatic, with no history |
| Controller.ChargeController.StartSession | internal/controller/controller.go:463-481 | Zeroes the statistics and adopts the store's id, if the insert worked |
| Controller.ChargeController.EndSession | internal/controller/controller.go:483-498 | Reports the session's statistics to the store and clears them, whether or not the call works |
| Controller.ChargeController.Transition | internal/controller/controller.go:440-499 | Changing state starts a session on entering and ends it on leaving the charging state; staying changes nothing |
| Controller.ChargeController.RecordSample | internal/controller/controller.go:700-717 | Counts a positive sample of an active session and nothing else |
| Controller.ChargeController.UpdatePlugState | internal/controller/controller.go:501-520 | Only an online reading updates the known plug state and the non-actionable time |
| Controller.ChargeController.Accumulate | internal/controller/controller.go:772-798 | A sample of a new minute first flushes the old one |
| Controller.ChargeController.FlushMinuteAverage | internal/controller/controller.go:800-834 | Persists the average of the gathered samples, if there are any; the usage snapshot that follows is a step of UsageRestore |
| Controller.ChargeController.ClearError | internal/controller/controller.go:590-604 | Leaves the error state once the failure backoff is over |
| Controller.ChargeController.PollVehicle | internal/controller/controller.go:194-214 | Reads the car when the state's poll interval has passed, caches what it says, and enters the error state when the read fails |
| Controller.ChargeController.ShouldAttemptWakeNow | internal/controller/controller.go:606-643 | An offline car may be woken only when recently plugged in, not lately non-actionable, and within the wake hours |
| Controller.ChargeController.HandleOffline | internal/controller/controller.go:264-306 | The wake decision: margin, threshold, retry interval, and what a failed wake does |
| Controller.ChargeController.MayAttemptChargeStart | internal/controller/controller.go:541-554 | The start cooldowns of attempts and of failed commands |
| Controller.ChargeController.HandleStart | internal/controller/controller.go:308-333 | A start sends amps, then the start command, and stamps attempt, adjustment and failure |
| Controller.ChargeController.HandleAdjust | internal/controller/controller.go:334-361 | Amps are resent only when they differ by the threshold and the adjustment interval has passed |
| Controller.ChargeController.HandleLow | internal/controller/controller.go:362-384 | The deadband decides between stopping, keeping on and monitoring |
| Controller.ChargeController.MakeDecision | internal/controller/controller.go:257-384 | The counters and the branch of step 6 |
| Controller.ChargeController.RunTestMode | internal/controller/controller.go:396-417 | Test mode counts and averages but never commands the car |
| Controller.ChargeController.RunControl | internal/controller/controller.go:218-393 | Steps 3 to 8: preconditions, manual mode, amps, decision, sample |
| Controller.ChargeController.RunTick | internal/controller/controller.go:161-394 | A whole tick, with its early exits |
| Controller.ChargeController.SetMode | internal/controller/controller.go:858-863 | Changes the mode and nothing else |
| Controller.ChargeController.ForceRefresh | internal/controller/controller.go:869-888 | Clears cache, cooldowns and counters, leaves the error state, and ticks |
| Hysteresis.TrailingSuffix | internal/controller/controller.go:257-263 | What a trailing run is: the longest suffix of nothing but that mark and ignored ticks |
| Hysteresis.CountersAreHistory | internal/controller/controller.go:254-384 | Over every run both counters equal the trailing low and high runs of evaluated ticks since the last reset |
| Hysteresis.NeverBothCounting | internal/controller/controller.go:254-384 | The two trailing runs are never both non-empty |
| Hysteresis.StopExactly | internal/controller/controller.go:362-384 | A stop is sent if and only if the tick is low, the car reads Charging and the last deadband of evaluated ticks were all low |
| Hysteresis.WakeExactly | internal/controller/controller.go:264-306 | A wake is sent if and only if the tick is high, the car offline, the margin cleared, the surplus held for the threshold and the retry interval over |
| Hysteresis.PlugIsHistory | internal/controller/controller.go:501-520 | The known plug state is what the car last reported while online |
| Hysteresis.WakeOnlyWhenWarranted | internal/controller/controller.go:606-632 | A woken car was plugged in when last online, and the surplus held for the threshold and clears the margin |
| RateLimits.TickStamps | internal/controller/controller.go:541-584 | Every tick stamps exactly the cooldowns of the commands it sent and sent none its cooldowns forbid |
| RateLimits.CoveredUntilRefresh | internal/controller/controller.go:541-584 | Until the next forced refresh the cooldowns cover every earlier command, failure and poll |
| RateLimits.RateLimited | internal/controller/controller.go:280-361 | Between any two ticks without a forced refresh between them, wakes, start attempts, in-charge amps and vehicle polls keep their intervals, and no start attempt falls in the backoff of a failed charging command |
| RateLimits.SpanOfLimited | internal/controller/controller.go:649-698 | k wakes, start attempts or vehicle polls without a forced refresh span at least k-1 of their intervals |
| RateLimits.FailedWakeStartsNoBackoff | internal/controller/controller.go:287-295 | A failed wake leaves the command-failure backoff as it was |
| StartAttempts.CooldownsAreHistory | internal/controller/controller.go:556-567 | Over every run the two start cooldowns are the times of the last start attempt and of the last failed charging command since the last forced refresh |
| StartAttempts.StartExactly | internal/controller/controller.go:308-333 | Over every run a start is attempted if and only if the tick is high, the car online in an actionable state, and the last attempt and the last failed charging command long enough ago |
| StartAttempts.StartAfterFailedWake | internal/controller/controller.go:287-333 | After a failed wake, and only wakes since, a start is attempted if and only if it is wanted and the cooldowns standing before the wake are over |
| StartAttempts.WakeByHistory | internal/controller/controller.go:264-306 | Over every run a wake is sent if and only if the tick is high, the car offline, the margin cleared, the surplus held for the threshold, and the last wake since a forced refresh the retry interval ago |
| TickHistory.FieldsAreHistory | internal/controller/controller.go:161-394 | Over every run mode, cached reading, last poll, last online and non-actionable times, adopted amps and adjustment time are those of the history |
| TickHistory.SeesExactly | internal/controller/controller.go:194-214 | A tick polls exactly when nothing is cached or its state's interval has passed, and sees the reply, or else what the last poll since a forced refresh reported |
| TickHistory.EvaluatedExactly | internal/controller/controller.go:218-254 | A tick is evaluated if and only if inverter and car were read, the last mode set is automatic, and the car is online and plugged in, or offline with leave to wake it |
| TickHistory.DecidesExactly | internal/controller/controller.go:252-384 | An evaluated tick takes its amps from the law and sends at most one thing, with those amps; any other sends nothing |
| TickHistory.ManualSendsNothing | internal/controller/controller.go:237-251 | While the last mode set is manual no tick or refresh sends a command, counts, or changes the adopted amps |
| TickHistory.TestModeSendsNothing | internal/controller/controller.go:396-417 | In test mode nothing is ever sent and the car never polled |
| TickHistory.AdjustExactly | internal/controller/controller.go:334-361 | Over every run amps are sent in charge if and only if a high tick finds the car online and charging, the amps differ by the threshold from those last adopted, and the adjustment interval since amps were last sent is over |
| TickHistory.StateExactly | internal/controller/controller.go:161-394 | Every tick leaves the state its outcome calls for, having first cleared an error whose backoff is over |
| Episodes.StartSoonAfterFailedWake | internal/controller/controller.go:287-333 | A run in which a start attempt follows a failed wake within the backoff |
| WiNet.SungrowClient.constructor | internal/inverter/sungrow.go:143-178 | A new client has no session, no failures and no backoff |
| WiNet.SungrowClient.CloseSessionLocked | internal/inverter/sungrow.go:506-516 | Drops token and socket together |
| WiNet.SungrowClient.ScheduleReconnectLocked | internal/inverter/sungrow.go:494-503 | Counts a reset and sets the next login after the delay of that reset |
| WiNet.SungrowClient.Wait | internal/inverter/sungrow.go:421-429 | Refuses to log in before the next-connect time |
| WiNet.SungrowClient.ConnectModule | internal/inverter/sungrow.go:180-260 | A login drops the old session and, if accepted, becomes the newest |
| WiNet.SungrowClient.ReconnectModule | internal/inverter/sungrow.go:432-440 | A failed login schedules the next |
| WiNet.SungrowClient.Replace | internal/inverter/sungrow.go:410-419 | Closes, counts a reset, and logs in again if the backoff allows |
| WiNet.SungrowClient.SendPing | internal/inverter/sungrow.go:445-466 | A session is alive unless the socket is gone or the reply rejects it |
| WiNet.SungrowClient.Ensure | internal/inverter/sungrow.go:385-405 | Keeps a live session, replaces a dead one, opens one when there is none |
| WiNet.SungrowClient.ReadRegisterAt | internal/inverter/sungrow.go:543-612 | Classifies a register reply as reading, rejected session or failure |
| WiNet.SungrowClient.ReadWithRetry | internal/inverter/sungrow.go:367-381 | A rejected session is replaced once and the register read again |
| WiNet.SungrowClient.PollModule | internal/inverter/sungrow.go:324-365 | Reads three registers in one session, each with its retry |
| WiNet.SungrowClient.Record | internal/inverter/sungrow.go:470-490 | A good poll clears the failure history; the third failure with a session abandons it |
| WiNet.SungrowClient.Poll | internal/inverter/sungrow.go:318-365 | A whole poll with its bookkeeping; it reports the three values the module accepted to give, and as surplus the power exported to the grid |
| WiNet.PollReportsReplies | internal/inverter/sungrow.go:324-365 | A poll succeeds if and only if three values were accepted, those of registers 5031, 5083 and 5091 in order, which it reports with surplus max(0, -grid) |
| WiNetRate.DelayMonotone | internal/inverter/sungrow.go:494-503 | The delay never shrinks with the number of resets |
| WiNetRate.DelayTable | internal/inverter/sungrow.go:494-503 | The delays are 0, 30, 60, 120 and 240 seconds, then always five minutes |
| WiNetRate.DelayFitsInt64 | internal/inverter/sungrow.go:494-503 | The shifted delay fits 64 bits for every number of resets |
| WiNetRate.StretchRun | internal/inverter/sungrow.go:367-503 | In every run of failing polls each login consumed one reset and waited for its delay |
| WiNetRate.LoginLowerBound | internal/inverter/sungrow.go:367-503 | The k-th login of a failing run (one more when it starts unconnected) comes at least d1+...+dk after its start |
| WiNetRate.LoginRateBound | internal/inverter/sungrow.go:367-503 | A failing run of length T has at most 4 + T/300s logins, one more when it starts unconnected |
| WiNetRecovery.ValidInitially | internal/inverter/sungrow.go:143-178 | A new client satisfies the client invariants |
| WiNetRecovery.ValidAfterStartupConnect | internal/inverter/sungrow.go:180-260 | So does one after its startup login |
| WiNetRecovery.ValidAlways | internal/inverter/sungrow.go:318-516 | Over every run: token iff socket, a token implies no pending backoff, fewer than three failed polls, and no backoff over five minutes |
| WiNetRecovery.SettledFromFirstPoll | internal/inverter/sungrow.go:318-516 | After one poll with a sound module the client holds the newest session or none |
| WiNetRecovery.Recovery | internal/inverter/sungrow.go:318-516 | From then on a poll succeeds if and only if the backoff lets it start, and success clears the failure history |
| WiNetRecovery.AtMostOneEligibleFailure | internal/inverter/sungrow.go:318-516 | At most one poll started at or after the next-connect time fails |
| WiNetRecovery.SupersededRecoversInOnePoll | internal/inverter/sungrow.go:367-419 | A superseded session with no resets recovers inside the same poll with exactly one login |
| WiNetRecovery.NextConnectNeverMoves | internal/inverter/sungrow.go:421-503 | With a sound module the next login is never put off beyond five minutes from the first poll |
| WiNetRecovery.RecoveredWithinMaximumBackoff | internal/inverter/sungrow.go:318-516 | A poll that starts five minutes after that first poll succeeds |
| WiNetRecovery.CurrentPollReports | internal/inverter/sungrow.go:324-365 | A current client of a sound module reports the values of its next three reads |
| WiNetRecovery.SessionKeptExactly | internal/inverter/sungrow.go:385-516 | A session is given up if and only if the socket is gone, the ping or a read turns it down, or the poll is the third in a row to fail with it; it is then never used again |
| AuthSessions.SQLiteStore.Create | internal/storage/auth_sessions.go:58-87 | Nonce and session are inserted together or not at all, wherever the transaction fails; a used nonce is reported as such |
| AuthSessions.SQLiteStore.Get | internal/storage/auth_sessions.go:91-110 | Returns the stored row, that there is none, or the failure of the query |
| AuthSessions.SQLiteStore.Renew | internal/storage/auth_sessions.go:113-121 | Updates an existing row and never inserts one |
| AuthSessions.SQLiteStore.DeleteForUser | internal/storage/auth_sessions.go:124-130 | Removes all and only the user's sessions |
| AuthSessions.SQLiteStore.Prune | internal/storage/auth_sessions.go:135-144 | Removes the expired nonces, then the expired sessions, and may fail at either |
| AuthSessions.SessionManager.CreateSession | internal/web/session.go:131-171 | The login exchange with its refusals in order, under every failure of its prune and insert |
| AuthSessions.SessionManager.LookupSession | internal/web/session.go:175-201 | A live session is granted and renewed when due; anything else, a failed query included, is refused |
| AuthSessions.SessionManager.CheckSession | internal/web/stream.go:64-76 | A check judges like a lookup, fails closed, and writes nothing |
| AuthSessions.SessionManager.RevokeUser | internal/web/session.go:209-211 | Revocation deletes the user's sessions |
| SessionLifetimes.ExpiryInvariant | internal/web/session.go:220-226 | Every stored session expires exactly at min(renewedAt + idle, authAt + maxAge) |
| SessionLifetimes.UsedSessionSurvives | internal/web/session.go:175-226 | Uses at most the idle timeout less the renewal interval apart, with the session's own renewal writes succeeding, are never refused before authAt + maxAge |
| SessionLifetimes.CreatedInUse | internal/web/session.go:131-171 | A login leaves its session in use |
| SessionLifetimes.UnusedSessionDies | internal/web/session.go:175-206 | A lookup at least the idle timeout after the last granted one, or at or after authAt + maxAge, is refused |
| SessionLifetimes.PruningUnobservable | internal/storage/auth_sessions.go:135-144 | For every store and run, removing all prunes changes no answer of any lookup, check or login if and only if no login redeems a stored nonce that a prune before it would have dropped |
| SessionLifetimes.OwnPrunesHide | internal/web/session.go:146-148 | So it never does while each login's own prune reaches the nonces |
| SessionLifetimes.FailedPruneIsObservable | internal/web/session.go:146-148 | A run from the empty store in which a login's own prune fails and an earlier one decides its answer |
| SessionOwners.RowsBelongToLogins | internal/web/session.go:153-166 | Over every run each stored session carries the user, sign-in time and nonce of the last granted login that drew its id |
| SessionOwners.GrantedToOwner | internal/web/session.go:175-201 | Every session a lookup or check grants is that of the login that drew its id |
| SessionOwners.RevokedLoginNeverAnswers | internal/web/session.go:209-211 | After a user is revoked no lookup or check of a session granted to a login of that user succeeds |
| SessionOwners.NeverOutlivesSignIn | internal/web/session.go:204-206 | Nor does one at or after the token's issue time plus the maximum age |
| SessionOwners.LoginGrantedExactly | internal/web/session.go:131-171 | A login is granted if and only if its nonce is the browser's, its token is at most ten minutes old and two minutes ahead, the insert works on a new id, and the nonce is not held |
| SessionOwners.RenewalsThrottled | internal/web/session.go:187-200 | A stored session changes only by a granted renewing lookup at least five minutes after the last renewal, and only in its expiry and renewal time |
| SessionSafety.TokenExchangedOnce | internal/web/session.go:131-171 | Over every run an ID token is exchanged at most once, even when inserts lag their clock by less than the skew allowance |
| SessionSafety.RedeemedAgainExactly | internal/storage/auth_sessions.go:58-87 | Over every run, timely or not, the next exchange of a redeemed nonce is accepted if and only if its token is not stale, its insert works on a new id and a prune in between dropped the nonce |
| SessionSafety.LaggingInsertReplays | internal/web/session.go:131-171 | For every token, a lag of the full allowance after such a prune redeems it twice |
| SessionSafety.LookupIsGetThenRenew | internal/web/session.go:175-201 | A lookup is one Get and at most one Renew of what it got |
| SessionSafety.StaysDeleted | internal/storage/auth_sessions.go:113-130 | Under every interleaving of store operations a deleted session stays deleted |
| SessionSafety.RevokedNeverAnswers | internal/web/session.go:175-211 | No lookup or check whose Get follows a revocation succeeds for a revoked session |
| SessionSafety.LoginIsPruneThenCreate | internal/web/session.go:146-166 | A granted login is its prune and one Create of a session of the claims' user |
| SessionSafety.RevokedUserNeverAnswers | internal/web/session.go:175-211 | In any interleaving, after a user's sessions are deleted no lookup or check of a session created for that user before succeeds |
| SessionSafety.StreamLoop | internal/web/stream.go:27-60 | The re-check loop ends the stream at the first failing tick and at no other |
| SessionSafety.StreamEndsWithinPeriod | internal/web/stream.go:27-60 | A stream whose credential lapsed ends within one re-check period, of the lapse or of its own opening |
| SessionSafety.RevokedStreamEnds | internal/web/stream.go:27-76 | Every stream of a revoked session, open at the revocation or opening after, ends within one re-check period |
| ApiUsage.MonthMonotone | internal/tesla/tesla.go:45-47 | Billing months never go back |
| ApiUsage.MonthInterval | internal/tesla/tesla.go:45-47 | A month contains every time between its start and a time in it |
| ApiUsage.APIUsageTracker.constructor | internal/tesla/tesla.go:66-71 | A new tracker is empty in the current month |
| ApiUsage.APIUsageTracker.ResetIfRolledOver | internal/tesla/tesla.go:73-83 | A new month zeroes the counters before they are used |
| ApiUsage.APIUsageTracker.RecordResponse | internal/tesla/client.go:318-331 | A response below 500 adds one to the counter of its path, after any rollover |
| ApiUsage.APIUsageTracker.Snapshot | internal/tesla/tesla.go:109-122 | Returns the counters of the current month |
| ApiUsage.APIUsageTracker.Restore | internal/tesla/tesla.go:137-149 | Adopts counters of the current month and ignores older ones |
| ApiUsage.RestoreExactly | internal/tesla/tesla.go:137-149 | What is shown after a restore is the restored counters if they are not of an earlier month or of none, and what was shown before otherwise |
| ApiUsage.DoRequest | internal/tesla/client.go:333-417 | Every response the server sent is accounted exactly once, with one retry after 401, and the outcome is that of the last response |
| ApiUsage.ResponsesExactly | internal/tesla/client.go:333-417 | The server is asked unless an expired token cannot be refreshed, again exactly after a 401 and a refresh that works, and the outcome is that of the last response |
| UsageRestore.LoadPeak | internal/controller/apiusage.go:49-56 | The loop returns the maximum of every counter |
| UsageRestore.CountersAreAccounted | internal/tesla/tesla.go:73-149 | Over every run of responses, flushes, crashes and rollovers, the counters are the month's responses below 500 less those lost since the last snapshot before each crash |
| UsageRestore.TrueCountByPath | internal/tesla/client.go:318-331 | Each counter counts the responses on its own path, and none counts anything else |
| UsageRestore.AccountedAtMostTrue | internal/controller/apiusage.go:29-57 | So the counters never exceed the true count |
| UsageRestore.RestoreIsLastPersisted | internal/controller/apiusage.go:29-57 | A restore returns exactly the last snapshot of the month |
| UsageRestore.PersistedCountersGrow | internal/controller/controller.go:840-851 | Snapshots taken in their stamped month never decrease nor exceed its true count; SnapshotsGrowExactly and SnapshotAtMostTrueExactly say what the others do |
| UsageRestore.SnapshotAtMostTrueExactly | internal/controller/controller.go:840-851 | Every snapshot is at most the calls of the month it is taken in, and at most those of its stamped month if and only if it was taken in it or they reach what is known of the other |
| UsageRestore.QuietSnapshotAtMostTrue | internal/controller/controller.go:840-851 | A snapshot never exceeds the calls of its stamped month when no call of a later month was made before it |
| UsageRestore.RolloverSnapshotExceeds | internal/controller/controller.go:772-851 | A run in which a wake-up in the first tick of a month is counted in a snapshot stamped with the month before |
| UsageRestore.SnapshotsGrowExactly | internal/controller/controller.go:840-851 | Of two snapshots stamped with one month, the first taken in it, the later is at least the earlier if and only if it was taken in it too or the calls known of its own month reach the earlier one |
| UsageRestore.QuietRolloverDrops | internal/controller/controller.go:840-851 | With no call of a later month before it, if and only if it was taken in it or nothing was known |
| UsageRestore.RolloverSnapshotDrops | internal/controller/controller.go:840-851 | A run in which a snapshot taken after the rollover drops below the one before it |
| UsageBaselines.ApplyBaseline | internal/controller/apiusage.go:72-123 | The loop finds the reference before or after the baseline and the maximum after it |
| UsageBaselines.CorrectedAtLeastBaseline | internal/controller/apiusage.go:72-123 | The correction never falls below the billing figures |
| UsageBaselines.CorrectedExactly | internal/controller/apiusage.go:72-123 | For snapshots in any order whose counters do not decrease from the reference on, the correction is the billing figures plus the calls since the reference, and the stream signals of the latest |
| UsageBaselines.CorrectedWithoutSnapshots | internal/controller/apiusage.go:72-123 | With no snapshots the correction is the billing figures |
| UsageBaselines.UsageStore.InsertAPIUsage | internal/storage/sqlite.go:357-368 | Appends one snapshot, timestamped in whole seconds |
| UsageBaselines.UsageStore.BaselineAppliedAt | internal/controller/apiusage.go:59-70 | Finds the newest event of the month for this baseline |
| UsageBaselines.UsageStore.LoadAPIUsage | internal/controller/apiusage.go:29-57 | Applies a baseline of the current month once, and otherwise loads the maximum since the correction or the month's start |
| UsageBaselines.LoadWithoutBaseline | internal/controller/apiusage.go:29-57 | Without a baseline nothing is written and the month's maximum is returned |
| UsageBaselines.LoadWritesExactly | internal/controller/apiusage.go:29-70 | A load writes if and only if a baseline of the current month, not of the future, has no event since the month began, and then adds one snapshot and its event |
| UsageBaselines.FirstLoadApplies | internal/controller/apiusage.go:29-57 | The first load with an applicable baseline returns and records the correction |
| UsageBaselines.LoadAfterApplied | internal/controller/apiusage.go:29-57 | A later load of the month inserts nothing and returns at least the corrected counts |
| UsageBaselines.BaselineAppliedOnce | internal/controller/apiusage.go:29-123 | Over every history of inserts and loads, with this baseline, another or none, once applied a baseline is never applied again, and its later loads in its month return at least the corrected counts |
| UsageSampling.SampleAPIUsage | internal/storage/sqlite.go:374-425 | Returns, in order, the newest stored row of every bucket of floor(span/maxPoints)+1 seconds |
| UsageSampling.SampleBounded | internal/storage/sqlite.go:374-425 | At most maxPoints rows come back, for every data set |
| UsageSampling.SampleEndsWithLatest | internal/storage/sqlite.go:374-425 | The last of them is the overall latest |
| UsageSampling.SampleDense | internal/storage/sqlite.go:374-425 | Every stored row in range is followed by a returned one less than one bucket later |
| UsageSampling.SampleMonotone | internal/storage/sqlite.go:374-425 | Counters that never decrease in the store never decrease in the sample |
| UsageSampling.SampleUnique | internal/storage/sqlite.go:396-405 | The query's selection is uniquely determined |
| Text.TrimTrims | internal/config/config.go:473-481 | Trimming leaves no space at either end, and only text without any is unchanged |
| Text.SplitJoin | internal/config/config.go:469-472 | Splitting undoes joining of separator-free parts |
| Text.JoinSplit | internal/config/config.go:469-472 | Joining undoes splitting, and the parts are separator-free |
| Text.ParseIntExactly | internal/config/config.go:486-489 | What parses fits 64 bits and is digits after at most one sign |
| Text.ParseFormat | internal/config/config.go:486-489 | Every 64-bit integer survives formatting and parsing |
| BaselineText.ParseUsageBaseline | internal/config/config.go:468-493 | The parser loop, which deletes seen keys from a map, reads each expected field at most once and reports the first offending one |
| BaselineText.ParseExactly | internal/config/config.go:468-493 | A text parses to a baseline if and only if it spells it: a time and three readable fields with different names and its counts |
| BaselineText.EachFieldOnce | internal/config/config.go:468-493 | An accepted text names each count in exactly one field, so duplicate, missing and unknown fields are rejected |
| BaselineText.ReadFieldExactly | internal/config/config.go:479-489 | A part reads as a count of a field if and only if, trimmed, it is the field's name, an equals sign and a non-negative number |
| BaselineText.OrderIrrelevant | internal/config/config.go:468-493 | Every permutation of the fields parses to the same baseline |
| BaselineText.FieldTextReads | internal/config/config.go:462-465 | A printed field reads as its count, or is refused if that is negative |
| BaselineText.RoundTrip | internal/config/config.go:461-493 | Printing and parsing returns the baseline to the second if and only if no count is negative |
| BaselineText.TextDeterminesBaseline | internal/controller/apiusage.go:64-68 | Equal texts mean equal baselines, so matching event messages matches baselines |
| TokenRotation.StepInv | internal/tesla/client.go:156-226 | Every step of every thread keeps the protocol's invariants |
| TokenRotation.NeverReplayed | internal/tesla/client.go:156-226 | In every interleaving of refreshes, callbacks and restarts no refresh token is presented after the server rotated it |
| TokenRotation.RefreshesExclude | internal/tesla/client.go:156-160 | At most one thread is ever inside a refresh |
| TokenRotation.RestartFindsUnconsumed | internal/tesla/client.go:211-219 | Except while a rotation is being saved, a restart resolves to an unconsumed token |
| TokenRotation.OvertakenIsHistory | internal/web/oauth.go:154-160 | The overtaken flag is the run's history: the last supply found its own file write overwritten, with no rotation saved since |
| TokenRotation.FileAgreesExactly | internal/tesla/client.go:612-624 | At rest the token file equals the in-memory token if and only if the last supply was not overtaken |
| TokenRotation.FileAndMemoryCanDisagree | internal/web/oauth.go:154-160 | A run of successful writes that ends at rest with file and memory different |
| TeslaClient.Client.RefreshAccessTokenLocked | internal/tesla/client.go:162-226 | A granted refresh replaces access token and expiry, keeps or rotates the refresh token and saves a rotated one; a failed one changes nothing |
| TeslaClient.Client.SetRefreshToken | internal/tesla/client.go:612-624 | A blank token is refused; any other is adopted even if the refresh fails |
| TeslaClient.Client.Authorize | internal/tesla/client.go:333-342 | A request goes ahead only with an access token good for another minute |
| TeslaClient.Perform | internal/tesla/client.go:156-226 | Refreshes, supplies and requests as steps of a run |
| TeslaClient.TokensAreLastGranted | internal/tesla/client.go:199-219 | Over every run the client holds the access token of the last grant with its expiry, the refresh token last adopted, and a file with the last one saved |
| TeslaClient.RequestCarriesLastGrant | internal/tesla/client.go:333-364 | A request that goes ahead carries the access token of the last grant, good for another minute if the server grants that much |
| TeslaClient.RefreshIsProtocol | internal/tesla/client.go:156-226 | A refresh is the protocol's steps run without interruption |
| TeslaClient.CallbackIsProtocol | internal/web/oauth.go:154-160 | A callback is a file write followed by a supply |
| TokenFile.Directory.WriteRefreshTokenFile | internal/tesla/tokenfile.go:13-50 | Whatever step fails, the target is old or complete and durable at every moment; success changes only the target, and a failure nothing but a leftover temporary file |
| TokenFile.Directory.ReplaceThrough | internal/tesla/tokenfile.go:34-49 | From permission bits to rename, with a partial write or an unsynced file never reaching the target |
| TokenFile.SavedContents | internal/tesla/tokenfile.go:27-35 | A saved file holds the trimmed token, durably, for its owner only |
| TokenFile.Precedence | internal/tesla/tokenfile.go:56-72 | The token is the file's if it has one and otherwise the configured one, trimmed; blanks count as missing, and an unreadable file is reported |
| TokenFile.SavedIsResolved | internal/tesla/tokenfile.go:56-72 | A saved token is what the next start resolves to |
| TokenFile.InterruptedResolves | internal/tesla/tokenfile.go:13-72 | A save stopped at any moment, even by a power loss, resolves to the old or the new token |

## Left out

- Context cancellation in the inverter client: a cancelled connect schedules no backoff, so the claims are for polls that are not cancelled.
- HTTP, WebSocket, TLS pinning, JSON, SQL text and the hexadecimal decoding of registers: replaced by reply values.
- Controller.ChargeController.FlushMinuteAverage: does not insert the usage snapshot that follows the reading; that is the flush step of UsageRestore.
- Hysteresis.StopExactly: is about ticks; the stop command and last flush that Run performs at shutdown are not modelled.
- The manual amps, start and stop commands, which the operator sends in manual mode.
- The state snapshot, SSE hub, logging, metrics and OpenTelemetry.
- Overlapping ticks: a forced refresh runs its tick from a handler; runs here are of serialized ticks.
- RateLimits.RateLimited: keeps starts out of the backoff of failed charging commands only, as the code does; StartAttempts.StartExactly says when a start follows a failed wake.
- Battery percentages and timestamps in the charge-session calls, event rows, a controller without a store, and failing inserts of readings and snapshots.
- A revocation or renewal whose statement fails: it changes nothing and is no step.
- The wake-up waiting loop, charge limits and fleet status of the Tesla client, and the controller that creates a client on first activation.
- Failed writes of the token file by a rotation, an empty token path, and replies lost after the server has rotated: the code promises nothing there.
- TokenRotation.NeverReplayed: restarts are taken outside the window between a rotation and its save, which no code can close.
- Tokens with surrounding spaces: the file trims them and the memory does not, so the protocol is stated for trimmed ones.
- A temporary file name equal to the token path itself.
- A crash between the two inserts of applyBaseline, the 100000-row and 100-event query limits, and insert failures.
- The order in which the store returns snapshots, which the correction does not depend on when timestamps are distinct.
- Calendar arithmetic, time zones and the RFC 3339 text: parameters, as above.
- Session lifetimes that are not whole seconds: the configuration gives them in hours and days.
- Cookies, headers, OIDC verification, allow-lists and the OAuth pages: a stream's authorization check is an input.
- Floating-point rounding in averages and energy.
- Cost estimates, retention pruning and full-text search.
