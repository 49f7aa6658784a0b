# Verified model of the exam-preparation backend's stateful protocols

The backend keeps study streaks, an XP ledger, quotas, one-time codes, sessions, exams, generation
jobs, prize selections and outgoing mail in a handful of tables and Redis keys. This project models
those protocols in Dafny and proves what they keep over whole runs. A SQL statement, a transaction or a
Redis command is one atomic step unless a module says that a whole call is. Where the source splits a
call into several statements, the statements of concurrent calls interleave freely. A repository `save` of an
entity that was read earlier is one step that leaves the whole row as the entity says, stale columns included.

Each module has the same shape: a state, an event type, a step function that follows the source branch
by branch, runs as folds of events, an invariant proved by induction over runs, and the theorems that
follow from it. Where the source is an object that updates its fields or a loop, a class or a method
carries those fields and that loop, and its postcondition ties the new state to the step function.
History (what was issued, delivered, granted) is kept beside the state so that properties of whole runs
can be stated.

| file | component |
|---|---|
| `Calendar.dfy` | Gregorian dates, the three Monday computations, the month start, days between dates |
| `Levels.dfy`, `Ledger.dfy` | level thresholds; the XP ledger's tables and operations, the batch rebuild |
| `LedgerRuns.dfy`, `LostXp.dfy` | runs of awards, redemptions and whole-row saves of user rows; which ledger rows the totals miss |
| `Leaderboard.dfy`, `DailyCap.dfy` | leaderboard buckets and the rebuild over runs; the daily cap under races |
| `Streak.dfy` | the guarded streak update under interleaving |
| `RateLimit.dfy`, `Otp.dfy` | the fixed-window limiter; one-time codes |
| `SubscriptionGuard.dfy` | the entitlement cache |
| `Quota.dfy` | increment-then-compensate quotas |
| `Tokens.dfy`, `DeviceCache.dfy` | refresh rotation with a grace slot; the cached device |
| `Exams.dfy`, `ExamCompletions.dfy`, `ExamRaces.dfy` | the exam life cycle; how often an exam completes and what its score counts; runs that show what can go wrong |
| `Progress.dfy`, `ProgressRuns.dfy` | per-subject tallies; their reads and saves over runs |
| `CostCap.dfy`, `PmTestJob.dfy`, `ExplanationJob.dfy` | the two generation loops and their cost breaker |
| `Winners.dfy`, `WinnerRuns.dfy` | winner selection with a failure at any write; several selections at once |
| `Cosign.dfy` | preview, generation, co-signing and running of costly jobs |
| `Mail.dfy`, `MailRecords.dfy` | deduplicated mail; what its audit rows say in the end |
| `Wrappers.dfy`, `Arithmetic.dfy` | shared helpers |

## Where the code and its comments differ

The code is followed; each difference is a proved statement.

- A PM-test batch that exceeds the cost cap is meant to abort the job. The error is thrown inside the
  `try` that catches transport failures, so it fails that batch only; `PmTestJob.Job.RunPmTestJob` shows that every
  later batch is still called, and `Accounted` that none of them completes anything.
- A send limit of three per window still allows five in one window's length (`RateLimit.SlidingBoundIsReached`).
- A streak call that reads on one day and writes on a later one can put an older date back
  (`Streak.StraddlingCallRegresses`); `Streak.WriteIsRightIff` gives the exact condition.
- A change of exam type, or of any other column of the user row, saves the whole row it read: an award or redemption
  committed in between is undone in the totals while its ledger row stays (`LostXp.OverlappingChangeLosesXp`).
  `LostXp.TotalsMissTheLostRows` says which rows the totals miss, `LostXp.LevelTotalIsExactIff` when they are exact.
- The leaderboard rebuild is called safe to re-run. On a quiet database it changes nothing exactly while every positive
  row's exam type is still the user's and was not wiped (`Leaderboard.BackfillNoOpIff`); beside awards it overwrites
  those that its SELECT has not seen (`Leaderboard.RebuildBesideAwardsIsHarmlessIff`).
- The delete of the old board can land after the user has come back to it (`Leaderboard.LateWipeUndoesAgreement`).
- A score is meant to count the correct answers; it is exact exactly if none was submitted between the read and the save
  of the completion it comes from (`ExamCompletions.ScoreIsExactIffNothingCorrectWasMissed`,
  `ExamRaces.OverlappingSubmitIsMissed`). That is the last completion unless an abandonment or a breakdown that had read
  the exam before puts an older score, or none, back (`ExamCompletions.LastCompletionIsTheSource`,
  `ExamRaces.StaleAbandonErasesScore`, `ExamRaces.StaleAbandonRestoresScore`).
- An exam can be completed twice, by overlapping completions or after being abandoned
  (`ExamCompletions.AtMostOneCompletionIff`).
- Overlapping progress updates of one user and subject lose answers for good (`ProgressRuns.IncrementalIsBatchIff`).
- Two crossing logins leave the replaced device in the cache; `DeviceCache.CheckAgreesIff` says exactly when the device check
  agrees with the row, `DeviceCache.StaleAnswersAreBrief` for how long it may not.
- A cached Pro row that lapses refuses a user whose lifetime Plus row is eligible throughout
  (`SubscriptionGuard.LapsedBestRowShadowsLifetimeRow`); `SubscriptionGuard.EntryNeverRefusesIff` is the exact condition.
- A failed award or update leaves an unissued winner row whose rank is given again
  (`Winners.RanksAreDistinctIff`, `Winners.RankIsReused`), and two selections of one round can both go through
  (`WinnerRuns.TwoRunsSelectIff`).
- A refused oversized batch uses up its preview token (`Cosign.OversizedBatchBurnsItsToken`).
- An audit row may later read `skipped` for a mail that was delivered (`Mail.SkipOverwritesSent`; `MailRecords.DeliveredRowSaysSentIff` is the exact condition), and a row
  blocks its key for good unless its claimant is still before delivery (`Mail.DeliverableIffClaimIsOpen`).
- The skip branches of the explanation job do not save the job row (`ExplanationJob.RowIsCompleteIff`).

## Model

| member | source | states |
|---|---|---|
| `Calendar.ClosedFormCountsDays` | src/common/utils/timezone.util.ts:75-79 | the day-number formula of ECMA-262 (Day Number, 21.4.1) counts the days of all earlier years, leap years included |
| `Calendar.ClosedFormMakesDays` | src/modules/gamification/gamification.service.ts:20-36 | MakeDay with a month below 0 or above 11 carries into the year as the counting definition does |
| `Calendar.DayRoundTrip` | src/common/utils/timezone.util.ts:51-79 | every day number names a valid date with that day number |
| `Calendar.DateRoundTrip` | src/common/utils/timezone.util.ts:51-79 | every valid date is recovered from its day number |
| `Calendar.NextDateIsNextDay` | src/common/utils/timezone.util.ts:75-79 | the calendar successor, across month and year ends and 29 February, is the next day number |
| `Calendar.LaterDateHasLargerDay` | src/common/utils/timezone.util.ts:75-79 | the order of dates is the order of day numbers |
| `Calendar.OneDayBetweenIffSuccessor` | src/common/utils/timezone.util.ts:75-79 | `accraDaysBetween` is 1 exactly for successor dates |
| `Calendar.InstantLiesOnItsDate` | src/common/utils/timezone.util.ts:51-55 | an instant lies within the 24 hours of its Accra date |
| `Calendar.MonthsStartAsTabulated` | src/common/utils/timezone.util.ts:66-79 | the first days of a year's months have the offsets tabulated in ECMA-262 (Month Number, 21.4.1), leap years included |
| `Calendar.AccraMonday` | src/common/utils/timezone.util.ts:57-64 | the Accra Monday is the Monday of the date's day number |
| `Calendar.AccraMonthStart` | src/common/utils/timezone.util.ts:66-69 | the Accra month start is the first day of the date's month |
| `Calendar.MonthStartIsFirstOfMonth` | src/common/utils/timezone.util.ts:66-69 | the month start is day 1 of the date's own month |
| `Calendar.MonthsPartitionDays` | src/common/utils/timezone.util.ts:66-69 | the month start is not after the date, and shared exactly by the dates of one month |
| `Calendar.WeeklyPeriodStart` | src/modules/gamification/gamification.service.ts:20-29 | the leaderboard's Monday computation gives the same Monday, for every instant |
| `Calendar.MondayOfWeekIso` | src/modules/ai/reject-log.service.ts:143-151 | the reject log's Monday computation gives the same Monday, for every instant |
| `Calendar.MonthlyPeriodStart` | src/modules/gamification/gamification.service.ts:31-36 | the monthly period starts on the first of the instant's month |
| `Calendar.MondaysPartitionDays` | src/common/utils/timezone.util.ts:57-64 | two days share their Monday exactly when they are in the same Monday-first week |
| `Calendar.MondayIsStableOnItsWeek` | src/common/utils/timezone.util.ts:57-64 | the Monday is a Monday 0 to 6 days earlier, idempotent, and constant exactly on its week |
| `Levels.FittingLevelIsUnique` | src/modules/gamification/level.util.ts:10-21 | at most one level fits an XP total |
| `Levels.ComputeLevelForXp` | src/modules/gamification/level.util.ts:17-21 | the counting loop ends at the level whose thresholds enclose the total |
| `Levels.LevelIsMonotone` | src/modules/gamification/level.util.ts:17-21 | more XP never lowers the level |
| `Levels.LevelByTable` | src/modules/gamification/level.util.ts:10-21 | below 4000 XP the level is the one whose threshold in the table was reached last |
| `Levels.LevelClosedForm` | src/modules/gamification/level.util.ts:10-21 | from 4000 XP the level is 10 + (xp - 4000) / 1000 |
| `Levels.ProgressWithinLevel` | src/modules/gamification/level.util.ts:24-32 | 0 <= xpIntoLevel < xpToNextLevel |
| `Levels.BarIsWhatIsMissing` | src/modules/gamification/level.util.ts:24-32 | what is missing in the bar is exactly the least gain that changes the level |
| `Levels.GainCrossesThresholds` | src/modules/gamification/gamification.service.ts:206-221 | a gain over several thresholds lands on the level of the new total |
| `LedgerRuns.ReachableInv` | src/modules/gamification/gamification.service.ts:184-230 | for every interleaving each user row, and each one held by a call for a later save, has the totals and level of the ledger rows it reflects |
| `LostXp.KeptIffReflected` | src/modules/auth/auth.service.ts:953-970 | a ledger row is reflected exactly if following the whole-row saves back to what their calls had read leads past its payment |
| `LostXp.TotalsMissTheLostRows` | src/modules/gamification/gamification.service.ts:184-230 | for every interleaving the totals are the ledger sums less the rows so lost, so each is exact exactly if those come to nothing |
| `LostXp.LevelTotalIsExactIff` | src/modules/gamification/gamification.service.ts:184-230 | with no negative row the level total is at most the ledger sum, and equal exactly if no lost row earned anything |
| `LostXp.TotalsAreLedgerSums` | src/modules/gamification/gamification.service.ts:184-230 | with no award or redemption of the user between the read and the save of its row, totals and level are those of its whole ledger |
| `LostXp.OverlappingChangeLosesXp` | src/modules/auth/auth.service.ts:953-970 | a run in which an exam-type change undoes an award of 100: level total 0, ledger sum 100 |
| `LedgerRuns.UninterruptedChange` | src/modules/auth/auth.service.ts:939-1002 | an exam-type change with nothing in between keeps the totals and deletes exactly the entries on the board that is left |
| `LedgerRuns.LevelMatchesTotal` | src/modules/gamification/gamification.service.ts:206-221 | with no negative award the current level is that of the total, after every run, also where saves undo awards |
| `LedgerRuns.DailyCapHolds` | src/modules/gamification/gamification.service.ts:87-157 | with each award one step, a user is paid for one event at most 500 times a day |
| `LedgerRuns.FirstFiveHundredArePaid` | src/modules/gamification/gamification.service.ts:87-152 | in every run exactly the first 500 of the calls for a user, event and date that find a rate are paid |
| `LedgerRuns.NewRateIsPaid` | src/modules/gamification/gamification.service.ts:92-139 | a new rate is what the next call for its event pays, if that is paid at all |
| `DailyCap.OneWindowPerDate` | src/modules/gamification/gamification.service.ts:141-152 | a date is shorter than the 25 h TTL, so its counter has one window, whoever is between INCR and EXPIRE |
| `DailyCap.DailyCapHoldsUnderRaces` | src/modules/gamification/gamification.service.ts:87-157 | with INCR, EXPIRE and transaction as separate steps of racing requests, at most 500 rows for one user, event and date |
| `DailyCap.FirstFiveHundredAreServed` | src/modules/gamification/gamification.service.ts:87-157 | however requests race, of the first 500 of the date each has its row, or was rolled back, or has its transaction still to come, and no other passes |
| `Leaderboard.BucketsAreLiveSums` | src/modules/gamification/gamification.service.ts:300-332 | for every interleaving of awards, exam-type saves and later deletes, each bucket is the sum of the positive rows earned under its exam type and not wiped since |
| `Ledger.EarnedInWeekAndMonth` | src/modules/gamification/gamification.service.ts:300-332 | a positive amount is added in the bucket of its Monday-first week and that of its calendar month, and in no other |
| `Ledger.BackfillIsIdempotent` | src/scripts/backfill-leaderboard.ts:52-74 | running the rebuild twice with nothing in between is running it once |
| `Leaderboard.BackfillNoOpIff` | src/scripts/backfill-leaderboard.ts:52-74 | after any run a rebuild with nothing beside it changes nothing exactly if every positive row is live on the user's present board |
| `Leaderboard.RebuildBesideAwardsIsHarmlessIff` | src/scripts/backfill-leaderboard.ts:52-74 | with no exam-type change, an upsert whose SELECT has run before later events leaves their board alone exactly if none of them earned in a bucket it had found |
| `Leaderboard.LeavingAnExamTypeUndoesAgreement` | src/modules/auth/auth.service.ts:967-970 | a save that takes the user off the exam type of a positive row ends that agreement |
| `Leaderboard.LateWipeUndoesAgreement` | src/modules/auth/auth.service.ts:994-1002 | so does a delete that lands after the user has come back and has a positive row there |
| `Leaderboard.NoChangeKeepsAllLive` | src/modules/auth/auth.service.ts:964-1002 | with no exam-type change every positive row stays live, whatever other whole-row saves there are |
| `Leaderboard.RebuildFromScratchAgrees` | src/scripts/backfill-leaderboard.ts:52-74 | with no exam-type change a rebuild from an empty board equals the board the upserts kept |
| `Ledger.GamificationService.BumpLeaderboard` | src/modules/gamification/gamification.service.ts:300-332 | the loop over the two period types performs the specified upserts |
| `Ledger.GamificationService.ApplyXp` | src/modules/gamification/gamification.service.ts:171-221 | the transaction performs the specified award and reports the level change |
| `Ledger.AwardPays` | src/modules/gamification/gamification.service.ts:92-139 | a call for a known user and a rated event below 500 of its date appends exactly the row of user, event, rate and date, adds the rate to both totals of that user, and nothing to anybody else |
| `Ledger.AwardPaysNothingIff` | src/modules/gamification/gamification.service.ts:92-152 | the ledger stays as it was exactly if the rate is missing or 0, the user unknown, or 500 calls were counted for the date, and totals and board then do too |
| `Ledger.AmountIsPaid` | src/modules/gamification/gamification.service.ts:159-221 | a positive amount is paid to a known user whatever the rate and the cap, and said so in the ledger |
| `Ledger.RedemptionIsPaidFor` | src/modules/xp-economy/xp-economy.service.ts:109-132 | a redemption goes through exactly if the spendable total covers it, takes the cost from that total alone, and appends one row of minus the cost |
| `LedgerRuns.RedemptionIsReflected` | src/modules/xp-economy/xp-economy.service.ts:109-132 | a covered redemption is in ledger and totals at once; any other changes nothing |
| `Ledger.GamificationService.AwardXp` | src/modules/gamification/gamification.service.ts:87-139 | a call pays its rate exactly if the user is known, the rate is not 0 and fewer than 500 calls were counted for the date; it is the specified step, and the reply says what was paid |
| `Ledger.GamificationService.AwardXpAmount` | src/modules/gamification/gamification.service.ts:159-169 | an award of a given amount is the specified step, and the reply states the amount paid and the new snapshot |
| `Ledger.GamificationService.Backfill` | src/scripts/backfill-leaderboard.ts:52-80 | the two upserts leave the rebuilt board |
| `LedgerRuns.SnapshotBelongsToOneLevelIff` | src/modules/gamification/gamification.service.ts:335-358 | the two progress figures belong to one level exactly if the total has not fallen below the threshold of the level once reached |
| `Streak.StreaksAreRunLengths` | src/modules/gamification/streak.service.ts:41-115 | for every interleaving streakDays is the maximal run ending at the last study day, longestStreak the longest ever, the award call fires once for each study day and once for each milestone of a run reaching it |
| `Streak.RunLengthIsUnique` | src/modules/gamification/streak.service.ts:41-115 | the maximal run ending on a day has one length |
| `Streak.EarlyReturnIsAStudyDay` | src/modules/gamification/streak.service.ts:47-57 | a call that ends early does so on a recorded study day |
| `Streak.WriteIsRightIff` | src/modules/gamification/streak.service.ts:59-83 | a write leaves a correct row exactly if the row holds no later date than the call's |
| `Streak.StraddlingCallRegresses` | src/modules/gamification/streak.service.ts:42-83 | a run in which a call straddles midnight and puts the older date back |
| `Streak.StreakService.UpdateUnlessStudied` | src/modules/gamification/streak.service.ts:71-83 | the guarded UPDATE changes the row exactly if it does not carry today's date |
| `Streak.StreakService.RecordStudyDay` | src/modules/gamification/streak.service.ts:41-115 | an uninterrupted call is a read step and a write step |
| `RateLimit.AtMostMaxPerWindow` | src/common/redis/redis.service.ts:60-71 | no window accepts more than the maximum, with INCR and EXPIRE as separate steps and DEL at any time |
| `RateLimit.SlidingBound` | src/common/redis/redis.service.ts:60-71 | every half-open interval of one TTL in which no DEL falls holds at most twice the maximum less one, whatever was deleted before and after |
| `RateLimit.SlidingBoundIsReached` | src/common/redis/redis.service.ts:60-71 | a run with a maximum of three that reaches five |
| `RateLimit.RefusedIffWindowIsFull` | src/common/redis/redis.service.ts:60-71 | in every run a call is refused exactly if the key is still alive and its window has accepted the maximum; an accepted one is logged in its window |
| `RateLimit.AcceptedAfterTtl` | src/common/redis/redis.service.ts:60-71 | once the key has been left alone for a TTL, and nobody is between INCR and EXPIRE, a call is accepted |
| `RateLimit.UninterruptedCall` | src/common/redis/redis.service.ts:60-71 | INCR and EXPIRE on their own count on in a live key without touching its expiry, and otherwise start at 1 for one TTL |
| `Otp.CodesAreSingleUse` | src/modules/auth/otp.service.ts:58-102 | no code is compared twice, comparisons never exceed codes or accepted attempts nor codes accepted sends, and a comparison involves the latest code within 600 s and succeeds exactly on it |
| `Otp.SendLimiterIsLimiter` | src/modules/auth/otp.service.ts:48-56 | a phone's send counter runs as the limiter on the send events alone |
| `Otp.SendsAreLimited` | src/modules/auth/otp.service.ts:48-56 | at most 3 sends per phone and window and at most 5 in any half-open 600 seconds |
| `Otp.VerificationsAreLimited` | src/modules/auth/otp.service.ts:72-102 | at most 5 attempts per phone pass in a window of the verification counter, with resets after successes, and at most 9 in any half-open 600 seconds in which no success resets it |
| `Otp.PhonesAreIndependent` | src/modules/auth/otp.service.ts:48-102 | each phone's state depends on its own commands only |
| `Otp.UninterruptedSend` | src/modules/auth/otp.service.ts:48-70 | the first three sends of a window store their code for 600 s in place of the last; later ones store nothing |
| `Otp.UninterruptedVerify` | src/modules/auth/otp.service.ts:72-102 | the first five attempts of a window use up the code, compare a live one, succeed exactly on it and then delete the counter; later ones leave the code |
| `Otp.RedisService.Incr` | src/common/redis/redis.service.ts:60-71 | the counter counts on from a live key, whose expiry stays, and otherwise starts at 1 with a TTL |
| `Otp.RedisService.GetDel` | src/modules/auth/otp.service.ts:209-232 | the live value is returned and gone; an expired one is not returned |
| `Otp.OtpService.Send` | src/modules/auth/otp.service.ts:48-70 | an accepted send stores the code's hash for the TTL; a refused one stores nothing |
| `Otp.OtpService.Verify` | src/modules/auth/otp.service.ts:72-102 | an attempt that passes the limiter consumes the stored code, and succeeds exactly on a live matching one |
| `SubscriptionGuard.GrantsAreBacked` | src/common/guards/subscription.guard.ts:71-153 | behind every grant at t is a database read, filled by this request or less than one TTL before t, of a Plus or Pro row that counted, has not expired at t, is of the highest account that counted, and of those expires last or never |
| `SubscriptionGuard.BestRow` | src/common/guards/subscription.guard.ts:89-110 | the query finds a row exactly if one counts, and then one of the highest account; if it expires at all, every row of that account that counts expires no later |
| `SubscriptionGuard.BestGrantsIff` | src/common/guards/subscription.guard.ts:101-153 | the row read grants at a later time exactly if some row that counted then, of the highest account and not Free, has not expired by that time |
| `SubscriptionGuard.DecidedByTheHighestAccount` | src/common/guards/subscription.guard.ts:71-153 | every decision that is cached or a grant rests on one database read, and is a grant exactly if some row of the highest account that counted there is Plus or Pro and outlasts the decision |
| `SubscriptionGuard.UninterruptedRequest` | src/common/guards/subscription.guard.ts:71-139 | the three steps of a request come to one decision, as a live entry says or as some row that counts being Plus or Pro, and cache the best row for the TTL |
| `SubscriptionGuard.InvalidatedRequest` | src/modules/subscriptions/subscriptions.service.ts:425-431 | after an invalidation the next request is decided by the database; entries of other keys stay |
| `SubscriptionGuard.CachedRefusalsAreBrief` | src/common/guards/subscription.guard.ts:71-80 | a cached refusal means that the cached best row is free or has lapsed, for less than one TTL |
| `SubscriptionGuard.EntryNeverRefusesIff` | src/common/guards/subscription.guard.ts:71-131 | after any run a live cached entry never refuses in the rest of its life exactly if the row it was filled from is not Free and has no expiry before the entry's own |
| `SubscriptionGuard.CheckedInItsLife` | src/common/guards/subscription.guard.ts:71-80 | a check in that time is answered by the entry, as stated |
| `SubscriptionGuard.UncachedDecisionsAreTheirOwn` | src/common/guards/subscription.guard.ts:83-139 | a refusal that is not cached means no eligible row at the request's own database read, or a Free or since-lapsed best row; a grant means neither |
| `SubscriptionGuard.FreeMeansNothingBetter` | src/common/guards/subscription.guard.ts:101-108 | a Free best row means that no eligible row was better |
| `SubscriptionGuard.LapsedBestRowShadowsLifetimeRow` | src/common/guards/subscription.guard.ts:71-153 | a run in which a cached lapsed row refuses a user with an eligible lifetime row |
| `SubscriptionGuard.Guard.CanActivate` | src/common/guards/subscription.guard.ts:49-153 | without a live entry a request is granted exactly if some row that counts is Plus or Pro, with one exactly if the entry still grants; the best row is cached for the TTL, and the error cases are exactly the source's |
| `Quota.CounterBalances` | src/modules/entitlements/entitlements.service.ts:107-138 | for any caps, `used_count` is grants plus pending compensations, so the clamp at zero never bites |
| `Quota.CompensationUndoesIncrement` | src/modules/entitlements/entitlements.service.ts:120-138 | a refused call's two statements together change nothing |
| `Quota.GrantsStayWithinCap` | src/modules/entitlements/entitlements.service.ts:107-138 | a granted call keeps the grants within its own cap, whatever caps others saw |
| `Quota.RefusedBelowCapIff` | src/modules/entitlements/entitlements.service.ts:107-138 | for any caps: a call is refused below its cap exactly if grants and pending compensations together reach it |
| `Quota.RaisedCapMayStillRefuse` | src/modules/entitlements/entitlements.service.ts:107-138 | a run in which a raised cap is refused below it because of a pending compensation |
| `Quota.PendingOnlyAtCap` | src/modules/entitlements/entitlements.service.ts:107-138 | under one cap a compensation is pending only when the grants equal the cap |
| `Quota.UncappedNeverRefuses` | src/modules/entitlements/entitlements.service.ts:107-138 | without a cap nothing is ever refused |
| `Quota.RefusedIffCapReached` | src/modules/entitlements/entitlements.service.ts:107-138 | under one cap a call is refused exactly when the grants equal the cap |
| `Quota.RemainingIsExact` | src/modules/entitlements/entitlements.service.ts:241-256 | the snapshot's `remaining` is cap less grants, even with compensations pending |
| `Quota.RemainingCallsAreGranted` | src/modules/entitlements/entitlements.service.ts:241-256 | of any further calls exactly `remaining`, or all if there are fewer, are granted, however compensations and other keys' calls interleave |
| `Quota.EntitlementsService.Increment` | src/modules/entitlements/entitlements.service.ts:107-119 | the upsert adds one and returns the new count |
| `Quota.EntitlementsService.AssertAndConsume` | src/modules/entitlements/entitlements.service.ts:67-138 | a whole call changes a count exactly if it is granted, never exceeds its cap, and fails exactly as the source does |
| `Quota.EntitlementsService.SnapshotService` | src/modules/entitlements/entitlements.service.ts:236-258 | the snapshot shows the count, and `remaining` exactly for enabled, capped services: what is missing to the cap, or 0 |
| `Tokens.ReachableInv` | src/modules/auth/tokens.service.ts:171-203 | in every reachable state the row holds the last issue and, as grace slot, the one before it in the same session; every accepted refresh got a pair for the same device |
| `Tokens.AcceptedIffUsable` | src/modules/auth/tokens.service.ts:242-266 | a refresh is accepted exactly for the session's newest id, and for 60 s for the one it replaced |
| `Tokens.EachIdIsAcceptedAtMostTwice` | src/modules/auth/tokens.service.ts:251-319 | an id is accepted at most once as current and once as previous, within 60 s of being replaced |
| `Tokens.SpentForGood` | src/modules/auth/tokens.service.ts:171-188 | an id replaced twice, or issued before a logout, is never accepted again in any continuation |
| `Tokens.UninterruptedLogin` | src/modules/auth/tokens.service.ts:171-203 | a login moves the row on to the new id, keeps the old one for 60 s, and caches its device for the access TTL |
| `Tokens.UninterruptedRefresh` | src/modules/auth/tokens.service.ts:229-319 | a refresh does the same on the session's own device exactly for the current id, or the last one within its grace, of an active user, and otherwise nothing |
| `Tokens.UninterruptedLogout` | src/modules/auth/tokens.service.ts:328-334 | a logout leaves neither row nor cached device |
| `Tokens.UninterruptedCheck` | src/modules/auth/strategies/jwt.strategy.ts:88-109 | a check goes by a live cached device, and otherwise by the row, whose device it caches for 900 s |
| `DeviceCache.RowIsBinding` | src/modules/auth/tokens.service.ts:171-188 | the row binds the device of the last login, unless a logout followed; rotations keep it |
| `DeviceCache.CheckAgreesIff` | src/modules/auth/strategies/jwt.strategy.ts:88-109 | for every interleaving of the statements of logins, rotations, logouts and checks, the check agrees with the row exactly if no live entry is cached or the logins and logouts since the row access behind the entry ended with the same device |
| `DeviceCache.ExactUntilTheNextLoginOrLogout` | src/modules/auth/strategies/jwt.strategy.ts:88-109 | until the next login or logout after that access the check is exact |
| `DeviceCache.StaleAnswersAreBrief` | src/modules/auth/tokens.service.ts:194-203 | an answer that differs from the row comes from an entry written less than one TTL ago by a call that had found its device bound |
| `DeviceCache.CrossingLoginsLeaveAStaleEntry` | src/modules/auth/tokens.service.ts:171-203 | a run of two crossing logins after which the check goes by the replaced device |
| `Tokens.TokensService.IssuePair` | src/modules/auth/tokens.service.ts:171-203 | the upsert moves the row's own current id to the grace slot and caches the device; other users are untouched |
| `Tokens.TokensService.RotateToken` | src/modules/auth/tokens.service.ts:229-319 | a whole rotation issues a pair on the session's own device exactly for an accepted id of an active user, and each refusal has exactly its stated cause |
| `Tokens.TokensService.LogoutUser` | src/modules/auth/tokens.service.ts:328-334 | the row and the cached device of that user are gone |
| `Tokens.TokensService.IsDeviceBindingValid` | src/modules/auth/strategies/jwt.strategy.ts:88-109 | the check compares with the live cached device or the row, and re-warms the cache on a miss |
| `Exams.ReachableInv` | src/modules/exams/exams.service.ts:577-819 | every reachable state keeps the facts about answers, counters, snapshots, rows held for a later save, and scores below |
| `Exams.AnswersFitTheExam` | src/modules/exams/exams.service.ts:585-680 | an exam's answers are to its own questions, at most one each |
| `Exams.TimesAnsweredIsExact` | src/modules/exams/exams.service.ts:671-682 | a past-paper question's counters are its answers and its correct answers over all exams |
| `Exams.FrozenOnceOver` | src/modules/exams/exams.service.ts:589-591 | once an exam has left IN_PROGRESS it never returns and its answers never change |
| `Exams.ScoreCountsItsSnapshot` | src/modules/exams/exams.service.ts:738-765 | for every interleaving a score and its percentage are those of one of the exam's saved completions: the correct answers it read, never more than were given |
| `ExamCompletions.ScoreIsItsSources` | src/modules/exams/exams.service.ts:738-819 | for every interleaving the score is what its source had read: the last completion save, where a row saved by an abandonment or a breakdown is the one its read found |
| `ExamCompletions.ScoreIsExactIffNothingCorrectWasMissed` | src/modules/exams/exams.service.ts:738-765 | so it is exact exactly if no correct answer was submitted between the read and the save of that completion, a stale row included |
| `ExamCompletions.LastCompletionIsTheSource` | src/modules/exams/exams.service.ts:813-819 | the source is the last completion unless a row read before its save is saved after it |
| `ExamCompletions.ScoredIffThereIsASource` | src/modules/exams/exams.service.ts:738-819 | an exam has a score exactly if it has a source, which is a completion's save and has its read |
| `ExamCompletions.AtMostOneCompletionIff` | src/modules/exams/exams.service.ts:726-819 | for every interleaving an exam is completed at most once exactly if no second completion reads it before the first is saved and no abandonment saved after that is followed by another completion |
| `ExamRaces.OverlappingCompletionsCountTwice` | src/modules/exams/exams.service.ts:726-768 | a run of two overlapping completions, with no abandonment, that counts the exam twice |
| `Exams.SerialScoresAreExact` | src/modules/exams/exams.service.ts:726-819 | when no completion, abandonment or breakdown overlaps another call the score is the number of correct answers, for good |
| `ExamRaces.OverlappingSubmitIsMissed` | src/modules/exams/exams.service.ts:726-765 | a run in which a correct answer is left out of the score |
| `ExamRaces.StaleAbandonErasesScore` | src/modules/exams/exams.service.ts:813-819 | a run in which an abandonment that read before a completion erases its score, with no correct answer missed |
| `ExamRaces.StaleAbandonRestoresScore` | src/modules/exams/exams.service.ts:813-819 | a run in which an abandonment puts the score of the first of two completions back over the second's |
| `ExamRaces.CompletedExamCanCompleteAgain` | src/modules/exams/exams.service.ts:813-819 | COMPLETED, ABANDONED, COMPLETED is reachable with no calls overlapping, and counts the exam twice |
| `Exams.PercentIsTheRoundedRatio` | src/modules/exams/exams.service.ts:739-747 | the percentage is within 0 and 100.00, off by at most half a hundredth, and 100.00 for a full score |
| `Exams.SavedPercentIsInRange` | src/modules/exams/exams.service.ts:739-747 | every saved percentage is at most 100.00 |
| `Exams.PerfectIffEveryQuestionCorrect` | src/modules/exams/exams.service.ts:751-759 | the perfect bonus means that every question has a correct answer, and conversely for distinct questions |
| `Exams.ResumeReturnsTheUnanswered` | src/modules/exams/exams.service.ts:523-549 | resuming returns exactly the unanswered questions found in the past-paper table, and all of them exactly if none is missing there |
| `Exams.ResumedInOrder` | src/modules/exams/exams.service.ts:533-549 | resuming keeps the order and the repetitions of the question list |
| `Exams.OptionsComeFromThePool` | src/modules/exams/exams.service.ts:617-644 | the options are those of the declared pool, or those of the other exactly if the declared one has none |
| `Exams.GradeMeans` | src/modules/exams/exams.service.ts:645-668 | a grade names the first correct option and is right exactly if that is the non-empty selection; there is none exactly if no option is correct (not found), or one is and the selection is none of them (bad request) |
| `Exams.RefusedIff` | src/modules/exams/exams.service.ts:583-604 | every other refusal has its cause: unknown exam, somebody else's, no longer in progress or already answered, a question not in it |
| `Exams.SubmitInserts` | src/modules/exams/exams.service.ts:670-692 | a graded submission appends its answer with its flag and time and leaves exams, pending calls and completions alone; a refused one changes nothing |
| `Exams.UninterruptedBreakdown` | src/modules/exams/exams.service.ts:860-936 | a breakdown of a user's own completed exam, on its own, leaves every exam as it was; any other is refused |
| `Exams.ExamsService.SubmitAnswer` | src/modules/exams/exams.service.ts:577-692 | the transaction has exactly the source's outcomes and effect, including the fallback to the other option table |
| `Exams.ExamsService.Complete` | src/modules/exams/exams.service.ts:726-765 | an uninterrupted completion is the read and the save; a completed exam is left alone |
| `Exams.ExamsService.CountCorrect` | src/modules/exams/exams.service.ts:738-739 | the filter over the answer rows counts the exam's correct answers |
| `Exams.ExamsService.AbandonExam` | src/modules/exams/exams.service.ts:813-819 | an uninterrupted abandonment is its read and its save, and sets only the status, whatever it was |
| `Progress.TabulateSums` | src/modules/exams/exams.service.ts:1048-1064 | the one-pass tally holds the sums of its answers for every subject and topic |
| `Progress.SameSumsSameTable` | src/modules/exams/exams.service.ts:1048-1064 | a table is determined by the sums it holds |
| `Progress.MergeIsOneBatch` | src/modules/exams/exams.service.ts:1074-1105 | adding one batch's tallies to another's is the tally of both together |
| `ProgressRuns.IncrementalIsBatchIff` | src/modules/exams/exams.service.ts:1024-1106 | for every interleaving of reads and saves the rows are one pass over everything completed exactly if no update is saved between the read and the save of another of the same user and subject |
| `ProgressRuns.RowsNeverExceedTheSums` | src/modules/exams/exams.service.ts:1069-1105 | for every interleaving no row or topic exceeds the sums over everything completed |
| `ProgressRuns.OverlapLosesAnswers` | src/modules/exams/exams.service.ts:1069-1105 | overlapping updates leave some subject short of its sum, for good |
| `ProgressRuns.LostUpdate` | src/modules/exams/exams.service.ts:1069-1105 | a run in which three completions leave two answers |
| `ProgressRuns.RefusedInsert` | src/modules/progress/entities/user-subject-progress.entity.ts:14-15 | a run in which the second of two new rows is refused and its completion is not counted |
| `ProgressRuns.EverythingWasCompleted` | src/modules/exams/exams.service.ts:765-768 | what counts is a saved completion of an exam, counted once, with its user and answers to that exam's questions |
| `ProgressRuns.RowsAreSums` | src/modules/exams/exams.service.ts:1048-1105 | rows that are one pass over everything completed hold its sums: each row's seen, correct and time, and each topic's |
| `ProgressRuns.TopicsStayWithinSubjects` | src/modules/exams/exams.service.ts:1048-1105 | for every interleaving correct is at most seen, and different topics together never exceed their subject |
| `ProgressRuns.ProgressService.UpdateSubjectProgress` | src/modules/exams/exams.service.ts:1024-1106 | an uninterrupted update adds the tally of the exam's answers to the rows |
| `ProgressRuns.ProgressService.Collect` | src/modules/exams/exams.service.ts:1029-1064 | the loop over the answers gives the tally |
| `ProgressRuns.ProgressService.Accumulate` | src/modules/exams/exams.service.ts:1074-1103 | each bucket is added to the row that was read |
| `ProgressRuns.ProgressService.SaveAll` | src/modules/exams/exams.service.ts:1104-1105 | the sums are written over whatever the rows hold by then, or not at all if a row taken to be new has appeared |
| `ProgressRuns.ProgressService.MergeTopics` | src/modules/exams/exams.service.ts:1093-1101 | topic counts are added topic by topic |
| `CostCap.TripsAboveTheCeiling` | src/jobs/ai-generation.processor.ts:220-230 | with a positive estimate the breaker trips exactly above the larger of 0.1 and 1.5 times the estimate |
| `PmTestJob.SplitSums` | src/jobs/ai-generation.processor.ts:63-71 | however the two shares are rounded down, the split sums to the request for mixes with easy + medium at most 100 |
| `PmTestJob.DistributionSumsIff` | src/jobs/ai-generation.processor.ts:63-71 | for any mix the split sums to the request exactly if the easy and medium shares fit, and is never less |
| `PmTestJob.SharesFollowTheMix` | src/jobs/ai-generation.processor.ts:63-71 | easy and medium get their own percentage of the questions rounded down, hard what is left, or nothing |
| `PmTestJob.RoundRobinIsFair` | src/jobs/ai-generation.processor.ts:350-361 | the picks of two topics differ by at most one |
| `PmTestJob.BatchesPartition` | src/jobs/ai-generation.processor.ts:364-366 | the batches are the picks cut in order, full but perhaps the last, none empty |
| `PmTestJob.PlannedIsRequested` | src/jobs/ai-generation.processor.ts:301-330 | the job undertakes exactly what was requested for mixes with easy + medium at most 100 |
| `PmTestJob.AskingFollowsTheMix` | src/jobs/ai-generation.processor.ts:301-332 | a selection has the job ask for each difficulty's own share of its questions, and for none if its subject is missing |
| `PmTestJob.UndertakenIsAsked` | src/jobs/ai-generation.processor.ts:301-332 | what a selection adds to the planned items is what it has the job ask for, or all its questions if its subject is missing |
| `PmTestJob.CallsCoverTheShares` | src/jobs/ai-generation.processor.ts:364-391 | each share takes as few calls as hold it, and a missing subject none |
| `PmTestJob.WhatABatchYields` | src/jobs/ai-generation.processor.ts:390-466 | a batch is charged what its answer cost and yields its valid items, or none if that takes the job above 0.1 and 1.5 times its estimate |
| `PmTestJob.TopicsInOrder` | src/jobs/ai-generation.processor.ts:464-485 | the i-th question is for the batch's i-th topic, and any surplus for the last |
| `PmTestJob.Job.InsertAll` | src/jobs/ai-generation.processor.ts:464-485 | generated questions are inserted for the batch's topics in order, the last topic taking any surplus, up to a failing insert |
| `PmTestJob.Job.RunBatch` | src/jobs/ai-generation.processor.ts:390-496 | every branch of a batch accounts for its items, keeps row and counters equal unless a write fails, and the cost error fails only the batch |
| `PmTestJob.Job.Deal` | src/jobs/ai-generation.processor.ts:334-362 | the dealing loops give the round-robin picks |
| `PmTestJob.Job.RunDifficulty` | src/jobs/ai-generation.processor.ts:332-496 | one difficulty accounts for its share, with one call a batch, whatever the cost |
| `PmTestJob.Job.RunSelection` | src/jobs/ai-generation.processor.ts:286-496 | one selection accounts for its planned items, or for all of them as failed if the subject is missing; a failing archive, subject or topic query aborts the job with the row as it was |
| `PmTestJob.Job.RunPmTestJob` | src/jobs/ai-generation.processor.ts:279-496 | over all failures, of queries too, completed + failed is the planned total plus what batches over-delivered, the row agrees, and every batch is called; an aborted job's row misses at most one batch's delivery |
| `ExplanationJob.EveryPositionIsCounted` | src/jobs/ai-generation.processor.ts:572-690 | completed + failed is the number of positions taken up |
| `ExplanationJob.ChargedAndTripped` | src/jobs/ai-generation.processor.ts:612-687 | an answer is charged at its own cost, taken or not, and the job stops exactly at one that is taken and saved with the spend above 0.1 and 1.5 times the estimate |
| `ExplanationJob.CalledOncePerPosition` | src/jobs/ai-generation.processor.ts:582-612 | the model is called once for each position that is not skipped, in order, and for none after the stop |
| `ExplanationJob.OverspendIsAfterTheLastAccepted` | src/jobs/ai-generation.processor.ts:671-687 | spend beyond the ceiling happened after the last accepted item that did not trip the breaker |
| `ExplanationJob.RejectionsAreUncapped` | src/jobs/ai-generation.processor.ts:640-660 | rejected items alone never trip the breaker, whatever they cost |
| `ExplanationJob.RowIsCompleteIff` | src/jobs/ai-generation.processor.ts:583-592 | the saved row accounts for every position exactly if the last one was not a skip |
| `ExplanationJob.Job.Explain` | src/jobs/ai-generation.processor.ts:581-688 | one id has exactly its branch's effect on counters, row and calls; it aborts exactly if the question or the row cannot be saved, and trips exactly when stated |
| `ExplanationJob.Job.RunSlice` | src/jobs/ai-generation.processor.ts:581-689 | a slice is taken up in order until something stops the job |
| `ExplanationJob.Job.RunExplanationJob` | src/jobs/ai-generation.processor.ts:562-690 | the slices of fifty visit each position once in order, up to the end, the first tripping item, the first fault, or the first slice that cannot be fetched |
| `Winners.SameKeyIffSameBand` | src/modules/leaderboard/winner-selection.service.ts:79-92 | two places earn the same award exactly if period type and prize band agree |
| `Winners.AwardNamesItsPlace` | src/modules/leaderboard/winner-selection.service.ts:79-92 | a place from 1 to 20 gets exactly the award that names its place and period |
| `Winners.GoodIsTheSubsequence` | src/modules/leaderboard/winner-selection.service.ts:140-150 | the winners are exactly the entries that are not excluded, have no failure, and whose users are active, not deleted, at least three days old, with fifty answers and an address, in pool order |
| `Winners.RankedAt` | src/modules/leaderboard/winner-selection.service.ts:151-236 | the k-th winner has rank k and that rank's award |
| `Winners.EveryEntryIsAccountedFor` | src/modules/leaderboard/winner-selection.service.ts:140-246 | awarded + skipped + excluded is the number of entries walked |
| `Winners.IssuedRowsAreTheWinners` | src/modules/leaderboard/winner-selection.service.ts:153-247 | the issued rows are the returned winners, one for one and rank for rank, whatever fails |
| `Winners.RowsAreWinnersAndLeftovers` | src/modules/leaderboard/winner-selection.service.ts:153-247 | beside them there is one unissued row for each failed award or update |
| `Winners.RanksAreChained` | src/modules/leaderboard/winner-selection.service.ts:151-247 | a row takes the next rank after an issued row and the same rank after an unissued one |
| `Winners.RanksAreDistinctIff` | src/modules/leaderboard/winner-selection.service.ts:239-247 | no rank is given twice exactly if no candidate whose award or update failed comes before one whose row is inserted |
| `Winners.RankIsReused` | src/modules/leaderboard/winner-selection.service.ts:239-247 | two candidates after which the table gives rank 1 twice |
| `Winners.WinnerSelectionService.SelectWinners` | src/modules/leaderboard/winner-selection.service.ts:94-260 | a second run for the same exam type, period and start is refused; otherwise winners, counts and rows are those of the walk up to twenty winners or the end of the pool |
| `WinnerRuns.TwoRunsSelectIff` | src/modules/leaderboard/winner-selection.service.ts:106-118 | for every interleaving two runs both select winners of one round exactly if one passes the count after the other has and before the other inserts |
| `WinnerRuns.SelectsIffNoRows` | src/modules/leaderboard/winner-selection.service.ts:106-118 | a run on its own selects winners exactly if its round has none |
| `Winners.WinnerSelectionService.Walk` | src/modules/leaderboard/winner-selection.service.ts:135-247 | the loop over rank, position and skips is the walk, and stops exactly there |
| `Winners.WinnerSelectionService.Award` | src/modules/leaderboard/winner-selection.service.ts:153-183 | the writes of an attempt leave no row, an unissued row or an issued row |
| `Cosign.ReachableInv` | src/modules/admin-ai-gen/admin-explanations.service.ts:90-259 | every reachable state keeps the facts about previews, jobs, tokens and queue below |
| `Cosign.OneJobPerToken` | src/modules/admin-ai-gen/admin-explanations.service.ts:124-167 | a preview token yields at most one job and is dead afterwards |
| `Cosign.EnqueuedOnceUnlessHeld` | src/modules/admin-ai-gen/admin-explanations.service.ts:124-259 | a job is enqueued once if it is neither waiting nor cancelled, and otherwise neither queued nor run |
| `Cosign.CostlyJobsAreCountersigned` | src/modules/admin-ai-gen/admin-explanations.service.ts:79-208 | in every run a job from a preview whose cost is above a positive threshold has an approver other than its creator if it ever ran or got past waiting |
| `Cosign.OtherJobsAreNeverHeld` | src/modules/admin-ai-gen/admin-explanations.service.ts:79-175 | in every run any other job never waits and is never cancelled, has no approver, and is enqueued exactly once |
| `Cosign.PreviewYieldsAJobIff` | src/modules/admin-ai-gen/admin-explanations.service.ts:90-175 | a preview yields a job exactly if it matches something, is within the cost cap and the row cap, and is traded within 600 s; the job has its figures, and waits exactly if above the threshold |
| `Cosign.DecidedByAnotherAdmin` | src/modules/admin-ai-gen/admin-explanations.service.ts:183-230 | a waiting job is released by anybody but its creator and turned down by anybody, and no other job by either |
| `Cosign.WaitingJobCanComplete` | src/modules/admin-ai-gen/admin-explanations.service.ts:183-259 | every run with a waiting job goes on to one in which another admin's approval has let it complete |
| `Cosign.RegenerationRuns` | src/modules/admin-ai-gen/admin-explanations.service.ts:418-459 | a one-question regeneration is enqueued at once and can run, whatever it costs, with nobody's approval |
| `Cosign.RunAtMostTwice` | src/jobs/ai-generation.processor.ts:137-175 | in every run a job runs at most twice; the worker takes it up exactly while it waits or has crashed once, and fails it without a run if the budget is used up |
| `Cosign.EndedForGood` | src/jobs/ai-generation.processor.ts:177-199 | a job that ends is completed or failed as it went and is not taken up again; one that crashes can be |
| `Cosign.GeneratedJobsAreWithinCaps` | src/modules/admin-ai-gen/admin-explanations.service.ts:60-145 | every generated job is within the cost cap and the row cap and not empty |
| `Cosign.CancelledForGood` | src/modules/admin-ai-gen/admin-explanations.service.ts:210-230 | a cancelled job stays cancelled and never runs, in any continuation |
| `Cosign.OversizedBatchBurnsItsToken` | src/modules/admin-ai-gen/admin-explanations.service.ts:139-145 | a batch over the row cap makes no job and its token is gone |
| `Cosign.AdminExplanationsService.PreviewJob` | src/modules/admin-ai-gen/admin-explanations.service.ts:90-122 | a preview is stored for 600 s exactly if it matches something within the cost cap |
| `Cosign.AdminExplanationsService.GenerateJob` | src/modules/admin-ai-gen/admin-explanations.service.ts:124-175 | a whole call is the specified step, succeeds exactly for a live token within the row cap, and has the job wait exactly if its cost is above a positive threshold |
| `Cosign.AdminExplanationsService.ApproveCosign` | src/modules/admin-ai-gen/admin-explanations.service.ts:183-208 | approval is the specified step and succeeds exactly for a waiting job of another admin |
| `Cosign.AdminExplanationsService.RejectCosign` | src/modules/admin-ai-gen/admin-explanations.service.ts:210-230 | rejection is the specified step and succeeds exactly for a waiting job |
| `Mail.OnlyABounceStopsTransactionalMail` | src/modules/mail/mail.service.ts:227-262 | a bounce holds back every mail, preferences never a transactional one |
| `Mail.SkippedIffBouncedOrSwitchedOff` | src/modules/mail/mail.service.ts:227-262 | a mail is skipped for a bounce, and otherwise exactly if it is one of the four kinds with a preference and that preference is off |
| `Mail.ReachableInv` | src/modules/mail/mail.service.ts:101-225 | every reachable state keeps the facts about claims, calls, deliveries and rows below |
| `Mail.AtMostOneDeliveryPerKey` | src/modules/mail/mail.service.ts:127-168 | for every interleaving of sends, retries, skips and failures no two provider calls share a dedup key or a send |
| `Mail.OneRowPerKey` | src/modules/mail/email-audit.service.ts:20-83 | a key has at most one audit row, and a row that says sent has an accepted provider call |
| `Mail.UnclaimedRowBlocksItsKey` | src/modules/mail/mail.service.ts:113-141 | a key whose row no claim made is never delivered, in any continuation |
| `Mail.DeliverableIffClaimIsOpen` | src/modules/mail/mail.service.ts:113-168 | a key that has a row can still be delivered, in some continuation, exactly if its claimant has yet to build or deliver |
| `MailRecords.DeliveredRowSaysSentIff` | src/modules/mail/mail.service.ts:113-213 | for every interleaving the row of an accepted mail says sent exactly if the delivering send's own record took effect and no other record for the key took effect after it |
| `Mail.SkipOverwritesSent` | src/modules/mail/mail.service.ts:113-125 | a run after which a delivered mail's only row reads skipped |
| `Mail.UninterruptedSend` | src/modules/mail/mail.service.ts:101-225 | the steps of one send on its own amount to its specified effect on the table and at most one provider call |
| `Mail.SendLeavesItsRow` | src/modules/mail/mail.service.ts:101-225 | whatever fails, a send on its own makes its one provider call exactly if it is not skipped, its key is new, and it is built and live, and its row says how it ended |
| `Mail.RecordingFaults` | src/modules/mail/email-audit.service.ts:42-83 | a fault while recording an outcome leaves a failed row; one while recording that is swallowed |
| `Mail.EmailAuditService.TryClaimDedup` | src/modules/mail/email-audit.service.ts:20-40 | the claim succeeds exactly if the key has no row, and keeps keys unique |
| `Mail.EmailAuditService.Record` | src/modules/mail/email-audit.service.ts:42-83 | the outcome is written over the key's row, or inserted if there is none |
| `Mail.MailService.Send` | src/modules/mail/mail.service.ts:101-225 | a whole send delivers exactly if it is not skipped, its key is free, and it is built and live, and leaves the specified table |

## Left out

- Controllers, request validation, logging, metrics, notifications, migrations and seeds.
- Model providers, mail and SMS delivery, payments, token signing and password hashing: their outcomes are inputs; hashes are injective and random ids fresh.
- ISO date strings: dates are year, month and day; instants are milliseconds reduced to days in UTC, which is Accra's time.
- Floating point: costs are exact reals, the percentage is an exact rounding, and `DistributeByDifficulty` uses exact shares (`PmTestJob.SplitSums` covers any rounding down).
- Redis outages, the non-atomic fallback of code consumption, and the email variants of the code flow, which have the same shape.
- Ledger rows are dated by the application's clock, as if the database's `created_at` fell on the same day; a transaction is one step. The daily counter is incremented on the date in its key.
- Repository saves: the comparison with the stored row and the UPDATE of the differing columns are one step. A failed or crashed call is one whose later steps never come.
- Whole-row saves of the user row (users.service.ts:143,170,191,214,318,338; auth.service.ts:349,553,623,757,970; admin.service.ts:627; mail-unsubscribe.controller.ts:44) are steps of their own for the XP totals and the exam type; for the streak columns they are assumed not to overlap a study day.
- Streak: the award calls that follow a write fire with it; an award that fails is dropped by the source, and a crash after the UPDATE loses it.
- Leaderboard.RebuildBesideAwardsIsHarmlessIff: with no exam-type change; each upsert sees one snapshot and then writes all its rows.
- Tokens: a rotation reads the session and upserts it as one step; rotation counters, addresses and the access-token revocation list are not modelled.
- Exams: a completion reads the exam and its answers in one step; of a breakdown only the read and the save of the exam row are modelled; question selection when a session is created, the spaced-repetition and referral side effects, and the result page are not modelled.
- Progress: all rows of an update are read in one step and saved in one step.
- PmTestJob.Job.InsertAll: the question row and its options are one insert; the difficulty and text the model returns are not modelled, nor is archiving in replace mode.
- Winners: a fault in the eligibility query ends the selection in the source and is not modelled; notifications cannot fail it.
- Cosign: service calls are atomic, so two approvals of one job do not overlap; PM-test jobs are enqueued elsewhere.
- Mail: sends without a dedup key are not deduplicated by the source, and are covered only by one provider call a send.
- Subscriptions and webhooks, notifications by schedule, the leaderboard read cache, math and sanitizing utilities, and the pruning of raw reject rows.
