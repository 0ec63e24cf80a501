# Verified model of the Lorcana platform's durable state machines

This project models, in Dafny 4.11, the parts of the platform that have to stay right while
processes race, crash and retry, and the computations those parts protect. Every SQL
transaction is one atomic step on tables held as maps; every loop of the original that
changes something step by step is a method with a loop, proved against a function, and the
promises are proved about that function for all inputs, all runs and all interleavings. What
a function computes is stated a second time without it, from the rows, the document or the
evidence, so that no branch rests on its own definition.

`dafny verify dfyconfig.toml` checks the whole project.

| file | what it holds |
|---|---|
| `Wrappers.dfy`, `Texts.dfy`, `Json.dfy` | options and results; splitting, joining and numerals; JSON documents |
| `JobTables.dfy`, `JobQueue.dfy` | the job and attempt tables, the repository and the queue a worker calls |
| `JobProtocol.dfy`, `JobSafety.dfy`, `JobEffects.dfy` | every interleaving of workers, the invariant that ties rows, attempts and held leases, what follows from it, and what each call does to the tables of a reachable state |
| `Worker.dfy` | how a worker settles the job it ran |
| `Schedule.dfy`, `ScheduleProtocol.dfy` | occurrences, materialising due schedules, each instant once and none skipped |
| `Elo.dfy`, `LegacyElo.dfy` | the incremental calculator, what it conserves, and that it refines the frozen legacy loop |
| `Digest.dfy`, `RatingPolicy.dfy`, `RatingBuild.dfy` | the canonical byte stream and its decoder, eligibility, snapshot and calculation |
| `RatingStore.dfy`, `RatingRace.dfy`, `RatingService.dfy` | runs, publications, rotation and pruning; what others can do to a build; the refresh with its "unchanged" shortcut |
| `Pointer.dfy`, `Patch.dfy`, `PatchLaws.dfy`, `PatchOutcomes.dfy` | JSON pointers, the replay's patch operations, RFC 6901 and RFC 6902 as what they extend, and every outcome of an operation |
| `Replay.dfy` | undo marking, log slicing and the mulligan comparison |
| `Practice.dfy`, `PracticeLaws.dfy` | the practice metrics, and what each of them says about the evidence |
| `Projection.dfy`, `ProjectionLaws.dfy` | the compact read model: the same metrics, and nothing kept beyond them |
| `HistorySync.dfy` | cursor pagination with a durable watermark, early stop and crash recovery |
| `WeeklyDelivery.dfy` | leased page delivery with a timestamp as the fencing token |
| `CoachRuns.dfy` | Coach runs under the idempotency lock |

Where a promise of the code or its documentation does not hold as it stands, the model keeps
the code, shows a case where it fails, and proves when it holds:

- A missing remove is described as doing nothing. It does so exactly when the container of
  its target is there (`PatchLaws.RemoveMissing`, `PatchLaws.MissingRemoveCanFail`).
- A validated rating run that is not yet published is deleted by another publication
  (`RatingStores.RacingBuildIsPruned`), so a refresh can fail although nothing is wrong with
  it: exactly when others prune between its validation and its publication while no pointer
  names its run (`RatingServices.RefreshIsFresh`, `RatingRaces.SurvivesExactly`).
- The stored mulligan count and the recomputed one differ exactly for an opening that adds up
  but has a card id that is not a string (`Projections.StoredCountAgrees`,
  `Projections.StoredCountCanDiffer`).
- The early stop of the history sync can hide a gap behind an empty page
  (`HistorySyncs.EmptyPageHidesAGap`); it hides none exactly when its page held a game, or
  everything older had been observed, or nothing had been read before it
  (`HistorySyncs.EarlyStopExactly`).
- A weekly report without pages is never marked as sent, so it is claimed again and again
  (`WeeklyDeliveries.EmptyReportIsNeverSent`); and the lease timestamp fences exactly while
  transactions commit within ten minutes of their clock reading (`WeeklyDeliveries.DeliveredInOrder`,
  `WeeklyDeliveries.LateReadingRevivesAToken`).
- With `restart_running` a succeeded Coach run can be turned into a failed one
  (`CoachRuns.RestartOvertakes`): exactly when a caller is still at work on it
  (`CoachRuns.SuccessIsFinalExactly`). Without it a crashed run blocks its key for good
  (`CoachRuns.CrashedRunStaysRunning`).
- A lease lost while the executor raises ends the whole worker process: the failure report
  raises outside any handler (`Workers.SettlementFollowsExecution`).
- Log slices can repeat entries (`Replays.LogsCanRepeat`); they tile the log exactly when no
  count, cut to the length of the log, goes back (`Replays.LogsTileExactly`).
- The calculator and the frozen legacy loop can part (`LegacyElo.SamePlayerParts`): on a
  stream exactly if it holds a match of a player against itself whose result is otherwise
  valid (`LegacyElo.AgreesExactlyWithoutSelfMatches`).

Conventions: `SKIP LOCKED` is an arbitrary set of visible rows; ids and tokens are fresh; the
clock is an integer number of microseconds that never goes back; `10^x` is any positive
function with `p(x) * p(-x) == 1`; SHA-256 is any injective function; which JSON values
Python takes as equal, and the key of a card name, are arbitrary functions of the value.

## Model

| member | source | states |
|---|---|---|
| `JobQueues.JobRepository.Enqueue` | src/lorcana/jobs/repository.py:17-61 | inserts exactly one queued row with no attempts unless another row has the idempotency key; either way the id returned is that of the row holding the key |
| `JobQueues.JobRepository.ExpireExhaustedLeases` | src/lorcana/jobs/repository.py:91-130 | fails exactly the visible running rows whose lease ran out on their last attempt, closes their in-flight attempt, and counts them |
| `JobQueues.JobRepository.Claim` | src/lorcana/jobs/repository.py:132-211 | expires exhausted rows, then leases the first visible claimable row in priority order as a new attempt, closing an overrun attempt first |
| `JobQueues.JobRepository.Heartbeat` | src/lorcana/jobs/repository.py:213-238 | extends the lease and says so if and only if the row is running under that token |
| `JobQueues.JobRepository.Succeed` | src/lorcana/jobs/repository.py:240-273 | finishes the row and its attempt if and only if the row is running under that token |
| `JobQueues.JobRepository.Fail` | src/lorcana/jobs/repository.py:275-321 | requeues the row at the retry time while attempts are left, else fails it; nothing changes without the stored token |
| `JobQueues.JobRepository.PruneCompletedBefore` | src/lorcana/jobs/repository.py:64-89 | deletes the oldest visible terminal rows older than the limit, at most so many, with all their attempts |
| `JobQueues.JobQueue.Heartbeat` | src/lorcana/jobs/service.py:111-125 | returns the extended lease record, or reports the lost lease and changes nothing |
| `JobQueues.JobQueue.Succeed` | src/lorcana/jobs/service.py:127-138 | reports a lost lease exactly when the row no longer stores the token |
| `JobQueues.JobQueue.Fail` | src/lorcana/jobs/service.py:140-172 | refuses a negative delay; otherwise reports the retry time or a lost lease |
| `JobProtocol.RunKeeps` | src/lorcana/jobs/repository.py:91-321 | every interleaving of enqueue, claim, heartbeat, succeed, fail, expiry and prune keeps the invariant over rows, attempts and all lease records ever issued |
| `JobSafety.OneLiveLease` | src/lorcana/jobs/repository.py:132-211 | two issued leases of one job that are unexpired and unfinished are the same lease |
| `JobSafety.LiveIsStored` | src/lorcana/jobs/repository.py:132-238 | an unexpired unfinished lease is the one whose token the row stores |
| `JobSafety.HeldIsNewest` | src/lorcana/jobs/repository.py:180-211 | the lease a row stores has the highest attempt number ever issued for the job and was not settled yet |
| `JobSafety.LeasesCarryTheJob` | src/lorcana/jobs/repository.py:201-211 | every lease record ever issued tells its worker the kind, resource key, payload and limit that were enqueued, and two records of one job agree on them even after it is pruned |
| `JobSafety.StaleHolderChangesNothing` | src/lorcana/jobs/service.py:111-172 | a heartbeat, succeed or fail by a holder whose job was leased again or settled changes nothing at all |
| `JobSafety.LedgerMatches` | src/lorcana/jobs/repository.py:160-211 | attempts are numbered exactly 1 to the attempt count, which stays within the limit; queued rows have attempts left; one attempt is in flight iff the row runs, under its token; at most the last one succeeded |
| `JobSafety.NoOrphanAttempts` | src/lorcana/jobs/repository.py:64-89 | pruning never leaves an attempt without its job |
| `JobSafety.FailReportsTheStoredStatus` | src/lorcana/jobs/service.py:140-172 | the status and retry time told to the worker are the ones stored |
| `JobSafety.LeasesAreBounded` | src/lorcana/jobs/repository.py:132-211 | over a whole run, even past pruning, a job is leased at most max_attempts times |
| `JobSafety.TerminalStays` | src/lorcana/jobs/repository.py:64-321 | a finished job is never changed or leased again by any later steps; it can only be pruned |
| `JobEffects.ClaimIsFirstInOrder` | src/lorcana/jobs/repository.py:132-158 | a lease is handed out iff a visible row is waiting and due or was left by a lease that ran out with attempts to spare; of those it goes to the one of highest priority, then available first, then oldest, then of least id |
| `JobEffects.ClaimStartsOneAttempt` | src/lorcana/jobs/repository.py:160-211 | in every reachable state a granted claim adds to the expiry it starts with: the row runs under the new lease as one more attempt, the attempt of a lease that ran out is closed, and nothing else changes |
| `JobEffects.ExpiryExactly` | src/lorcana/jobs/repository.py:91-130 | the visible running rows whose lease ran out with no attempt left fail, with the attempt they are on; every other row and attempt stays |
| `JobEffects.HeartbeatExtends` | src/lorcana/jobs/repository.py:213-238 | an accepted heartbeat moves the end of the lease in the row and in the record of the worker, may note progress, and changes nothing else |
| `JobEffects.SuccessSettlesOneAttempt` | src/lorcana/jobs/repository.py:240-273 | an accepted success finishes its row and, though attempts are looked up by token, exactly the one attempt of the lease |
| `JobEffects.FailureSettlesOneAttempt` | src/lorcana/jobs/repository.py:275-321 | an accepted failure closes exactly that attempt with the error and requeues the row for the retry time while attempts are left, else fails it |
| `JobEffects.PruneTakesTheOldest` | src/lorcana/jobs/repository.py:64-89 | a prune takes finished rows older than the bound with all their attempts; an eligible row it leaves means the limit was reached by rows finished no later |
| `Workers.Worker.Settle` | src/lorcana/jobs/worker.py:111-141 | what the worker does with the job after the execution returned or raised, and whether the lease loss escapes |
| `Workers.SettlementFollowsExecution` | src/lorcana/jobs/worker.py:111-147 | in every reachable state a settled job is finished as its execution went, with its progress or its error; without the lease nothing changes, and the loss ends the worker exactly when the execution had failed |
| `Workers.RetryDelayGrows` | src/lorcana/jobs/worker.py:126-134 | retry delays double from one minute up to one hour, never shrink, and reach the hour exactly from the seventh attempt |
| `Schedules.DailyIsLeast` | src/lorcana/jobs/schedule.py:49-78 | the daily occurrence is after the given instant and no earlier instant after it has that time of day |
| `Schedules.NextIsLater` | src/lorcana/jobs/schedule.py:49-78 | an occurrence exists iff the interval has at least 60 seconds or hour and minute are those of a clock; it is strictly after the given instant |
| `Schedules.ScheduledJobService.UpsertSchedule` | src/lorcana/jobs/schedule.py:82-126 | refuses blank names and kinds, no attempts and bad timings; else sets every column of the named row, with the next run from now, and keeps id, creation and last run of a row that is there |
| `Schedules.ScheduledJobService.EnqueueDue` | src/lorcana/jobs/schedule.py:222-255 | materialises due rows in order of next run, each as one keyed job, and moves each one on, at most so many; it stops early only when no enabled row it can lock is due |
| `ScheduleProtocol.RunKeeps` | src/lorcana/jobs/schedule.py:128-255 | every interleaving of materialisers, upserts, workers and pruning keeps: each materialised instant lies below the next run of its schedule |
| `ScheduleProtocol.EachInstantOnce` | src/lorcana/jobs/schedule.py:222-255 | materialising takes the earliest enabled due row it can lock and always creates one job from its definition, for an instant that never had one, through restarts and pruning; the row moves on to its next instant |
| `ScheduleProtocol.MadeIsStable` | src/lorcana/jobs/schedule.py:222-255 | the job an instant got is never replaced by another |
| `ScheduleProtocol.OneJobPerInstant` | src/lorcana/jobs/schedule.py:222-255 | no two jobs serve one schedule instant and no job serves two |
| `ScheduleProtocol.NoInstantSkipped` | src/lorcana/jobs/schedule.py:137-156 | without upserts the instants with a job are exactly those of the chain below the next run |
| `ScheduleProtocol.ChainIsRegular` | src/lorcana/jobs/schedule.py:60-77 | the k-th instant of an interval is k times its seconds after the start, and daily instants come exactly a day apart |
| `Elo.ExpectedShares` | src/lorcana/ratings/elo.py:12-13 | expected scores lie strictly between 0 and 1 and those of two opponents add up to 1 |
| `Elo.UpdatesBalance` | src/lorcana/ratings/elo.py:16-17 | one match moves both ratings by the same amount in opposite directions, strictly less than the factor |
| `Elo.EloCalculator.ProcessMatch` | src/lorcana/ratings/elo.py:37-68 | updates players and counters in place exactly as the step function says and returns its two history rows, or counts an invalid match |
| `Elo.RowsFollowTheFormula` | src/lorcana/ratings/elo.py:12-68 | a match is rated iff it has two different players and a winner among them or a draw; the two rows are about each other, the row of the winner says win, and each change times one plus the power of ten is the factor, its negative or the balance of a draw |
| `Elo.FavouriteGainsLess` | src/lorcana/ratings/elo.py:12-17 | for an increasing power a win is worth less the further the winner was ahead, and half the factor against an equal |
| `Elo.RunConserves` | src/lorcana/ratings/elo.py:37-68 | after every run the ratings add up to one start for each player, wins equal losses and matches are counted twice |
| `Elo.ConservedInNumbers` | src/lorcana/ratings/elo.py:37-68 | that sum is the starting rating times the number of players |
| `Elo.RunExplains` | src/lorcana/ratings/elo.py:37-68 | every rating, record and peak follows from the chained history rows of that player, and stays strictly within matches times the factor of the start |
| `Elo.HighestIsMaximum` | src/lorcana/ratings/elo.py:52-62 | the peak is the maximum over the history of the player and the start |
| `LegacyElo.CalculateReference` | tests/oracles/legacy_elo.py:37-195 | the frozen loop over dictionaries, in the source order of updates |
| `LegacyElo.CalculatorRefinesReference` | src/lorcana/ratings/elo.py:37-68 | on every stream of matches between distinct players the calculator and the frozen loop agree on history, ratings, peaks, records and counts; the only extra rows of the loop are players of rejected matches |
| `LegacyElo.AgreesExactlyWithoutSelfMatches` | tests/oracles/legacy_elo.py:60-115 | for every stream: the two agree iff no match is of a player against itself with an otherwise valid result |
| `LegacyElo.SamePlayerParts` | tests/oracles/legacy_elo.py:74-95 | a player beating itself: the frozen loop rates the match and the calculator rejects it |
| `RatingPolicies.IncludedIsRated` | src/lorcana/ratings/policy.py:21-43 | whatever a policy includes is complete, reaches the calculator with its own facts in their places, and is accepted there |
| `RatingPolicies.FirstReasonDecides` | src/lorcana/ratings/policy.py:21-63 | the reason given is the first of the eleven that applies to the candidate, and the candidate is included iff none does |
| `RatingPolicies.GlobalIsStricter` | src/lorcana/ratings/policy.py:55-63 | the global policy includes exactly the parity matches of completed events in a supported format |
| `Digests.LineRoundTrip` | src/lorcana/ratings/service.py:33-46 | reading a canonical line gives back the rating input it was printed from |
| `Digests.LineShape` | src/lorcana/ratings/service.py:33-46 | the printed line is ten values between brackets split by commas, in the source order, with null for no winner and a truth value for the draw |
| `Digests.StampMarks` | src/lorcana/ratings/service.py:37 | a timestamp is printed with 34 characters as an ISO date and time with microseconds at offset zero |
| `Digests.StreamRoundTrip` | src/lorcana/ratings/service.py:49-54 | a decoder recovers every input sequence from the bytes fed to the digest |
| `Digests.DigestDetermines` | src/lorcana/ratings/service.py:49-54 | with an injective digest, equal digests mean equal inputs in the same order |
| `RatingBuilds.PreviewSource` | src/lorcana/ratings/service.py:183-223 | the loop computes the count, digest and exclusion counts of the eligible inputs |
| `RatingBuilds.Snapshot` | src/lorcana/ratings/service.py:300-353 | the batched loop inserts exactly the eligible inputs, in order, and computes the same preview |
| `RatingBuilds.CalculateRun` | src/lorcana/ratings/service.py:355-448 | the batched calculation with its checks, in their order, as a function of the stored inputs |
| `RatingBuilds.EligibleIsAccepted` | src/lorcana/ratings/service.py:300-345 | every source row becomes an input, numbered from 1, or is counted as left out; no policy raises |
| `RatingBuilds.EligibleIsIncluded` | src/lorcana/ratings/service.py:300-345 | the inputs of a snapshot are the rows the policy lets through, in source order, numbered from 1 |
| `RatingBuilds.ExclusionsCount` | src/lorcana/ratings/service.py:308-312 | the counter for each reason is the number of rows left out for it |
| `RatingBuilds.SnapshotKeysDistinct` | src/lorcana/ratings/repository.py:104-130 | a snapshot of a source keyed by match never repeats a match, so the unique constraint holds |
| `RatingBuilds.HistoryKeysDistinct` | src/lorcana/ratings/repository.py:171-173 | no two history rows of a run share sequence number and player |
| `RatingBuilds.HistoryIsFold` | src/lorcana/ratings/service.py:371-391 | the stored history is that of the plain fold, two rows an input, under the number of their input |
| `RatingBuilds.ValidatesExactly` | src/lorcana/ratings/service.py:355-441 | a calculation goes through iff the inputs are as many as counted, numbered without a gap and all rateable; else the first misfit decides the error |
| `RatingBuilds.BuildNeverFails` | src/lorcana/ratings/service.py:355-448 | over policy inputs none of the checks of a build fails, and the ratings and history are the fold from scratch |
| `RatingStores.RunKeeps` | src/lorcana/ratings/repository.py:229-335 | through builds, failures, publications, rollbacks and prunings over any names: pointers name existing published runs, no child row is orphaned, and stored results are what their inputs give |
| `RatingStores.PublishRetains` | src/lorcana/ratings/repository.py:291-335 | after a publication the runs that are not building are exactly those pointed at, and building runs are untouched |
| `RatingStores.PublishLeavesExactlyTheRetained` | src/lorcana/ratings/service.py:265-298 | the same after any reachable history |
| `RatingStores.RotationRemembersOne` | src/lorcana/ratings/repository.py:229-289 | publishing another run makes the replaced one the previous, republishing moves nothing, other names are untouched |
| `RatingStores.RollbackTwiceRestores` | src/lorcana/ratings/repository.py:229-289 | publishing the previous run and then the replaced one restores both pointers and the published ratings |
| `RatingStores.BuildingIsNeverDeleted` | src/lorcana/ratings/repository.py:306-335 | no step but its own failure deletes a run under construction |
| `RatingStores.FailureLeavesNothing` | src/lorcana/ratings/service.py:450-468 | in every reachable state a failed build is deleted with all its rows, and what is pointed at or being built is left as it was |
| `RatingStores.ValidatedSurvivesExactlyIfPointed` | src/lorcana/ratings/repository.py:306-335 | a run survives the publication of another iff it is building or pointed at; a validated run is not protected |
| `RatingStores.RacingBuildIsPruned` | src/lorcana/ratings/service.py:265-298 | of two builds that race, the first publication deletes the other validated run, whose own publication then finds no run |
| `RatingStores.BuildValidates` | src/lorcana/ratings/service.py:128-158 | an undisturbed build ends validated with the ratings from scratch and touches no other run |
| `RatingStores.OneRecipeMatches` | src/lorcana/ratings/service.py:233-258 | a published run passes for unchanged under one policy, start and factor only |
| `RatingStores.UnchangedMeansFresh` | src/lorcana/ratings/service.py:225-263 | if the published run has the recipe, count and digest of the previewed source, its ratings and history are the fold from scratch over that source |
| `RatingRaces.BuildsAmongOthers` | src/lorcana/ratings/service.py:128-158 | whatever other processes do between its transactions, a build ends with its run validated and holding the ratings from scratch |
| `RatingRaces.BuildingStays` | src/lorcana/ratings/repository.py:306-335 | no steps of others change a run under construction or its inputs |
| `RatingRaces.FinishedStays` | src/lorcana/ratings/repository.py:229-335 | no steps change a finished run: it is as it was, or gone |
| `RatingRaces.SurvivesExactly` | src/lorcana/ratings/repository.py:306-335 | a finished run is still there after any steps iff none of them pruned while no pointer named it |
| `RatingRaces.BuiltStays` | src/lorcana/ratings/service.py:265-298 | until it is published a built run can be published with its ratings iff others have not pruned it |
| `RatingRaces.PointerStays` | src/lorcana/ratings/repository.py:229-289 | a name keeps its pointers while nobody publishes under it |
| `RatingServices.RatingRepository.PruneUnretainedRuns` | src/lorcana/ratings/repository.py:306-335 | deletes the doomed runs and their rows and nothing else |
| `RatingServices.RatingRepository.RotatePublication` | src/lorcana/ratings/repository.py:229-289 | rotates one pointer and marks the run published |
| `RatingServices.RatingRepository.RetainedRunIds` | src/lorcana/ratings/repository.py:291-304 | the loop collects exactly the current and previous runs of all names |
| `RatingServices.RatingService.BuildRun` | src/lorcana/ratings/service.py:128-158 | creates, snapshots, calculates and validates a run in three transactions, with any steps of other processes in between, or records the failure and prunes |
| `RatingServices.RatingService.PublishRun` | src/lorcana/ratings/service.py:265-298 | refuses a blank name, a missing run and a wrong status, else publishes and prunes |
| `RatingServices.RatingService.BuildAndPublishIfChanged` | src/lorcana/ratings/service.py:225-263 | previews, reads the publication, then keeps and prunes or builds and publishes, with any steps of other processes in every gap |
| `RatingServices.BuildIsThreeSteps` | src/lorcana/ratings/service.py:128-158 | whatever others do in its gaps, the build of the service is the three transactions of the protocol, and it does not fail |
| `RatingServices.RefreshIsFresh` | src/lorcana/ratings/service.py:183-263 | with anything others do in the gaps of a refresh: it fails iff a build was needed and the name is blank or the run was pruned before its publication; else a rebuilt publication shows the from-scratch fold over the source last read, a kept one shows it while the name points to it and unless others publish under the name, and the finished runs are those pointed at |
| `RatingServices.RefreshIsFreshAfterAnyRun` | src/lorcana/ratings/service.py:183-263 | the same from every reachable state with an unchanged source |
| `RatingServices.RefreshAlone` | src/lorcana/ratings/service.py:183-263 | with nobody in between a refresh fails only for a blank name that needs a build |
| `RatingServices.SecondRefreshKeeps` | src/lorcana/ratings/service.py:233-258 | after a successful refresh a second one over the same source takes the shortcut, builds nothing and changes nothing |
| `Pointers.DecodeIsUnescape` | src/lorcana/duels/replay_parser.py:49-50 | the two replacement passes agree with the single pass of RFC 6901 section 4 on every token, where a tilde that escapes nothing stands for itself |
| `Pointers.TokensUndoesPointer` | src/lorcana/duels/replay_parser.py:53-58 | splitting and decoding the pointer of any token list gives the list back |
| `Pointers.PointerUndoesTokens` | src/lorcana/duels/replay_parser.py:53-58 | a valid pointer is the pointer of its own tokens, so no two valid pointers collide |
| `Pointers.TokensAreParts` | src/lorcana/duels/replay_parser.py:53-58 | any path: the empty one has no tokens, one without a leading slash is refused, and of any other the tokens are the parts between its slashes, unescaped |
| `Texts.ParseIntReads` | src/lorcana/duels/replay_parser.py:69 | a list index is read as decimal digits after at most one sign |
| `Patches.ResolveParent` | src/lorcana/duels/replay_parser.py:61-89 | the loop walks to the container of the target, so that editing it and writing back is the recursive patch, for every operation |
| `Patches.ApplyOperation` | src/lorcana/duels/replay_parser.py:92-166 | one operation, every branch and error, equals the recursive definition |
| `Patches.Reconstruction.ApplyPatch` | src/lorcana/duels/replay_parser.py:169-172 | a list of operations is applied in order and the first failure aborts |
| `PatchLaws.Conservative` | src/lorcana/duels/replay_parser.py:92-166 | wherever strict RFC 6902 add, remove or replace succeeds the patch gives the same document |
| `PatchLaws.ConservativeAll` | src/lorcana/duels/replay_parser.py:169-172 | the same for whole patches |
| `PatchOutcomes.NamesDecide` | src/lorcana/duels/replay_parser.py:107-120 | which operation a name stands for, and which error is given for another name, a missing path or one without a leading slash |
| `PatchOutcomes.WholeDocument` | src/lorcana/duels/replay_parser.py:114-117 | the empty path sets the whole document, or gives null for a remove |
| `PatchOutcomes.MissingKeysAreMade` | src/lorcana/duels/replay_parser.py:77-82 | a set below a missing key makes one object for each further token with the value innermost, and exchanges nothing else |
| `PatchOutcomes.MissingKeysAreMadeStrictly` | src/lorcana/duels/replay_parser.py:77-82 | the same in the terms of RFC 6901: the document with the nested objects put at the first missing key |
| `PatchOutcomes.StopsOnTheWay` | src/lorcana/duels/replay_parser.py:66-87 | before the last token a missing key stops a remove only, a list needs an index of its own, and anything else is no container; each with its error |
| `PatchOutcomes.OutcomeAtTarget` | src/lorcana/duels/replay_parser.py:125-164 | on a container that is there: what becomes of an object or a list for every operation and token, or which error is given |
| `PatchOutcomes.EveryPathIsCovered` | src/lorcana/duels/replay_parser.py:61-89 | every path either reaches the container of its target or has a first place that is missing |
| `PatchLaws.GetAfterSet` | src/lorcana/duels/replay_parser.py:125-164 | after an add or a replace the value is found where it was put, also for the place after the last item |
| `PatchLaws.ReplaceIsSet` | src/lorcana/duels/replay_parser.py:160-162 | on an object replace succeeds and equals add, also when keys on the way are missing |
| `PatchLaws.ReplaceTwice` | src/lorcana/duels/replay_parser.py:92-166 | setting twice is setting once, for every document, path and value |
| `PatchLaws.RemoveMissing` | src/lorcana/duels/replay_parser.py:92-98 | removing what is missing succeeds iff its container is reached and takes the token, and then changes nothing |
| `PatchLaws.MissingRemoveCanFail` | src/lorcana/duels/replay_parser.py:78-82 | on the empty object removing a missing key does nothing but removing below a missing key fails |
| `PatchLaws.LocalAt` | src/lorcana/duels/replay_parser.py:61-163 | an operation leaves every value alone whose pointer parts from its path at an object key |
| `PatchLaws.LocalAll` | src/lorcana/duels/replay_parser.py:169-172 | a whole patch leaves every value alone that each of its paths spares in the document it starts from |
| `PatchLaws.AddShifts` | src/lorcana/duels/replay_parser.py:126-139 | an insertion or append moves exactly the siblings from its place on by one, with everything below them |
| `PatchLaws.ReplaceStays` | src/lorcana/duels/replay_parser.py:141-149 | a replacement in a list, also at the place after its end, leaves every sibling where it is |
| `PatchLaws.RemoveShifts` | src/lorcana/duels/replay_parser.py:151-153 | a removal moves exactly the later siblings down by one, with everything below them |
| `Replays.Timeline.Take` | src/lorcana/duels/replay_parser.py:753-785 | marks earlier actions in place, one by one, and records the frame, or fails on a missing number |
| `Replays.Timeline.TakeAll` | src/lorcana/duels/replay_parser.py:705-785 | the frame loop from an empty timeline: the recorded actions, or the first failure |
| `Replays.UndoneExactly` | src/lorcana/duels/replay_parser.py:753-767 | an action is undone iff some later frame has the undo type with a number at most its own and itself a larger number, undo actions included, and by the last such frame |
| `Replays.UndoTargetExactly` | src/lorcana/duels/replay_parser.py:753-755 | a frame undoes from a number iff its type is the prefix followed by digits with that value and nothing else |
| `Replays.UndoTargetOfNumeral` | src/lorcana/duels/replay_parser.py:753-755 | the prefix with the numeral of n undoes from n |
| `Replays.FailsExactlyIfStuck` | src/lorcana/duels/replay_parser.py:763-767 | the loop fails iff an undo frame without a number follows an action numbered from its target on |
| `Replays.EffectiveKeepsOrder` | src/lorcana/duels/replay_parser.py:864 | the effective actions are exactly the frames that no later frame undoes, in their original order |
| `Replays.Timeline.EffectiveActions` | src/lorcana/duels/replay_parser.py:864 | the filter over the marked actions |
| `Replays.LogsTile` | src/lorcana/duels/replay_parser.py:652-675 | for any counts and base: the slices together are as long as the way from base to last count plus every step back less what a smaller count passed over; without either they tile the log |
| `Replays.LogsTileExactly` | src/lorcana/duels/replay_parser.py:652-675 | counts that are not negative tile the log iff none of them, cut to its length, is below the base or an earlier one |
| `Replays.NextSlice` | src/lorcana/duels/replay_parser.py:652-675 | the slice of each frame runs from the last count to its own, and is empty without a count or when it goes back |
| `Replays.WarnsExactly` | src/lorcana/duels/replay_parser.py:662-673 | a replay is read without a warning about its logs iff its counts go upwards from the base within the log, and then the slices tile it |
| `Replays.LogsCanRepeat` | src/lorcana/duels/replay_parser.py:662-667 | counts 2, 1, 3 give an entry twice |
| `Replays.HandsBalance` | src/lorcana/duels/replay_parser.py:604-623 | for any two hands: kept and sent back make up the visible cards of the old hand, kept and drawn those of the new one; with distinct ids as many are drawn as sent back iff the hands are of one size |
| `Replays.HandsExactly` | src/lorcana/duels/replay_parser.py:604-623 | kept and sent back are, in order, the cards of the old hand whose id the new one has or has not; drawn are those of the new hand whose id the old one had not |
| `Practices.PlayerTurns` | src/lorcana/duels/practice.py:40-80 | the loop over actions, with its early return, computes the turns and their decisions |
| `PracticeLaws.TurnsExactly` | src/lorcana/duels/practice.py:54-80 | there is one turn for each segment of the player that begins in the game, and it holds exactly the decisions taken in it, in order |
| `PracticeLaws.HasTurnsExactly` | src/lorcana/duels/practice.py:47-80 | a replay has turns iff it is complete, unwarned, holds the own mulligan, and its first action of the game is in turn one of the player who began |
| `PracticeLaws.PresentExactly` | src/lorcana/duels/practice.py:28-37 | a target is present iff a listed card has its id or name, absent iff every card is told and none has, else unknown |
| `PracticeLaws.CountExactly` | src/lorcana/duels/practice.py:88-101 | the mulligan counts iff seven identified cards are the kept and the sent back, by their ids, with as many drawn |
| `PracticeLaws.MetricExactly` | src/lorcana/duels/practice.py:111-126 | ink, ready ink and number are those of the last action that ended the turn; seen and played say yes, no or unknown as the hands and plays of the turn tell |
| `PracticeLaws.MetricsExactly` | src/lorcana/duels/practice.py:83-126 | metrics exist iff there are turns; the hand is described as the mulligan bears it out, and at most the first three turns, numbered from 1, as their actions say |
| `Practices.OpeningMetrics` | src/lorcana/duels/practice.py:83-126 | fills in the eligibility, mulligan, hand and turn metrics |
| `Projections.CompactOpening` | src/lorcana/duels/opening_projection.py:46-64 | the loop builds the compact evidence |
| `ProjectionLaws.CompactHoldsNothingElse` | src/lorcana/duels/opening_projection.py:36-64 | the compact evidence has exactly its five entries, cards with at most three keys and actions with at most nine, each value being that of the evidence |
| `Projections.TargetPreserved` | src/lorcana/duels/opening_projection.py:36-43 | a target search on compacted cards gives the same answer, unknown included |
| `Projections.TurnsPreserved` | src/lorcana/duels/practice.py:40-80 | the compact evidence has the same turns with the same decisions in them |
| `Projections.MetricsPreserved` | src/lorcana/duels/opening_projection.py:46-64 | for every evidence and every list of targets the practice metrics of the compact evidence equal those of the full one |
| `Projections.ValidatedPreserved` | src/lorcana/duels/opening_projection.py:8-32 | the validated mulligan count is the same on the compact evidence |
| `ProjectionLaws.ValidatedExactly` | src/lorcana/duels/opening_projection.py:8-32 | a count is stored iff the replay is unwarned, its player known, two players named if any, and the mulligan is borne out by cards with text ids |
| `Projections.StoredCountAgrees` | src/lorcana/duels/opening_projection.py:8-32 | for an eligible opening the stored count is the recomputed one, except exactly when the groups add up and some card id is not a string: then none is stored |
| `Projections.StoredCountCanDiffer` | src/lorcana/duels/practice.py:90-100 | an eligible opening with numbers for card ids: the recomputed count is 0 and none is stored |
| `Projections.CompactTwice` | src/lorcana/duels/opening_projection.py:46-64 | compaction is idempotent |
| `Projections.ReadModelIsFaithful` | src/lorcana/duels/opening_projection.py:67-71 | a reader of the stored row sees every metric of the full evidence, and rebuilding the row from itself changes nothing |
| `HistorySyncs.Connection.UpsertPage` | src/lorcana/duels/repository.py:133-217 | a page adds its games and counts the new ones |
| `HistorySyncs.Connection.SyncHistory` | src/lorcana/duels/service.py:147-210 | the loop over pages with checkpoints, page limit, early stop and failures computes the durable state |
| `HistorySyncs.SyncExactly` | src/lorcana/duels/service.py:155-210 | one sync told from its pages: where it begins, which page ends it, that exactly the games of the pages read are observed, and which cursor is left after an end, a page limit or a failure |
| `HistorySyncs.EarlyStopIsSafe` | src/lorcana/duels/service.py:191-197 | a nonempty page without news means that nothing above the old watermark is missing |
| `HistorySyncs.EarlyStopExactly` | src/lorcana/duels/service.py:191-197 | an early stop leaves no hidden gap iff its page held a game, or everything below the cursor had been observed, or nothing had been read above it |
| `HistorySyncs.EmptyFirstPage` | src/lorcana/duels/service.py:191-197 | an empty first page that is not the last stops the sync and hides nothing |
| `HistorySyncs.SyncKeeps` | src/lorcana/duels/service.py:147-208 | one sync, however it ends, leaves no hidden gap and forgets no game |
| `HistorySyncs.NeverAHiddenGap` | src/lorcana/duels/service.py:147-208 | through any syncs, crashes and growth: when exhausted the missing games are exactly a newest stretch, with a cursor they lie there or below the cursor |
| `HistorySyncs.CatchesUp` | src/lorcana/duels/service.py:187-197 | a sync from the newest page that ends exhausted has observed every game there was when it started |
| `HistorySyncs.ResumeMakesProgress` | src/lorcana/duels/service.py:160-198 | a resumed sync ends exhausted or its cursor is lower by at least one game a page |
| `HistorySyncs.EmptyPageHidesAGap` | src/lorcana/duels/service.py:191-197 | an empty page that is not the last makes the early stop hide a gap, so the provider assumption is needed |
| `WeeklyDeliveries.WeeklyDuelsDelivery.Claim` | src/lorcana/notifications/weekly_duels.py:21-39 | takes the lease iff the report is unsent and unleased or its lease ran out |
| `WeeklyDeliveries.WeeklyDuelsDelivery.Advance` | src/lorcana/notifications/weekly_duels.py:41-51 | moves on and renews iff the claim holds the stored lease, and marks the report sent with its last page |
| `WeeklyDeliveries.WeeklyDuelsDelivery.Release` | src/lorcana/notifications/weekly_duels.py:53-56 | gives up the lease iff the claim holds it |
| `WeeklyDeliveries.WeeklyDuelsDelivery.DeliverOnce` | src/lorcana/interfaces/discord/bot.py:190-215 | an undisturbed turn sends consecutive pages from the stored one and stores how far it came |
| `WeeklyDeliveries.DeliveredInOrder` | src/lorcana/notifications/weekly_duels.py:21-56 | with any number of concurrent and crashing bots whose clock readings are younger than the lease is long: pages below next_page were sent, each page only after all earlier ones, sent_at is set iff next_page is the page count, and one claim at most holds the lease |
| `WeeklyDeliveries.NextPageNeverDecreases` | src/lorcana/notifications/weekly_duels.py:41-51 | next_page never decreases and a report stays sent |
| `WeeklyDeliveries.OnlyTheHolderAdvances` | src/lorcana/notifications/weekly_duels.py:41-51 | only the holder moves the page, by one, past the page it was at and has sent |
| `WeeklyDeliveries.NeverStuck` | src/lorcana/notifications/weekly_duels.py:21-51 | from every reachable state a newcomer can finish the report once the lease has run out, sending each page from the stored one on, in order and once |
| `WeeklyDeliveries.StaleStaysStale` | src/lorcana/notifications/weekly_duels.py:21-56 | a claim that lost its lease never matches the stored one again |
| `WeeklyDeliveries.StaleChangesNothing` | src/lorcana/notifications/weekly_duels.py:41-56 | a stale advance or release leaves the row alone |
| `WeeklyDeliveries.EmptyReportIsNeverSent` | src/lorcana/notifications/weekly_duels.py:41-51 | a report without pages is never marked as sent |
| `WeeklyDeliveries.LateReadingRevivesAToken` | src/lorcana/notifications/weekly_duels.py:21-39 | if readings may be older than the lease is long, an interleaving of three bots ends with two holders of one token |
| `CoachRuns.CoachRepository.StoreResult` | src/lorcana/coach/repository.py:175-202 | stores findings 1 to n and the report and marks success, or changes nothing when a constraint clashes |
| `CoachRuns.CoachRepository.Restart` | src/lorcana/coach/repository.py:144-161 | makes a run that did not succeed running again and deletes its findings and report |
| `CoachRuns.CoachService.BeginRun` | src/lorcana/coach/service.py:386-427 | creates, restarts, refuses or answers from the stored report |
| `CoachRuns.CoachService.AnalyzeReplay` | src/lorcana/coach/service.py:333-484 | an undisturbed analysis ends in a stored report or a failed run |
| `CoachRuns.CoachJobsNeverRestart` | src/lorcana/jobs/executor.py:76-80 | a job limited to one attempt never asks for a restart, in every reachable state of the queue |
| `CoachRuns.OneRunOneAnalyzer` | src/lorcana/coach/service.py:386-427 | without restarts: one run a key, one analyzer a run, a report iff it succeeded, findings numbered 1 to n |
| `CoachRuns.FinishNeverClashes` | src/lorcana/coach/repository.py:175-202 | without restarts storing a result never meets a unique constraint |
| `CoachRuns.SuccessIsFinal` | src/lorcana/coach/repository.py:163-202 | a succeeded run that no caller is at work on keeps its report and findings through any later calls, restarts included |
| `CoachRuns.SuccessIsFinalExactly` | src/lorcana/coach/service.py:418-476 | for any state with one run a key: a success lasts through everything anyone may do, restarts included, iff no caller is still at work on the run |
| `CoachRuns.SucceededIsUnattended` | src/lorcana/coach/service.py:386-427 | without restarts no caller is ever at work on a succeeded run, so there every success is final |
| `CoachRuns.AlwaysReported` | src/lorcana/coach/repository.py:135-202 | restarts included, no key ever has two runs and no succeeded run lacks its report |
| `CoachRuns.LaterCallsAreCached` | src/lorcana/coach/service.py:407-417 | once nobody is at work on a succeeded run, every later call with its key, restarting or not, answers with that report and starts no analyzer |
| `CoachRuns.StoredIsTheAnalyzers` | src/lorcana/coach/repository.py:175-202 | without restarts the report and the findings stored are those the analyzer gave, in order from 1, and no other run is touched |
| `CoachRuns.AnswersAreTheAnalyzers` | src/lorcana/coach/service.py:407-417 | every later call with the key answers with the report the analyzer gave |
| `CoachRuns.AnalyzesFromNothing` | src/lorcana/coach/repository.py:144-161 | restarts included: a call that analyzes finds its run running with nothing stored for it, and its result goes in if nobody comes in between |
| `CoachRuns.CallAnswers` | src/lorcana/coach/service.py:386-427 | a new or failed run is analyzed from nothing, a running one waited for unless restarted, and a succeeded one answered from its report, which is never missing |
| `CoachRuns.CrashedRunStaysRunning` | src/lorcana/coach/service.py:418-422 | a run whose analyzer crashed answers in progress for good unless a call asks for a restart |
| `CoachRuns.OnlyARestartRevives` | src/lorcana/coach/service.py:418-427 | an abandoned running run stays so through a step iff the step is not a restarting call with its key |
| `CoachRuns.RestartOvertakes` | src/lorcana/coach/service.py:418-476 | an interleaving in which a restarted run succeeds and the analyzer it overtook then takes the success back |

## Left out

- Schedules.DailyIsLeast: is about UTC days; a configured time zone and daylight saving are not modelled.
- Schedules.NextIsLater: covers intervals and daily times in UTC, not daily times in a configured zone.
- Schedules.ScheduledJobService.EnqueueDue: a payload is the template and the instant its placeholders are replaced for, not the text; and which of two schedules due at the same instant comes first is left open, because names are compared by the database collation.
- RatingBuilds.CalculateRun: ratings are reals, so the check that they are finite has nothing to refuse; the count of current rows is the number of players by construction.
- RatingBuilds.BuildNeverFails: says nothing about rounding or overflow of floating-point ratings.
- Patches.ResolveParent: a list index is an optional sign and decimal digits; `int()` also accepts blanks, underscores and other digits.
- Patches.ApplyOperation: reads list indices in the same way.
- Patches.Reconstruction.ApplyPatch: works on values; in-place mutation that a failing operation leaves behind, and sharing between parts of a document, are not modelled, because the reader aborts on the first failure and copies every value it inserts.
- Practices.PlayerTurns: where the original raises on evidence of another shape (an action or context that is not an object, a truthy list that is not one) the model reads null or nothing; the claims are meant for evidence the reader produces.
- Practices.OpeningMetrics: the same, and a card id that cannot be hashed counts like any other.
- Replays.UndoneExactly: sequence numbers are integers or missing; booleans and fractions are not modelled, nor are the other fields of an action; the digits of an undo type are the ASCII ones.
- Replays.LogsTileExactly: the equivalence is for counts that are not negative; for negative ones, which name a place from the end of the log, `Replays.LogsTile` gives the law with both of its terms.
- RatingServices.RefreshIsFresh: the source is what the preview and the snapshot each read; a source that changes between them is shown as the snapshot read it.
- Transactions are atomic and include their clock reading, except in the weekly delivery, where a reading may be older than its commit; locking below that level is not part of this model.
- HTTP, Discord, OpenAI, PDF and command line code, credentials, retry sleeps and the heartbeat thread: input and output of libraries that are not part of this model; what they come to is a parameter.
- The checks of limits at the service boundary (1 to 1000 schedules or jobs at a time): they only refuse a call.
- The exclusion reasons are the names of an enumeration instead of strings, and publication timestamps, notes and authors are not stored.
- A missing or inactive connection and a page limit that is not positive: the sync refuses them before it does anything.
- Two syncs of one connection at the same time, and a provider that deletes or reorders games: outside what the design assumes.
- The report rows of other weeks, and how the number of pages comes about.
- Evidence checks, prompts, report wording and usage records of Coach: they decide only whether an analyzer's answer counts as one.
- The cancelled status of a job: no code sets it.
- Identity, teams, catalogue, deck fingerprints, leaderboards and matchup queries: no state machine, and only easy members.
