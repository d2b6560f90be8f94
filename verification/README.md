# Verified model of the kongtask job queue

kongtask is a PostgreSQL-backed job queue with a cron scheduler. This Dafny project models its protocol and
proves what it is relied on for:

- **The job lock protocol.** `JobTables` states each SQL statement as a function on the two tables `jobs` and
  `job_queues`. `LockProtocol` lets any number of workers interleave them, with GetJob split into its pick
  (row locks, `for update skip locked`) and its commit, and with clock advance, insertions, handler errors,
  failed releases, crashes, the 4 hour reset and the administrator's deletes as further steps.
  `JobHistory` and `LockTheorems` prove invariants over every run; `Fifo` proves the service order of a
  named queue. `Database` has the tables and the worker as objects whose methods update them in place, with
  the loop of RunOnce.
- **Cron.** `CronFields` and `CronPattern` parse the five fields and compile them to a matcher, against a
  direct interpretation of the text; `CronBuilders` relates the matcher builders to patterns. `Calendar` is
  the proleptic Gregorian calendar in UTC and the digest without a year. `CronSchedule`, `CronScheduler` and
  `CronTheorems` have the scheduler: backfill, live ticks, the duplicate check and `last_execution`.
- **The compiled options cache** (`SharedOptions`) **and the migrations** (`Migrations`).

`Text` and `Wrappers` hold the string and option helpers. `dafny verify dfyconfig.toml` checks everything.

## What the proofs brought to light

Where a property is false of the code, the code is kept as it is, and a lemma gives the exact condition.

- A worker that has lost its lock can still complete the job, and the delete does not look at the lock's
  holder. This never breaks mutual exclusion, but it can leave the queue row of another worker locked with no
  job behind it, and then nobody but the 4 hour reset frees that queue: the worker whose name is in the lock
  deletes nothing when it completes in its turn (`LockTheorems.OrphanArises`, `LockTheorems.OrphanLeaves`).
- RunOnce of a worker without handlers is handed jobs it cannot process, because an empty task list turns the
  task filter off, and leaves each of them locked: every eligible job without a queue, and at most one job of
  each named queue, which stays locked with it (`Database.Worker.RunOnce`).
- The step `*/9223372036854775807` on the date or month field overflows, so that the field also yields -1 and
  -9223372036854775808. The matcher tells "restricted" from the length of a list, and such a date field can
  fool it (`CronFields.StaysInRange`, `CronPattern.CompilePreservesMeaning`, `CronBuilders.LargestStepFails`).
  A range that ends at the largest integer is parsed forever.
- The digest has no year. Equal digests mean the same minute on fewer than 1827 days counted between the
  minutes; for instants fewer than 1827 days apart it can fail (`Calendar.DigestTellsInstant`).
- If `last_execution` is stored ahead of the clock, the duplicate check compares with the stored time for
  good, and two ticks in one minute enqueue twice (`CronTheorems.AtMostOnceAMinute`).
- If the first migration fails after the migrations table was created, the table stays empty, the query for
  the latest id fails with "no rows", and no later run can succeed; the code's own branch for an empty table
  (internal/migrate/migrator.go:140) is never reached. A migration numbered 0 is passed over
  (`Migrations.RecoversExactly`, `Migrations.PrefixOfWholeList`).

## Assumptions

- Each worker id is driven by one goroutine, as in the worker pool (pkg/worker/worker_pool.go:132-136).
- Database times are whole microseconds of one clock that never goes back, with useNodeTime off. The powers
  of e in the back-off are the eleven values that can occur, rounded to microseconds.
- A statement that needs a row another transaction holds waits: its step is not enabled until then. Otherwise
  a statement is one step at one time; a pick reads one committed snapshot and locks rows at that time.
- Each named queue has its row in `job_queues`. New jobs are unlocked, with no attempts made.
- Handlers, failures, clock readings and interruptions are arguments of the operations.
- In a session, the duplicate check of a live tick reads the clock in the minute of the tick; the checks of a
  backfill may read it at any time, and the exact condition on their readings is part of the theorem.
- Cron times are in UTC. The duration format used in the cache key is a parameter that tells durations apart
  and has no `|`.
- In a directory no two entries have the same name.

## Model

| member | source | states |
|---|---|---|
| JobTables.BackoffIsExponential | pkg/worker/sql/fail_job.go:31 | the back-off starts at a second, each is e times the one before to within two microseconds, and from 10 attempts on it is constant |
| JobTables.BackoffMonotone | pkg/worker/sql/fail_job.go:31 | more attempts never back off for less time |
| JobTables.TakeKeepsTables | pkg/worker/sql/get_job.go:105-119 | locking an unlocked job of a free queue keeps: lock columns in pairs, queue row mirrors the locked job, one locked job per queue |
| JobTables.FailKeepsTables | pkg/worker/sql/fail_job.go:27-40 | a FailJob by any worker at any time keeps the same |
| JobTables.CompleteKeepsTables | pkg/worker/sql/complete_job.go:26-34 | the delete, which ignores locked_by, keeps it if the queue lock it would clear guards no other job |
| JobTables.ResetKeepsTables | pkg/worker/sql/reset_locked_at.go:39-46 | the 4 hour reset keeps it: a job and its queue row expire together |
| JobTables.AdminKeepsTables | pkg/worker/worker_utils.go:265-273 | the administrator's delete keeps it |
| LockProtocol.HeldRowsUntouched | pkg/worker/sql/get_job.go:80-104 | between the pick and the commit of a GetJob no step of anyone changes a row it holds |
| LockProtocol.StepKeepsPicks | pkg/worker/sql/get_job.go:80-104 | a picked job stays pickable until its commit, and two picks share neither job nor queue row |
| LockProtocol.StepKeepsActive | pkg/worker/worker.go:588-596 | while a worker's name is in the queue row of its job, that job, if it exists, is the one it has locked there: a late release clears nobody else's lock |
| LockProtocol.StepKeepsLocks | pkg/worker/worker.go:409-449 | every step of every worker keeps all of this together |
| JobHistory.CommitAddsTurn | pkg/worker/sql/get_job.go:113-119 | a handout is spaced from the one before, backed off, and within max_attempts |
| JobHistory.FailEdits | pkg/worker/worker.go:619-632 | a FailJob that matches belongs to the last handout of the job |
| JobHistory.FailKeepsRow | pkg/worker/worker.go:619-632 | it moves run_at beyond the sum of all back-offs so far |
| JobHistory.GiveUpEdits | pkg/worker/worker.go:717-731 | job:failed is emitted for the attempt numbered max_attempts only, and once |
| JobHistory.StepKeepsHistory | pkg/worker/worker.go:409-449 | every step keeps spacing, counting, job:failed and back-off of every job |
| LockTheorems.OneLockPerQueue | pkg/worker/sql/get_job.go:84-119 | in every run a named queue has at most one locked job, and its queue row has that job's locked_by and locked_at |
| LockTheorems.HandoutsAreSpaced | pkg/worker/sql/fail_job.go:27-33 | in every run, between two handouts of a job its holder failed it and the back-off passed since then, or more than 4 hours passed |
| LockTheorems.NoHandoutUnderLock | pkg/worker/sql/get_job.go:84-97 | in every run, a job handed out again within 4 hours was failed by its holder before: nobody gets a job under an unexpired lock |
| LockTheorems.BackoffsAccumulate | pkg/worker/sql/fail_job.go:27-33 | in every run a handout after k matched fails is at least the sum of the first k back-offs after the first run_at |
| LockTheorems.AttemptsCountHandouts | pkg/worker/worker.go:426-444 | in every run the attempts of a job are its handouts, at most max_attempts; job:failed at most once, at the last |
| LockTheorems.FailedJobsStayFailed | pkg/worker/worker.go:717-731 | after job:failed no continuation of the run hands the job out again |
| LockTheorems.GetJobIsPickThenCommit | pkg/worker/sql/get_job.go:80-120 | with no other transaction under way, pick and commit are enabled and do what the single statement does |
| LockTheorems.OrphanArises | pkg/worker/sql/complete_job.go:26-34 | a queue lock with no job behind it arises exactly from a late CompleteJob or an administrator's delete of an expired job |
| LockTheorems.OrphanLeaves | pkg/worker/sql/reset_locked_at.go:44-46 | it goes away exactly by a reset after its expiry, by no worker's statement |
| LockTheorems.ResetBoundsLocks | pkg/worker/sql/reset_locked_at.go:39-46 | after a reset every lock left was taken in the last 4 hours, no younger lock was touched, and of an older row nothing but the two lock columns changed |
| Fifo.StepKeepsFifo | pkg/worker/sql/get_job.go:84-112 | each pick, commit and completion keeps the order invariant of all queues |
| Fifo.QueueIsServedInOrder | pkg/worker/sql/get_job.go:84-112 | with the clock standing and jobs only handed out and completed, every interleaving of any workers hands a queue's jobs out in (priority, run_at, id) order, each after the one before was completed, and passes none over |
| Database.JobStore.GetJob | pkg/worker/worker.go:409-449 | the row found is unlocked, due, with attempts left, of an accepted task and without a forbidden flag, and its queue is free; every other row lacks one of these, or comes later by priority, run_at and id; exactly the job and its queue row are locked and the attempt counted |
| Database.JobStore.CompleteJob | pkg/worker/worker.go:588-596 | the row is gone whoever holds it; its queue row is cleared exactly if this worker holds it; every other row stays |
| Database.JobStore.FailJob | pkg/worker/worker.go:619-632 | nothing, unless this worker holds the job; then run_at is the later of now and run_at plus the back-off, the lock and the worker's own queue lock are cleared, every other row and column stays |
| Database.JobStore.ResetLockedAt | pkg/worker/sql/reset_locked_at.go:39-46 | row by row, exactly the locks older than 4 hours are cleared, in both tables, and no other column changes |
| Database.JobStore.CompleteJobs | pkg/worker/worker_utils.go:250-320 | what is deleted and what is left make up the old rows; a requested job is kept exactly if it is locked and not expired |
| Database.HandoutThenRelease | pkg/worker/worker.go:934-939 | a handout and its release together leave the queue free and the row gone or backed off |
| Database.EligibleAfter | pkg/worker/worker.go:934-939 | serving some jobs leaves the eligibility of all others as it was, and theirs ended |
| Database.HandoutShrinks | pkg/worker/worker_pool.go:483-506 | a handout uses up one of the attempts all jobs have left together, and no release gives it back |
| Database.Worker.ProcessJob | pkg/worker/worker.go:648-798 | result, tables, active job and the events one by one: job:start, then job:success or job:error by the outcome, job:failed exactly after an error on the last attempt, job:complete last and exactly if the release was written |
| Database.Worker.ServeNextJob | pkg/worker/worker.go:922-939 | one iteration: nothing changes if nothing is eligible; otherwise the tables, clock and events after the handout of the first eligible job and its release |
| Database.TurnShrinks | pkg/worker/worker.go:922-939 | an iteration leaves strictly fewer attempts, whatever the handler and the release do |
| Database.TurnServes | pkg/worker/worker.go:922-939 | an iteration of an undisturbed run serves the next job, with the events of a released handout |
| Database.Worker.RunOnce | pkg/worker/worker.go:911-942 | ends under any clock and outcomes, and finishes exactly if it was not interrupted; undisturbed, hands out each eligible job exactly once and in order, the failed ones stay with attempts + 1 and run_at = now + back-off, all else is untouched, and the events are those of the jobs in that order, with job:failed exactly for the jobs that failed on their last attempt |
| Database.RunEnds | pkg/worker/worker.go:911-942 | the rows and the order after an undisturbed run, column by column |
| Database.FailedOfAll | pkg/worker/worker.go:717-731 | over such a run, job:failed is among the events exactly for the jobs that failed on their last attempt |
| Calendar.DateOfDay | pkg/cron/matcher.go:65-73 | the date reached day by day from the epoch is a date of the calendar and its day number is that day |
| Calendar.DateIsUnique | pkg/cron/matcher.go:65-73 | every date of the calendar is the date of exactly one day |
| Calendar.DayNumberClosed | pkg/cron/matcher.go:65-73 | the day number is that of the usual Gregorian formula, for all years |
| Calendar.WeekdaysFollow | pkg/cron/types.go:121 | 1970-01-01 is weekday 4, Sunday is 0, and the weekdays follow each other on all days |
| Calendar.DigestOfCalendarTime | pkg/cron/matcher.go:65-73 | the digest of every instant in a minute of a date is that minute, hour, day, month and weekday |
| Calendar.DigestIsCalendarTime | pkg/cron/matcher.go:65-73 | every instant lies in the minute its digest tells, of some year |
| Calendar.DigestsAreValid | pkg/cron/types.go:116-122 | digests of instants lie in the ranges the fields are documented with |
| Calendar.DigestTellsMinute | pkg/cron/scheduler.go:463-482 | two minutes fewer than 1827 days apart with equal digests are equal |
| Calendar.WindowIsTight | pkg/cron/types.go:116-122 | 1827 days apart they need not be |
| Calendar.InstantsCanAlias | pkg/cron/types.go:116-122 | instants less than 1827 days apart can have equal digests in different minutes |
| Calendar.DigestTellsInstant | pkg/cron/scheduler.go:463-482 | for such instants, equal digests mean the same minute exactly if their minutes are fewer than 1827 days apart |
| CronFields.AppendRange | pkg/cron/parser.go:423-434 | the loop appends exactly the values a range covers, clipped, with max + 1 wrapped on the weekday |
| CronFields.AppendSteps | pkg/cron/parser.go:449-451 | the loop in 64-bit integers appends the steps up to max, and two stray values if the step overflows |
| CronFields.Deduplicate | pkg/cron/parser.go:460-465 | strictly increasing, same members |
| CronFields.ParsePart | pkg/cron/parser.go:387-455 | which error a part has, or exactly its values added |
| CronFields.CollectNumbers | pkg/cron/parser.go:384-456 | the first faulty part decides; otherwise the values of all parts |
| CronFields.ParseCrontabRange | pkg/cron/parser.go:380-468 | equals the specification of a field for every text |
| CronFields.ReachesMultiples | pkg/cron/parser.go:449-451 | counting from min in steps of n reaches exactly the i with (i - min) mod n = 0 |
| CronFields.ValuesAreTheUnion | pkg/cron/parser.go:458-467 | an accepted field yields, within the range, strictly increasing, exactly the union of what its parts mean |
| CronFields.StaysInRange | pkg/cron/parser.go:449-451 | it yields no value outside the range exactly if no part overflows |
| CronFields.CoveredLength | pkg/cron/parser.go:350-351 | pigeonhole: the list has the length of the range exactly if no value is excluded |
| CronFields.TermShapes | pkg/cron/parser.go:387-443 | numerals, a-b, * and * with a step are read as such, in any decimal numerals |
| CronFields.TermHasShape | pkg/cron/parser.go:455 | and nothing else is a term |
| CronFields.CoversMeans | pkg/cron/parser.go:394-451 | what each term selects: a number, a clipped range, the multiples of the step from the least value; on the weekday 7 is 0 |
| CronFields.TermOfRender | pkg/cron/parser.go:387-443 | reading a written term gives the term back |
| CronFields.ParsesRendering | pkg/cron/parser.go:380-468 | a written list of terms is accepted exactly if each is well formed, and then yields their union |
| CronFields.PartsPadded | pkg/cron/parser.go:381-385 | a field is split at its commas, and white space around a part does not matter |
| CronPattern.RegexByGroups | pkg/cron/parser.go:20 | a pattern has the right form exactly if it is five groups of digits, `*`, `/`, `,` and `-` with white space between them and none around; the groups are its fields |
| CronPattern.FieldsRangeOverDigests | pkg/cron/parser.go:120-124 | the ranges of the five fields are exactly those of valid digests |
| CronPattern.ExclusionTest | pkg/cron/parser.go:350-351 | on a field that does not overflow, the length test holds exactly when some value is excluded |
| CronPattern.CompilePreservesMeaning | pkg/cron/parser.go:225-367 | for every accepted pattern the compiled matcher agrees with the direct interpretation on all valid digests, exactly if the date field is not skewed by stray values; the array fallback agrees always |
| CronBuilders.PatternOfTerms | pkg/cron/parser.go:225-367 | a pattern written out from any well-formed terms compiles, and matches as the terms say exactly if it is not skewed |
| CronBuilders.SkewedPatternFails | pkg/cron/parser.go:350-351 | a skewed pattern compiles and does not match as its terms say |
| CronBuilders.SkewedPatternExists | pkg/cron/parser.go:350-351 | every date field of 1 by the largest step and 2-29, with any weekday, is skewed |
| CronBuilders.LargestStepFails | pkg/cron/parser.go:350-351 | with weekday `*`, such a pattern is accepted and there is a valid digest on which it does not match as it reads |
| CronBuilders.EveryMinuteIsPattern | pkg/cron/matcher_builder.go:40-44 | equals the compiled `* * * * *` |
| CronBuilders.HourlyIsPattern | pkg/cron/matcher_builder.go:47-55 | equals the compiled `m * * * *` |
| CronBuilders.DailyIsPattern | pkg/cron/matcher_builder.go:58-66 | equals the compiled `m h * * *` |
| CronBuilders.WeeklyIsPattern | pkg/cron/matcher_builder.go:69-79 | equals the compiled `m h * * d` |
| CronBuilders.MonthlyIsPattern | pkg/cron/matcher_builder.go:82-90 | equals the compiled `m h d * *` |
| CronBuilders.BusinessHoursIsPattern | pkg/cron/matcher_builder.go:93-106 | equals the compiled `m 9-17 * * 1-5` |
| CronBuilders.EitherDayIsEnough | pkg/cron/parser.go:348-355 | the pattern `m h d * w` fires at that time on that day of the month and on that weekday, either being enough |
| CronBuilders.OutOfRangeNeverFires | pkg/cron/matcher_builder.go:47-106 | with an argument out of range a builder's matcher never fires |
| CronSchedule.PatternTimes | pkg/cron/parser.go:314-327 | from text to times: the item parsed from a pattern is run in a window at exactly the whole minutes whose digest the fields of the pattern select, by its match function and by its arrays alike |
| CronSchedule.MatcherTimes | pkg/cron/matcher.go:24-28 | an item with a match function of its own is run at exactly the whole minutes the function selects |
| CronSchedule.WindowIsExact | pkg/cron/matcher.go:76-90 | the times of any window are exactly the matching whole minutes before its end and later than a minute before its start, each once, ascending |
| CronSchedule.LastExecutionNeverGoesBack | pkg/cron/scheduler.go:499-504 | over every session last_execution of no identifier goes back or is lost, whatever the clock does and whichever calls fail |
| CronScheduler.Scheduler.GetScheduleTimesInRange | pkg/cron/matcher.go:76-90 | the loop computes exactly the times of the window |
| CronScheduler.Scheduler.IsTaskAlreadyScheduled | pkg/cron/scheduler.go:456-489 | holds exactly if the stored time has the digest of the clock now |
| CronScheduler.Scheduler.RecordScheduledTask | pkg/cron/scheduler.go:491-512 | whole new rows; no stored time goes back |
| CronScheduler.Scheduler.ScheduleTask | pkg/cron/scheduler.go:220-289 | which of check, record and enqueue took effect, for each call that may fail: the job is added, at the very time given, exactly if none failed and the stored time does not have the digest of the clock |
| CronScheduler.Scheduler.ProcessScheduledTasks | pkg/cron/scheduler.go:194-209 | the loop over the items is the tick of the session model |
| CronScheduler.Scheduler.BackfillOne | pkg/cron/scheduler.go:419-453 | the loop over the times of a window, ended by the first failing call |
| CronScheduler.Scheduler.PerformBackfill | pkg/cron/scheduler.go:362-416 | the loop over the items, skipping those without backfill or stored time |
| CronScheduler.Scheduler.RegisterKnownCrontabs | pkg/cron/scheduler.go:308-332 | exactly the known identifiers and those before the first failing insert have a row; known rows are kept |
| CronScheduler.Scheduler.Start | pkg/cron/scheduler.go:79-127 | registers and backfills; a second start is refused and changes nothing; one that cannot register leaves it stopped |
| CronTheorems.SessionRowOf | pkg/cron/scheduler.go:194-209 | items with different identifiers do not disturb each other in a session |
| CronTheorems.AtMostOnceAMinute | pkg/cron/scheduler.go:463-512 | backfill and all ticks after it whose minutes do not go back when they match never enqueue a minute twice for an item, exactly if its stored time is not ahead of a matching minute that looks different |
| CronTheorems.AheadDuplicates | pkg/cron/scheduler.go:499-504 | if it is, any two ticks in that minute whose calls succeed enqueue it twice |
| CronTheorems.OnlyMatchesAreEnqueued | pkg/cron/scheduler.go:194-453 | whatever fails, every time enqueued matches its item, and is that of a live tick or, for an item with backfill that ran before, a whole minute of its backfill period |
| CronTheorems.ExactlyOnceAMinute | pkg/cron/scheduler.go:194-291 | with no failing call and within 1827 days of the stored time, every matching tick has its minute enqueued, once |
| CronTheorems.BackfillIsExact | pkg/cron/scheduler.go:362-453 | backfill enqueues its whole window in order exactly if no call fails and no check, at whatever time it reads the clock, reads the digest of what is stored by then |
| CronTheorems.FailureEndsBackfill | pkg/cron/scheduler.go:437-452 | the first call that fails ends the backfill of an item: exactly the times before it were enqueued |
| CronTheorems.BackfillInWindow | pkg/cron/scheduler.go:362-453 | so it does when last_execution is in an earlier minute and the checks read the clock within 1827 days of it, however long the backfill takes: exactly the matching whole minutes before now, from that of last_execution and from that of now - fill on, once each, ascending |
| SharedOptions.KeyInjective | pkg/worker/lib.go:47-60 | the cache key tells all keyed options apart, also when the schema contains the separator |
| SharedOptions.CacheAgreesWithCompile | pkg/worker/lib.go:64-152 | after every history of calls the compiled options equal those of a fresh compile, but for the statement mode: options field by field, schema in quotes, intervals of 8 and 10 minutes |
| SharedOptions.StatementModeIsFirst | pkg/worker/lib.go:47-60 | noPreparedStatements is not keyed: the first request with a key decides it for the later ones |
| SharedOptions.WorkerPoolOptions.ApplyDefaultOptions | pkg/worker/config.go:51-70 | a given option stays; an unset schema is that of the environment or graphile_worker, the unset numbers are 1, 2 seconds, 10 and 10; doing it again changes nothing |
| SharedOptions.OptionsCache.Obtain | pkg/worker/lib.go:78-126 | a hit leaves the cache as it is and a miss adds one entry; either way the entry agrees with a fresh compile |
| SharedOptions.OptionsCache.Scoped | pkg/worker/lib.go:128-145 | without a scope the shared object itself, with one a new object that differs in the logger only, where the additional scope wins if it says something |
| SharedOptions.OptionsCache.ProcessSharedOptions | pkg/worker/lib.go:64-152 | options given or missing, the result has the options given, or their defaults, field by field, the schema in quotes and the literal intervals; the cache is the one of the history model |
| SharedOptions.OptionsCache.ClearCache | pkg/worker/lib.go:401-407 | empties the cache |
| Migrations.LoadedAscends | internal/migrate/migrator.go:73-118 | one migration for each file named by six digits and .sql, with its number, name and content, strictly ascending by number and by name |
| Migrations.Migrator.LoadMigrations | internal/migrate/migrator.go:73-118 | the scan and sort compute that list |
| Migrations.Migrator.GetLatestMigration | internal/migrate/migrator.go:121-141 | the largest recorded id; nothing without a table; an error exactly if the table is empty |
| Migrations.Migrator.Migrate | internal/migrate/migrator.go:172-220 | one run, with any transaction failing or committing unseen, is the run of the model |
| Migrations.RunKeeps | internal/migrate/migrator.go:172-220 | every run keeps a prefix and loses nothing, success means the whole list, and a complete or stuck database stays as it is |
| Migrations.RunAppliesUntilFailure | internal/migrate/migrator.go:201-217 | a run on a table with rows applies, in order, the migrations not recorded yet, up to the end or the first failure, and tells which |
| Migrations.FirstRunAppliesUntilFailure | internal/migrate/migrator.go:187-217 | so does a first run once the base schema is there |
| Migrations.RecordedIsPrefix | internal/migrate/migrator.go:201-217 | after any runs the recorded migrations are a prefix of those numbered above 0 |
| Migrations.PrefixOfWholeList | internal/migrate/migrator.go:202 | they are always a prefix of the whole list exactly if it does not have a migration 0 before others |
| Migrations.MigrationsResume | internal/migrate/migrator.go:172-220 | a run that succeeds after any failed ones ends where one clean run does, and further runs apply nothing |
| Migrations.StuckExactly | internal/migrate/migrator.go:121-141 | the table stays empty for good exactly if the first run that created it committed no migration |
| Migrations.RecoversExactly | internal/migrate/migrator.go:121-141 | a clean run succeeds exactly if that has not happened |

## Left out

- BackoffIsExponential: the decimal text the database prints for the powers of e is not modelled; the eleven values are constants rounded to microseconds.
- Worker pool: `processAvailableJobs` (pkg/worker/worker_pool.go:483-506) is the same loop as RunOnce over another context, and is not written out a second time.
- Worker loop: the polling loop of `Run`, its timers, nudges, contiguous errors and graceful shutdown.
- A shared worker driven by several goroutines (pkg/runner/runner.go:285-293).
- useNodeTime on, where the workers' clocks may differ.
- Statements still under way on the server after their worker lost its connection.
- The SQL functions `add_job`, `remove_job`, `permanently_fail_jobs` and `reschedule_jobs` and the queue-row triggers: their bodies are not part of this model, which inserts fresh unlocked jobs only.
- Handlers that insert jobs while RunOnce runs, or change the tables otherwise.
- Event bus delivery and event payloads: only the order and kind of the events of a job are kept.
- Error message texts; of parse errors, the kind and the part are kept.
- Regular expressions: the three term shapes, the five fields and the migration name are stated directly.
- Sorting: `sort.Ints` and `sort.Slice` are any sort with the same members.
- The parser's remaining entry points: crontab lines, options, payloads and time phrases.
- `CreateConditionalMatcher`, which reads the clock.
- The mark of parsed items (`IsParsed`, pkg/cron/types.go:109-111): it compares values of an empty struct type and always holds.
- CronSchedule.LastExecutionNeverGoesBack: times have nanoseconds; the rounding of the stored column to microseconds, which moves no time to another minute, is not modelled.
- Several schedulers on one database, or restarts: the check and the insert are separate statements, and backfill begins in the minute of last_execution itself.
- The cron events about late and early timers, which change neither rows nor jobs.
- Time zones other than UTC.
- SharedOptions.CacheAgreesWithCompile: events, logger and the options pointer are not keyed and not claimed.
- The mutexes of the cache and the scheduler: their calls are taken one at a time.
- What the SQL of a migration does: the applied migrations in order stand for the schema.
- Connection pools, LISTEN/NOTIFY, signals, configuration files, the command line and logging.
