# The background scheduler

These Dafny modules model the background scheduler of the mail digest service: cron
schedules, the job table and the jobs in memory, the scheduling loop with its wakeup
channel, the task callbacks, and the worker pool. `dafny verify dfyconfig.toml` checks
them all.

Code that works in place is modelled in place. The search for the next match, the field
parser and the query builder are methods with loops; the job, the store, the task, the
scheduler and the pool are classes. Their contracts equate the new state with a function
of the old one. `SchedulerSpec` holds these functions, and the steps of `SchedulerRuns`
apply the same ones: `ScheduleJob` leaves `Scheduled` of the old data, a callback
`CalledBack`, `dispatchDueJobs` `Dispatched`, and a reload the table. `PoolRuns`
interleaves the lock sections and channel operations of the pool, and `PoolAlone` shows
that a thread which nobody interrupts does what the functions of `PoolView` say, which
specify the methods of `WorkerPool`.
`SystemRuns` composes both: the threads of the pool carry out the steps of the scheduler.

Definitions that many contracts share have laws of their own that do not use them: the
minute of an instant and the weekdays (`Cron.MatchesByFields`, `Calendar.WeekdaysFollow`),
the fields of a text (`GoStrings.FieldsAtSpace`), the capacity of the queue
(`PoolAlone.SameCapacity`), the rows that the steps write (`SchedulerLaws`). The text of a
query is read back by `JobSql`, which knows nothing of how it was built.

| module | contents |
|---|---|
| `Calendar`, `Cron`, `CronParser`, `GoStrings` | the Gregorian calendar, the search for the next match, the parser, the string functions it uses |
| `Jobs`, `JobSql`, `JobQuery`, `JobStore` | jobs and rows, a reader for query texts, the query builder, the table |
| `SchedulerSpec`, `Scheduler` | what each critical section does, as functions and as objects |
| `SchedulerRuns`, `SchedulerLaws` | runs of schedule calls, loop, callbacks, clock, failing writes and restarts; what each step means for one job, field by field |
| `WorkerPool`, `PoolRuns`, `PoolAlone`, `PoolTasks`, `LockWaits`, `LockProgress` | the pool as an object; runs of its threads; one thread alone; its tasks; waiting for locks; who can still be served |
| `SystemRuns` | scheduler and pool together: which job each task belongs to, executions, backpressure |

## Main results

* `Next` returns the least matching minute, at most 14609 days ahead. That bound is
  reached: from 29 February 1880 the next 29 February on a Sunday is in 1920. The search
  returns if and only if the schedule has a month that can be as long as one of its days.
  `0 0 30 2 *` parses, and the search for it never returns.
* A field is accepted if and only if it is `*` or a comma list of in-range values and
  ordered in-range pairs; its value is their union. Printing and parsing is the identity.
* While the loop waits with an empty wakeup channel, no pending job is due before its
  target, with one exception that is characterised exactly: a repeated `ScheduleJob`
  whose write fails after the job was changed in memory.
* Scheduler and pool together: the executions of a key, done and to come, exceed its
  `ScheduleJob` calls at most by the restarts that revive it, over any run. A restart
  revives a key if and only if nothing was to come for it and the table that the old
  process leaves has it pending; no other step, apart from the calls, adds an execution.
  Two things leave such a table: a failed write, and a process that ends between the
  acceptance of a task and its write. If neither happens, each call buys at most one
  execution, and that bound is reached. If the process ends there, one call can be
  executed twice although no call of the store fails; a run shows it.
* The same holds of dispatches in the scheduler alone. A call can also buy no dispatch: a
  pending job that is not dispatched stops being pending if and only if a task of it
  calls back, or a restart reads another row.
* Memory mirrors the table except for jobs whose last write failed. A retry count is the
  number of failures since the last success or schedule call, until a restart reads the
  job from a row with another count; no other step makes the two differ, and that step is
  reachable. Each job has at most one outstanding task unless it is rescheduled while one
  is outstanding; only then can the cutoff of five failures be reached, and it is.
* `dispatchDueJobs` submits exactly min(k, f) of the k due jobs to a pool with f free
  slots, in any order of the map, and leaves all others as they are. Among other threads,
  a submission that comes back without an accepted task has found the pool stopped or its
  queue full, and the loop tries the job again without waiting.
* The counters of the pool balance at every point between two lock sections; tasks are
  received in the order they were accepted, run at most once and get one callback. While
  the job lock is free, the outstanding tasks of a job are exactly its accepted tasks
  without a callback.
* Threads wait for locks in a circle if and only if the loop, in `Submit` under the job
  lock, wants the counters, and a worker in front of its callback holds the counters and
  wants the job lock. That state is permanent, and one schedule call is enough to reach
  it in the composed system. A pool whose callbacks take no lock has no circular wait.
* A thread that waits for a lock is served by some continuation if and only if it does not
  wait for the job lock, or for the counters behind a callback, while the loop is stuck in
  a submission. The loop is stuck already before there is a circle, as soon as it has
  passed the test of the flag with room in the queue while a callback waits, or is about
  to send to the closed queue. With callbacks that take no lock, `Stop` can always return.
* While a schedule call with an impossible schedule hangs in its section, nothing is
  dispatched and no task is called back.
* From the moment `Stop` sets its flag until a panic, a send can still meet the closed
  queue if and only if some submission has passed the test of the flag and not yet sent.

## What is assumed

Times are integers in nanoseconds since the zero time of Go, in UTC; the clock never goes
back. Each critical section reads the clock once. A flag `io` says whether a call of the
store goes through: the payload can be marshalled and the database answers. Any call may
fail. Fresh ids, payload texts and handler outcomes are inputs. Handlers do not change the
job they get.

A schedule that parses and can never match makes `ScheduleJob` hang with the job lock
held, if the payload can be marshalled; otherwise the call returns the error first. The
methods and steps that compute a next run therefore ask for `ScheduleHalts`.
`SchedulerRuns.OnlyScheduleCallsHang` says that this excludes exactly the calls whose
search never returns, and that callbacks never meet such a schedule.
`LockWaits.HungCallStopsTheScheduler` says what such a call does to the others.

Where the documentation of the repository and its code differ, the model follows the
code. `README.md:17` and `README.md:23` speak of ten retries and a dead letter queue. In
the code a failed job keeps its status until it is scheduled again, the cutoff is five
failures (`internal/scheduler/job_handler.go:156`), and no status becomes `dead`. The
backoff that a comment calls exponential is quadratic. Day of month and weekday must both
match, where POSIX.1-2017 `crontab` takes either. The option `Before` of `ListJobs`
reaches the query as a lower bound.

## Model

| member | source | states |
|---|---|---|
| Calendar.FirstDay | internal/scheduler/cron.go:96-98 | day 0 is 1 January of year 1, where the clock's zero time lies |
| Calendar.DateOfSuccessor | internal/scheduler/cron.go:96-98 | each day's date is the calendar successor of the date before, for all days |
| Calendar.WeekdaysFollow | internal/scheduler/cron.go:98 | day 0 is a Monday, and each day has the weekday after that of the day before |
| Calendar.MonthTable | internal/scheduler/cron.go:96-97 | the days before each month, as a table |
| Calendar.KnownDates | internal/scheduler/cron.go:96-98 | dates that anchor the numbering: 1 January 1970, a Thursday; 29 February 2000; no 29 February in 1900 |
| Calendar.CivilDateCorrect | internal/scheduler/cron.go:96-98 | the computed day and month are those of the only valid date with that day number |
| Calendar.CalendarPeriod | internal/scheduler/cron.go:96-98 | dates and weekdays repeat after 146097 days |
| Cron.FieldsMatch | internal/scheduler/cron.go:94-98 | the loop test succeeds exactly for minutes whose five fields are all in their sets |
| Cron.MatchesByFields | internal/scheduler/cron.go:94-98 | the minute with a given date, hour and minute of the hour matches if and only if each of the five fields is in its set |
| Cron.MinuteOfInstant | internal/scheduler/cron.go:92-101 | the minute of an instant that is given in nanoseconds by its day, hour, minute and rest |
| Cron.Next | internal/scheduler/cron.go:90-103 | the result is the first whole minute strictly after the start that matches, and at most 14609 days later |
| Cron.HaltsIffPossible | internal/scheduler/cron.go:90-103 | the search returns if and only if some time of day, some weekday and some date of the calendar match, whatever the start |
| Cron.MatchingDayAfter | internal/scheduler/cron.go:90-103 | after every day a possible schedule has a matching day within 14609 days, also for 29 February on one weekday |
| Cron.LongestGapIsReached | internal/scheduler/cron.go:90-103 | the bound of 14609 days is tight: 29 February 1880 to 29 February 1920 |
| Cron.NextMonotone | internal/scheduler/cron.go:90-103 | a later start never gives an earlier result |
| Cron.NextPeriodic | internal/scheduler/cron.go:90-103 | starting 146097 days later gives the result 146097 days later |
| Cron.FiringsAreComplete | internal/scheduler/cron.go:90-103 | iterating the search reaches every matching minute after the start |
| GoStrings.SplitJoin | internal/scheduler/cron.go:63 | splitting inverts joining when no part holds the separator |
| GoStrings.JoinSplit | internal/scheduler/cron.go:63 | joining the parts of a split gives the text back |
| GoStrings.FieldsJoin | internal/scheduler/cron.go:21 | words joined with blanks are the fields of the text |
| GoStrings.FieldsAtSpace | internal/scheduler/cron.go:21 | a space of any kind separates the fields before it from those behind it, wherever it stands, so runs of spaces and spaces at the ends give no empty fields |
| GoStrings.FieldsOfOneWord | internal/scheduler/cron.go:21 | a word is its own field, and the empty text has none |
| GoStrings.SpaceCharacters | internal/scheduler/cron.go:21 | blank, tab and the line breaks are spaces, and no visible character of ASCII is |
| GoStrings.DigitsByPlace | internal/scheduler/cron.go:70-79 | digits count by their place |
| GoStrings.LeadingZero | internal/scheduler/cron.go:70-79 | a leading zero does not count |
| GoStrings.AtoiSigns | internal/scheduler/cron.go:70-79 | a plus sign changes nothing and a minus sign negates |
| GoStrings.AtoiItoa | internal/scheduler/cron.go:70-79 | a printed natural number reads as itself |
| CronParser.FillRange | internal/scheduler/cron.go:58-60 | the loop adds exactly the values between both ends, none if they are reversed |
| CronParser.ParseCronField | internal/scheduler/cron.go:55-87 | the loops compute the value or the first error of the field; an accepted value is non-empty and in range |
| CronParser.FieldGrammar | internal/scheduler/cron.go:55-87 | a field is accepted with set s if and only if it is `*` and s is the range, or it is written as a comma list of in-range values and ordered in-range pairs and s is their union |
| CronParser.FieldInRange | internal/scheduler/cron.go:55-87 | accepted fields are non-empty and in range |
| CronParser.ParseCron | internal/scheduler/cron.go:20-52 | five fields, each in its range; the first bad one decides the error |
| CronParser.FirstBadPart | internal/scheduler/cron.go:64-84 | the error of a list is that of its first bad part |
| CronParser.PartError | internal/scheduler/cron.go:65-82 | a bad part is named, as a range if it has a dash and else as a value |
| CronParser.HalfPastNine | internal/scheduler/cron.go:20-103 | `30 9 * * *` parses with the minute first and the hour second, and from any midnight its next match is half past nine of the same day |
| CronParser.ParsedWellFormed | internal/scheduler/cron.go:20-52 | an accepted expression has five non-empty sets in range |
| CronParser.ParsedPossible | internal/scheduler/cron.go:20-103 | a parsed schedule can match if and only if one of its days fits the longest length of one of its months |
| CronParser.ThirtiethOfFebruaryHangs | internal/scheduler/cron.go:20-103 | a concrete accepted expression whose search never returns |
| CronParser.FieldRoundTrip | internal/scheduler/cron.go:55-87 | a non-empty set printed as values or as maximal ranges parses to itself |
| CronParser.CronRoundTrip | internal/scheduler/cron.go:20-52 | five sets printed as values or as maximal ranges parse to themselves |
| Jobs.StatementsKeepTableValid | internal/scheduler/job.go:94-108 | insert, update and delete keep the primary key and the unique triple |
| Jobs.StatementsMean | internal/scheduler/job.go:119-271 | an insert goes through exactly if neither id nor triple is taken, an update exactly if the row is there and no other has the triple, a delete exactly if the row is there; and what the table is then |
| Jobs.Job.Record | internal/scheduler/job_handler.go:112-157 | a callback changes status, error, retry count and next run of the shared job, nothing else |
| JobQuery.BuildQuery | internal/scheduler/job.go:199-233 | the text, read back by its column names and evaluated with its positional arguments, selects a row if and only if the filter does; it ends in the ascending order of next run, and has one question mark for each argument; each placeholder gets the argument for its column and place |
| JobQuery.TextMeansConditions | internal/scheduler/job.go:201-233 | reading the text back and evaluating it is the conjunction of the conditions, for lists of statuses of any length |
| JobQuery.AppendCondition | internal/scheduler/job.go:203-226 | appending a condition and its arguments restricts the conjunction by just that condition |
| JobQuery.AppendSlots | internal/scheduler/job.go:203-226 | appending a condition appends its placeholders behind the others |
| JobQuery.MarksQuery | internal/scheduler/job.go:229-233 | the question marks in the text are as many as the conditions have placeholders |
| JobQuery.StatusArgs | internal/scheduler/job.go:216-220 | one argument for each status, in order, for lists of any length |
| JobStore.SQLiteJobStore.CreateJob | internal/scheduler/job.go:119-154 | id, status and stamps are filled in even if the insert fails; the table changes only if neither id nor triple is taken |
| JobStore.StampsFillIn | internal/scheduler/job.go:120-130 | a stamped job has an id, a status and both times; what it had stays |
| JobStore.SQLiteJobStore.UpdateJob | internal/scheduler/job.go:163-196 | the job is stamped; its row is replaced, except for the creation time, or the call fails and the table stays |
| JobStore.SQLiteJobStore.DeleteJob | internal/scheduler/job.go:256-271 | only this row goes; a missing row is an error |
| JobStore.SQLiteJobStore.ListJobs | internal/scheduler/job.go:199-253 | exactly the rows that the filter selects, none twice, in ascending order of next run |
| JobStore.RunQuery | internal/scheduler/job.go:229-253 | exactly the rows that the text with its arguments selects, in ascending order of next run |
| JobStore.LimitedListing | internal/scheduler/scheduler.go:251-256 | each listed row fits all options; a listing shorter than its limit is complete, and what the limit cuts off is not due before what is listed |
| SchedulerSpec.ScheduleHaltsAlways | internal/scheduler/scheduler.go:119-125 | a schedule that parses makes the computation of its next run hang at every time or at none |
| SchedulerSpec.PersistedConsistent | internal/scheduler/job.go:163-196 | on consistent data the table refuses no write: one that goes through takes effect, and consistency survives either way |
| SchedulerSpec.CreatedConsistent | internal/scheduler/scheduler.go:97-115 | creating a job for a new key adds it to memory and table or changes nothing |
| SchedulerSpec.DispatchedStep | internal/scheduler/scheduler.go:171-189 | dispatching job by job is dispatching the set, so the order of the map does not matter |
| SchedulerSpec.DispatchedOne | internal/scheduler/scheduler.go:178-184 | dispatching one job is persisting its new state |
| SchedulerSpec.NextWakeUnique | internal/scheduler/scheduler.go:193-203 | the specification of the loop's target admits one target only |
| SchedulerSpec.BackoffBelowLimit | internal/scheduler/job_handler.go:148-159 | the next run after a failure is at most 16 minutes away, so the limit of a day never matters, or it is the zero time, exactly from the fifth failure on |
| Scheduler.ComputeNextRun | internal/scheduler/scheduler.go:119-125 | the next match of the schedule, or one hour from now if it does not parse |
| Scheduler.JobTask.Execute | internal/scheduler/job_handler.go:82-99 | the outcome of the handler for the job's type; without a job or a handler the error that says so |
| Scheduler.JobTask.OnSuccess | internal/scheduler/job_handler.go:102-129 | memory and, if the write succeeds, the table get the row of a success, and the loop is woken either way; `SchedulerLaws.SuccessMeans` says what that row is |
| Scheduler.JobTask.OnFailure | internal/scheduler/job_handler.go:132-170 | memory and, if the write succeeds, the table get the row of a failure, and the loop is woken either way; `SchedulerLaws.FailureMeans` says what that row is |
| Scheduler.Scheduler.Save | internal/scheduler/scheduler.go:178-184 | a changed job is in memory, and in the table if the write succeeds |
| Scheduler.Scheduler.FinishJob | internal/scheduler/job_handler.go:109-128 | the outcome is in memory and, if the write succeeds, in the table; a job that was in the map leaves everything consistent |
| Scheduler.Scheduler.SignalCronWakeup | internal/scheduler/scheduler.go:128-133 | afterwards the channel is full |
| Scheduler.Scheduler.LoadJobsFromDB | internal/scheduler/scheduler.go:53-62 | loading into an empty map makes memory equal to the table, or leaves it empty on an error |
| Scheduler.Scheduler.FindJob | internal/scheduler/scheduler.go:82-83 | a job with this key, or null exactly when no job has it |
| Scheduler.Scheduler.Reschedule | internal/scheduler/scheduler.go:84-93 | the existing job is reset to Pending; a failed write keeps the reset in memory but does not wake the loop |
| Scheduler.Scheduler.Create | internal/scheduler/scheduler.go:97-115 | a new Pending job in memory and table, with a wakeup, or nothing changes |
| Scheduler.Scheduler.ScheduleJob | internal/scheduler/scheduler.go:65-116 | resets the job with this key, creates it if there is none, and changes nothing if the payload cannot be marshalled, whatever the schedule; no two jobs ever share a key |
| Scheduler.Scheduler.FindNextJobTime | internal/scheduler/scheduler.go:193-203 | the earliest next run of a pending job, at most a day from now |
| Scheduler.Scheduler.VisitJob | internal/scheduler/scheduler.go:172-187 | a job is submitted if and only if it is due and the pool has a slot; only then does it change |
| Scheduler.Scheduler.DispatchDueJobs | internal/scheduler/scheduler.go:168-190 | exactly min(k, f) distinct due jobs are submitted, become Running with the target as last run, and all others stay, for every order of the map |
| Scheduler.Scheduler.ListJobs | internal/scheduler/scheduler.go:222-257 | the first rows, up to the limit, of all rows that the options want, in ascending order of next run |
| Scheduler.KeepAfter | internal/scheduler/scheduler.go:243-249 | exactly the rows that are not before the bound, in their order |
| Scheduler.AllRows | internal/scheduler/scheduler.go:53-62 | the listing without a filter holds the whole table |
| Scheduler.LoopStep | internal/scheduler/scheduler.go:171-188 | visiting one more job keeps the invariant of the dispatch loop |
| Scheduler.LoopEnds | internal/scheduler/scheduler.go:171-189 | once all jobs are visited the pool has taken as many due jobs as it could |
| SchedulerRuns.StepInv | internal/scheduler/scheduler.go:65-203 | every step of every thread keeps the joint invariant of data, wakeups, budget, retries and tasks |
| SchedulerLaws.SuccessMeans | internal/scheduler/job_handler.go:111-128 | after a success the job is Completed with no error and no retries, runs next at the first match of its schedule after the clock, or an hour on if that does not parse, and keeps the rest; the table agrees if the write succeeded; nothing else changes but the wakeup and the task |
| SchedulerLaws.FailureMeans | internal/scheduler/job_handler.go:142-169 | after a failure the job is Failed with the error and one more retry, runs next after the square of its retries in minutes, and has the zero time exactly from the fifth failure on; the rest as after a success |
| SchedulerLaws.RescheduleMeans | internal/scheduler/scheduler.go:82-94 | a call for a key with a job sets it to Pending with the new payload, no retries and the next match of its schedule, and keeps the rest; the table agrees, and the loop is woken, if the write succeeded |
| SchedulerLaws.CreateMeans | internal/scheduler/scheduler.go:97-115 | a call for a new key creates a pending job with the payload and the next match of its schedule in memory and table, and wakes the loop, or changes nothing |
| SchedulerLaws.UnmarshalledMeans | internal/scheduler/scheduler.go:74-79 | a payload that cannot be marshalled changes nothing |
| SchedulerLaws.TargetMeans | internal/scheduler/scheduler.go:193-203 | the loop waits for the pending job that is due first, and 24 hours if none is due before |
| SchedulerLaws.DispatchMeans | internal/scheduler/scheduler.go:172-184 | a dispatched job is Running with the target as last run and one more task, and keeps the rest; all other jobs stay; the table learns of the written ones |
| SchedulerLaws.ForceCheckWakes | internal/scheduler/scheduler.go:135-139 | a forced check lets a waiting loop compute again |
| SchedulerLaws.OverlapExactly | internal/scheduler/scheduler.go:82-88 | an overlap is recorded exactly by a schedule call that resets a job with an outstanding task |
| SchedulerLaws.UnwrittenExactly | internal/scheduler/job.go:163-196 | a job counts as unwritten exactly if the last step that wrote it failed to, until a restart |
| SchedulerRuns.NoLostWakeup | internal/scheduler/scheduler.go:128-165 | while the loop waits with an empty channel, no pending job is due before its target but those whose reset could not be written |
| SchedulerRuns.NoLostWakeupWhenStored | internal/scheduler/scheduler.go:128-165 | with succeeding writes no pending job is due before the target |
| SchedulerRuns.WakeupIsLostExactly | internal/scheduler/scheduler.go:82-94 | a step loses a wakeup if and only if it resets a job to before the target and its write fails while the channel is empty |
| SchedulerRuns.FailedWriteLosesWakeup | internal/scheduler/scheduler.go:89-91 | a reachable state in which the loop sleeps past a pending job |
| SchedulerRuns.WaitsAreBounded | internal/scheduler/scheduler.go:148-203 | a wait ends at most a day after it was computed, and no timer fires early |
| SchedulerRuns.DispatchIsTimely | internal/scheduler/scheduler.go:148-190 | each submitted job was Pending and due at the target, which the clock has reached, for any set that the pool accepts; each due job is Running with one more task, or is unchanged and still due |
| SchedulerRuns.EachCallBuysOneDispatch | internal/scheduler/scheduler.go:65-190 | an upper bound: dispatches of a key, plus one if it is pending, never exceed its schedule calls plus its unwritten dispatches |
| SchedulerRuns.SpentGrowsExactly | internal/scheduler/scheduler.go:53-190 | apart from schedule calls for it, a step adds to the dispatches of a key, plus one if it is pending, if and only if it is a restart that makes the key pending again from the table, and then it adds one; a schedule call adds at most one |
| SchedulerRuns.OnlyRevivalsExceedTheBudget | internal/scheduler/scheduler.go:53-190 | over any run, dispatches plus one if pending exceed the schedule calls at most by the number of these restarts |
| SchedulerRuns.EachCallBuysOneDispatchWhenStored | internal/scheduler/scheduler.go:65-190 | with succeeding writes, dispatches plus one if pending never exceed the schedule calls |
| SchedulerRuns.LostWriteRepeatsDispatch | internal/scheduler/scheduler.go:180-183 | a reachable state with one schedule call and two dispatches, after a failed write and a restart |
| SchedulerRuns.MemoryMirrorsTable | internal/scheduler/scheduler.go:81-190 | memory and table hold the same ids and keys, no key twice, and the same rows except for jobs whose last write failed; no job becomes dead |
| SchedulerRuns.ReloadRebuildsMemory | internal/scheduler/scheduler.go:53-62 | with succeeding writes memory is the table, and reloading rebuilds exactly it |
| SchedulerRuns.RetryCountsFailures | internal/scheduler/job_handler.go:112-159 | unless a restart read the job from an outdated row, the retry count is the number of failures since the last success or schedule call; a pending job has none and a time to run |
| SchedulerRuns.RetriesAreLostExactly | internal/scheduler/job_handler.go:112-168 | a step makes the retry count differ from the number of failures if and only if it is a restart that reads the job from a row with another count |
| SchedulerRuns.RestartForgetsFailure | internal/scheduler/job_handler.go:161-165 | a reachable state with one failure and no retry counted, after a failed write and a restart |
| SchedulerRuns.OneTaskPerJob | internal/scheduler/scheduler.go:168-190 | without rescheduling under an outstanding task each job has at most one, retry counts stay below two, and without restarts Running means exactly one task |
| SchedulerRuns.CutoffNeedsOverlap | internal/scheduler/job_handler.go:155-159 | five failures need a job that was rescheduled while a task of it was outstanding |
| SchedulerRuns.CutoffIsReachable | internal/scheduler/job_handler.go:155-159 | with such overlaps the cutoff is reached |
| SchedulerRuns.IdleJobUnchanged | internal/scheduler/scheduler.go:65-190 | a job without outstanding tasks changes only by a schedule call for it, its dispatch, or a reload of an outdated row |
| SchedulerRuns.IdleJobStays | internal/scheduler/scheduler.go:65-190 | so it stays the same over every run that does none of these |
| SchedulerRuns.PendingIsLostExactly | internal/scheduler/job_handler.go:112-143 | a pending job that is not dispatched stops being pending if and only if a task of it calls back or a restart reads a row that is not pending |
| SchedulerRuns.CallBuysNoDispatch | internal/scheduler/job_handler.go:112-127 | a reachable state with two schedule calls and one dispatch in which the job is neither pending nor outstanding |
| SchedulerRuns.RunningIsOrphanedByRestart | internal/scheduler/scheduler.go:53-62 | a job whose row says Running at a restart, also because the write of its callback failed, stays Running without a task until it is scheduled again |
| SchedulerRuns.OnlyScheduleCallsHang | internal/scheduler/scheduler.go:65-125 | callbacks never hang; a schedule call hangs exactly when its payload can be marshalled, its schedule parses, and no round of the search succeeds |
| WorkerPool.WorkerPool.constructor | internal/worker/pool.go:40-53 | at least one worker, an empty queue with room for twice as many tasks as workers, counters at zero |
| WorkerPool.WorkerPool.Submit | internal/worker/pool.go:105-127 | alone, it accepts at the back of the queue exactly when the pool runs and has a free slot, and counts the task |
| WorkerPool.WorkerPool.Work | internal/worker/pool.go:64-102 | the loop of a worker alone executes the queued tasks, all and in the order of acceptance, and leaves the queue and the counters as one turn after the other does |
| WorkerPool.WorkCounts | internal/worker/pool.go:71-99 | when a worker has emptied the queue, each task was counted once as completed or failed, their durations are added up, the number of queued tasks has gone down by their number, and the worker is not active |
| WorkerPool.OutcomesAddUp | internal/worker/pool.go:92-98 | every task is counted under exactly one outcome |
| PoolAlone.SubmitAlone | internal/worker/pool.go:105-127 | the steps of a submission that nobody interrupts leave queue, flag and counters as `WorkerPool.Submit` does, whether the task is accepted, the queue is full or the pool is stopped |
| PoolAlone.SameCapacity | internal/worker/pool.go:49 | the queue of the pool object and that of the runs have room for the same number of tasks, twice the number of workers |
| PoolAlone.StartAlone | internal/worker/pool.go:71-83 | the steps in which a worker receives and counts a task take the front of the queue, as in the loop of `WorkerPool.Work` |
| PoolAlone.FinishAlone | internal/worker/pool.go:84-99 | the steps from the end of a task to the next turn count its outcome, as in the loop of `WorkerPool.Work`, and make the callback for it |
| PoolAlone.ResetAlone | internal/worker/pool.go:156-165 | the steps of a reset clear all counters but the number of active workers, and nothing else |
| PoolAlone.StopAlone | internal/worker/pool.go:130-137 | the steps of `Stop` up to its wait set the flag, cancel and close, and leave the queued tasks and the counters |
| PoolAlone.ReadersSeeOneMoment | internal/worker/pool.go:141-153 | while a reader copies the counters no thread changes them, over any run, so the copy balances |
| PoolRuns.StepConserved | internal/worker/pool.go:71-122 | every lock section and channel operation keeps the equations of the counters |
| PoolRuns.StepMutuallyExclusive | internal/worker/pool.go:64-165 | no step makes two threads hold a lock against each other |
| PoolRuns.StepStopOk | internal/worker/pool.go:130-138 | flag, cancellation and closed queue follow `Stop`, which returns only after all workers have ended |
| PoolTasks.PoolConserves | internal/worker/pool.go:71-165 | in every reachable state queued = channel + received and not counted - sent and not counted, and accepted = channel + received and not counted + active + completed + failed, up to fixed amounts cleared by resets |
| PoolTasks.PoolIsBounded | internal/worker/pool.go:40-61 | the channel holds at most twice as many tasks as there are workers, and at most one task for each worker is in hand |
| PoolTasks.WorkersServeUntilStop | internal/worker/pool.go:64-74 | as long as `Stop` has not cancelled, all workers are there, and one at its turn can take a task exactly if the queue has one, and cannot end |
| PoolTasks.StepTicketsOk | internal/worker/pool.go:64-127 | every step keeps each accepted task in one place |
| PoolTasks.ReceiveOrderIsAcceptOrder | internal/worker/pool.go:64-127 | over every run the tickets received, followed by the queue, are the tickets accepted |
| PoolTasks.ExecutedAtMostOnce | internal/worker/pool.go:64-101 | over every run a task is executed at most once, and has exactly one of both callbacks once it was executed and no worker holds it |
| PoolTasks.AcceptedTaskIsSomewhere | internal/worker/pool.go:64-127 | an accepted task is in the queue, in the hands of exactly one worker, or called back |
| PoolTasks.OutstandingChanges | internal/worker/pool.go:64-127 | only an accepting send adds an outstanding task, and only its callback removes it |
| PoolTasks.StoppedPoolIsQuiet | internal/worker/pool.go:130-138 | when `Stop` has returned nothing runs and accepted = called back + abandoned in the queue |
| PoolTasks.StoppedPoolStaysQuiet | internal/worker/pool.go:130-138 | afterwards nothing is accepted, received, executed or called back in any run |
| PoolTasks.PanicNeedsAdmittedSubmission | internal/worker/pool.go:105-138 | from any reachable state with the flag set and no panic yet, some continuation panics if and only if a submission has passed the test of the flag and not yet sent |
| LockWaits.PanicIsReachable | internal/worker/pool.go:110-136 | in runs of the pool alone, with any number of workers, every start leads to the send to the closed queue |
| LockWaits.CircularWaitExactly | internal/worker/pool.go:88-121 | threads wait in a circle if and only if the loop in `Submit` under the job lock and a worker in front of its callback wait for each other |
| LockWaits.OnlyThePairWaitsInACircle | internal/worker/pool.go:88-121 | every circle of waiting threads consists of these two |
| LockWaits.LockFreePoolHasNoCircularWait | internal/worker/pool.go:64-138 | with callbacks that take no lock there is no circular wait |
| LockWaits.WaitingEndsAtEnabledThread | internal/worker/pool.go:64-165 | without the circle, the waits of a thread lead, through others, to one that waits for nobody; whether the thread is served says `LockProgress.WaitersAreServedExactly` |
| LockWaits.HungCallStopsTheScheduler | internal/scheduler/scheduler.go:65-125 | while a caller stays in its section, in every continuation nothing is dispatched, no task is called back and no other thread has the job lock |
| LockWaits.DeadlockStays | internal/scheduler/job_handler.go:109-140 | in every continuation both threads stay, the counters, executions and callbacks stand still, callers of the scheduler stay blocked and `Stop` does not return |
| LockWaits.DeadlockIsReachable | internal/scheduler/scheduler.go:168-175 | in runs of the pool alone, with any number of workers, every start leads to the circle |
| LockProgress.WaitersAreServedExactly | internal/worker/pool.go:88-138 | in a reachable state without a panic, some continuation lets a waiting thread take its lock if and only if it does not wait for the job lock, or for the counters behind a callback, while the loop is stuck in a submission |
| LockProgress.HopelessWithoutCircle | internal/worker/pool.go:110-121 | a reachable state without a circle in which a callback can never get the job lock: the loop is about to send while the worker waits |
| LockProgress.StopCanReturn | internal/worker/pool.go:130-138 | with callbacks that take no lock, from every reachable state without a panic some continuation ends all workers and returns from `Stop` |
| SystemRuns.StepInv | internal/scheduler/scheduler.go:65-190 | every step of the composed system keeps tickets, the section of the loop, outstanding tasks and executions in agreement |
| SystemRuns.BothSystemsRun | internal/scheduler/scheduler.go:148-190 | the scheduler and the pool inside the system go through runs of their own, so all theorems about them apply |
| SystemRuns.EachCallBuysOneExecution | internal/scheduler/scheduler.go:65-190 | an upper bound: executions of a key, and accepted tasks not yet executed, never exceed its schedule calls plus its unwritten dispatches |
| SystemRuns.ExpectedGrowsExactly | internal/scheduler/scheduler.go:53-190 | apart from schedule calls for it, a step raises the executions of a key, done and to come, if and only if it ends the process while nothing is to come for the key and the table has it pending; then it raises them by one, and a schedule call raises them by at most one |
| SystemRuns.OnlyRevivalsExceedTheCalls | internal/scheduler/scheduler.go:53-190 | over any run, executions done and to come exceed the schedule calls at most by the number of these restarts |
| SystemRuns.CrashRepeatsExecution | internal/scheduler/scheduler.go:175-180 | one schedule call and two executions in a run in which no call of the store fails: the process ends between the acceptance of the task and its write |
| SystemRuns.EachCallBuysOneExecutionWhenStored | internal/scheduler/scheduler.go:65-190 | if all writes succeed and no process ends between the acceptance of a task and its write, executions never exceed schedule calls, over any restarts |
| SystemRuns.JobIsExecuted | internal/scheduler/scheduler.go:148-190 | the bound is reached: a run with one call and one execution |
| SystemRuns.CallbackCanEnd | internal/scheduler/job_handler.go:102-170 | a worker in a callback always finds an outstanding task of its job and can end the callback |
| SystemRuns.CallbackMatchesOutcome | internal/worker/pool.go:92-98 | the callback that updates a job is that for the outcome with which its task ended |
| SystemRuns.OutstandingTasksAgree | internal/worker/pool.go:64-127 | while the job lock is free, the outstanding tasks of a job in the scheduler are its tasks that the pool accepted and did not call back |
| SystemRuns.UnacceptedSubmissionMetBackpressure | internal/worker/pool.go:110-126 | over any run without a restart, a submission of the loop that comes back while the number of accepted tasks is the same has found, at one of its own moves, the pool stopped or its queue full |
| SystemRuns.DueJobIsAcceptedOrRefused | internal/scheduler/scheduler.go:168-190 | when the loop ends a dispatching section, each due job was either accepted, and is Running with one more task, or refused, and is unchanged and still due |
| SystemRuns.RefusedJobIsTriedAgain | internal/scheduler/scheduler.go:148-203 | after a section with a refused job, the next target of the loop is not after the old one, and its timer can fire at once |
| SystemRuns.SystemDeadlocks | internal/scheduler/scheduler.go:168-175 | one schedule call, and no failing call of the store, lead to the circle of loop and worker |
| SystemRuns.SystemStaysDeadlocked | internal/scheduler/job_handler.go:109-140 | from there, in every continuation without a restart, no callback, no dispatch and no schedule call ends, and jobs and tasks stay as they are |
| SystemRuns.SystemPanics | internal/worker/pool.go:110-136 | one schedule call leads to a submission of the due job that meets the queue closed by `Stop` |

## Left out

- Scheduler.Scheduler.ScheduleJob: asks, when the payload can be marshalled, for a schedule whose next run can be computed, because the original never returns otherwise; `CronParser.ThirtiethOfFebruaryHangs`, `SchedulerRuns.OnlyScheduleCallsHang` and `LockWaits.HungCallStopsTheScheduler` cover the rest.
- Cron.Next: asks for a schedule that can match, because the original loops forever otherwise; `Cron.HaltsIffPossible` says exactly when.
- LockWaits.WaitingEndsAtEnabledThread: says that a thread waits for nobody, not that the Go scheduler lets it move or that it ends a section in which it computes forever; `LockWaits.HungCallStopsTheScheduler` covers the latter, and `LockProgress.WaitersAreServedExactly` says who can be served.
- SchedulerRuns.DispatchIsTimely: does not say why a due job was not accepted; `SystemRuns.UnacceptedSubmissionMetBackpressure` and `Scheduler.Scheduler.DispatchDueJobs` do.
- SchedulerRuns.EachCallBuysOneDispatch: counts unwritten dispatches that are never repeated; `SchedulerRuns.SpentGrowsExactly` is exact.
- SystemRuns.EachCallBuysOneExecutionWhenStored: leaves out processes that end between the acceptance of a task and its write, where the code can execute twice for one call (`SystemRuns.CrashRepeatsExecution`); `SystemRuns.ExpectedGrowsExactly` is exact for all runs.
- SystemRuns.EachCallBuysOneExecution: counts unwritten dispatches that are never repeated; `SystemRuns.ExpectedGrowsExactly` is exact.
- LockProgress.WaitersAreServedExactly: covers a pool to which only the loop submits, as in the repository and in `SystemRuns`; it speaks of some continuation, since fairness is not modelled.
- The registration of handlers and the lookup of a single row (`GetJob`): one map operation each.
- Scheduler.JobTask.Execute: handlers are functions of the job's contents; handlers that write to the job, such as the token refresh, are not modelled.
- A restart ends the process, so outstanding tasks disappear; a reload that fails (the constructor then returns an error) is not a step.
- Time zones, daylight saving and sub-minute offsets: all times are UTC.
- Overflow of `time.Time` and of 64-bit counters; numbers too large for `Atoi` are errors in the original and outside every cron range here.
- SQLite itself: the table is a map with a primary key and a unique triple, next runs compare as times and not as stored text, and rows with equal next run come in any order.
- JSON payloads, UUIDs and error texts beyond those of the parser: payloads are strings, ids are inputs.
- One critical section reads the clock once, where the original may read it twice within microseconds.
- A second `Stop` call (which closes a closed channel), nil tasks and a pool that is stopped and started again.
- Pending writers that hold back new readers of a lock: steps do not use this (any run with it is a run without it), but `LockWaits` counts it as waiting.
- The job lock is held during writes to the database; how long those take is not modelled.
- Prometheus metrics, logging, HTTP handlers, sessions, encryption, backups and the mail, chat and language model clients.
