/** The scheduler, its jobs and its tasks as objects that are updated in place.
    Every method is one critical section under the scheduler's mutex; `now` is the
    clock and `io` says whether the call of the store goes through. */
module Scheduler {
  import opened Wrappers
  import opened Cron
  import opened CronParser
  import opened Jobs
  import opened JobQuery
  import opened JobStore
  import opened SchedulerSpec
  import opened WorkerPool
  import opened Sets

  method ComputeNextRun(schedule: string, now: Instant) returns (t: Instant)
    requires ScheduleHalts(schedule)
    ensures t == NextRunTime(schedule, now)
  {
    var cron := ParseCron(schedule);
    match cron
    case Failure(_) => t := now + HOUR;
    case Success(c) => t := Next(c, now);
  }

  // ---------------------------------------------------------------------------
  // Tasks

  /** A handler reports an error or none; it does not touch the job. */
  type JobHandler = Row -> Option<string>

  class JobHandlerRegistry {
    var handlers: map<string, JobHandler>

    constructor ()
      ensures handlers == map[]
    {
      handlers := map[];
    }
  }

  class JobTask {
    const job: Job?
    const registry: JobHandlerRegistry
    const scheduler: Scheduler? // null for tasks outside a scheduler

    constructor (job: Job?, registry: JobHandlerRegistry, scheduler: Scheduler?)
      ensures this.job == job && this.registry == registry && this.scheduler == scheduler
    {
      this.job, this.registry, this.scheduler := job, registry, scheduler;
    }

    /** Run the handler of the job's type; a missing job or handler is an error. */
    method Execute() returns (error: Option<string>)
      ensures job == null ==> error == Some("job cannot be nil")
      ensures job != null && job.key.jobType !in registry.handlers ==>
        error == Some("no handler registered for job type: " + job.key.jobType)
      ensures job != null && job.key.jobType in registry.handlers ==>
        error == registry.handlers[job.key.jobType](job.ToRow())
    {
      if job == null {
        return Some("job cannot be nil");
      }
      if job.key.jobType !in registry.handlers {
        return Some("no handler registered for job type: " + job.key.jobType);
      }
      error := registry.handlers[job.key.jobType](job.ToRow());
    }

    method OnSuccess(now: Instant, io: bool)
      requires job != null && (scheduler != null ==> scheduler.Valid() && ScheduleHalts(job.key.schedule))
      modifies if scheduler == null then {} else {scheduler, scheduler.store, job}
      ensures scheduler != null ==>
        && scheduler.ObjectsValid() && scheduler.store.Valid()
        && scheduler.jobs == old(scheduler.jobs)[job.id := job]
        && scheduler.GetData() == CalledBack(old(scheduler.GetData()), SuccessRow(old(job.ToRow()), now), io)
      ensures scheduler != null && old(scheduler.Holds(job)) ==> scheduler.Valid()
    {
      if scheduler == null {
        return;
      }
      var nextRun := ComputeNextRun(job.key.schedule, now);
      scheduler.FinishJob(job, Completed, "", 0, nextRun, now, io);
    }

    method OnFailure(error: string, now: Instant, io: bool)
      requires job != null && (scheduler != null ==> scheduler.Valid())
      modifies if scheduler == null then {} else {scheduler, scheduler.store, job}
      ensures scheduler != null ==>
        && scheduler.ObjectsValid() && scheduler.store.Valid()
        && scheduler.jobs == old(scheduler.jobs)[job.id := job]
        && scheduler.GetData() == CalledBack(old(scheduler.GetData()), FailureRow(old(job.ToRow()), error, now), io)
      ensures scheduler != null && old(scheduler.Holds(job)) ==> scheduler.Valid()
    {
      if scheduler == null {
        return;
      }
      var retryCount := job.retryCount + 1;
      var delay := retryCount * retryCount * MINUTE;
      if delay > 24 * HOUR {
        delay := 24 * HOUR;
      }
      var nextRun := now + delay;
      if retryCount >= MAX_RETRIES {
        nextRun := 0;
      }
      scheduler.FinishJob(job, Failed, error, retryCount, nextRun, now, io);
    }
  }

  // ---------------------------------------------------------------------------
  // The scheduler

  class Scheduler {
    const store: SQLiteJobStore
    const pool: WorkerPool<JobTask>
    const registry: JobHandlerRegistry
    var jobs: map<string, Job>
    var cronWakeup: bool // the one-slot channel is full

    ghost var mem: Table // the contents of the jobs in the map

    constructor (store: SQLiteJobStore, pool: WorkerPool<JobTask>, registry: JobHandlerRegistry)
      ensures this.store == store && this.pool == pool && this.registry == registry
      ensures jobs == map[] && !cronWakeup && ObjectsValid()
    {
      this.store, this.pool, this.registry := store, pool, registry;
      jobs, cronWakeup, mem := map[], false, map[];
    }

    ghost function GetData(): Data
      reads this, store
    {
      Data(mem, store.table, cronWakeup)
    }

    // Every job sits in the map under its own id, and `mem` is up to date for all
    // jobs but this one.
    ghost predicate ObjectsValidExcept(job: Job?)
      reads this, jobs.Values
    {
      && jobs.Keys == mem.Keys
      && forall id :: id in jobs ==> jobs[id].id == id && (jobs[id] == job || mem[id] == jobs[id].ToRow())
    }

    ghost predicate ObjectsValid()
      reads this, jobs.Values
    {
      ObjectsValidExcept(null)
    }

    ghost predicate Valid()
      reads this, store, jobs.Values
    {
      ObjectsValid() && store.Valid() && Consistent(GetData())
    }

    ghost predicate Holds(job: Job)
      reads this, job
    {
      job.id in jobs && jobs[job.id] == job
    }

    // Write a changed job to the table.
    method Save(job: Job, now: Instant, io: bool) returns (ok: bool)
      requires ObjectsValidExcept(job) && store.Valid() && Holds(job)
      modifies this`mem, store, job`updatedAt
      ensures ObjectsValid() && store.Valid()
      ensures var row := old(job.ToRow()).(updatedAt := now);
        && job.ToRow() == row
        && ok == Update(old(store.table), row, io).Some?
        && GetData() == Persisted(old(GetData()), row, io)
    {
      ok := store.UpdateJob(job, now, io);
      mem := mem[job.id := job.ToRow()];
    }

    // Record the outcome of a task, persist the job, put it into the map and wake the loop.
    method RecordOutcome(
      job: Job, status: Status, lastError: string, retryCount: int, nextRun: Instant, now: Instant, io: bool)
      requires ObjectsValid() && store.Valid()
      modifies this`jobs, this`mem, this`cronWakeup, store, job
      ensures ObjectsValid() && store.Valid()
      ensures jobs == old(jobs)[job.id := job]
      ensures GetData() == CalledBack(
                             old(GetData()),
                             old(job.ToRow()).(status := status, lastError := lastError, retryCount := retryCount,
                                               nextRun := nextRun, updatedAt := now), io)
    {
      job.Record(status, lastError, retryCount, nextRun);
      var ok := store.UpdateJob(job, now, io);
      jobs := jobs[job.id := job];
      mem := mem[job.id := job.ToRow()];
      SignalCronWakeup();
    }

    // Record the outcome of a task and write it back.
    method FinishJob(
      job: Job, status: Status, lastError: string, retryCount: int, nextRun: Instant, now: Instant, io: bool)
      requires Valid() && status != NoStatus
      modifies this`jobs, this`mem, this`cronWakeup, store, job
      ensures ObjectsValid() && store.Valid()
      ensures jobs == old(jobs)[job.id := job]
      ensures GetData() == CalledBack(
                             old(GetData()),
                             old(job.ToRow()).(status := status, lastError := lastError, retryCount := retryCount,
                                               nextRun := nextRun, updatedAt := now), io)
      ensures old(Holds(job)) ==> Valid()
    {
      ghost var row := job.ToRow().(status := status, lastError := lastError, retryCount := retryCount,
                                    nextRun := nextRun, updatedAt := now);
      if Holds(job) {
        PersistedConsistent(GetData(), row, io);
      }
      RecordOutcome(job, status, lastError, retryCount, nextRun, now, io);
    }

    method SignalCronWakeup()
      modifies this`cronWakeup
      ensures cronWakeup
    {
      if !cronWakeup {
        cronWakeup := true;
      }
    }

    // -------------------------------------------------------------------------
    // Loading

    method AddRows(rows: seq<Row>)
      requires ObjectsValid() && jobs == map[]
      modifies this`jobs, this`mem
      ensures ObjectsValid() && mem == TableOf(rows)
    {
      for i := 0 to |rows|
        invariant ObjectsValid() && mem == TableOf(rows[..i])
      {
        assert rows[..i + 1][..i] == rows[..i];
        var job := new Job(rows[i]);
        jobs := jobs[job.id := job];
        mem := mem[job.id := rows[i]];
      }
      assert rows[..|rows|] == rows;
    }

    /** Load the table into an empty map: memory then mirrors the table. */
    method LoadJobsFromDB(io: bool) returns (ok: bool)
      requires store.Valid() && ObjectsValid() && jobs == map[]
      modifies this`jobs, this`mem
      ensures ObjectsValid() && ok == io
      ensures GetData().mem == if ok then store.table else map[]
    {
      var listed := store.ListJobs(NO_FILTER, io);
      if listed == None {
        return false;
      }
      AddRows(listed.value);
      AllRows(listed.value, store.table);
      return true;
    }

    // -------------------------------------------------------------------------
    // Scheduling

    method FindJob(key: Key) returns (found: Job?)
      requires ObjectsValid()
      ensures found == null ==> !HasKey(mem, key)
      ensures found != null ==> found.id in jobs && Holds(found) && found.key == key
    {
      var rest := jobs.Keys;
      while rest != {}
        invariant rest <= jobs.Keys
        invariant forall id :: id in jobs && id !in rest ==> jobs[id].key != key
        decreases |rest|
      {
        var id :| id in rest;
        if jobs[id].key == key {
          return jobs[id];
        }
        rest := rest - {id};
      }
      return null;
    }

    method ResetJob(job: Job, payload: string, now: Instant, nextRun: Instant, io: bool) returns (ok: bool)
      requires ObjectsValid() && store.Valid() && Holds(job)
      modifies this`mem, this`cronWakeup, store, job
      ensures ObjectsValid() && store.Valid()
      ensures var row := old(job.ToRow()).(payload := payload, status := Pending, retryCount := 0,
                                           nextRun := nextRun, updatedAt := now);
        && ok == Update(old(store.table), row, io).Some?
        && GetData() == Persisted(old(GetData()), row, io).(wakeup := old(cronWakeup) || ok)
    {
      job.payload := payload;
      job.Record(Pending, job.lastError, 0, nextRun);
      ok := Save(job, now, io);
      if ok {
        SignalCronWakeup();
      }
    }

    method RescheduleNow(job: Job, payload: string, now: Instant, io: bool) returns (ok: bool)
      requires ObjectsValid() && store.Valid() && Holds(job) && ScheduleHalts(job.key.schedule)
      modifies this`mem, this`cronWakeup, store, job
      ensures ObjectsValid() && store.Valid()
      ensures ok == Update(old(store.table), RescheduledRow(old(job.ToRow()), payload, now), io).Some?
      ensures GetData() == Rescheduled(old(GetData()), job.id, payload, now, io)
    {
      ghost var row := RescheduledRow(job.ToRow(), payload, now);
      var nextRun := ComputeNextRun(job.key.schedule, now);
      assert row == job.ToRow().(payload := payload, status := Pending, retryCount := 0,
                                 nextRun := nextRun, updatedAt := now);
      ok := ResetJob(job, payload, now, nextRun, io);
    }

    method Reschedule(job: Job, payload: string, now: Instant, io: bool) returns (ok: bool)
      requires Valid() && Holds(job) && ScheduleHalts(job.key.schedule)
      modifies this`mem, this`cronWakeup, store, job
      ensures Valid() && ok == io
      ensures GetData() == Rescheduled(old(GetData()), job.id, payload, now, io)
    {
      PersistedConsistent(GetData(), RescheduledRow(job.ToRow(), payload, now), io);
      ok := RescheduleNow(job, payload, now, io);
    }

    method InsertJob(key: Key, payload: string, freshId: string, nextRun: Instant, now: Instant, io: bool)
      returns (r: Job?)
      requires ObjectsValid() && store.Valid()
      modifies this`jobs, this`mem, this`cronWakeup, store
      ensures ObjectsValid() && store.Valid()
      ensures var row := Row(freshId, key, payload, Pending, 0, "", nextRun, None, now, now);
        match Insert(old(store.table), row, io)
        case Some(table) => r != null && GetData() == Data(old(mem)[freshId := row], table, true)
        case None => r == null && GetData() == old(GetData())
      ensures r != null ==> fresh(r) && jobs == old(jobs)[freshId := r]
      ensures r == null ==> jobs == old(jobs)
    {
      var job := new Job(Row("", key, payload, Pending, 0, "", nextRun, None, 0, 0));
      var ok := store.CreateJob(job, freshId, now, io);
      if !ok {
        return null;
      }
      jobs := jobs[job.id := job];
      mem := mem[job.id := job.ToRow()];
      SignalCronWakeup();
      return job;
    }

    method Create(key: Key, payload: string, freshId: string, now: Instant, io: bool) returns (r: Job?)
      requires Valid() && !HasKey(mem, key) && ScheduleHalts(key.schedule)
      modifies this`jobs, this`mem, this`cronWakeup, store
      ensures Valid()
      ensures GetData() == Created(old(GetData()), freshId, key, payload, now, io)
      ensures r != null <==> io && freshId !in old(jobs)
      ensures r != null ==> fresh(r) && jobs == old(jobs)[freshId := r]
      ensures r == null ==> jobs == old(jobs)
    {
      CreatedConsistent(GetData(), freshId, key, payload, now, io);
      var nextRun := ComputeNextRun(key.schedule, now);
      r := InsertJob(key, payload, freshId, nextRun, now, io);
    }

    /** Reset the job with this key, or create it.  `payload` is `None` if it cannot
        be marshalled, and `freshId` is the id for a new job. */
    method ScheduleJob(key: Key, payload: Option<string>, freshId: string, now: Instant, io: bool) returns (r: Job?)
      requires Valid() && (payload.Some? ==> ScheduleHalts(key.schedule))
      modifies this`jobs, this`mem, this`cronWakeup, store, jobs.Values
      ensures Valid() && GetData() == Scheduled(old(GetData()), key, payload, freshId, now, io)
      ensures payload == None ==> r == null && jobs == old(jobs)
      ensures payload.Some? && HasKey(old(mem), key) ==>
        jobs == old(jobs) && r == if io then jobs[JobWithKey(old(mem), key)] else null
      ensures payload.Some? && !HasKey(old(mem), key) ==>
        && (r != null <==> io && freshId !in old(jobs))
        && (r != null ==> fresh(r) && jobs == old(jobs)[freshId := r])
    {
      hide Consistent, Rescheduled, Created, ScheduleHalts, JobWithKey;
      if payload == None {
        return null;
      }
      var job := FindJob(key);
      if job != null {
        assert mem[job.id].key == key;
        FoundJob(GetData(), job.id);
        var ok := Reschedule(job, payload.value, now, io);
        return if ok then job else null;
      }
      r := Create(key, payload.value, freshId, now, io);
    }

    // -------------------------------------------------------------------------
    // The loop

    method FindNextJobTime(now: Instant) returns (next: Instant)
      requires ObjectsValid()
      ensures IsNextWake(mem, now, next)
    {
      next := now + 24 * HOUR;
      var rest := jobs.Keys;
      while rest != {}
        invariant rest <= jobs.Keys && next <= now + 24 * HOUR
        invariant forall id :: id in mem && id !in rest && mem[id].status == Pending ==> next <= mem[id].nextRun
        invariant next == now + 24 * HOUR
                  || exists id :: id in mem && mem[id].status == Pending && mem[id].nextRun == next
        decreases |rest|
      {
        var id :| id in rest;
        assert mem[id] == jobs[id].ToRow();
        if jobs[id].status == Pending && jobs[id].nextRun < next {
          next := jobs[id].nextRun;
        }
        rest := rest - {id};
      }
    }

    method MarkRunning(job: Job, target: Instant, now: Instant, io: bool)
      requires ObjectsValid() && store.Valid() && Holds(job)
      modifies this`mem, store, job
      ensures ObjectsValid() && store.Valid()
      ensures GetData() == Persisted(old(GetData()), DispatchedRow(old(job.ToRow()), target, now), io)
    {
      job.status := Running;
      job.lastRun := Some(target);
      var written := Save(job, now, io);
    }

    method SubmitJob(job: Job, target: Instant, now: Instant, io: bool) returns (ok: bool)
      requires ObjectsValid() && store.Valid() && Holds(job) && pool.Valid()
      modifies this`mem, pool`tasks, pool`metrics, store, job
      ensures ObjectsValid() && store.Valid() && pool.Valid()
      ensures ok <==> old(pool.FreeSlots()) > 0
      ensures !ok ==> pool.tasks == old(pool.tasks) && GetData() == old(GetData())
      ensures ok ==> GetData() == Persisted(old(GetData()), DispatchedRow(old(job.ToRow()), target, now), io)
      ensures ok ==> AddsTask(this, job, old(pool.tasks), pool.tasks)
    {
      var task := new JobTask(job, registry, this);
      ok := pool.Submit(task);
      if ok {
        MarkRunning(job, target, now, io);
      }
    }

    // Submit the job if it is due; it becomes Running if the pool accepts it.
    method VisitJob(id: string, target: Instant, now: Instant, io: bool) returns (ok: bool)
      requires ObjectsValid() && store.Valid() && pool.Valid() && id in jobs
      modifies this`mem, pool`tasks, pool`metrics, store, jobs.Values
      ensures ObjectsValid() && store.Valid() && pool.Valid()
      ensures ok <==> IsDue(old(mem)[id], target) && old(pool.FreeSlots()) > 0
      ensures !ok ==> pool.tasks == old(pool.tasks) && GetData() == old(GetData())
      ensures ok ==> GetData() == Persisted(old(GetData()), DispatchedRow(old(mem)[id], target, now), io)
      ensures ok ==> AddsTask(this, jobs[id], old(pool.tasks), pool.tasks)
    {
      var job := jobs[id];
      assert mem[id] == job.ToRow() && job in jobs.Values;
      if job.status == Pending && job.nextRun <= target {
        ok := SubmitJob(job, target, now, io);
      } else {
        ok := false;
      }
    }

    // Visit one more job.
    method VisitNext(
      id: string, target: Instant, now: Instant, failing: set<string>, ghost loop: DispatchLoop, ghost rest: set<string>,
      order: seq<string>) returns (order': seq<string>)
      requires ObjectsValid() && store.Valid() && pool.Valid() && id in rest && rest <= jobs.Keys
      requires loop.At(this, jobs, GetData(), pool.tasks, pool.FreeSlots(), rest, order)
      requires loop.target == target && loop.now == now && loop.failing == failing
      modifies this`mem, pool`tasks, pool`metrics, store, jobs.Values
      ensures ObjectsValid() && store.Valid() && pool.Valid()
      ensures loop.At(this, jobs, GetData(), pool.tasks, pool.FreeSlots(), rest - {id}, order')
    {
      hide DispatchLoop.At; // only `LoopStep` looks into it
      hide Persisted, DispatchedRow, AddsTask, TableValid;
      ghost var data, tasks, slots := GetData(), pool.tasks, pool.FreeSlots();
      var ok := VisitJob(id, target, now, id !in failing);
      LoopStep(this, jobs, loop, data, tasks, slots, rest, order, id, ok, GetData(), pool.tasks, pool.FreeSlots());
      order' := if ok then order + [id] else order;
    }

    // Visit all jobs, in any order of the map.
    method VisitJobs(target: Instant, now: Instant, failing: set<string>, ghost loop: DispatchLoop)
      returns (order: seq<string>)
      requires ObjectsValid() && store.Valid() && pool.Valid()
      requires loop.At(this, jobs, GetData(), pool.tasks, pool.FreeSlots(), jobs.Keys, [])
      requires loop.target == target && loop.now == now && loop.failing == failing
      modifies this`mem, pool`tasks, pool`metrics, store, jobs.Values
      ensures ObjectsValid() && store.Valid() && pool.Valid()
      ensures loop.At(this, jobs, GetData(), pool.tasks, pool.FreeSlots(), {}, order)
    {
      hide DispatchLoop.At, TableValid;
      var rest := jobs.Keys;
      order := [];
      while rest != {}
        invariant ObjectsValid() && store.Valid() && pool.Valid() && rest <= jobs.Keys
        invariant loop.At(this, jobs, GetData(), pool.tasks, pool.FreeSlots(), rest, order)
        decreases rest
      {
        var id :| id in rest;
        order := VisitNext(id, target, now, failing, loop, rest, order);
        rest := rest - {id};
      }
    }

    /** Submit the jobs that are due at `target`.  The pool accepts as many as it has
        free slots, whatever the order of the map.  Those become Running, and all
        other jobs stay as they are.  `failing` are the jobs whose write fails;
        `order` are the submitted jobs. */
    method DispatchDueJobs(target: Instant, now: Instant, failing: set<string>) returns (order: seq<string>)
      requires Valid() && pool.Valid()
      modifies this`mem, pool`tasks, pool`metrics, store, jobs.Values
      ensures Valid() && pool.Valid()
      ensures Distinct(order) && Elements(order) <= Due(old(mem), target)
      ensures |order| == MinOf(|Due(old(mem), target)|, old(pool.FreeSlots()))
      ensures GetData() == Dispatched(old(GetData()), Elements(order), Elements(order) - failing, target, now)
      ensures TasksFor(this, jobs, old(pool.tasks), pool.tasks, order)
    {
      ghost var loop := DispatchLoop(GetData(), jobs.Keys, pool.tasks, pool.FreeSlots(), target, now, failing);
      LoopStarts(this, jobs, loop);
      order := VisitJobs(target, now, failing, loop);
      LoopEnds(this, jobs, loop, GetData(), pool.tasks, pool.FreeSlots(), order);
    }

    // -------------------------------------------------------------------------
    // Listing

    /** The first rows, up to the limit, of the rows that the options want. */
    method ListJobs(opts: Option<ListJobsOptions>, io: bool) returns (r: Option<seq<Row>>)
      requires store.Valid()
      ensures r.Some? <==> io
      ensures var o := if opts.Some? then opts.value else NO_OPTIONS;
        r.Some? ==> exists all :: ListsWanted(all, store.table, o) && r.value == Limited(all, o.limit)
    {
      var o := if opts.Some? then opts.value else NO_OPTIONS;
      var filter := JobFilter(o.userID, o.jobType, o.status, if o.before != 0 then o.before else 0, []);
      var listed := store.ListJobs(filter, io);
      if listed == None {
        return None;
      }
      var filtered := KeepAfter(listed.value, o.after);
      ghost var all := filtered;
      assert ListsWanted(all, store.table, o);
      if o.limit > 0 && |filtered| > o.limit {
        filtered := filtered[..o.limit];
      }
      assert filtered == Limited(all, o.limit);
      r := Some(filtered);
    }
  }

  /** Drop the rows whose next run is before `after`, unless that is the zero time. */
  method KeepAfter(rows: seq<Row>, after: Instant) returns (filtered: seq<Row>)
    requires Ordered(rows)
    ensures Ordered(filtered)
    ensures forall row :: row in filtered <==> row in rows && (after != 0 ==> after <= row.nextRun)
  {
    filtered := [];
    for k := 0 to |rows|
      invariant Ordered(filtered)
      invariant forall row :: row in filtered <==> row in rows[..k] && (after != 0 ==> after <= row.nextRun)
    {
      assert rows[..k + 1] == rows[..k] + [rows[k]];
      if after != 0 && rows[k].nextRun < after {
        continue;
      }
      filtered := filtered + [rows[k]];
    }
    assert rows[..|rows|] == rows;
  }

  function TableOf(rows: seq<Row>): Table {
    if rows == [] then map[] else TableOf(rows[..|rows| - 1])[rows[|rows| - 1].id := rows[|rows| - 1]]
  }

  lemma {:induction false} TableOfRows(rows: seq<Row>)
    requires forall i, j :: 0 <= i < j < |rows| ==> rows[i].id != rows[j].id
    ensures forall row :: row in rows ==> row.id in TableOf(rows) && TableOf(rows)[row.id] == row
    ensures forall id :: id in TableOf(rows) ==> TableOf(rows)[id] in rows && TableOf(rows)[id].id == id
  {
    if rows != [] {
      var front := rows[..|rows| - 1];
      TableOfRows(front);
      assert rows == front + [rows[|rows| - 1]];
    }
  }

  /** The rows that no filter leaves out make up the whole table. */
  lemma AllRows(rows: seq<Row>, table: Table)
    requires TableValid(table) && Lists(rows, table, NO_FILTER)
    ensures TableOf(rows) == table
  {
    TableOfRows(rows);
    assert forall id :: id in table ==> table[id] in rows;
  }

  lemma FoundJob(d: Data, id: string)
    requires Consistent(d) && id in d.mem
    ensures HasKey(d.mem, d.mem[id].key) && JobWithKey(d.mem, d.mem[id].key) == id
  {
    JobWithKeyUnique(d.mem, id);
  }

  // ---------------------------------------------------------------------------
  // Sequences of ids

  ghost predicate Distinct(ids: seq<string>) {
    forall i, j :: 0 <= i < j < |ids| ==> ids[i] != ids[j]
  }

  function Elements(ids: seq<string>): set<string> {
    set id | id in ids
  }

  function MinOf(a: int, b: int): int {
    if a <= b then a else b
  }

  /** One task for this job was added to the queue. */
  ghost predicate AddsTask(s: Scheduler, job: Job, before: seq<JobTask>, tasks: seq<JobTask>) {
    |tasks| == |before| + 1 && before == tasks[..|before|]
    && tasks[|before|].job == job && tasks[|before|].scheduler == s
  }

  /** Tasks for the jobs in `order` were added to the queue, in this order. */
  ghost predicate TasksFor(
    s: Scheduler, jobs: map<string, Job>, before: seq<JobTask>, tasks: seq<JobTask>, order: seq<string>)
  {
    && |tasks| == |before| + |order| && before == tasks[..|before|]
    && forall i :: 0 <= i < |order| ==>
         order[i] in jobs && tasks[|before| + i].job == jobs[order[i]] && tasks[|before| + i].scheduler == s
  }

  lemma TasksAppend(
    s: Scheduler, jobs: map<string, Job>, before: seq<JobTask>, tasks: seq<JobTask>, tasks': seq<JobTask>,
    order: seq<string>, id: string)
    requires TasksFor(s, jobs, before, tasks, order) && id in jobs && AddsTask(s, jobs[id], tasks, tasks')
    ensures TasksFor(s, jobs, before, tasks', order + [id])
  {
    assert tasks'[..|before|] == tasks[..|before|];
    assert forall k :: 0 <= k < |tasks| ==> tasks'[k] == tasks[k];
  }

  /** What the loop of `DispatchDueJobs` starts from. */
  ghost predicate Started(loop: DispatchLoop) {
    Consistent(loop.d) && loop.ids == loop.d.mem.Keys && loop.free >= 0
  }

  datatype DispatchLoop = DispatchLoop(
    d: Data, ids: set<string>, before: seq<JobTask>, free: int, target: Instant, now: Instant, failing: set<string>)
  {
    /** All jobs but those in `rest` are visited, and those in `order` are submitted. */
    ghost predicate At(
      s: Scheduler, jobs: map<string, Job>, data: Data, tasks: seq<JobTask>, slots: int,
      rest: set<string>, order: seq<string>)
    {
      && Started(this) && rest <= ids
      && Distinct(order) && Elements(order) <= Due(d.mem, target) - rest
      && slots == free - |order| && 0 <= slots
      && (0 < slots ==> Elements(order) == Due(d.mem, target) - rest)
      && data == Dispatched(d, Elements(order), Elements(order) - failing, target, now)
      && TasksFor(s, jobs, before, tasks, order)
    }
  }

  lemma LoopStarts(s: Scheduler, jobs: map<string, Job>, loop: DispatchLoop)
    requires Started(loop)
    ensures loop.At(s, jobs, loop.d, loop.before, loop.free, loop.ids, [])
  {
    var d := loop.d;
    assert Due(d.mem, loop.target) - loop.ids == {};
    assert Elements([]) - loop.failing == {} && Elements([]) == {};
    assert Dispatched(d, {}, {}, loop.target, loop.now).mem == d.mem;
    assert Dispatched(d, {}, {}, loop.target, loop.now).table == d.table;
  }

  lemma LoopStep(
    s: Scheduler, jobs: map<string, Job>, loop: DispatchLoop, data: Data, tasks: seq<JobTask>, slots: int,
    rest: set<string>, order: seq<string>, id: string, ok: bool, data': Data, tasks': seq<JobTask>, slots': int)
    requires loop.At(s, jobs, data, tasks, slots, rest, order) && id in rest && id in jobs && id in data.mem
    requires ok <==> IsDue(data.mem[id], loop.target) && slots > 0
    requires !ok ==> data' == data && tasks' == tasks && slots' == slots
    requires ok ==>
      && data' == Persisted(data, DispatchedRow(data.mem[id], loop.target, loop.now), id !in loop.failing)
      && AddsTask(s, jobs[id], tasks, tasks') && slots' == slots - 1
    ensures loop.At(s, jobs, data', tasks', slots', rest - {id}, if ok then order + [id] else order)
  {
    hide Persisted, Dispatched, DispatchedRow, TasksFor, AddsTask, Consistent;
    var due, accepted := Due(loop.d.mem, loop.target), Elements(order);
    DispatchedVisit(loop.d, data, accepted, id, loop.target, loop.now, loop.failing);
    if ok {
      assert due - (rest - {id}) == (due - rest) + {id};
      ElementsAppend(order, id);
      TasksAppend(s, jobs, loop.before, tasks, tasks', order, id);
    } else {
      assert id !in due ==> due - (rest - {id}) == due - rest;
    }
  }

  // The data part of a round.
  lemma DispatchedVisit(
    d: Data, before: Data, accepted: set<string>, id: string, target: Instant, now: Instant, failing: set<string>)
    requires Consistent(d) && id in d.mem && id !in accepted
    requires before == Dispatched(d, accepted, accepted - failing, target, now)
    ensures before.mem[id] == d.mem[id]
    ensures Persisted(before, DispatchedRow(d.mem[id], target, now), id !in failing)
            == Dispatched(d, accepted + {id}, (accepted + {id}) - failing, target, now)
  {
    var more := if id !in failing then {id} else {};
    RowUnvisited(d, accepted, accepted - failing, id, target, now);
    hide Persisted, Dispatched, Consistent;
    DispatchedConsistent(d, accepted, accepted - failing, target, now);
    DispatchedOne(before, id, target, now, id !in failing);
    DispatchedStep(d, accepted, accepted - failing, id, more, target, now);
    WrittenStep(accepted, failing, id);
  }

  lemma WrittenStep(accepted: set<string>, failing: set<string>, id: string)
    ensures (accepted + {id}) - failing == (accepted - failing) + if id !in failing then {id} else {}
  {
  }

  lemma RowUnvisited(d: Data, accepted: set<string>, written: set<string>, id: string, target: Instant, now: Instant)
    requires id in d.mem && id !in accepted
    ensures var before := Dispatched(d, accepted, written, target, now); id in before.mem && before.mem[id] == d.mem[id]
  {
  }

  /** With nothing left to visit, the pool has taken what it could. */
  lemma LoopEnds(
    s: Scheduler, jobs: map<string, Job>, loop: DispatchLoop, data: Data, tasks: seq<JobTask>, slots: int,
    order: seq<string>)
    requires loop.At(s, jobs, data, tasks, slots, {}, order)
    ensures Distinct(order) && Elements(order) <= Due(loop.d.mem, loop.target)
    ensures |order| == MinOf(|Due(loop.d.mem, loop.target)|, loop.free)
    ensures data == Dispatched(loop.d, Elements(order), Elements(order) - loop.failing, loop.target, loop.now)
    ensures Consistent(data)
    ensures TasksFor(s, jobs, loop.before, tasks, order)
  {
    var due := Due(loop.d.mem, loop.target);
    assert due - {} == due;
    ElementsCount(order);
    SubsetCount(Elements(order), due);
    DispatchedConsistent(loop.d, Elements(order), Elements(order) - loop.failing, loop.target, loop.now);
  }

  lemma {:induction false} ElementsCount(ids: seq<string>)
    requires Distinct(ids)
    ensures |Elements(ids)| == |ids|
  {
    if ids != [] {
      var front, last := ids[..|ids| - 1], ids[|ids| - 1];
      assert ids == front + [last];
      assert last !in front;
      ElementsAppend(front, last);
      ElementsCount(front);
    }
  }

  lemma ElementsAppend(ids: seq<string>, id: string)
    requires Distinct(ids) && id !in ids
    ensures Distinct(ids + [id]) && Elements(ids + [id]) == Elements(ids) + {id}
  {
  }
}
