/** What the steps of the scheduler mean for one job, field by field, in nanoseconds and
    without the functions of `SchedulerSpec`. */
module SchedulerLaws {
  import opened Wrappers
  import opened Cron
  import opened CronParser
  import opened Jobs
  import opened SchedulerSpec
  import opened SchedulerRuns

  /** `t` is the first whole minute after `now` at which the schedule matches, or one hour
      after `now` if the schedule does not parse. */
  ghost predicate IsNextRun(schedule: string, now: Instant, t: Instant) {
    match CronValue(schedule)
    case Failure(_) => t == now + 3_600_000_000_000
    case Success(c) => IsNextMatch(c, now, t)
  }

  ghost predicate IsNextMatch(c: CronSchedule, now: Instant, t: Instant) {
    && now < t && t % 60_000_000_000 == 0 && c.Matches(t / 60_000_000_000)
    && forall u :: now < u < t && u % 60_000_000_000 == 0 ==> !c.Matches(u / 60_000_000_000)
  }

  lemma NextTimeIsNextMatch(c: CronSchedule, now: Instant)
    requires c.Possible()
    ensures IsNextMatch(c, now, NextTime(c, now))
  {
    hide CronSchedule.Matches, CronSchedule.Possible;
    var r := NextMinute(c, now / MINUTE);
    var t := NextTime(c, now);
    WholeMinute(t, r);
    forall u | now < u < t && u % MINUTE == 0 ensures !c.Matches(u / MINUTE) {
      MinuteBetween(now, u, r);
    }
  }

  lemma NextRunTimeIsNextRun(schedule: string, now: Instant)
    requires ScheduleHalts(schedule)
    ensures IsNextRun(schedule, now, NextRunTime(schedule, now))
  {
    if CronValue(schedule).Success? {
      NextTimeIsNextMatch(CronValue(schedule).value, now);
    }
    hide IsNextMatch;
  }

  /** Only this job has changed, in memory and in the table. */
  ghost predicate OthersKept(s: State, t: State, id: Id) {
    && (forall other :: other != id ==>
          && (other in t.data.mem <==> other in s.data.mem)
          && (other in t.data.table <==> other in s.data.table)
          && (other in s.data.mem ==> t.data.mem[other] == s.data.mem[other])
          && (other in s.data.table ==> t.data.table[other] == s.data.table[other]))
  }

  /** The table has the row of memory if the write succeeded, and else its old row. */
  ghost predicate WrittenIf(s: State, t: State, id: Id, io: bool) {
    && id in t.data.mem && (io ==> id in t.data.table && t.data.table[id] == t.data.mem[id])
    && (!io ==> (id in t.data.table <==> id in s.data.table) && (id in s.data.table ==> t.data.table[id] == s.data.table[id]))
  }

  lemma RowChangeKeeps(s: State, t: State, row: Row, io: bool)
    requires RowChange(s.data, t.data, row, io)
    ensures OthersKept(s, t, row.id) && WrittenIf(s, t, row.id, io) && t.data.mem[row.id] == row
  {
  }

  // ---------------------------------------------------------------------------
  // Callbacks

  lemma OutcomeTasks(s: State, step: Step)
    requires (step.Succeed? || step.Fail?) && Reachable(s) && Enabled(s, step)
    ensures var t := Apply(s, step);
      && RowChange(s.data, t.data, OutcomeRow(s, step), step.io) && OutcomeRow(s, step).id == step.id
      && t.data.wakeup && t.tasks == s.tasks - multiset{step.id}
  {
    hide Reachable, DataOk, NextRunTime, ScheduleHalts;
    InvData(s);
    CallbackData(s, step);
  }

  /** A job whose task has succeeded is completed, without an error and without retries, and
      runs next at the next match of its schedule.  The loop is woken. */
  lemma SuccessMeans(s: State, id: Id, io: bool)
    requires Reachable(s) && Enabled(s, Succeed(id, io))
    ensures var t := Apply(s, Succeed(id, io));
      && OthersKept(s, t, id) && WrittenIf(s, t, id, io) && t.data.wakeup && t.tasks == s.tasks - multiset{id}
      && var row, old' := t.data.mem[id], s.data.mem[id];
         && row.status == Completed && row.lastError == "" && row.retryCount == 0
         && IsNextRun(row.key.schedule, s.clock, row.nextRun) && row.updatedAt == s.clock
         && row.id == id && row.key == old'.key && row.payload == old'.payload
         && row.lastRun == old'.lastRun && row.createdAt == old'.createdAt
  {
    hide Reachable, Apply, RowChange, IsNextRun;
    var step := Succeed(id, io);
    OutcomeTasks(s, step);
    RowChangeKeeps(s, Apply(s, step), OutcomeRow(s, step), io);
    NextRunTimeIsNextRun(s.data.mem[id].key.schedule, s.clock);
    hide NextRunTime, ScheduleHalts, OthersKept, WrittenIf;
  }

  /** A job whose task has failed has the error and one more retry.  It runs next after as many
      minutes as the square of its retries; from the fifth failure on it has no next run. */
  lemma FailureMeans(s: State, id: Id, error: string, io: bool)
    requires Reachable(s) && Enabled(s, Fail(id, error, io))
    ensures var t := Apply(s, Fail(id, error, io));
      && OthersKept(s, t, id) && WrittenIf(s, t, id, io) && t.data.wakeup && t.tasks == s.tasks - multiset{id}
      && var row, old' := t.data.mem[id], s.data.mem[id];
         && row.status == Failed && row.lastError == error && row.retryCount == old'.retryCount + 1
         && (row.nextRun == 0 <==> row.retryCount >= 5)
         && (row.retryCount < 5 ==> row.nextRun == s.clock + 60_000_000_000 * row.retryCount * row.retryCount)
         && row.updatedAt == s.clock && row.id == id && row.key == old'.key && row.payload == old'.payload
         && row.lastRun == old'.lastRun && row.createdAt == old'.createdAt
  {
    hide Reachable, Apply, RowChange;
    var step := Fail(id, error, io);
    OutcomeTasks(s, step);
    RowChangeKeeps(s, Apply(s, step), OutcomeRow(s, step), io);
    InvData(s);
    assert RowOk(s.data.mem[id]);
    hide DataOk, ScheduleHalts, OthersKept, WrittenIf, RowOk;
    BackoffBelowLimit(s.data.mem[id], error, s.clock);
    Minutes(s.data.mem[id].retryCount + 1);
  }

  lemma Minutes(r: int)
    ensures r * r * MINUTE == 60_000_000_000 * r * r
  {
  }

  // ---------------------------------------------------------------------------
  // Schedule calls

  lemma RescheduleChange(s: State, key: Key, payload: string, freshId: Id, io: bool) returns (id: Id)
    requires Reachable(s) && ScheduleHalts(key.schedule) && HasKey(s.data.mem, key)
    ensures var t := Apply(s, Schedule(key, Some(payload), freshId, io));
      && id in s.data.mem && s.data.mem[id].key == key
      && RowChange(s.data, t.data, RescheduledRow(s.data.mem[id], payload, s.clock), io)
      && RescheduledRow(s.data.mem[id], payload, s.clock).id == id
      && t.data.wakeup == (s.data.wakeup || io) && t.tasks == s.tasks
  {
    hide Reachable, Rescheduled, NextRunTime, ScheduleHalts, RowOk, Consistent;
    InvData(s);
    id := JobWithKey(s.data.mem, key);
    RescheduleData(s, id, payload, io);
  }

  /** A call for a key that has a job gives the job the new payload and sets it to Pending
      without retries, with the next match of its schedule as next run.  The rest of the
      job stays.  The loop is woken if the write succeeds. */
  lemma RescheduleMeans(s: State, key: Key, payload: string, freshId: Id, io: bool) returns (id: Id)
    requires Reachable(s) && ScheduleHalts(key.schedule) && HasKey(s.data.mem, key)
    ensures var t := Apply(s, Schedule(key, Some(payload), freshId, io));
      && id in s.data.mem && s.data.mem[id].key == key
      && OthersKept(s, t, id) && WrittenIf(s, t, id, io) && t.data.wakeup == (s.data.wakeup || io) && t.tasks == s.tasks
      && var row, old' := t.data.mem[id], s.data.mem[id];
         && row.payload == payload && row.status == Pending && row.retryCount == 0
         && IsNextRun(key.schedule, s.clock, row.nextRun) && row.updatedAt == s.clock
         && row.id == id && row.key == key && row.lastError == old'.lastError
         && row.lastRun == old'.lastRun && row.createdAt == old'.createdAt
  {
    hide Reachable, Apply, RowChange, IsNextRun;
    id := RescheduleChange(s, key, payload, freshId, io);
    RowChangeKeeps(
      s, Apply(s, Schedule(key, Some(payload), freshId, io)), RescheduledRow(s.data.mem[id], payload, s.clock), io);
    NextRunTimeIsNextRun(key.schedule, s.clock);
    hide NextRunTime, ScheduleHalts, OthersKept, WrittenIf;
  }

  lemma CreateChange(s: State, key: Key, payload: string, freshId: Id, io: bool)
    requires Reachable(s) && ScheduleHalts(key.schedule) && !HasKey(s.data.mem, key)
    ensures var t := Apply(s, Schedule(key, Some(payload), freshId, io));
      && t.tasks == s.tasks
      && t.data == if io && freshId !in s.data.mem then
           Data(s.data.mem[freshId := NewRow(freshId, key, payload, s.clock)],
                s.data.table[freshId := NewRow(freshId, key, payload, s.clock)], true)
         else s.data
  {
    assert Consistent(s.data) by {
      InvData(s);
    }
    hide Reachable, Created, NextRunTime, ScheduleHalts, Consistent, HasKey;
    CreatedConsistent(s.data, freshId, key, payload, s.clock, io);
  }

  /** A call for a new key creates a pending job with the payload, in memory and in the table,
      and wakes the loop; if the write fails, or the id is taken, nothing changes. */
  lemma CreateMeans(s: State, key: Key, payload: string, freshId: Id, io: bool)
    requires Reachable(s) && ScheduleHalts(key.schedule) && !HasKey(s.data.mem, key)
    ensures var t := Apply(s, Schedule(key, Some(payload), freshId, io));
      && t.tasks == s.tasks
      && (!(io && freshId !in s.data.mem) ==> t.data == s.data)
      && (io && freshId !in s.data.mem ==>
            && OthersKept(s, t, freshId) && WrittenIf(s, t, freshId, true) && t.data.wakeup
            && var row := t.data.mem[freshId];
               && row.id == freshId && row.key == key && row.payload == payload && row.status == Pending
               && row.retryCount == 0 && row.lastError == "" && IsNextRun(key.schedule, s.clock, row.nextRun)
               && row.lastRun == None && row.createdAt == s.clock && row.updatedAt == s.clock)
  {
    hide Reachable, Apply, IsNextRun, HasKey;
    CreateChange(s, key, payload, freshId, io);
    NextRunTimeIsNextRun(key.schedule, s.clock);
    hide NextRunTime, ScheduleHalts;
  }

  /** A payload that cannot be marshalled changes nothing. */
  lemma UnmarshalledMeans(s: State, key: Key, freshId: Id, io: bool)
    ensures var t := Apply(s, Schedule(key, None, freshId, io)); t.data == s.data && t.tasks == s.tasks && t.loop == s.loop
  {
  }

  // ---------------------------------------------------------------------------
  // The loop

  /** The loop waits for the pending job that is due first, but at most 24 hours. */
  lemma TargetMeans(s: State, next: Instant)
    requires Enabled(s, FindNext(next))
    ensures Apply(s, FindNext(next)).loop == Waiting(next, s.clock) && Apply(s, FindNext(next)).data == s.data
    ensures (forall id :: id in s.data.mem && s.data.mem[id].status == Pending
                          ==> s.data.mem[id].nextRun >= s.clock + 86_400_000_000_000)
            ==> next == s.clock + 86_400_000_000_000
    ensures forall id :: id in s.data.mem && s.data.mem[id].status == Pending ==> next <= s.data.mem[id].nextRun
    ensures next < s.clock + 86_400_000_000_000
            ==> exists id :: id in s.data.mem && s.data.mem[id].status == Pending && s.data.mem[id].nextRun == next
    ensures next <= s.clock + 86_400_000_000_000
  {
  }

  /** A dispatched job is Running since the target, with one more task; all else of it stays. */
  lemma DispatchMeans(s: State, accepted: set<Id>, written: set<Id>, id: Id)
    requires Reachable(s) && Enabled(s, Dispatch(accepted, written)) && id in s.data.mem
    ensures var t := Apply(s, Dispatch(accepted, written));
      && id in t.data.mem && t.loop.Computing? && t.data.wakeup == s.data.wakeup
      && (id in accepted ==>
            && t.data.mem[id] == s.data.mem[id].(status := Running, lastRun := Some(s.loop.target), updatedAt := s.clock)
            && t.tasks[id] == s.tasks[id] + 1)
      && (id !in accepted ==> t.data.mem[id] == s.data.mem[id] && t.tasks[id] == s.tasks[id])
      && id in t.data.table && id in s.data.table
      && t.data.table[id] == if id in written then t.data.mem[id] else s.data.table[id]
  {
    assert id in s.data.table by {
      InvData(s);
    }
    hide Reachable, Due, KeysOf;
  }

  /** A forced check wakes a loop that waits. */
  lemma ForceCheckWakes(s: State)
    requires s.loop.Waiting?
    ensures Enabled(Apply(s, ForceCheck), Wake) && Apply(Apply(s, ForceCheck), Wake).loop.Computing?
    ensures !Apply(Apply(s, ForceCheck), Wake).data.wakeup
  {
  }

  // ---------------------------------------------------------------------------
  // What the histories record

  /** An overlap is recorded exactly by a schedule call that resets a job with an
      outstanding task. */
  lemma OverlapExactly(s: State, step: Step)
    requires Reachable(s) && Enabled(s, step) && !s.h.overlapped
    ensures Apply(s, step).h.overlapped
            <==> step.Schedule? && step.payload.Some?
                 && exists id :: id in s.data.mem && s.data.mem[id].key == step.key && id in s.tasks
  {
    assert TableValid(s.data.mem) by {
      InvData(s);
    }
    hide Reachable, Scheduled, Dispatched, CalledBack, NextRunTime, ScheduleHalts;
    if step.Schedule? && step.payload.Some? {
      if id :| id in s.data.mem && s.data.mem[id].key == step.key {
        JobWithKeyUnique(s.data.mem, id);
      }
    }
  }

  /** The last write of a job is recorded as failed exactly if the step that wrote it failed
      to, and a restart forgets it. */
  lemma UnwrittenExactly(s: State, step: Step, id: Id)
    requires Reachable(s) && Enabled(s, step) && id in s.data.mem
    ensures id in Apply(s, step).h.dirty
            <==> if step.Restart? then false
                 else if step.Schedule? && step.payload.Some? && step.key == s.data.mem[id].key then !step.io
                 else if step.Dispatch? && id in step.accepted then id !in step.written
                 else if (step.Succeed? || step.Fail?) && step.id == id then !step.io
                 else id in s.h.dirty
  {
    assert TableValid(s.data.mem) by {
      InvData(s);
    }
    hide Reachable;
    if step.Schedule? {
      hide Apply, Enabled;
      ScheduleUnwritten(s, step, id);
    } else if step.Succeed? || step.Fail? {
      hide Apply, Enabled;
      CallbackMarks(s, step);
    } else {
      hide Apply, Enabled;
      LoopUnwritten(s, step, id);
    }
  }

  lemma LoopUnwritten(s: State, step: Step, id: Id)
    requires Enabled(s, step) && !step.Schedule? && !step.Succeed? && !step.Fail?
    ensures id in Apply(s, step).h.dirty
            <==> if step.Restart? then false
                 else if step.Dispatch? && id in step.accepted then id !in step.written
                 else id in s.h.dirty
  {
    hide Due, KeysOf, Dispatched;
  }

  lemma ScheduleUnwritten(s: State, step: Step, id: Id)
    requires step.Schedule? && Enabled(s, step) && TableValid(s.data.mem) && id in s.data.mem
    ensures id in Apply(s, step).h.dirty
            <==> if step.payload.Some? && step.key == s.data.mem[id].key then !step.io else id in s.h.dirty
  {
    JobWithKeyUnique(s.data.mem, id);
    hide Scheduled, ScheduleHalts;
  }
}
