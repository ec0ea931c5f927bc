/** Runs of the scheduler: any interleaving of schedule calls, callbacks, the
    scheduling loop, the clock and restarts.  The critical sections under the
    scheduler's mutex are atomic steps; writes to the store may fail. */
module SchedulerRuns {
  import opened Wrappers
  import opened Cron
  import opened CronParser
  import GoStrings
  import opened Jobs
  import opened SchedulerSpec

  type Id = string

  // ---------------------------------------------------------------------------
  // States

  /** The scheduling loop is computing, waits on a timer that was set at `since`,
      has seen its timer fire and waits for the mutex, or has ended. */
  datatype Loop =
    | Computing
    | Waiting(target: Instant, since: Instant)
    | Firing(target: Instant, since: Instant)
    | Stopped

  /** What happened so far. */
  datatype History = History(
    calls: multiset<Key>,      // ScheduleJob calls
    dispatches: multiset<Key>, // accepted tasks
    lostWrites: multiset<Key>, // accepted tasks whose write to the table failed
    failures: map<Id, nat>,    // failure callbacks since the last success or schedule call
    dirty: set<Id>,            // jobs whose last write failed
    stranded: set<Id>,         // jobs reset without a wakeup since the loop last computed
    stale: set<Id>,            // jobs that a restart took from an old row
    overlapped: bool,          // some job was reset while it had an outstanding task
    restarted: bool)

  const NO_HISTORY := History(multiset{}, multiset{}, multiset{}, map[], {}, {}, {}, false, false)

  /** `tasks` are the tasks that the pool accepted and that have not called back. */
  datatype State = State(data: Data, loop: Loop, clock: Instant, tasks: multiset<Id>, h: History)

  /** An empty store, at a time that is not before the zero time. */
  ghost predicate IsStart(s: State) {
    0 <= s.clock && s == State(Data(map[], map[], false), Computing, s.clock, multiset{}, NO_HISTORY)
  }

  function Failures(h: History, id: Id): nat {
    if id in h.failures then h.failures[id] else 0
  }

  // ---------------------------------------------------------------------------
  // Steps

  datatype Step =
    | Schedule(key: Key, payload: Option<string>, freshId: Id, io: bool)
    | FindNext(next: Instant)
    | Wake
    | Fire
    | Dispatch(accepted: set<Id>, written: set<Id>)
    | Succeed(id: Id, io: bool)
    | Fail(id: Id, error: string, io: bool)
    | ForceCheck
    | Tick(delta: nat)
    | StopLoop
    | Restart

  ghost predicate HasJob(s: State, id: Id) {
    id in s.data.mem && ScheduleHalts(s.data.mem[id].key.schedule)
  }

  ghost predicate Enabled(s: State, step: Step) {
    match step
    case Schedule(key, payload, _, _) => payload.Some? ==> ScheduleHalts(key.schedule)
    case FindNext(next) => s.loop.Computing? && IsNextWake(s.data.mem, s.clock, next)
    case Wake => s.loop.Waiting? && s.data.wakeup
    case Fire => s.loop.Waiting? && s.loop.target <= s.clock
    case Dispatch(accepted, written) =>
      s.loop.Firing? && written <= accepted <= Due(s.data.mem, s.loop.target)
    case Succeed(id, _) => id in s.tasks && HasJob(s, id)
    case Fail(id, _, _) => id in s.tasks && HasJob(s, id)
    case ForceCheck => true
    case Tick(_) => true
    case StopLoop => true
    case Restart => true
  }

  function KeysOf(t: Table, ids: set<Id>): set<Key> {
    set id | id in ids && id in t :: t[id].key
  }

  function Marked(dirty: set<Id>, id: Id, io: bool): set<Id> {
    if io then dirty - {id} else dirty + {id}
  }

  ghost function AfterSchedule(s: State, key: Key, payload: Option<string>, freshId: Id, io: bool): State
    requires payload.Some? ==> ScheduleHalts(key.schedule)
  {
    var h := s.h.(calls := s.h.calls + multiset{key});
    var data := Scheduled(s.data, key, payload, freshId, s.clock, io);
    if payload.Some? && HasKey(s.data.mem, key) then
      var id := JobWithKey(s.data.mem, key);
      s.(data := data,
         h := h.(failures := h.failures[id := 0], dirty := Marked(h.dirty, id, io),
                 stranded := if io then h.stranded else h.stranded + {id},
                 stale := h.stale - {id}, overlapped := h.overlapped || id in s.tasks))
    else
      s.(data := data, h := h)
  }

  function AfterDispatch(s: State, accepted: set<Id>, written: set<Id>): State
    requires s.loop.Firing?
  {
    State(
      Dispatched(s.data, accepted, written, s.loop.target, s.clock),
      Computing, s.clock, s.tasks + multiset(accepted),
      s.h.(dispatches := s.h.dispatches + multiset(KeysOf(s.data.mem, accepted)),
           lostWrites := s.h.lostWrites + multiset(KeysOf(s.data.mem, accepted - written)),
           dirty := (s.h.dirty - written) + (accepted - written)))
  }

  ghost function AfterCallback(s: State, row: Row, io: bool, failures: nat, stale: set<Id>): State {
    s.(data := CalledBack(s.data, row, io), tasks := s.tasks - multiset{row.id},
       h := s.h.(failures := s.h.failures[row.id := failures], dirty := Marked(s.h.dirty, row.id, io), stale := stale))
  }

  ghost function Apply(s: State, step: Step): State
    requires Enabled(s, step)
  {
    match step
    case Schedule(key, payload, freshId, io) => AfterSchedule(s, key, payload, freshId, io)
    case FindNext(next) => s.(loop := Waiting(next, s.clock), h := s.h.(stranded := {}))
    case Wake => s.(loop := Computing, data := s.data.(wakeup := false))
    case Fire => s.(loop := Firing(s.loop.target, s.loop.since))
    case Dispatch(accepted, written) => AfterDispatch(s, accepted, written)
    case Succeed(id, io) =>
      AfterCallback(s, SuccessRow(s.data.mem[id], s.clock), io, 0, s.h.stale - {id})
    case Fail(id, error, io) =>
      AfterCallback(s, FailureRow(s.data.mem[id], error, s.clock), io, Failures(s.h, id) + 1, s.h.stale)
    case ForceCheck => s.(data := s.data.(wakeup := true))
    case Tick(delta) => s.(clock := s.clock + delta)
    case StopLoop => s.(loop := Stopped)
    case Restart =>
      State(Data(s.data.table, s.data.table, false), Computing, s.clock, multiset{},
            s.h.(dirty := {}, stranded := {}, stale := s.h.stale + s.h.dirty, restarted := true))
  }

  // ---------------------------------------------------------------------------
  // Runs

  ghost predicate Run(s: State, steps: seq<Step>, t: State)
    decreases |steps|
  {
    if steps == [] then s == t
    else Enabled(s, steps[0]) && Run(Apply(s, steps[0]), steps[1..], t)
  }

  ghost predicate Reachable(s: State) {
    exists start, steps :: IsStart(start) && Run(start, steps, s)
  }

  /** Every write of the step succeeds. */
  predicate Stored(step: Step) {
    match step
    case Schedule(_, _, _, io) => io
    case Dispatch(accepted, written) => accepted == written
    case Succeed(_, io) => io
    case Fail(_, _, io) => io
    case _ => true
  }

  predicate AllStored(steps: seq<Step>) {
    forall i :: 0 <= i < |steps| ==> Stored(steps[i])
  }

  // ---------------------------------------------------------------------------
  // Changes of the data

  /** One job gets a new row, and the table learns of it if the write succeeds. */
  ghost predicate RowChange(d: Data, d': Data, row: Row, io: bool) {
    && row.id in d.mem && row.status != NoStatus && SameIdentity(d.mem[row.id], row)
    && d'.mem == d.mem[row.id := row]
    && d'.table == if io then d.table[row.id := row] else d.table
  }

  lemma PersistedIsRowChange(d: Data, row: Row, io: bool)
    requires Consistent(d) && Changes(d, row)
    ensures RowChange(d, Persisted(d, row, io), row, io) && Consistent(Persisted(d, row, io))
    ensures Update(d.table, row, io).Some? == io
  {
    PersistedConsistent(d, row, io);
  }

  /** A job is inserted in memory and table. */
  ghost predicate RowInsert(d: Data, d': Data, row: Row) {
    && row.id !in d.mem && !HasKey(d.mem, row.key)
    && d' == Data(d.mem[row.id := row], d.table[row.id := row], true)
  }

  lemma CreatedIsRowInsert(d: Data, id: Id, key: Key, payload: string, now: Instant, io: bool)
    requires Consistent(d) && ScheduleHalts(key.schedule) && !HasKey(d.mem, key)
    ensures var d' := Created(d, id, key, payload, now, io);
      d' == d || RowInsert(d, d', NewRow(id, key, payload, now))
    ensures Consistent(Created(d, id, key, payload, now, io))
  {
    CreatedConsistent(d, id, key, payload, now, io);
  }

  // ---------------------------------------------------------------------------
  // The mirror

  /** The table holds every job as memory does, except those whose last write failed. */
  ghost predicate Mirrored(d: Data, dirty: set<Id>) {
    && Consistent(d) && dirty <= d.mem.Keys
    && forall id :: id in d.mem && id !in dirty ==> d.mem[id] == d.table[id]
  }

  lemma MirroredRowChange(d: Data, d': Data, row: Row, io: bool, dirty: set<Id>)
    requires Mirrored(d, dirty) && RowChange(d, d', row, io) && Consistent(d')
    ensures Mirrored(d', Marked(dirty, row.id, io))
  {
  }

  lemma MirroredDispatch(d: Data, dirty: set<Id>, accepted: set<Id>, written: set<Id>, target: Instant, now: Instant)
    requires Mirrored(d, dirty) && written <= accepted <= d.mem.Keys
    ensures Mirrored(Dispatched(d, accepted, written, target, now), (dirty - written) + (accepted - written))
  {
    DispatchedConsistent(d, accepted, written, target, now);
  }

  // ---------------------------------------------------------------------------
  // Rows

  ghost predicate RowOk(row: Row) {
    && (row.status == Pending || row.status == Running || row.status == Completed || row.status == Failed)
    && 0 <= row.retryCount
    && (row.status == Pending ==> row.retryCount == 0 && 0 < row.nextRun)
    && ScheduleHalts(row.key.schedule)
  }

  ghost predicate RowsOk(t: Table) {
    forall id :: id in t ==> RowOk(t[id])
  }

  ghost predicate DataOk(d: Data, dirty: set<Id>) {
    Mirrored(d, dirty) && RowsOk(d.mem) && RowsOk(d.table)
  }

  lemma DataOkRowChange(d: Data, d': Data, row: Row, io: bool, dirty: set<Id>)
    requires DataOk(d, dirty) && RowChange(d, d', row, io) && Consistent(d') && RowOk(row)
    ensures DataOk(d', Marked(dirty, row.id, io))
  {
    MirroredRowChange(d, d', row, io, dirty);
  }

  lemma DataOkDispatch(d: Data, dirty: set<Id>, accepted: set<Id>, written: set<Id>, target: Instant, now: Instant)
    requires DataOk(d, dirty) && written <= accepted <= d.mem.Keys
    ensures DataOk(Dispatched(d, accepted, written, target, now), (dirty - written) + (accepted - written))
  {
    MirroredDispatch(d, dirty, accepted, written, target, now);
    var d' := Dispatched(d, accepted, written, target, now);
    forall id | id in d'.mem
      ensures RowOk(d'.mem[id]) && RowOk(d'.table[id])
    {
      assert RowOk(d.mem[id]) && RowOk(d.table[id]);
    }
  }

  lemma RescheduleData(s: State, id: Id, payload: string, io: bool)
    requires DataOk(s.data, s.h.dirty) && 0 <= s.clock && HasJob(s, id)
    ensures DataOk(Rescheduled(s.data, id, payload, s.clock, io), Marked(s.h.dirty, id, io))
    ensures var row := RescheduledRow(s.data.mem[id], payload, s.clock);
      var d' := Rescheduled(s.data, id, payload, s.clock, io);
      RowOk(row) && RowChange(s.data, d', row, io) && row.id == id && d'.wakeup == (s.data.wakeup || io)
  {
    var row := RescheduledRow(s.data.mem[id], payload, s.clock);
    PersistedIsRowChange(s.data, row, io);
    DataOkRowChange(s.data, Rescheduled(s.data, id, payload, s.clock, io), row, io, s.h.dirty);
  }

  lemma CreateData(s: State, key: Key, payload: string, freshId: Id, io: bool)
    requires DataOk(s.data, s.h.dirty) && 0 <= s.clock && ScheduleHalts(key.schedule) && !HasKey(s.data.mem, key)
    ensures var row := NewRow(freshId, key, payload, s.clock);
      var d' := Created(s.data, freshId, key, payload, s.clock, io);
      DataOk(d', s.h.dirty) && RowOk(row) && (d' == s.data || RowInsert(s.data, d', row))
  {
    CreatedIsRowInsert(s.data, freshId, key, payload, s.clock, io);
  }

  /** The row that a callback writes. */
  ghost function OutcomeRow(s: State, step: Step): Row
    requires (step.Succeed? || step.Fail?) && HasJob(s, step.id)
  {
    if step.Succeed? then SuccessRow(s.data.mem[step.id], s.clock)
    else FailureRow(s.data.mem[step.id], step.error, s.clock)
  }

  lemma CallbackData(s: State, step: Step)
    requires DataOk(s.data, s.h.dirty) && 0 <= s.clock
    requires (step.Succeed? || step.Fail?) && HasJob(s, step.id)
    ensures var row := OutcomeRow(s, step);
      var d' := CalledBack(s.data, row, step.io);
      && RowOk(row) && RowChange(s.data, d', row, step.io) && row.id == step.id && d'.wakeup
      && DataOk(d', Marked(s.h.dirty, step.id, step.io))
  {
    var row := OutcomeRow(s, step);
    PersistedIsRowChange(s.data, row, step.io);
    DataOkRowChange(s.data, CalledBack(s.data, row, step.io), row, step.io, s.h.dirty);
  }

  lemma StepData(s: State, step: Step)
    requires Enabled(s, step) && DataOk(s.data, s.h.dirty) && 0 <= s.clock
    ensures var t := Apply(s, step);
      DataOk(t.data, t.h.dirty) && 0 <= t.clock
  {
    hide Rescheduled, Created, CalledBack, NextRunTime, ScheduleHalts, RowOk;
    match step
    case Schedule(key, payload, freshId, io) =>
      if payload.Some? {
        if HasKey(s.data.mem, key) {
          RescheduleData(s, JobWithKey(s.data.mem, key), payload.value, io);
        } else {
          CreateData(s, key, payload.value, freshId, io);
        }
      }
    case Dispatch(accepted, written) =>
      DataOkDispatch(s.data, s.h.dirty, accepted, written, s.loop.target, s.clock);
    case Succeed(_, _) =>
      CallbackData(s, step);
    case Fail(_, _, _) =>
      CallbackData(s, step);
    case Restart =>
      PairedTable(s.data.mem, s.data.table);
    case _ =>
  }

  /** Only this job may have changed, and the histories of the others are the same. */
  ghost predicate OnlyJob(s: State, t: State, id: Id) {
    && s.data.mem.Keys <= t.data.mem.Keys <= s.data.mem.Keys + {id}
    && (forall other :: other in s.data.mem && other != id ==>
          t.data.mem[other] == s.data.mem[other] && Failures(t.h, other) == Failures(s.h, other))
    && t.h.dispatches == s.h.dispatches
  }

  /** A schedule call changes nothing in memory, or sets one job with its key to Pending. */
  ghost predicate SetsPending(s: State, t: State, key: Key, id: Id) {
    && OnlyJob(s, t, id)
    && (id in t.data.mem ==>
          && (id in s.data.mem ==> s.data.mem[id].key == key)
          && t.data.mem[id].key == key && t.data.mem[id].status == Pending
          && t.data.mem[id].retryCount == 0 && (id in s.data.mem ==> Failures(t.h, id) == 0))
  }

  ghost predicate SameMem(s: State, t: State) {
    t.data.mem == s.data.mem && t.h.failures == s.h.failures && t.h.dispatches == s.h.dispatches
  }

  lemma ScheduleEffect(s: State, step: Step) returns (id: Id)
    requires step.Schedule? && Enabled(s, step) && DataOk(s.data, s.h.dirty) && 0 <= s.clock
    ensures SameMem(s, Apply(s, step)) || SetsPending(s, Apply(s, step), step.key, id)
  {
    hide Rescheduled, Created, NextRunTime, ScheduleHalts, RowOk, Consistent, DataOk, JobWithKey;
    id := step.freshId;
    if step.payload.Some? {
      if HasKey(s.data.mem, step.key) {
        id := JobWithKey(s.data.mem, step.key);
        hide SetsPending;
        RescheduleEffect(s, step, id);
      } else {
        CreateData(s, step.key, step.payload.value, step.freshId, step.io);
      }
    }
  }

  lemma RescheduleEffect(s: State, step: Step, id: Id)
    requires step.Schedule? && Enabled(s, step) && DataOk(s.data, s.h.dirty) && 0 <= s.clock
    requires step.payload.Some? && HasKey(s.data.mem, step.key) && id == JobWithKey(s.data.mem, step.key)
    ensures SetsPending(s, Apply(s, step), step.key, id)
  {
    hide Rescheduled, Created, NextRunTime, ScheduleHalts, RowOk, Consistent, DataOk;
    RescheduleData(s, id, step.payload.value, step.io);
  }

  /** The steps of the loop and the clock leave the jobs alone. */
  lemma QuietEffect(s: State, step: Step)
    requires Enabled(s, step) && !step.Schedule? && !step.Dispatch? && !step.Succeed? && !step.Fail? && !step.Restart?
    ensures var t := Apply(s, step); SameMem(s, t) && t.data.table == s.data.table && t.h.calls == s.h.calls
  {
  }

  lemma RestartEffect(s: State)
    ensures var t := Apply(s, Restart);
      && t.data.mem == s.data.table && t.h.calls == s.h.calls
      && t.h.failures == s.h.failures && t.h.dispatches == s.h.dispatches
  {
  }

  lemma DispatchEffect(s: State, step: Step)
    requires step.Dispatch? && Enabled(s, step)
    ensures var t := Apply(s, step);
      && t.data.mem.Keys == s.data.mem.Keys && t.h.calls == s.h.calls && t.h.failures == s.h.failures
      && forall id :: id in s.data.mem ==>
           t.data.mem[id] == if id in step.accepted then DispatchedRow(s.data.mem[id], s.loop.target, s.clock) else s.data.mem[id]
  {
  }

  /** A callback ends the run of its job. */
  lemma CallbackEffect(s: State, step: Step)
    requires (step.Succeed? || step.Fail?) && Enabled(s, step)
    requires DataOk(s.data, s.h.dirty) && 0 <= s.clock
    ensures var t := Apply(s, step);
      && OnlyJob(s, t, step.id) && t.data.mem.Keys == s.data.mem.Keys && t.h.calls == s.h.calls
      && t.data.mem[step.id].key == s.data.mem[step.id].key && t.data.mem[step.id].status != Pending
      && t.data.mem[step.id].retryCount == (if step.Succeed? then 0 else s.data.mem[step.id].retryCount + 1)
      && Failures(t.h, step.id) == if step.Succeed? then 0 else Failures(s.h, step.id) + 1
  {
    hide CalledBack, NextRunTime, ScheduleHalts, RowOk, Consistent;
    CallbackData(s, step);
  }

  lemma CallbackRecords(s: State, step: Step)
    requires (step.Succeed? || step.Fail?) && Enabled(s, step)
    requires DataOk(s.data, s.h.dirty) && 0 <= s.clock
    ensures var t := Apply(s, step);
      t.tasks == s.tasks - multiset{step.id} && (!step.io ==> t.data.table == s.data.table)
  {
    hide CalledBack, NextRunTime, ScheduleHalts, RowOk, Consistent;
    CallbackData(s, step);
  }

  // ---------------------------------------------------------------------------
  // Wakeups

  /** Jobs that are due before the loop's target have left a wakeup in the channel,
      except those that were reset by a schedule call whose write failed. */
  ghost predicate WakeOk(s: State) {
    match s.loop
    case Waiting(target, since) =>
      && since <= s.clock && target <= since + 24 * HOUR
      && (s.data.wakeup || NothingEarlier(s.data.mem, target, s.h.stranded))
    case Firing(target, since) =>
      target <= s.clock && since <= s.clock && target <= since + 24 * HOUR
    case _ => true
  }

  ghost predicate NothingEarlier(mem: Table, target: Instant, except: set<Id>) {
    forall id :: id in mem && mem[id].status == Pending && id !in except ==> target <= mem[id].nextRun
  }

  lemma StepWake(s: State, step: Step)
    requires Enabled(s, step) && DataOk(s.data, s.h.dirty) && 0 <= s.clock && WakeOk(s)
    ensures WakeOk(Apply(s, step))
  {
    match step
    case Schedule(_, _, _, _) => ScheduleWake(s, step);
    case _ =>
  }

  lemma ScheduleWake(s: State, step: Step)
    requires step.Schedule? && Enabled(s, step) && DataOk(s.data, s.h.dirty) && 0 <= s.clock && WakeOk(s)
    ensures WakeOk(Apply(s, step))
  {
    hide NextRunTime, ScheduleHalts, RowOk, Consistent, Rescheduled, Created;
    if step.payload.Some? {
      if HasKey(s.data.mem, step.key) {
        RescheduleData(s, JobWithKey(s.data.mem, step.key), step.payload.value, step.io);
      } else {
        CreateData(s, step.key, step.payload.value, step.freshId, step.io);
      }
    }
  }

  // ---------------------------------------------------------------------------
  // The budget of dispatches

  ghost predicate PendingIn(t: Table, key: Key) {
    exists id :: id in t && t[id].key == key && t[id].status == Pending
  }

  /** One if a dispatch of the key is still to come, now or after a restart. */
  ghost function Owed(d: Data, key: Key): nat {
    if PendingIn(d.mem, key) || PendingIn(d.table, key) then 1 else 0
  }

  /** What is paid for the key covers what was and may be dispatched. */
  ghost predicate KeyInBudget(s: State, key: Key) {
    s.h.dispatches[key] + Owed(s.data, key) <= s.h.calls[key] + s.h.lostWrites[key]
  }

  ghost predicate BudgetOk(s: State) {
    forall key :: KeyInBudget(s, key)
  }

  lemma OwedRowChange(d: Data, d': Data, row: Row, io: bool, key: Key)
    requires RowChange(d, d', row, io) && (row.status == Pending ==> row.key != key)
    requires Consistent(d)
    ensures Owed(d', key) <= Owed(d, key)
  {
    if id :| id in d'.mem && d'.mem[id].key == key && d'.mem[id].status == Pending {
      assert id in d.mem && d.mem[id] == d'.mem[id];
    }
    if id :| id in d'.table && d'.table[id].key == key && d'.table[id].status == Pending {
      assert id in d.table && d.table[id] == d'.table[id];
    }
  }

  lemma OwedInsert(d: Data, d': Data, row: Row, key: Key)
    requires RowInsert(d, d', row) && row.key != key
    ensures Owed(d', key) <= Owed(d, key)
  {
    if id :| id in d'.mem && d'.mem[id].key == key && d'.mem[id].status == Pending {
      assert id in d.mem && d.mem[id] == d'.mem[id];
    }
    if id :| id in d'.table && d'.table[id].key == key && d'.table[id].status == Pending {
      assert id in d.table && d.table[id] == d'.table[id];
    }
  }

  lemma PendingAfterDispatch(d: Data, accepted: set<Id>, written: set<Id>, target: Instant, now: Instant, key: Key)
    requires Consistent(d) && accepted <= d.mem.Keys
    ensures PendingIn(Dispatched(d, accepted, written, target, now).mem, key)
            ==> PendingIn(d.mem, key) && key !in KeysOf(d.mem, accepted)
  {
    var d' := Dispatched(d, accepted, written, target, now);
    if id :| id in d'.mem && d'.mem[id].key == key && d'.mem[id].status == Pending {
      assert id in d.mem && d.mem[id] == d'.mem[id] && id !in accepted;
    }
  }

  lemma OldPendingAfterDispatch(d: Data, accepted: set<Id>, written: set<Id>, target: Instant, now: Instant, key: Key)
    requires Consistent(d) && written <= accepted <= d.mem.Keys
    ensures PendingIn(Dispatched(d, accepted, written, target, now).table, key)
            ==> PendingIn(d.table, key)
                && (key in KeysOf(d.mem, accepted) ==> key in KeysOf(d.mem, accepted - written))
  {
    var d' := Dispatched(d, accepted, written, target, now);
    if id :| id in d'.table && d'.table[id].key == key && d'.table[id].status == Pending {
      assert id in d.table && d.table[id] == d'.table[id] && id !in written;
      assert SameIdentity(d.mem[id], d.table[id]);
      if other :| other in accepted && d.mem[other].key == key {
        assert other == id && id in accepted - written;
      }
    }
  }

  lemma OwedDispatch(d: Data, accepted: set<Id>, written: set<Id>, target: Instant, now: Instant, key: Key)
    requires Consistent(d) && written <= accepted <= Due(d.mem, target)
    ensures var d' := Dispatched(d, accepted, written, target, now);
      var dispatched := if key in KeysOf(d.mem, accepted) then 1 else 0;
      var lost := if key in KeysOf(d.mem, accepted - written) then 1 else 0;
      dispatched + Owed(d', key) <= Owed(d, key) + lost
  {
    hide Dispatched, Consistent;
    PendingAfterDispatch(d, accepted, written, target, now, key);
    OldPendingAfterDispatch(d, accepted, written, target, now, key);
    if key in KeysOf(d.mem, accepted) {
      var id :| id in accepted && id in d.mem && d.mem[id].key == key;
      assert IsDue(d.mem[id], target);
      assert PendingIn(d.mem, key);
    }
  }

  lemma StepBudget(s: State, step: Step)
    requires Enabled(s, step) && DataOk(s.data, s.h.dirty) && 0 <= s.clock && BudgetOk(s)
    ensures BudgetOk(Apply(s, step))
  {
    hide Enabled, Apply, DataOk, KeyInBudget;
    forall key ensures KeyInBudget(Apply(s, step), key) {
      StepBudgetFor(s, step, key);
    }
  }

  lemma StepBudgetFor(s: State, step: Step, key: Key)
    requires Enabled(s, step) && DataOk(s.data, s.h.dirty) && 0 <= s.clock && KeyInBudget(s, key)
    ensures KeyInBudget(Apply(s, step), key)
  {
    match step
    case Schedule(_, _, _, _) =>
      hide *;
      ScheduleBudget(s, step, key);
    case Dispatch(accepted, written) =>
      hide Dispatched, Owed, DataOk;
      assert Consistent(s.data) by { DataIsConsistent(s); }
      OwedDispatch(s.data, accepted, written, s.loop.target, s.clock, key);
    case Succeed(_, _) =>
      hide *;
      CallbackBudget(s, step, key);
    case Fail(_, _, _) =>
      hide *;
      CallbackBudget(s, step, key);
    case _ =>
      hide DataOk, PendingIn;
  }

  lemma DataIsConsistent(s: State)
    requires DataOk(s.data, s.h.dirty)
    ensures Consistent(s.data)
  {
  }

  lemma ScheduleBudget(s: State, step: Step, key: Key)
    requires step.Schedule? && Enabled(s, step) && DataOk(s.data, s.h.dirty) && 0 <= s.clock && KeyInBudget(s, key)
    ensures KeyInBudget(Apply(s, step), key)
  {
    DataIsConsistent(s);
    hide Rescheduled, Created, NextRunTime, ScheduleHalts, RowOk, Consistent, DataOk, JobWithKey, PendingIn, Owed, RowInsert,
      RowChange, Marked;
    var t := Apply(s, step);
    if step.payload.Some? && step.key != key {
      if HasKey(s.data.mem, step.key) {
        var id := JobWithKey(s.data.mem, step.key);
        RescheduleData(s, id, step.payload.value, step.io);
        OwedRowChange(s.data, t.data, RescheduledRow(s.data.mem[id], step.payload.value, s.clock), step.io, key);
      } else {
        CreateData(s, step.key, step.payload.value, step.freshId, step.io);
        if t.data != s.data {
          OwedInsert(s.data, t.data, NewRow(step.freshId, step.key, step.payload.value, s.clock), key);
        }
      }
    }
  }

  lemma CallbackBudget(s: State, step: Step, key: Key)
    requires (step.Succeed? || step.Fail?) && Enabled(s, step)
    requires DataOk(s.data, s.h.dirty) && 0 <= s.clock && KeyInBudget(s, key)
    ensures KeyInBudget(Apply(s, step), key)
  {
    DataIsConsistent(s);
    hide CalledBack, NextRunTime, ScheduleHalts, RowOk, Consistent, DataOk, PendingIn;
    CallbackData(s, step);
    OwedRowChange(s.data, Apply(s, step).data, OutcomeRow(s, step), step.io, key);
  }

  // ---------------------------------------------------------------------------
  // Retry counts

  /** A retry count is the number of failures since the last success or schedule
      call, unless a restart brought back an old row. */
  ghost predicate RetriesOk(s: State) {
    && s.h.failures.Keys <= s.data.mem.Keys
    && forall id :: id in s.data.mem && id !in s.h.stale ==> s.data.mem[id].retryCount == Failures(s.h, id)
  }

  lemma RetriesRowChange(s: State, t: State, row: Row, io: bool)
    requires RetriesOk(s) && RowChange(s.data, t.data, row, io)
    requires s.h.stale - {row.id} <= t.h.stale && t.h.failures == s.h.failures[row.id := Failures(t.h, row.id)]
    requires row.id !in t.h.stale ==> row.retryCount == Failures(t.h, row.id)
    ensures RetriesOk(t)
  {
  }

  lemma RetriesRestart(s: State)
    requires RetriesOk(s) && Mirrored(s.data, s.h.dirty)
    ensures RetriesOk(Apply(s, Restart))
  {
  }

  lemma RetriesInsert(s: State, t: State, row: Row)
    requires RetriesOk(s) && RowInsert(s.data, t.data, row) && row.retryCount == 0
    requires t.h.stale == s.h.stale && t.h.failures == s.h.failures
    ensures RetriesOk(t)
  {
  }

  lemma RetriesSame(s: State, t: State)
    requires RetriesOk(s) && t.data.mem == s.data.mem
    requires t.h.stale == s.h.stale && t.h.failures == s.h.failures
    ensures RetriesOk(t)
  {
  }

  lemma RetriesDispatch(s: State, accepted: set<Id>, written: set<Id>)
    requires RetriesOk(s) && s.loop.Firing?
    ensures RetriesOk(AfterDispatch(s, accepted, written))
  {
  }

  lemma RetriesSchedule(s: State, step: Step)
    requires step.Schedule? && Enabled(s, step) && DataOk(s.data, s.h.dirty) && 0 <= s.clock && RetriesOk(s)
    ensures RetriesOk(Apply(s, step))
  {
    hide Rescheduled, Created, NextRunTime, ScheduleHalts, RowOk, Consistent, RetriesOk, RowChange, RowInsert;
    var t := Apply(s, step);
    if step.payload == None {
      RetriesSame(s, t);
    } else if HasKey(s.data.mem, step.key) {
      var id := JobWithKey(s.data.mem, step.key);
      RescheduleData(s, id, step.payload.value, step.io);
      RetriesRowChange(s, t, RescheduledRow(s.data.mem[id], step.payload.value, s.clock), step.io);
    } else {
      CreateData(s, step.key, step.payload.value, step.freshId, step.io);
      if t.data == s.data {
        RetriesSame(s, t);
      } else {
        RetriesInsert(s, t, NewRow(step.freshId, step.key, step.payload.value, s.clock));
      }
    }
  }

  lemma RetriesCallback(s: State, step: Step)
    requires (step.Succeed? || step.Fail?) && Enabled(s, step)
    requires DataOk(s.data, s.h.dirty) && 0 <= s.clock && RetriesOk(s)
    ensures RetriesOk(Apply(s, step))
  {
    hide CalledBack, NextRunTime, ScheduleHalts, RowOk, Consistent;
    CallbackData(s, step);
    RetriesRowChange(s, Apply(s, step), OutcomeRow(s, step), step.io);
  }

  lemma StepRetries(s: State, step: Step)
    requires Enabled(s, step) && DataOk(s.data, s.h.dirty) && 0 <= s.clock && RetriesOk(s)
    ensures RetriesOk(Apply(s, step))
  {
    hide RetriesOk, Consistent, RowsOk;
    match step
    case Schedule(_, _, _, _) => RetriesSchedule(s, step);
    case Dispatch(accepted, written) => RetriesDispatch(s, accepted, written);
    case Succeed(_, _) => RetriesCallback(s, step);
    case Fail(_, _, _) => RetriesCallback(s, step);
    case Restart => RetriesRestart(s);
    case _ => RetriesSame(s, Apply(s, step));
  }

  // ---------------------------------------------------------------------------
  // Outstanding tasks

  ghost predicate TasksHaveJobs(s: State) {
    forall id :: id in s.tasks ==> id in s.data.mem
  }

  lemma StepTasksHaveJobs(s: State, step: Step)
    requires Enabled(s, step) && DataOk(s.data, s.h.dirty) && 0 <= s.clock && TasksHaveJobs(s)
    ensures TasksHaveJobs(Apply(s, step))
  {
    hide Rescheduled, Created, CalledBack, NextRunTime, ScheduleHalts, Consistent, RowOk, DataOk;
    match step
    case Schedule(_, _, _, _) =>
      hide Apply;
      ScheduleTasks(s, step);
      var id := ScheduleEffect(s, step);
    case Succeed(_, _) =>
      CallbackData(s, step);
    case Fail(_, _, _) =>
      CallbackData(s, step);
    case _ =>
  }

  lemma ScheduleTasks(s: State, step: Step)
    requires step.Schedule? && Enabled(s, step)
    ensures Apply(s, step).tasks == s.tasks
  {
    hide Scheduled, ScheduleHalts, Marked;
  }

  /** The state of a job of which at most one task is outstanding. */
  ghost predicate OneTask(row: Row, tasks: nat, restarted: bool) {
    && tasks <= 1 && row.retryCount <= 1
    && (tasks == 1 ==> row.status == Running && row.retryCount == 0)
    && (!restarted && row.status == Running ==> tasks == 1)
  }

  ghost predicate OneTaskEach(s: State) {
    && (forall id :: id in s.data.mem ==> OneTask(s.data.mem[id], s.tasks[id], s.h.restarted))
    && (forall id :: id in s.data.table ==> s.data.table[id].retryCount <= 1)
  }

  lemma OneTaskRowChange(s: State, t: State, row: Row, io: bool)
    requires OneTaskEach(s) && RowChange(s.data, t.data, row, io) && t.h.restarted == s.h.restarted
    requires forall id :: id != row.id ==> t.tasks[id] == s.tasks[id]
    requires OneTask(row, t.tasks[row.id], t.h.restarted)
    ensures OneTaskEach(t)
  {
  }

  lemma OneTaskInsert(s: State, t: State, row: Row)
    requires OneTaskEach(s) && RowInsert(s.data, t.data, row) && t.h.restarted == s.h.restarted
    requires t.tasks == s.tasks && OneTask(row, t.tasks[row.id], t.h.restarted)
    ensures OneTaskEach(t)
  {
  }

  lemma OneTaskDispatch(s: State, accepted: set<Id>, written: set<Id>)
    requires OneTaskEach(s) && RowsOk(s.data.mem)
    requires s.loop.Firing? && written <= accepted <= Due(s.data.mem, s.loop.target)
    ensures OneTaskEach(AfterDispatch(s, accepted, written))
  {
    var t := AfterDispatch(s, accepted, written);
    forall id | id in t.data.mem
      ensures OneTask(t.data.mem[id], t.tasks[id], t.h.restarted)
    {
      assert OneTask(s.data.mem[id], s.tasks[id], s.h.restarted) && RowOk(s.data.mem[id]);
      assert id in accepted ==> IsDue(s.data.mem[id], s.loop.target);
    }
    forall id | id in t.data.table
      ensures t.data.table[id].retryCount <= 1
    {
      if id in written {
        assert OneTask(s.data.mem[id], s.tasks[id], s.h.restarted);
      }
    }
  }

  lemma OneTaskSchedule(s: State, step: Step)
    requires step.Schedule? && Enabled(s, step) && DataOk(s.data, s.h.dirty) && 0 <= s.clock && TasksHaveJobs(s)
    requires OneTaskEach(s) && !Apply(s, step).h.overlapped
    ensures OneTaskEach(Apply(s, step))
  {
    hide Rescheduled, Created, NextRunTime, ScheduleHalts, Consistent, RowOk, OneTaskEach;
    var t := Apply(s, step);
    if step.payload == None {
      OneTaskSame(s, t);
    } else if HasKey(s.data.mem, step.key) {
      var id := JobWithKey(s.data.mem, step.key);
      var row := RescheduledRow(s.data.mem[id], step.payload.value, s.clock);
      RescheduleData(s, id, step.payload.value, step.io);
      OneTaskRowChange(s, t, row, step.io);
    } else {
      var row := NewRow(step.freshId, step.key, step.payload.value, s.clock);
      CreateData(s, step.key, step.payload.value, step.freshId, step.io);
      if t.data == s.data {
        OneTaskSame(s, t);
      } else {
        OneTaskInsert(s, t, row);
      }
    }
  }

  lemma OneTaskSame(s: State, t: State)
    requires OneTaskEach(s) && t.data.mem == s.data.mem && t.data.table == s.data.table
    requires t.tasks == s.tasks && t.h.restarted == s.h.restarted
    ensures OneTaskEach(t)
  {
  }

  lemma OneTaskCallback(s: State, step: Step)
    requires (step.Succeed? || step.Fail?) && Enabled(s, step)
    requires DataOk(s.data, s.h.dirty) && 0 <= s.clock && OneTaskEach(s)
    ensures OneTaskEach(Apply(s, step))
  {
    hide CalledBack, NextRunTime, ScheduleHalts, Consistent, RowOk;
    var t, row := Apply(s, step), OutcomeRow(s, step);
    assert OneTask(s.data.mem[step.id], s.tasks[step.id], s.h.restarted);
    CallbackData(s, step);
    OneTaskRowChange(s, t, row, step.io);
  }

  lemma StepOneTask(s: State, step: Step)
    requires Enabled(s, step) && DataOk(s.data, s.h.dirty) && 0 <= s.clock && TasksHaveJobs(s)
    requires OneTaskEach(s) && !Apply(s, step).h.overlapped
    ensures OneTaskEach(Apply(s, step))
  {
    match step
    case Schedule(_, _, _, _) => OneTaskSchedule(s, step);
    case Dispatch(accepted, written) => OneTaskDispatch(s, accepted, written);
    case Succeed(_, _) => OneTaskCallback(s, step);
    case Fail(_, _, _) => OneTaskCallback(s, step);
    case _ =>
  }

  // ---------------------------------------------------------------------------
  // What every reachable state satisfies

  ghost predicate Inv(s: State) {
    && DataOk(s.data, s.h.dirty) && 0 <= s.clock
    && WakeOk(s) && BudgetOk(s) && RetriesOk(s) && TasksHaveJobs(s)
    && (!s.h.overlapped ==> OneTaskEach(s))
  }

  lemma StartInv(s: State)
    requires IsStart(s)
    ensures Inv(s)
  {
    forall key
      ensures Owed(s.data, key) == 0
    {
      assert !PendingIn(s.data.mem, key) && !PendingIn(s.data.table, key);
    }
  }

  /** Every step keeps the invariant. */
  lemma StepInv(s: State, step: Step)
    requires Inv(s) && Enabled(s, step)
    ensures Inv(Apply(s, step))
  {
    hide DataOk, WakeOk, BudgetOk, RetriesOk, TasksHaveJobs, OneTaskEach, Enabled;
    StepData(s, step);
    StepWake(s, step);
    StepBudget(s, step);
    StepRetries(s, step);
    StepTasksHaveJobs(s, step);
    OverlapStays(s, step);
    if !Apply(s, step).h.overlapped {
      StepOneTask(s, step);
    }
  }

  lemma OverlapStays(s: State, step: Step)
    requires Enabled(s, step)
    ensures s.h.overlapped ==> Apply(s, step).h.overlapped
  {
  }

  lemma {:induction false} RunInv(s: State, steps: seq<Step>, t: State)
    requires Inv(s) && Run(s, steps, t)
    ensures Inv(t)
    decreases |steps|
  {
    if steps != [] {
      StepInv(s, steps[0]);
      RunInv(Apply(s, steps[0]), steps[1..], t);
    }
  }

  lemma ReachableInv(s: State)
    requires Reachable(s)
    ensures Inv(s)
  {
    var start, steps :| IsStart(start) && Run(start, steps, s);
    StartInv(start);
    RunInv(start, steps, s);
  }

  lemma InvData(s: State)
    requires Reachable(s)
    ensures DataOk(s.data, s.h.dirty) && 0 <= s.clock
  {
    ReachableInv(s);
  }

  lemma {:induction false} RunAppend(s: State, steps: seq<Step>, t: State, step: Step)
    requires Run(s, steps, t) && Enabled(t, step)
    ensures Run(s, steps + [step], Apply(t, step))
    decreases |steps|
  {
    hide Enabled, Apply;
    if steps == [] {
      assert (steps + [step])[1..] == [];
    } else {
      assert (steps + [step])[1..] == steps[1..] + [step];
      RunAppend(Apply(s, steps[0]), steps[1..], t, step);
    }
  }

  lemma ReachableStep(s: State, step: Step)
    requires Reachable(s) && Enabled(s, step)
    ensures Reachable(Apply(s, step))
  {
    var start, steps :| IsStart(start) && Run(start, steps, s);
    RunAppend(start, steps, s, step);
  }

  /** No write of the run has failed. */
  ghost predicate NothingFailed(h: History) {
    h.dirty == {} && h.stranded == {} && h.stale == {} && h.lostWrites == multiset{}
  }

  lemma {:induction false} StoredRun(s: State, steps: seq<Step>, t: State)
    requires Run(s, steps, t) && AllStored(steps) && NothingFailed(s.h)
    ensures NothingFailed(t.h)
    decreases |steps|
  {
    if steps != [] {
      StoredStep(s, steps[0]);
      StoredRun(Apply(s, steps[0]), steps[1..], t);
    }
  }

  lemma StoredStep(s: State, step: Step)
    requires Enabled(s, step) && Stored(step) && NothingFailed(s.h)
    ensures NothingFailed(Apply(s, step).h)
  {
    if step.Dispatch? {
      assert step.accepted - step.written == {};
      assert KeysOf(s.data.mem, {}) == {};
    }
  }

  // ---------------------------------------------------------------------------
  // Wakeups

  /** While the loop waits with an empty wakeup channel, no job is due before the
      target of the wait but those whose reset could not be written. */
  lemma NoLostWakeup(s: State)
    requires Reachable(s) && s.loop.Waiting? && !s.data.wakeup
    ensures forall id :: id in s.data.mem && s.data.mem[id].status == Pending && s.data.mem[id].nextRun < s.loop.target
                         ==> id in s.h.stranded
  {
    ReachableInv(s);
  }

  /** If all writes succeed, no wakeup is lost at all. */
  lemma NoLostWakeupWhenStored(start: State, steps: seq<Step>, s: State)
    requires IsStart(start) && Run(start, steps, s) && AllStored(steps) && s.loop.Waiting? && !s.data.wakeup
    ensures forall id :: id in s.data.mem && s.data.mem[id].status == Pending ==> s.loop.target <= s.data.mem[id].nextRun
  {
    StoredRun(start, steps, s);
    NoLostWakeup(s);
  }

  /** A waiting loop that has no wakeup in its channel sleeps past no pending job. */
  ghost predicate Awake(s: State) {
    s.loop.Waiting? ==> s.data.wakeup || NothingEarlier(s.data.mem, s.loop.target, {})
  }

  /** A schedule call resets a job to an earlier time than the loop waits for, and
      its write fails while the channel is empty. */
  ghost predicate LosesWakeup(s: State, step: Step)
    requires Enabled(s, step)
  {
    && step.Schedule? && step.payload.Some? && HasKey(s.data.mem, step.key) && !step.io
    && s.loop.Waiting? && !s.data.wakeup && NextRunTime(step.key.schedule, s.clock) < s.loop.target
  }

  /** A step loses a wakeup if and only if it is such a schedule call. */
  lemma WakeupIsLostExactly(s: State, step: Step)
    requires Reachable(s) && Enabled(s, step) && Awake(s)
    ensures Awake(Apply(s, step)) <==> !LosesWakeup(s, step)
  {
    ReachableInv(s);
    match step
    case Schedule(key, payload, freshId, io) => ScheduleAwake(s, step);
    case _ =>
  }

  lemma ScheduleAwake(s: State, step: Step)
    requires step.Schedule? && Enabled(s, step) && DataOk(s.data, s.h.dirty) && 0 <= s.clock && Awake(s)
    ensures Awake(Apply(s, step)) <==> !LosesWakeup(s, step)
  {
    hide NextRunTime, ScheduleHalts, RowOk, Consistent, Rescheduled, Created;
    var t := Apply(s, step);
    if step.payload.Some? {
      if HasKey(s.data.mem, step.key) {
        var id := JobWithKey(s.data.mem, step.key);
        RescheduleData(s, id, step.payload.value, step.io);
        assert t.data.mem[id] == RescheduledRow(s.data.mem[id], step.payload.value, s.clock);
      } else {
        CreateData(s, step.key, step.payload.value, step.freshId, step.io);
      }
    }
  }

  /** The loop never waits for more than a day, and fires only when it is time. */
  lemma WaitsAreBounded(s: State)
    requires Reachable(s)
    ensures s.loop.Waiting? || s.loop.Firing? ==> s.loop.since <= s.clock && s.loop.target <= s.loop.since + 24 * HOUR
    ensures s.loop.Firing? ==> s.loop.target <= s.clock
  {
    ReachableInv(s);
  }

  /** A dispatch takes only jobs whose time has come; each job that was due has then
      been submitted, or it is unchanged and still due. */
  lemma DispatchIsTimely(s: State, accepted: set<Id>, written: set<Id>)
    requires Reachable(s) && Enabled(s, Dispatch(accepted, written))
    ensures forall id :: id in accepted ==>
              id in s.data.mem && s.data.mem[id].status == Pending && s.data.mem[id].nextRun <= s.loop.target <= s.clock
    ensures var t := Apply(s, Dispatch(accepted, written));
      forall id :: id in s.data.mem && s.data.mem[id].status == Pending && s.data.mem[id].nextRun <= s.loop.target ==>
        if id in accepted then
          t.data.mem[id].status == Running && t.data.mem[id].lastRun == Some(s.loop.target)
          && t.tasks[id] == s.tasks[id] + 1
        else t.data.mem[id] == s.data.mem[id] && t.tasks[id] == s.tasks[id] && id in Due(t.data.mem, s.loop.target)
  {
    hide Inv, Reachable, KeysOf;
    WaitsAreBounded(s);
    assert forall id :: id in accepted ==> IsDue(s.data.mem[id], s.loop.target);
  }

  // ---------------------------------------------------------------------------
  // The budget

  /** Over any run and any restarts, the dispatches of a key, plus one if it is
      pending, never exceed the schedule calls for it plus the dispatches that the
      table did not learn of. */
  lemma EachCallBuysOneDispatch(s: State, key: Key)
    requires Reachable(s)
    ensures s.h.dispatches[key] + (if PendingIn(s.data.mem, key) then 1 else 0) <= s.h.calls[key] + s.h.lostWrites[key]
  {
    ReachableInv(s);
    assert KeyInBudget(s, key);
  }

  lemma EachCallBuysOneDispatchWhenStored(start: State, steps: seq<Step>, s: State, key: Key)
    requires IsStart(start) && Run(start, steps, s) && AllStored(steps)
    ensures s.h.dispatches[key] + (if PendingIn(s.data.mem, key) then 1 else 0) <= s.h.calls[key]
  {
    StoredRun(start, steps, s);
    EachCallBuysOneDispatch(s, key);
  }

  /** The dispatches of a key so far, and one more if it is pending. */
  ghost function Spent(s: State, key: Key): nat {
    s.h.dispatches[key] + if PendingIn(s.data.mem, key) then 1 else 0
  }

  /** The restart makes a job with this key pending that was not. */
  ghost predicate Revives(s: State, step: Step, key: Key) {
    step.Restart? && PendingIn(s.data.table, key) && !PendingIn(s.data.mem, key)
  }

  /** Apart from the schedule calls for a key, a step adds to what is spent on it if and
      only if it is a restart that makes the key pending again, and then it adds one. */
  lemma SpentGrowsExactly(s: State, step: Step, key: Key)
    requires Reachable(s) && Enabled(s, step)
    ensures var t := Apply(s, step);
      && (!(step.Schedule? && step.key == key) ==> (Spent(t, key) > Spent(s, key) <==> Revives(s, step, key)))
      && Spent(t, key) <= Spent(s, key) + (t.h.calls[key] - s.h.calls[key]) + if Revives(s, step, key) then 1 else 0
  {
    hide *;
    InvData(s);
    DataIsConsistent(s);
    NoRevival(s, step, key);
    match step
    case Schedule(_, _, _, _) =>
      SpentBySchedule(s, step, key);
    case Dispatch(_, _) =>
      SpentByDispatch(s, step, key);
    case Succeed(_, _) =>
      SpentByCallback(s, step, key);
    case Fail(_, _, _) =>
      SpentByCallback(s, step, key);
    case Restart =>
      SpentByRestart(s, key);
    case _ =>
      SpentQuietly(s, step, key);
  }

  lemma NoRevival(s: State, step: Step, key: Key)
    ensures Revives(s, step, key) ==> step.Restart?
  {
  }

  lemma SpentByCallback(s: State, step: Step, key: Key)
    requires (step.Succeed? || step.Fail?) && Enabled(s, step) && DataOk(s.data, s.h.dirty) && 0 <= s.clock
    ensures Spent(Apply(s, step), key) <= Spent(s, key) && Apply(s, step).h.calls == s.h.calls
  {
    hide Apply, Enabled, DataOk, Spent;
    CallbackEffect(s, step);
    PendingElsewhere(s, Apply(s, step), step.id, key);
  }

  lemma SpentQuietly(s: State, step: Step, key: Key)
    requires Enabled(s, step) && !step.Schedule? && !step.Dispatch? && !step.Succeed? && !step.Fail? && !step.Restart?
    ensures Spent(Apply(s, step), key) == Spent(s, key) && Apply(s, step).h.calls == s.h.calls
  {
    hide Apply, Enabled, Spent;
    QuietEffect(s, step);
    SpentSame(s, Apply(s, step), key);
  }

  lemma SpentBySchedule(s: State, step: Step, key: Key)
    requires step.Schedule? && Enabled(s, step) && DataOk(s.data, s.h.dirty) && 0 <= s.clock
    ensures var t := Apply(s, step);
      && t.h.calls == s.h.calls + multiset{step.key}
      && Spent(t, key) <= Spent(s, key) + if step.key == key then 1 else 0
  {
    hide Apply, Enabled, DataOk, PendingIn;
    var id := ScheduleEffect(s, step);
    ScheduleCalls(s, step);
    if step.key != key && !SameMem(s, Apply(s, step)) {
      PendingElsewhere(s, Apply(s, step), id, key);
    }
  }

  lemma SpentByRestart(s: State, key: Key)
    ensures var t := Apply(s, Restart);
      && t.h.calls == s.h.calls
      && (Spent(t, key) > Spent(s, key) <==> Revives(s, Restart, key)) && Spent(t, key) <= Spent(s, key) + 1
  {
    hide Apply, PendingIn;
    RestartEffect(s);
  }

  lemma SpentSame(s: State, t: State, key: Key)
    requires SameMem(s, t)
    ensures Spent(t, key) == Spent(s, key)
  {
  }

  lemma ScheduleCalls(s: State, step: Step)
    requires step.Schedule? && Enabled(s, step)
    ensures Apply(s, step).h.calls == s.h.calls + multiset{step.key}
  {
    hide Scheduled, ScheduleHalts, Marked;
  }

  lemma SpentByDispatch(s: State, step: Step, key: Key)
    requires step.Dispatch? && Enabled(s, step) && Consistent(s.data)
    ensures Spent(Apply(s, step), key) <= Spent(s, key) && Apply(s, step).h.calls == s.h.calls
  {
    hide Consistent, Dispatched;
    PendingAfterDispatch(s.data, step.accepted, step.written, s.loop.target, s.clock, key);
    if key in KeysOf(s.data.mem, step.accepted) {
      PendingBeforeDispatch(s.data, step.accepted, s.loop.target, key);
    }
  }

  lemma PendingBeforeDispatch(d: Data, accepted: set<Id>, target: Instant, key: Key)
    requires accepted <= Due(d.mem, target) && key in KeysOf(d.mem, accepted)
    ensures PendingIn(d.mem, key)
  {
    var id :| id in accepted && id in d.mem && d.mem[id].key == key;
    assert IsDue(d.mem[id], target);
  }

  /** One job has changed, and it is not a pending job with this key. */
  lemma PendingElsewhere(s: State, t: State, id: Id, key: Key)
    requires OnlyJob(s, t, id)
    requires id in t.data.mem ==> t.data.mem[id].status != Pending || t.data.mem[id].key != key
    ensures Spent(t, key) <= Spent(s, key)
  {
    if other :| other in t.data.mem && t.data.mem[other].key == key && t.data.mem[other].status == Pending {
      assert other in s.data.mem && s.data.mem[other] == t.data.mem[other];
    }
  }

  ghost function Revivals(s: State, steps: seq<Step>, t: State, key: Key): nat
    requires Run(s, steps, t)
    decreases |steps|
  {
    if steps == [] then 0
    else (if Revives(s, steps[0], key) then 1 else 0) + Revivals(Apply(s, steps[0]), steps[1..], t, key)
  }

  lemma {:induction false} SpentOverRun(s: State, steps: seq<Step>, t: State, key: Key)
    requires Reachable(s) && Run(s, steps, t)
    ensures Spent(t, key) - Spent(s, key) <= t.h.calls[key] - s.h.calls[key] + Revivals(s, steps, t, key)
    decreases |steps|
  {
    if steps != [] {
      hide Reachable, Enabled, Apply, Spent, Revives;
      SpentGrowsExactly(s, steps[0], key);
      ReachableStep(s, steps[0]);
      SpentOverRun(Apply(s, steps[0]), steps[1..], t, key);
    }
  }

  /** Over any run, the dispatches of a key, plus one if it is pending, exceed the schedule
      calls for it at most by the restarts that made the key pending again. */
  lemma OnlyRevivalsExceedTheBudget(start: State, steps: seq<Step>, t: State, key: Key)
    requires IsStart(start) && Run(start, steps, t)
    ensures Spent(t, key) <= t.h.calls[key] + Revivals(start, steps, t, key)
  {
    assert Run(start, [], start);
    SpentOverRun(start, steps, t, key);
  }

  // ---------------------------------------------------------------------------
  // The mirror

  /** Memory and table hold jobs with the same ids and keys, no two with the same
      key, and the same contents except for jobs whose last write failed. */
  lemma MemoryMirrorsTable(s: State)
    requires Reachable(s)
    ensures TableValid(s.data.mem) && TableValid(s.data.table) && s.data.mem.Keys == s.data.table.Keys
    ensures forall id :: id in s.data.mem && s.data.mem[id] != s.data.table[id] ==> id in s.h.dirty
    ensures forall id :: id in s.data.mem ==> s.data.mem[id].status != Dead && s.data.mem[id].status != NoStatus
  {
    ReachableInv(s);
    PairedTable(s.data.mem, s.data.table);
    assert forall id :: id in s.data.mem ==> RowOk(s.data.mem[id]);
  }

  /** If all writes succeeded, memory is the table, and reloading rebuilds it. */
  lemma ReloadRebuildsMemory(start: State, steps: seq<Step>, s: State)
    requires IsStart(start) && Run(start, steps, s) && AllStored(steps)
    ensures s.data.mem == s.data.table
    ensures Apply(s, Restart).data.mem == s.data.mem
  {
    StoredRun(start, steps, s);
    MemoryMirrorsTable(s);
  }

  // ---------------------------------------------------------------------------
  // Retries

  /** Retry counts count failures, and pending jobs start from zero with a time to run. */
  lemma RetryCountsFailures(s: State, id: Id)
    requires Reachable(s) && id in s.data.mem
    ensures id !in s.h.stale ==> s.data.mem[id].retryCount == Failures(s.h, id)
    ensures s.data.mem[id].status == Pending ==> s.data.mem[id].retryCount == 0 && s.data.mem[id].nextRun > 0
  {
    ReachableInv(s);
    assert RowOk(s.data.mem[id]);
  }

  /** A step makes a retry count differ from the number of failures if and only if it is
      a restart that reads the job from a row with another count. */
  lemma RetriesAreLostExactly(s: State, step: Step, id: Id)
    requires Reachable(s) && Enabled(s, step)
    requires id in s.data.mem && s.data.mem[id].retryCount == Failures(s.h, id)
    ensures var t := Apply(s, step);
      && id in t.data.mem
      && (t.data.mem[id].retryCount == Failures(t.h, id)
          <==> !(step.Restart? && s.data.table[id].retryCount != Failures(s.h, id)))
  {
    hide Inv, Apply, Enabled, DataOk;
    InvData(s);
    SameKeys(s);
    JobStays(s, step, id);
    StepLosesRetries(s, step, id);
  }

  lemma SameFailures(h: History, h': History, id: Id)
    requires h'.failures == h.failures
    ensures Failures(h', id) == Failures(h, id)
  {
  }

  ghost predicate CountsFailures(s: State, id: Id) {
    id in s.data.mem && s.data.mem[id].retryCount == Failures(s.h, id)
  }

  ghost predicate IsPending(s: State, id: Id) {
    id in s.data.mem && s.data.mem[id].status == Pending
  }

  lemma ScheduleKeepsJob(s: State, step: Step, id: Id)
    requires step.Schedule? && Enabled(s, step) && DataOk(s.data, s.h.dirty) && 0 <= s.clock
    ensures id in s.data.mem ==> id in Apply(s, step).data.mem
    ensures CountsFailures(s, id) ==> CountsFailures(Apply(s, step), id)
    ensures IsPending(s, id) ==> IsPending(Apply(s, step), id)
  {
    hide Apply, Enabled, DataOk;
    var changed := ScheduleEffect(s, step);
  }

  lemma DispatchKeepsJob(s: State, step: Step, id: Id)
    requires step.Dispatch? && Enabled(s, step)
    ensures id in s.data.mem ==> id in Apply(s, step).data.mem
    ensures CountsFailures(s, id) ==> CountsFailures(Apply(s, step), id)
    ensures IsPending(s, id) && id !in step.accepted ==> IsPending(Apply(s, step), id)
  {
    hide Apply, Enabled;
    DispatchEffect(s, step);
  }

  lemma CallbackOnJob(s: State, step: Step, id: Id)
    requires (step.Succeed? || step.Fail?) && Enabled(s, step) && DataOk(s.data, s.h.dirty) && 0 <= s.clock
    ensures id in s.data.mem ==> id in Apply(s, step).data.mem
    ensures CountsFailures(s, id) ==> CountsFailures(Apply(s, step), id)
    ensures IsPending(s, id) ==> (IsPending(Apply(s, step), id) <==> step.id != id)
  {
    hide Apply, Enabled, DataOk;
    CallbackEffect(s, step);
  }

  lemma RestartOnJob(s: State, id: Id)
    requires DataOk(s.data, s.h.dirty) && id in s.data.mem
    ensures var t := Apply(s, Restart);
      && id in s.data.table && id in t.data.mem
      && (CountsFailures(t, id) <==> s.data.table[id].retryCount == Failures(s.h, id))
      && (IsPending(t, id) <==> s.data.table[id].status == Pending)
  {
    hide Apply;
    RestartEffect(s);
  }

  lemma QuietKeepsJob(s: State, step: Step, id: Id)
    requires Enabled(s, step) && !step.Schedule? && !step.Dispatch? && !step.Succeed? && !step.Fail? && !step.Restart?
    ensures id in s.data.mem ==> id in Apply(s, step).data.mem
    ensures CountsFailures(s, id) ==> CountsFailures(Apply(s, step), id)
    ensures IsPending(s, id) ==> IsPending(Apply(s, step), id)
  {
    hide Apply, Enabled;
    QuietEffect(s, step);
  }

  lemma StepLosesRetries(s: State, step: Step, id: Id)
    requires DataOk(s.data, s.h.dirty) && 0 <= s.clock && Enabled(s, step) && CountsFailures(s, id) && id in s.data.table
    ensures CountsFailures(Apply(s, step), id)
            <==> !(step.Restart? && s.data.table[id].retryCount != Failures(s.h, id))
  {
    assert id in s.data.mem;
    hide *;
    if step.Schedule? {
      ScheduleKeepsJob(s, step, id);
    } else if step.Dispatch? {
      DispatchKeepsJob(s, step, id);
    } else if step.Succeed? || step.Fail? {
      CallbackOnJob(s, step, id);
    } else if step.Restart? {
      RestartOnJob(s, id);
    } else {
      QuietKeepsJob(s, step, id);
    }
  }

  lemma StepLosesPending(s: State, step: Step, id: Id)
    requires DataOk(s.data, s.h.dirty) && 0 <= s.clock && Enabled(s, step) && IsPending(s, id) && id in s.data.table
    requires !(step.Dispatch? && id in step.accepted)
    ensures !IsPending(Apply(s, step), id)
            <==> ((step.Succeed? || step.Fail?) && step.id == id) || (step.Restart? && s.data.table[id].status != Pending)
  {
    assert id in s.data.mem;
    hide *;
    if step.Schedule? {
      ScheduleKeepsJob(s, step, id);
    } else if step.Dispatch? {
      DispatchKeepsJob(s, step, id);
    } else if step.Succeed? || step.Fail? {
      CallbackOnJob(s, step, id);
    } else if step.Restart? {
      RestartOnJob(s, id);
    } else {
      QuietKeepsJob(s, step, id);
    }
  }

  lemma JobStays(s: State, step: Step, id: Id)
    requires Enabled(s, step) && DataOk(s.data, s.h.dirty) && 0 <= s.clock && id in s.data.mem
    ensures id in Apply(s, step).data.mem
  {
    hide *;
    if step.Schedule? {
      ScheduleKeepsJob(s, step, id);
    } else if step.Dispatch? {
      DispatchKeepsJob(s, step, id);
    } else if step.Succeed? || step.Fail? {
      CallbackOnJob(s, step, id);
    } else if step.Restart? {
      RestartOnJob(s, id);
    } else {
      QuietKeepsJob(s, step, id);
    }
  }

  lemma SameKeys(s: State)
    requires DataOk(s.data, s.h.dirty)
    ensures s.data.mem.Keys == s.data.table.Keys
  {
  }

  /** As long as no job is reset while it has an outstanding task, each job has at
      most one, it is then Running, and no retry count exceeds one.  Without
      restarts, Running means exactly one outstanding task. */
  lemma OneTaskPerJob(s: State, id: Id)
    requires Reachable(s) && !s.h.overlapped && id in s.data.mem
    ensures s.tasks[id] <= 1 && s.data.mem[id].retryCount <= 1
    ensures s.tasks[id] == 1 ==> s.data.mem[id].status == Running
    ensures !s.h.restarted ==> (s.data.mem[id].status == Running <==> s.tasks[id] == 1)
  {
    ReachableInv(s);
    assert OneTask(s.data.mem[id], s.tasks[id], s.h.restarted);
  }

  /** The cutoff after five failures is only reached with overlapping tasks of one job. */
  lemma CutoffNeedsOverlap(s: State, id: Id)
    requires Reachable(s) && id in s.data.mem && s.data.mem[id].retryCount >= MAX_RETRIES
    ensures s.h.overlapped
  {
    if !s.h.overlapped {
      OneTaskPerJob(s, id);
    }
  }

  // ---------------------------------------------------------------------------
  // Jobs without outstanding tasks

  /** The step resets this job, dispatches it, or reloads it from an old row. */
  ghost predicate Touches(s: State, step: Step, id: Id)
    requires id in s.data.mem
  {
    || (step.Schedule? && step.key == s.data.mem[id].key)
    || (step.Dispatch? && id in step.accepted)
    || (step.Restart? && id in s.h.dirty)
  }

  ghost predicate SameJob(s: State, t: State, id: Id) {
    id in s.data.mem && id in t.data.mem && t.data.mem[id] == s.data.mem[id] && t.tasks[id] == s.tasks[id]
  }

  lemma OtherScheduleUnchanged(s: State, step: Step, id: Id)
    requires step.Schedule? && DataOk(s.data, s.h.dirty) && 0 <= s.clock && Enabled(s, step)
    requires id in s.data.mem && step.key != s.data.mem[id].key
    ensures SameJob(s, Apply(s, step), id)
  {
    hide Rescheduled, Created, NextRunTime, ScheduleHalts, RowOk, Consistent;
    if step.payload.Some? {
      if HasKey(s.data.mem, step.key) {
        RescheduleData(s, JobWithKey(s.data.mem, step.key), step.payload.value, step.io);
      } else {
        CreateData(s, step.key, step.payload.value, step.freshId, step.io);
      }
    }
  }

  lemma OtherCallbackUnchanged(s: State, step: Step, id: Id)
    requires (step.Succeed? || step.Fail?) && DataOk(s.data, s.h.dirty) && 0 <= s.clock && Enabled(s, step)
    requires id in s.data.mem && id != step.id
    ensures SameJob(s, Apply(s, step), id)
  {
    hide CalledBack, NextRunTime, ScheduleHalts, RowOk, Consistent;
    CallbackData(s, step);
  }

  /** A job without outstanding tasks stays as it is unless a step touches it.  So a
      pending job waits for its dispatch, a failed job is never retried, and a job
      that was Running at a restart stays Running. */
  lemma IdleJobUnchanged(s: State, step: Step, id: Id)
    requires Inv(s) && Enabled(s, step) && id in s.data.mem && s.tasks[id] == 0 && !Touches(s, step, id)
    ensures SameJob(s, Apply(s, step), id)
  {
    match step
    case Schedule(_, _, _, _) => OtherScheduleUnchanged(s, step, id);
    case Succeed(_, _) => OtherCallbackUnchanged(s, step, id);
    case Fail(_, _, _) => OtherCallbackUnchanged(s, step, id);
    case _ =>
  }

  /** No step of the run touches the job. */
  ghost predicate LeavesAlone(s: State, steps: seq<Step>, id: Id)
    decreases |steps|
  {
    steps != [] ==>
      && Enabled(s, steps[0])
      && (id in s.data.mem ==> !Touches(s, steps[0], id))
      && LeavesAlone(Apply(s, steps[0]), steps[1..], id)
  }

  lemma {:induction false} IdleJobStays(s: State, steps: seq<Step>, t: State, id: Id)
    requires Inv(s) && Run(s, steps, t) && id in s.data.mem && s.tasks[id] == 0 && LeavesAlone(s, steps, id)
    ensures id in t.data.mem && t.data.mem[id] == s.data.mem[id] && t.tasks[id] == 0
    decreases |steps|
  {
    if steps != [] {
      StepInv(s, steps[0]);
      IdleJobUnchanged(s, steps[0], id);
      IdleJobStays(Apply(s, steps[0]), steps[1..], t, id);
    }
  }

  /** After a restart, a job whose row says Running stays Running without any task, over
      further restarts too, until it is scheduled again; also a job that had completed
      or failed when its callback could not be written. */
  lemma RunningIsOrphanedByRestart(s: State, steps: seq<Step>, t: State, id: Id)
    requires Reachable(s) && id in s.data.table && s.data.table[id].status == Running
    requires Run(Apply(s, Restart), steps, t)
    requires forall i :: 0 <= i < |steps| ==> !(steps[i].Schedule? && steps[i].key == s.data.table[id].key)
    ensures id in t.data.mem && t.data.mem[id].status == Running && t.tasks[id] == 0
  {
    ReachableInv(s);
    StepInv(s, Restart);
    RunningStays(Apply(s, Restart), steps, t, id);
  }

  lemma CallbackMarks(s: State, step: Step)
    requires IdsMatch(s.data.mem) && (step.Succeed? || step.Fail?) && Enabled(s, step)
    ensures Apply(s, step).h.dirty == Marked(s.h.dirty, step.id, step.io)
  {
    hide CalledBack, NextRunTime, ScheduleHalts, Marked;
    assert s.data.mem[step.id].id == step.id;
  }

  lemma ScheduleMarks(s: State, step: Step)
    requires step.Schedule? && Enabled(s, step)
    ensures var dirty := Apply(s, step).h.dirty;
      || dirty == s.h.dirty
      || (HasKey(s.data.mem, step.key) && dirty == Marked(s.h.dirty, JobWithKey(s.data.mem, step.key), step.io))
  {
    hide Scheduled, ScheduleHalts, Marked;
  }

  lemma IdleJobStaysClean(s: State, step: Step, id: Id)
    requires IdsMatch(s.data.mem) && Enabled(s, step)
    requires id in s.data.mem && s.tasks[id] == 0 && !Touches(s, step, id) && id !in s.h.dirty
    ensures id !in Apply(s, step).h.dirty
  {
    match step
    case Schedule(_, _, _, _) =>
      hide Apply;
      ScheduleMarks(s, step);
    case Succeed(_, _) =>
      hide Apply;
      CallbackMarks(s, step);
    case Fail(_, _, _) =>
      hide Apply;
      CallbackMarks(s, step);
    case _ =>
  }

  lemma RunningIsUntouched(s: State, step: Step, id: Id)
    requires Inv(s) && Enabled(s, step) && id in s.data.mem && s.data.mem[id].status == Running && id !in s.h.dirty
    requires !(step.Schedule? && step.key == s.data.mem[id].key)
    ensures !Touches(s, step, id) && IdsMatch(s.data.mem)
  {
    if step.Dispatch? {
      assert id !in Due(s.data.mem, s.loop.target);
    }
  }

  lemma {:induction false} RunningStays(s: State, steps: seq<Step>, t: State, id: Id)
    requires Inv(s) && Run(s, steps, t) && id in s.data.mem && s.data.mem[id].status == Running && s.tasks[id] == 0
    requires id !in s.h.dirty
    requires forall i :: 0 <= i < |steps| ==> !(steps[i].Schedule? && steps[i].key == s.data.mem[id].key)
    ensures id in t.data.mem && t.data.mem[id].status == Running && t.tasks[id] == 0
    decreases |steps|
  {
    if steps != [] {
      RunningIsUntouched(s, steps[0], id);
      hide Inv, Enabled, Apply, Touches, IdsMatch;
      StepInv(s, steps[0]);
      IdleJobUnchanged(s, steps[0], id);
      IdleJobStaysClean(s, steps[0], id);
      RunningStays(Apply(s, steps[0]), steps[1..], t, id);
    }
  }

  /** A pending job that is not dispatched stops being pending if and only if a task of it
      calls back or a restart reads it from a row that is not pending.  So a schedule
      call made while a task is outstanding can buy no dispatch at all. */
  lemma PendingIsLostExactly(s: State, step: Step, id: Id)
    requires Reachable(s) && Enabled(s, step) && id in s.data.mem && s.data.mem[id].status == Pending
    requires !(step.Dispatch? && id in step.accepted)
    ensures var t := Apply(s, step);
      && id in t.data.mem
      && (t.data.mem[id].status != Pending
          <==> ((step.Succeed? || step.Fail?) && step.id == id)
               || (step.Restart? && s.data.table[id].status != Pending))
  {
    hide Inv, Apply, Enabled, DataOk;
    InvData(s);
    SameKeys(s);
    JobStays(s, step, id);
    StepLosesPending(s, step, id);
  }

  // ---------------------------------------------------------------------------
  // Hanging

  /** Callbacks of outstanding tasks never hang: every job in memory has a schedule
      whose next run can be computed.  A schedule call hangs exactly when its payload
      can be marshalled and the search for the next match of its schedule never returns. */
  lemma OnlyScheduleCallsHang(s: State)
    requires Reachable(s)
    ensures forall id, io :: id in s.tasks ==> Enabled(s, Succeed(id, io))
    ensures forall id, error, io :: id in s.tasks ==> Enabled(s, Fail(id, error, io))
    ensures forall key, payload, freshId, io ::
              Enabled(s, Schedule(key, payload, freshId, io))
              <==> payload == None || CronValue(key.schedule).Failure? || Halts(CronValue(key.schedule).value, s.clock)
  {
    ReachableInv(s);
    assert forall id :: id in s.data.mem ==> RowOk(s.data.mem[id]);
    forall key: Key | CronValue(key.schedule).Success?
      ensures ScheduleHalts(key.schedule) <==> Halts(CronValue(key.schedule).value, s.clock)
    {
      ScheduleHaltsAlways(key.schedule, s.clock);
    }
  }

  // ---------------------------------------------------------------------------
  // Runs that show the limits of the properties above

  const JOB: Id := "a"
  // One field only, so the next run is an hour away.
  const HOURLY := Key("user", "type", "x")

  lemma HourlySchedule(now: Instant)
    ensures ScheduleHalts(HOURLY.schedule) && NextRunTime(HOURLY.schedule, now) == now + HOUR
  {
    assert GoStrings.IsWord("x");
    GoStrings.FieldsJoin(["x"]);
  }

  /** One job, pending for an hour from now, with `n` outstanding tasks; all writes succeeded. */
  ghost predicate Armed(s: State, n: nat) {
    && Reachable(s) && s.loop.Computing? && NothingFailed(s.h) && s.tasks[JOB] == n
    && s.data.mem.Keys == {JOB} && s.data.mem[JOB].key == HOURLY
    && s.data.mem[JOB].status == Pending && s.data.mem[JOB].nextRun == s.clock + HOUR
  }

  const EMPTY := State(Data(map[], map[], false), Computing, 0, multiset{}, NO_HISTORY)
  const FIRST_CALL := Schedule(HOURLY, Some(""), JOB, true)

  lemma ArmedStart() returns (s: State)
    ensures Armed(s, 0) && s.h.calls[HOURLY] == 1 && s.h.dispatches[HOURLY] == 0
    ensures IsStart(EMPTY) && Enabled(EMPTY, FIRST_CALL) && s == Apply(EMPTY, FIRST_CALL)
  {
    HourlySchedule(0);
    hide RowOk, ScheduleHalts, Scheduled, NextRunTime;
    assert Run(EMPTY, [], EMPTY);
    s := Apply(EMPTY, FIRST_CALL);
    ReachableStep(EMPTY, FIRST_CALL);
    FirstRow();
  }

  lemma FirstRow()
    requires ScheduleHalts(HOURLY.schedule) && NextRunTime(HOURLY.schedule, 0) == HOUR
    ensures var d := Scheduled(EMPTY.data, HOURLY, Some(""), JOB, 0, true);
      d.mem == map[JOB := NewRow(JOB, HOURLY, "", 0)] && d.wakeup
  {
    hide RowOk, ScheduleHalts, NextRunTime;
    assert !HasKey(EMPTY.data.mem, HOURLY) && !HasKey(EMPTY.data.table, HOURLY);
  }

  /** The hour passes and the timer fires. */
  lemma HourPasses(s: State, n: nat) returns (t: State)
    requires Armed(s, n)
    ensures Reachable(t) && t.loop.Firing? && t.loop.target == t.clock == s.clock + HOUR
    ensures t.data == s.data && t.tasks == s.tasks && NothingFailed(t.h)
    ensures t.h.calls == s.h.calls && t.h.dispatches == s.h.dispatches
    ensures Due(t.data.mem, t.loop.target) == {JOB}
    ensures var f := FindNext(s.clock + HOUR);
      && Enabled(s, f) && Enabled(Apply(s, f), Tick(HOUR)) && Enabled(Apply(Apply(s, f), Tick(HOUR)), Fire)
      && t == Apply(Apply(Apply(s, f), Tick(HOUR)), Fire)
  {
    hide Reachable, ScheduleHalts;
    var next := s.clock + HOUR;
    assert IsNextWake(s.data.mem, s.clock, next) by {
      assert s.data.mem[JOB].nextRun == next;
    }
    var s1 := Apply(s, FindNext(next));
    ReachableStep(s, FindNext(next));
    var s2 := Apply(s1, Tick(HOUR));
    ReachableStep(s1, Tick(HOUR));
    t := Apply(s2, Fire);
    ReachableStep(s2, Fire);
  }

  lemma DispatchJob(s: State, written: set<Id>) returns (t: State)
    requires Reachable(s) && s.loop.Firing? && Due(s.data.mem, s.loop.target) == {JOB} && written <= {JOB}
    requires s.data.mem.Keys == {JOB} && s.data.mem[JOB].key == HOURLY
    ensures Enabled(s, Dispatch({JOB}, written)) && t == Apply(s, Dispatch({JOB}, written))
    ensures Reachable(t) && t.loop.Computing? && t.clock == s.clock
    ensures t.data.mem.Keys == {JOB} && t.data.mem[JOB].key == HOURLY && t.data.mem[JOB].status == Running
    ensures t.tasks[JOB] == s.tasks[JOB] + 1
    ensures t.h.dispatches[HOURLY] == s.h.dispatches[HOURLY] + 1 && t.h.calls == s.h.calls
  {
    t := Apply(s, Dispatch({JOB}, written));
    ReachableStep(s, Dispatch({JOB}, written));
    assert KeysOf(s.data.mem, {JOB}) == {HOURLY};
  }

  lemma ScheduleAgain(s: State, io: bool) returns (t: State)
    requires Reachable(s) && s.data.mem.Keys == {JOB} && s.data.mem[JOB].key == HOURLY
    ensures Reachable(t) && t == Apply(s, Schedule(HOURLY, Some(""), JOB, io))
    ensures t.data.mem.Keys == {JOB} && t.data.mem[JOB].key == HOURLY && t.data.mem[JOB].status == Pending
    ensures t.data.mem[JOB].nextRun == s.clock + HOUR
    ensures t.h.calls == s.h.calls + multiset{HOURLY} && t.h.dispatches == s.h.dispatches
    ensures t.tasks == s.tasks && t.clock == s.clock && t.loop == s.loop && t.data.wakeup == (s.data.wakeup || io)
    ensures io && NothingFailed(s.h) ==> NothingFailed(t.h)
  {
    hide Reachable, Consistent, ScheduleHalts, RowOk, Rescheduled, Created, JobWithKey;
    InvData(s);
    hide DataOk;
    HourlySchedule(s.clock);
    var step := Schedule(HOURLY, Some(""), JOB, io);
    assert HasKey(s.data.mem, HOURLY);
    assert JobWithKey(s.data.mem, HOURLY) == JOB;
    t := Apply(s, step);
    ReachableStep(s, step);
    RescheduleData(s, JOB, "", io);
  }

  /** Dispatching the job and scheduling it again leaves one more outstanding task. */
  lemma OverlapRound(s: State, n: nat) returns (t: State)
    requires Armed(s, n)
    ensures Armed(t, n + 1)
  {
    var s1 := HourPasses(s, n);
    var s2 := DispatchJob(s1, {JOB});
    StoredStep(s1, Dispatch({JOB}, {JOB}));
    t := ScheduleAgain(s2, true);
  }

  lemma {:induction false} OverlapRounds(n: nat) returns (s: State)
    ensures Armed(s, n)
  {
    if n == 0 {
      s := ArmedStart();
    } else {
      var s1 := OverlapRounds(n - 1);
      s := OverlapRound(s1, n - 1);
    }
  }

  /** After `k` failure callbacks the retry count has grown by `k`. */
  lemma {:induction false} FailRounds(s: State, k: nat) returns (t: State)
    requires Reachable(s) && JOB in s.data.mem && s.tasks[JOB] >= k
    ensures Reachable(t) && JOB in t.data.mem && t.data.mem[JOB].retryCount == s.data.mem[JOB].retryCount + k
    ensures t.tasks[JOB] == s.tasks[JOB] - k
    ensures k > 0 && t.data.mem[JOB].retryCount >= MAX_RETRIES ==>
              t.data.mem[JOB].status == Failed && t.data.mem[JOB].nextRun == 0
    decreases k
  {
    if k == 0 {
      t := s;
    } else {
      var s1 := FailRounds(s, k - 1);
      t := FailRounds1(s1);
    }
  }

  lemma FailRounds1(s: State) returns (t: State)
    requires Reachable(s) && JOB in s.data.mem && s.tasks[JOB] >= 1
    ensures Reachable(t) && JOB in t.data.mem && t.data.mem[JOB].retryCount == s.data.mem[JOB].retryCount + 1
    ensures t.tasks[JOB] == s.tasks[JOB] - 1
    ensures t.data.mem[JOB].retryCount >= MAX_RETRIES ==> t.data.mem[JOB].status == Failed && t.data.mem[JOB].nextRun == 0
  {
    ReachableInv(s);
    OnlyScheduleCallsHang(s);
    var step := Fail(JOB, "", true);
    t := Apply(s, step);
    ReachableStep(s, step);
    CallbackData(s, step);
  }

  /** The cutoff is reached when five tasks of one job are outstanding and all fail. */
  lemma CutoffIsReachable()
    ensures exists s :: && Reachable(s) && JOB in s.data.mem && s.data.mem[JOB].retryCount == MAX_RETRIES
                        && s.data.mem[JOB].status == Failed && s.data.mem[JOB].nextRun == 0
  {
    var s := OverlapRounds(5);
    ReachableInv(s);
    assert RowOk(s.data.mem[JOB]);
    var t := FailRounds(s, 5);
  }

  /** A schedule call whose write fails loses its wakeup: the job is pending, but the
      loop sleeps past its next run. */
  lemma FailedWriteLosesWakeup()
    ensures exists s :: && Reachable(s) && s.loop.Waiting? && !s.data.wakeup
                        && JOB in s.data.mem && s.data.mem[JOB].status == Pending
                        && s.data.mem[JOB].nextRun < s.loop.target
  {
    var s0 := ArmedStart();
    var s1 := HourPasses(s0, 0);
    var s2 := DispatchJob(s1, {JOB});
    var s3 := LongWait(s2);
    var s := ScheduleAgain(s3, false);
  }

  /** With nothing pending, the loop comes to wait a day with an empty channel. */
  lemma LongWait(s: State) returns (t: State)
    requires Reachable(s) && s.loop.Computing? && s.data.mem.Keys == {JOB} && s.data.mem[JOB].status == Running
    ensures Reachable(t) && t.loop == Waiting(s.clock + 24 * HOUR, s.clock) && !t.data.wakeup
    ensures t.data.mem == s.data.mem && t.clock == s.clock
  {
    var next := s.clock + 24 * HOUR;
    var s1 := Apply(s, FindNext(next));
    ReachableStep(s, FindNext(next));
    if s1.data.wakeup {
      var s2 := Apply(s1, Wake);
      ReachableStep(s1, Wake);
      t := Apply(s2, FindNext(next));
      ReachableStep(s2, FindNext(next));
    } else {
      t := s1;
    }
  }

  /** A restart brings the job back from its old row, and the timer fires at once. */
  lemma RestartFires(s: State) returns (t: State)
    requires Reachable(s) && s.data.table.Keys == {JOB} && s.data.table[JOB].key == HOURLY
    requires s.data.table[JOB].status == Pending && s.data.table[JOB].nextRun <= s.clock
    ensures Reachable(t) && t.loop.Firing? && t.data.mem == s.data.table && Due(t.data.mem, t.loop.target) == {JOB}
    ensures t.h.calls == s.h.calls && t.h.dispatches == s.h.dispatches
    ensures var s1, f := Apply(s, Restart), FindNext(s.data.table[JOB].nextRun);
      Enabled(s1, f) && Enabled(Apply(s1, f), Fire) && t == Apply(Apply(s1, f), Fire)
  {
    hide Reachable;
    var s1 := Apply(s, Restart);
    ReachableStep(s, Restart);
    var next := s1.data.mem[JOB].nextRun;
    assert IsNextWake(s1.data.mem, s1.clock, next);
    var s2 := Apply(s1, FindNext(next));
    ReachableStep(s1, FindNext(next));
    t := Apply(s2, Fire);
    ReachableStep(s2, Fire);
  }

  lemma UnwrittenDispatch(s: State) returns (t: State)
    requires Reachable(s) && NothingFailed(s.h) && s.loop.Firing? && Due(s.data.mem, s.loop.target) == {JOB}
    requires s.data.mem.Keys == {JOB} && s.data.mem[JOB].key == HOURLY
    ensures Enabled(s, Dispatch({JOB}, {})) && t == Apply(s, Dispatch({JOB}, {}))
    ensures Reachable(t) && t.data.table == s.data.mem && t.clock == s.clock
    ensures t.h.dispatches[HOURLY] == s.h.dispatches[HOURLY] + 1 && t.h.calls == s.h.calls
  {
    hide Reachable, Apply, Due, KeysOf;
    MemoryMirrorsTable(s);
    assert s.data.table == s.data.mem;
    t := DispatchJob(s, {});
    NothingWritten(s);
  }

  lemma NothingWritten(s: State)
    requires Enabled(s, Dispatch({JOB}, {}))
    ensures Apply(s, Dispatch({JOB}, {})).data.table == s.data.table
  {
    hide Due, KeysOf;
  }

  /** A dispatch that the table did not learn of is repeated after a restart: one
      schedule call, two dispatches. */
  lemma LostWriteRepeatsDispatch()
    ensures exists s :: Reachable(s) && s.h.calls[HOURLY] == 1 && s.h.dispatches[HOURLY] == 2
  {
    var s0 := ArmedStart();
    var s1 := HourPasses(s0, 0);
    hide Reachable, Enabled, Apply;
    var s2 := UnwrittenDispatch(s1);
    var s3 := RestartFires(s2);
    var s4 := DispatchJob(s3, {JOB});
  }

  /** A callback of the job whose write succeeds or not. */
  lemma Callback(s: State, step: Step) returns (t: State)
    requires Reachable(s) && (step.Succeed? || step.Fail?) && step.id == JOB && s.tasks[JOB] >= 1
    requires s.data.mem.Keys == {JOB}
    ensures Reachable(t) && Enabled(s, step) && t == Apply(s, step)
    ensures t.data.mem.Keys == {JOB} && t.tasks[JOB] == s.tasks[JOB] - 1
    ensures t.data.mem[JOB].status != Pending && t.h.calls == s.h.calls && t.h.dispatches == s.h.dispatches
    ensures Failures(t.h, JOB) == if step.Succeed? then 0 else Failures(s.h, JOB) + 1
    ensures !step.io ==> t.data.table == s.data.table
  {
    hide Reachable, Enabled, Apply, DataOk, Failures;
    InvData(s);
    OnlyScheduleCallsHang(s);
    t := Apply(s, step);
    ReachableStep(s, step);
    CallbackEffect(s, step);
    CallbackRecords(s, step);
  }

  /** A failure whose write failed is forgotten by a restart: one failure since the last
      schedule call, but no retry counted. */
  lemma RestartForgetsFailure()
    ensures exists s :: Reachable(s) && JOB in s.data.mem && s.data.mem[JOB].retryCount == 0 && Failures(s.h, JOB) == 1
  {
    var s0 := ArmedStart();
    var s1 := HourPasses(s0, 0);
    RetryCountsFailures(s1, JOB);
    var s2 := DispatchJob(s1, {JOB});
    StoredStep(s1, Dispatch({JOB}, {JOB}));
    RetryCountsFailures(s2, JOB);
    MemoryMirrorsTable(s2);
    var s3 := Callback(s2, Fail(JOB, "", false));
    var s := Apply(s3, Restart);
    ReachableStep(s3, Restart);
    RestartEffect(s3);
    SameFailures(s3.h, s.h, JOB);
  }

  /** One task is outstanding when the job is scheduled a second time. */
  lemma ScheduledTwice() returns (s: State)
    ensures Reachable(s) && s.data.mem.Keys == {JOB} && s.data.mem[JOB].key == HOURLY && s.tasks[JOB] == 1
    ensures s.h.calls[HOURLY] == 2 && s.h.dispatches[HOURLY] == 1
  {
    hide Reachable, Enabled, Apply, NothingFailed;
    var s0 := ArmedStart();
    var s1 := HourPasses(s0, 0);
    hide Armed;
    var s2 := DispatchJob(s1, {JOB});
    s := ScheduleAgain(s2, true);
  }

  /** A schedule call made while a task of the job is outstanding can buy nothing: two
      calls, one dispatch, and the job neither pending nor outstanding. */
  lemma CallBuysNoDispatch()
    ensures exists s :: && Reachable(s) && s.h.calls[HOURLY] == 2 && s.h.dispatches[HOURLY] == 1
                        && !PendingIn(s.data.mem, HOURLY) && s.tasks[JOB] == 0
  {
    hide Reachable, Enabled, Apply;
    var s1 := ScheduledTwice();
    var s := Callback(s1, Succeed(JOB, true));
  }
}
