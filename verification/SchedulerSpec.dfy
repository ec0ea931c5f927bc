/** What the critical sections of the scheduler do to its data: the jobs in
    memory, the table and the one-slot wakeup channel. */
module SchedulerSpec {
  import opened Wrappers
  import opened Cron
  import opened CronParser
  import opened Jobs

  const MAX_RETRIES: int := 5

  datatype Data = Data(mem: Table, table: Table, wakeup: bool)

  // ---------------------------------------------------------------------------
  // Next run times

  /** Whether computing the next run time of a schedule returns. */
  ghost predicate ScheduleHalts(schedule: string) {
    CronValue(schedule).Success? ==> CronValue(schedule).value.Possible()
  }

  /** The next match of the schedule, or one hour later if it cannot be parsed. */
  ghost function NextRunTime(schedule: string, now: Instant): (t: Instant)
    requires ScheduleHalts(schedule)
    ensures now < t
  {
    match CronValue(schedule)
    case Failure(_) => now + HOUR
    case Success(c) => NextTime(c, now)
  }

  /** A schedule that parses hangs the computation at every time or at none. */
  lemma ScheduleHaltsAlways(schedule: string, now: Instant)
    requires CronValue(schedule).Success?
    ensures ScheduleHalts(schedule) <==> Halts(CronValue(schedule).value, now)
  {
    HaltsIffPossible(CronValue(schedule).value, now);
  }

  // ---------------------------------------------------------------------------
  // Consistent data

  /** Memory and table hold jobs with the same ids, keys and creation times, and
      no two jobs share a key. */
  ghost predicate Paired(mem: Table, table: Table) {
    && TableValid(mem)
    && mem.Keys == table.Keys
    && forall id :: id in mem ==> SameIdentity(mem[id], table[id])
  }

  predicate SameIdentity(a: Row, b: Row) {
    a.id == b.id && a.key == b.key && a.createdAt == b.createdAt
  }

  lemma PairedTable(mem: Table, table: Table)
    requires Paired(mem, table)
    ensures TableValid(table)
  {
    forall a, b | a in table && b in table && table[a].key == table[b].key
      ensures a == b
    {
      assert SameIdentity(mem[a], table[a]) && SameIdentity(mem[b], table[b]);
    }
  }

  ghost predicate Consistent(d: Data) {
    Paired(d.mem, d.table)
  }

  /** A changed job is put into memory and written to the table; if the write fails
      the table keeps the old row. */
  function Persisted(d: Data, row: Row, io: bool): Data {
    match Update(d.table, row, io)
    case Some(table) => Data(d.mem[row.id := row], table, d.wakeup)
    case None => Data(d.mem[row.id := row], d.table, d.wakeup)
  }

  /** `row` is a new state of a job in memory. */
  ghost predicate Changes(d: Data, row: Row) {
    && row.id in d.mem && row.status != NoStatus
    && row.key == d.mem[row.id].key && row.createdAt == d.mem[row.id].createdAt
  }

  lemma KeyIsFree(d: Data, row: Row)
    requires Consistent(d) && Changes(d, row)
    ensures !KeyTaken(d.table, row.id, row.key) && row.id in d.table && d.table[row.id].createdAt == row.createdAt
  {
    assert SameIdentity(d.mem[row.id], d.table[row.id]);
    forall other | other in d.table && d.table[other].key == row.key
      ensures other == row.id
    {
      assert SameIdentity(d.mem[other], d.table[other]);
    }
  }

  /** On consistent data the table refuses no write: one that goes through takes effect,
      and the data stays consistent either way. */
  lemma PersistedConsistent(d: Data, row: Row, io: bool)
    requires Consistent(d) && Changes(d, row)
    ensures Update(d.table, row, io) == if io then Some(d.table[row.id := row]) else None
    ensures Persisted(d, row, io)
            == Data(d.mem[row.id := row], if io then d.table[row.id := row] else d.table, d.wakeup)
    ensures Consistent(Persisted(d, row, io))
  {
    KeyIsFree(d, row);
    assert row.(createdAt := d.table[row.id].createdAt) == row;
    hide KeyTaken;
  }

  // ---------------------------------------------------------------------------
  // Scheduling

  ghost function RescheduledRow(row: Row, payload: string, now: Instant): Row
    requires ScheduleHalts(row.key.schedule)
  {
    row.(payload := payload, status := Pending, retryCount := 0,
         nextRun := NextRunTime(row.key.schedule, now), updatedAt := now)
  }

  /** The existing job is reset; a failing write leaves the reset in memory but
      does not wake the loop. */
  ghost function Rescheduled(d: Data, id: string, payload: string, now: Instant, io: bool): Data
    requires id in d.mem && ScheduleHalts(d.mem[id].key.schedule)
  {
    var row := RescheduledRow(d.mem[id], payload, now);
    Persisted(d, row, io).(wakeup := d.wakeup || Update(d.table, row, io).Some?)
  }

  ghost function NewRow(id: string, key: Key, payload: string, now: Instant): Row
    requires ScheduleHalts(key.schedule)
  {
    Row(id, key, payload, Pending, 0, "", NextRunTime(key.schedule, now), None, now, now)
  }

  /** A new job; nothing changes if the insertion fails. */
  ghost function Created(d: Data, id: string, key: Key, payload: string, now: Instant, io: bool): Data
    requires ScheduleHalts(key.schedule)
  {
    var row := NewRow(id, key, payload, now);
    match Insert(d.table, row, io)
    case Some(table) => Data(d.mem[id := row], table, true)
    case None => d
  }

  ghost function JobWithKey(t: Table, key: Key): (id: string)
    requires HasKey(t, key)
    ensures id in t && t[id].key == key
  {
    var id :| id in t && t[id].key == key;
    id
  }

  lemma JobWithKeyUnique(t: Table, id: string)
    requires TableValid(t) && id in t
    ensures HasKey(t, t[id].key) && JobWithKey(t, t[id].key) == id
  {
  }

  /** A schedule call resets the job with this key or creates one.  A payload that
      cannot be marshalled changes nothing. */
  ghost function Scheduled(d: Data, key: Key, payload: Option<string>, freshId: string, now: Instant, io: bool): Data
    requires payload.Some? ==> ScheduleHalts(key.schedule)
  {
    if payload == None then d
    else if HasKey(d.mem, key) then Rescheduled(d, JobWithKey(d.mem, key), payload.value, now, io)
    else Created(d, freshId, key, payload.value, now, io)
  }

  // ---------------------------------------------------------------------------
  // Callbacks

  ghost function SuccessRow(row: Row, now: Instant): Row
    requires ScheduleHalts(row.key.schedule)
  {
    row.(status := Completed, lastError := "", retryCount := 0,
         nextRun := NextRunTime(row.key.schedule, now), updatedAt := now)
  }

  /** Quadratic backoff, at most a day. */
  function Backoff(retries: int): int {
    if retries * retries * MINUTE > 24 * HOUR then 24 * HOUR else retries * retries * MINUTE
  }

  function FailureRow(row: Row, error: string, now: Instant): Row {
    var retries := row.retryCount + 1;
    row.(status := Failed, lastError := error, retryCount := retries,
         nextRun := if retries >= MAX_RETRIES then 0 else now + Backoff(retries), updatedAt := now)
  }

  /** Callbacks write the job, put it into the map and wake the loop, whether or
      not the write succeeds. */
  function CalledBack(d: Data, row: Row, io: bool): Data {
    Persisted(d, row, io).(wakeup := true)
  }

  // ---------------------------------------------------------------------------
  // Dispatching

  predicate IsDue(row: Row, target: Instant) {
    row.status == Pending && row.nextRun <= target
  }

  /** The pending jobs whose next run is not after the target. */
  function Due(mem: Table, target: Instant): (due: set<string>)
    ensures forall id :: id in due <==> id in mem && mem[id].status == Pending && mem[id].nextRun <= target
  {
    set id | id in mem && IsDue(mem[id], target)
  }

  function DispatchedRow(row: Row, target: Instant, now: Instant): Row {
    row.(status := Running, lastRun := Some(target), updatedAt := now)
  }

  /** The accepted jobs become Running; the table learns of those that were written. */
  function Dispatched(d: Data, accepted: set<string>, written: set<string>, target: Instant, now: Instant): Data {
    Data(
      map id | id in d.mem :: if id in accepted then DispatchedRow(d.mem[id], target, now) else d.mem[id],
      map id | id in d.table :: if id in written && id in d.mem then DispatchedRow(d.mem[id], target, now) else d.table[id],
      d.wakeup)
  }

  /** Dispatching job by job is dispatching the set. */
  lemma DispatchedStep(
    d: Data, accepted: set<string>, written: set<string>, id: string, more: set<string>, target: Instant, now: Instant)
    requires id !in accepted && written <= accepted && more <= {id}
    ensures Dispatched(Dispatched(d, accepted, written, target, now), {id}, more, target, now)
            == Dispatched(d, accepted + {id}, written + more, target, now)
  {
    var d1 := Dispatched(d, accepted, written, target, now);
    var d2, d3 := Dispatched(d1, {id}, more, target, now), Dispatched(d, accepted + {id}, written + more, target, now);
    assert d2.mem.Keys == d3.mem.Keys && d2.table.Keys == d3.table.Keys;
    assert forall k :: k in d2.mem ==> d2.mem[k] == d3.mem[k];
    forall k | k in d2.table
      ensures d2.table[k] == d3.table[k]
    {
      if k == id {
        assert k in d.mem ==> d1.mem[k] == d.mem[k];
      }
    }
  }

  lemma DispatchedMaps(d: Data, id: string, target: Instant, now: Instant, io: bool)
    requires id in d.mem && id in d.table
    ensures var row := DispatchedRow(d.mem[id], target, now);
      Dispatched(d, {id}, if io then {id} else {}, target, now)
      == Data(d.mem[id := row], if io then d.table[id := row] else d.table, d.wakeup)
  {
    var row := DispatchedRow(d.mem[id], target, now);
    var q := Dispatched(d, {id}, if io then {id} else {}, target, now);
    assert q.mem == d.mem[id := row];
    assert q.table == if io then d.table[id := row] else d.table;
  }

  /** Dispatching a single job is persisting its new state. */
  lemma DispatchedOne(d: Data, id: string, target: Instant, now: Instant, io: bool)
    requires Consistent(d) && id in d.mem
    ensures Consistent(Dispatched(d, {id}, if io then {id} else {}, target, now))
    ensures Persisted(d, DispatchedRow(d.mem[id], target, now), io)
            == Dispatched(d, {id}, if io then {id} else {}, target, now)
  {
    PersistedConsistent(d, DispatchedRow(d.mem[id], target, now), io);
    DispatchedMaps(d, id, target, now, io);
  }

  // ---------------------------------------------------------------------------
  // Waiting

  /** `n` is the earliest next run of a pending job, but at most a day from now. */
  ghost predicate IsNextWake(mem: Table, now: Instant, n: Instant) {
    && n <= now + 24 * HOUR
    && (forall id :: id in mem && mem[id].status == Pending ==> n <= mem[id].nextRun)
    && (n == now + 24 * HOUR || exists id :: id in mem && mem[id].status == Pending && mem[id].nextRun == n)
  }

  lemma NextWakeUnique(mem: Table, now: Instant, a: Instant, b: Instant)
    requires IsNextWake(mem, now, a) && IsNextWake(mem, now, b)
    ensures a == b
  {
  }

  // ---------------------------------------------------------------------------
  // Every section keeps the data consistent

  lemma CreatedConsistent(d: Data, id: string, key: Key, payload: string, now: Instant, io: bool)
    requires Consistent(d) && ScheduleHalts(key.schedule) && !HasKey(d.mem, key)
    ensures Consistent(Created(d, id, key, payload, now, io))
    ensures Created(d, id, key, payload, now, io)
            == if io && id !in d.mem then
                 Data(d.mem[id := NewRow(id, key, payload, now)], d.table[id := NewRow(id, key, payload, now)], true)
               else d
  {
    forall other | other in d.table
      ensures d.table[other].key != key
    {
      assert SameIdentity(d.mem[other], d.table[other]);
    }
  }

  lemma DispatchedConsistent(d: Data, accepted: set<string>, written: set<string>, target: Instant, now: Instant)
    requires Consistent(d)
    ensures Consistent(Dispatched(d, accepted, written, target, now))
  {
  }

  /** Retries are never later than 16 minutes: when the limit of a day would
      matter, the cutoff has already cleared the next run. */
  lemma BackoffBelowLimit(row: Row, error: string, now: Instant)
    requires 0 <= row.retryCount
    ensures var r := FailureRow(row, error, now);
      && (r.nextRun == 0 || r.nextRun == now + r.retryCount * r.retryCount * MINUTE)
      && (r.nextRun != 0 ==> r.nextRun <= now + 16 * MINUTE)
      && (0 <= now ==> (r.nextRun == 0 <==> r.retryCount >= 5))
  {
    var r := row.retryCount + 1;
    if r < MAX_RETRIES {
      assert r * r <= 4 * r <= 16;
    }
  }
}
