/** Jobs as they are kept in memory and as rows of the `jobs` table. */
module Jobs {
  import opened Wrappers
  import opened Cron

  /** `NoStatus` is the empty string. */
  datatype Status = NoStatus | Pending | Running | Completed | Failed | Dead

  /** The triple that the table keeps unique. */
  datatype Key = Key(userID: string, jobType: string, schedule: string)

  /** The contents of a job.  Payloads are opaque; a `nextRun` of 0 is the zero time. */
  datatype Row = Row(
    id: string, key: Key, payload: string, status: Status, retryCount: int, lastError: string,
    nextRun: Instant, lastRun: Option<Instant>, createdAt: Instant, updatedAt: Instant)

  type Table = map<string, Row>

  /** A job object; the map of jobs, the tasks and callers of `ScheduleJob` share it. */
  class Job {
    var id: string
    var key: Key
    var payload: string
    var status: Status
    var retryCount: int
    var lastError: string
    var nextRun: Instant
    var lastRun: Option<Instant>
    var createdAt: Instant
    var updatedAt: Instant

    constructor (row: Row)
      ensures this.ToRow() == row
    {
      id, key, payload, status, retryCount := row.id, row.key, row.payload, row.status, row.retryCount;
      lastError, nextRun, lastRun := row.lastError, row.nextRun, row.lastRun;
      createdAt, updatedAt := row.createdAt, row.updatedAt;
    }

    /** The fields that a callback assigns. */
    method Record(status: Status, lastError: string, retryCount: int, nextRun: Instant)
      modifies this`status, this`lastError, this`retryCount, this`nextRun
      ensures ToRow() == old(ToRow()).(
                           status := status, lastError := lastError, retryCount := retryCount, nextRun := nextRun)
    {
      this.status, this.lastError, this.retryCount, this.nextRun := status, lastError, retryCount, nextRun;
    }

    function ToRow(): Row
      reads this
    {
      Row(id, key, payload, status, retryCount, lastError, nextRun, lastRun, createdAt, updatedAt)
    }
  }

  // ---------------------------------------------------------------------------
  // The table and its constraints

  ghost predicate IdsMatch(t: Table) {
    forall id :: id in t ==> t[id].id == id
  }

  ghost predicate UniqueKeys(t: Table) {
    forall a, b :: a in t && b in t && t[a].key == t[b].key ==> a == b
  }

  /** The primary key and the unique triple. */
  ghost predicate TableValid(t: Table) {
    IdsMatch(t) && UniqueKeys(t)
  }

  predicate HasKey(t: Table, key: Key) {
    exists id | id in t :: t[id].key == key
  }

  /** Another row than `id` has this key. */
  predicate KeyTaken(t: Table, id: string, key: Key) {
    exists other | other in t :: other != id && t[other].key == key
  }

  /** INSERT: `io` says whether the call goes through, that is, whether the payload can
      be marshalled and the database answers.  The primary key, the unique triple and
      the check on the status can refuse the row. */
  function Insert(t: Table, row: Row, io: bool): Option<Table> {
    if !io || row.id in t || HasKey(t, row.key) || row.status == NoStatus then None
    else Some(t[row.id := row])
  }

  /** UPDATE by id, which leaves `created_at` alone and fails when no row is affected. */
  function Update(t: Table, row: Row, io: bool): Option<Table> {
    if !io || row.id !in t || KeyTaken(t, row.id, row.key) || row.status == NoStatus then None
    else Some(t[row.id := row.(createdAt := t[row.id].createdAt)])
  }

  function Delete(t: Table, id: string, io: bool): Option<Table> {
    if !io || id !in t then None else Some(t - {id})
  }

  /** Every statement keeps the constraints. */
  lemma StatementsKeepTableValid(t: Table, row: Row, io: bool)
    requires TableValid(t)
    ensures Insert(t, row, io).Some? ==> TableValid(Insert(t, row, io).value)
    ensures Update(t, row, io).Some? ==> TableValid(Update(t, row, io).value)
    ensures Delete(t, row.id, io).Some? ==> TableValid(Delete(t, row.id, io).value)
  {
  }

  /** When the statements go through, and what they do to the table. */
  lemma StatementsMean(t: Table, row: Row, io: bool)
    ensures Insert(t, row, io).Some?
            <==> io && row.status != NoStatus && row.id !in t && forall id :: id in t ==> t[id].key != row.key
    ensures Insert(t, row, io).Some? ==> Insert(t, row, io).value == t[row.id := row]
    ensures Update(t, row, io).Some?
            <==> io && row.status != NoStatus && row.id in t && forall id :: id in t && id != row.id ==> t[id].key != row.key
    ensures Update(t, row, io).Some?
            ==> Update(t, row, io).value == t[row.id := row.(createdAt := t[row.id].createdAt)]
    ensures Delete(t, row.id, io).Some? <==> io && row.id in t
    ensures Delete(t, row.id, io).Some?
            ==> row.id !in Delete(t, row.id, io).value && Delete(t, row.id, io).value[row.id := t[row.id]] == t
  {
    if Delete(t, row.id, io).Some? {
      assert (t - {row.id})[row.id := t[row.id]] == t;
    }
  }
}
