/** `SQLiteJobStore`: the jobs table behind the scheduler.  Every call takes the clock
    reading `now` and a flag `io` that says whether it goes through: the payload can
    be marshalled and the database answers. */
module JobStore {
  import opened Wrappers
  import opened Cron
  import opened Jobs
  import opened JobQuery
  import opened JobSql

  /** These rows are in ascending order of `next_run`, none twice. */
  ghost predicate Ordered(rows: seq<Row>) {
    && (forall i, j :: 0 <= i < j < |rows| ==> rows[i].id != rows[j].id)
    && (forall i, j :: 0 <= i < j < |rows| ==> rows[i].nextRun <= rows[j].nextRun)
  }

  /** `rows` lists exactly the rows of the table that the filter selects. */
  ghost predicate Lists(rows: seq<Row>, table: Table, filter: JobFilter) {
    && Ordered(rows)
    && forall row :: row in rows <==> row.id in table && table[row.id] == row && Selects(filter, row)
  }

  datatype ListJobsOptions = ListJobsOptions(
    jobType: string, userID: string, status: Status, before: Instant, after: Instant, limit: int)

  const NO_OPTIONS := ListJobsOptions("", "", NoStatus, 0, 0, 0)

  /** What the options of `Scheduler.ListJobs` mean.  `before` is passed on as a
      lower bound of `next_run`, like `after`. */
  predicate Wanted(opts: ListJobsOptions, row: Row) {
    && (opts.userID != "" ==> row.key.userID == opts.userID)
    && (opts.jobType != "" ==> row.key.jobType == opts.jobType)
    && (opts.status != NoStatus ==> row.status == opts.status)
    && (opts.before != 0 ==> opts.before <= row.nextRun)
    && (opts.after != 0 ==> opts.after <= row.nextRun)
  }

  /** `rows` lists exactly the rows of the table that the options want. */
  ghost predicate ListsWanted(rows: seq<Row>, table: Table, opts: ListJobsOptions) {
    && Ordered(rows)
    && forall row :: row in rows <==> row.id in table && table[row.id] == row && Wanted(opts, row)
  }

  function Limited(rows: seq<Row>, limit: int): seq<Row> {
    if limit > 0 && |rows| > limit then rows[..limit] else rows
  }

  /** A limited listing is complete when it is shorter than the limit, and what it
      leaves out is not due before what it has. */
  lemma LimitedListing(all: seq<Row>, table: Table, opts: ListJobsOptions)
    requires ListsWanted(all, table, opts)
    ensures var rows := Limited(all, opts.limit);
      && (opts.limit <= 0 || |rows| < opts.limit ==> ListsWanted(rows, table, opts))
      && (opts.limit > 0 ==> |rows| <= opts.limit)
      && (forall row :: row in rows ==>
            && row.id in table && table[row.id] == row
            && (opts.userID == "" || row.key.userID == opts.userID) && (opts.jobType == "" || row.key.jobType == opts.jobType)
            && (opts.status == NoStatus || row.status == opts.status)
            && (opts.before == 0 || row.nextRun >= opts.before) && (opts.after == 0 || row.nextRun >= opts.after))
      && forall id, row :: id in table && table[id].id == id && Wanted(opts, table[id]) && table[id] !in rows && row in rows
                           ==> row.nextRun <= table[id].nextRun
  {
    var rows := Limited(all, opts.limit);
    assert forall row :: row in rows ==> row in all;
    forall id, row | id in table && table[id].id == id && Wanted(opts, table[id]) && table[id] !in rows && row in rows
      ensures row.nextRun <= table[id].nextRun
    {
      var j :| 0 <= j < |all| && all[j] == table[id];
      var i :| 0 <= i < |rows| && rows[i] == row;
      assert forall k :: 0 <= k < |rows| ==> all[k] == rows[k] && rows[k] in rows;
    }
  }

  class SQLiteJobStore {
    var table: Table

    constructor ()
      ensures table == map[]
    {
      table := map[];
    }

    ghost predicate Valid()
      reads this
    {
      TableValid(table)
    }

    /** Insert the job, after giving it an id, a status and its time stamps.
        The job keeps these even when the insertion fails. */
    method CreateJob(job: Job, freshId: string, now: Instant, io: bool) returns (ok: bool)
      requires Valid()
      modifies this, job
      ensures Valid()
      ensures job.ToRow() == Stamped(old(job.ToRow()), freshId, now)
      ensures ok == Insert(old(table), job.ToRow(), io).Some?
      ensures table == if ok then Insert(old(table), job.ToRow(), io).value else old(table)
    {
      StatementsKeepTableValid(table, Stamped(job.ToRow(), freshId, now), io);
      if job.id == "" {
        job.id := freshId;
      }
      if job.status == NoStatus {
        job.status := Pending;
      }
      if job.createdAt == 0 {
        job.createdAt := now;
      }
      job.updatedAt := now;
      var inserted := Insert(table, job.ToRow(), io);
      ok := inserted.Some?;
      if ok {
        table := inserted.value;
      }
    }

    /** Write the job to its row.  The job is stamped even when the write fails. */
    method UpdateJob(job: Job, now: Instant, io: bool) returns (ok: bool)
      requires Valid()
      modifies this, job`updatedAt
      ensures Valid()
      ensures job.ToRow() == old(job.ToRow()).(updatedAt := now)
      ensures ok == Update(old(table), job.ToRow(), io).Some?
      ensures table == if ok then Update(old(table), job.ToRow(), io).value else old(table)
    {
      StatementsKeepTableValid(table, job.ToRow().(updatedAt := now), io);
      job.updatedAt := now;
      var updated := Update(table, job.ToRow(), io);
      ok := updated.Some?;
      if ok {
        table := updated.value;
      }
    }

    method DeleteJob(id: string, io: bool) returns (ok: bool)
      requires Valid()
      modifies this
      ensures Valid()
      ensures ok == (io && id in old(table))
      ensures table == if ok then old(table) - {id} else old(table)
    {
      var deleted := Delete(table, id, io);
      ok := deleted.Some?;
      if ok {
        table := deleted.value;
      }
    }

    /** The rows that the filter selects, in ascending order of `next_run`. */
    method ListJobs(filter: JobFilter, io: bool) returns (r: Option<seq<Row>>)
      requires Valid()
      ensures r.Some? <==> io
      ensures r.Some? ==> Lists(r.value, table, filter)
    {
      var query, args, conditions := BuildQuery(filter);
      if !io {
        return None;
      }
      var rows := RunQuery(table, query, args);
      r := Some(rows);
    }
  }

  function Stamped(row: Row, freshId: string, now: Instant): Row {
    row.(
      id := if row.id == "" then freshId else row.id,
      status := if row.status == NoStatus then Pending else row.status,
      createdAt := if row.createdAt == 0 then now else row.createdAt,
      updatedAt := now)
  }

  /** A stamped job has an id, a status and both times.  What it had of id, status and creation
      time stays, and so does everything else but the time of the update. */
  lemma StampsFillIn(row: Row, freshId: string, now: Instant)
    requires freshId != "" && now != 0
    ensures var r := Stamped(row, freshId, now);
      && r.id != "" && r.status != NoStatus && r.createdAt != 0 && r.updatedAt == now
      && (row.id == "" ==> r.id == freshId) && (row.status == NoStatus ==> r.status == Pending)
      && (row.createdAt == 0 ==> r.createdAt == now)
      && (row.id != "" && row.status != NoStatus && row.createdAt != 0 ==> r == row.(updatedAt := now))
      && r.key == row.key && r.payload == row.payload && r.retryCount == row.retryCount
      && r.lastError == row.lastError && r.nextRun == row.nextRun && r.lastRun == row.lastRun
  {
  }

  /** What the database does with the text of the query: collect the rows that it selects
      and sort them.  Rows with equal `next_run` come in any order. */
  method RunQuery(table: Table, query: string, args: seq<Arg>) returns (rows: seq<Row>)
    requires TableValid(table)
    ensures Ordered(rows)
    ensures forall row :: row in rows <==> row.id in table && table[row.id] == row && Evaluate(query, args, row) == Some(true)
  {
    hide Collected;
    rows := [];
    hide Evaluate;
    var todo := set id | id in table && Evaluate(query, args, table[id]) == Some(true);
    ghost var all := todo;
    NothingCollected(table, todo);
    assert all - todo == {};
    while todo != {}
      invariant todo <= all <= table.Keys
      invariant Collected(rows, table, all - todo, todo)
      decreases todo
    {
      var id := Soonest(table, todo);
      Collect(rows, table, all - todo, todo, id);
      rows := rows + [table[id]];
      assert all - (todo - {id}) == (all - todo) + {id};
      todo := todo - {id};
    }
    assert all - todo == all;
    AllCollected(rows, table, all);
  }

  /** `rows` are the rows with ids in `done`, sorted; the others are not due before them. */
  ghost predicate Collected(rows: seq<Row>, table: Table, done: set<string>, todo: set<string>)
    requires done <= table.Keys && todo <= table.Keys
  {
    && Ordered(rows)
    && (forall row :: row in rows ==> row.id in done && table[row.id] == row)
    && (forall id :: id in done ==> table[id] in rows)
    && (forall id, row :: id in todo && row in rows ==> row.nextRun <= table[id].nextRun)
  }

  lemma NothingCollected(table: Table, todo: set<string>)
    requires todo <= table.Keys
    ensures Collected([], table, {}, todo)
  {
  }

  lemma Collect(rows: seq<Row>, table: Table, done: set<string>, todo: set<string>, id: string)
    requires TableValid(table) && done <= table.Keys && todo <= table.Keys && done !! todo
    requires Collected(rows, table, done, todo) && id in todo
    requires forall other :: other in todo ==> table[id].nextRun <= table[other].nextRun
    ensures Collected(rows + [table[id]], table, done + {id}, todo - {id})
  {
    assert forall k :: 0 <= k < |rows| ==> rows[k] in rows;
  }

  lemma AllCollected(rows: seq<Row>, table: Table, done: set<string>)
    requires TableValid(table) && done <= table.Keys && Collected(rows, table, done, {})
    ensures Ordered(rows) && forall row :: row in rows <==> row.id in done && table[row.id] == row
  {
  }

  method Soonest(table: Table, ids: set<string>) returns (id: string)
    requires ids != {} && ids <= table.Keys
    ensures id in ids && forall other :: other in ids ==> table[id].nextRun <= table[other].nextRun
  {
    id :| id in ids;
    var rest := ids - {id};
    while rest != {}
      invariant id in ids && rest <= ids
      invariant forall other :: other in ids - rest ==> table[id].nextRun <= table[other].nextRun
      decreases |rest|
    {
      var other :| other in rest;
      if table[other].nextRun < table[id].nextRun {
        id := other;
      }
      rest := rest - {other};
    }
  }
}
