/** The worker pool as an object: the bounded queue, the stop flag and the counters.
    `PoolRuns` interleaves these sections between threads, and `PoolAlone` shows that a
    thread which is not interrupted does what the methods do. */
module WorkerPool {
  import opened Wrappers

  datatype Metrics = Metrics(
    activeWorkers: int, completedTasks: int, failedTasks: int, queuedTasks: int,
    processingTime: int, lastProcessed: int)
  {
    /** A submitter has counted its task. */
    function Queued(): Metrics {
      this.(queuedTasks := queuedTasks + 1)
    }

    /** A worker has counted the task that it received. */
    function Started(): Metrics {
      this.(activeWorkers := activeWorkers + 1, queuedTasks := queuedTasks - 1)
    }

    /** A worker has counted the outcome of its task. */
    function Finished(ok: bool, duration: int, now: int): Metrics {
      this.(
        activeWorkers := activeWorkers - 1,
        completedTasks := if ok then completedTasks + 1 else completedTasks,
        failedTasks := if ok then failedTasks else failedTasks + 1,
        processingTime := processingTime + duration,
        lastProcessed := now)
    }

    /** All counters but the number of active workers restart from zero. */
    function Reset(): Metrics {
      Metrics(activeWorkers, 0, 0, 0, 0, 0)
    }
  }

  const NO_METRICS := Metrics(0, 0, 0, 0, 0, 0)

  /** How a task ends. */
  datatype Outcome = Outcome(ok: bool, duration: int, now: int)

  /** What a submission, a reception and the other sections do to the pool. */
  datatype PoolView<T> = PoolView(tasks: seq<T>, isStopped: bool, metrics: Metrics) {
    function FreeSlots(capacity: int): int {
      if isStopped then 0 else capacity - |tasks|
    }

    /** The task goes to the back unless the pool is stopped or the queue is full. */
    function Submitted(task: T, capacity: int): PoolView<T> {
      if FreeSlots(capacity) > 0 then this.(tasks := tasks + [task], metrics := metrics.Queued()) else this
    }

    /** A worker has the task at the front. */
    function Taken(): PoolView<T>
      requires tasks != []
    {
      this.(tasks := tasks[1..], metrics := metrics.Started())
    }

    function Finished(ok: bool, duration: int, now: int): PoolView<T> {
      this.(metrics := metrics.Finished(ok, duration, now))
    }

    /** A worker takes, executes and counts the task at the front. */
    function Turn(run: T -> Outcome): (view: PoolView<T>)
      requires tasks != []
      ensures view.tasks == tasks[1..]
    {
      var o := run(tasks[0]);
      Taken().Finished(o.ok, o.duration, o.now)
    }

    /** A worker executes all tasks in the queue. */
    function Worked(run: T -> Outcome): PoolView<T>
      decreases |tasks|
    {
      if tasks == [] then this else Turn(run).Worked(run)
    }

    function Reset(): PoolView<T> {
      this.(metrics := metrics.Reset())
    }

    /** The tasks in the queue stay there. */
    function Stopped(): PoolView<T> {
      this.(isStopped := true)
    }
  }

  class WorkerPool<T> {
    const workers: int
    var tasks: seq<T>
    var isStopped: bool
    var metrics: Metrics

    constructor (workers: int)
      ensures this.workers == if workers <= 0 then 1 else workers
      ensures Valid() && View() == PoolView([], false, NO_METRICS)
      ensures FreeSlots() == 2 * (if workers <= 0 then 1 else workers)
    {
      this.workers := if workers <= 0 then 1 else workers;
      tasks, isStopped, metrics := [], false, NO_METRICS;
    }

    ghost predicate Valid()
      reads this
    {
      0 < workers && |tasks| <= Capacity()
    }

    function View(): PoolView<T>
      reads this
    {
      PoolView(tasks, isStopped, metrics)
    }

    /** The size of the task channel. */
    function Capacity(): int {
      2 * workers
    }

    function FreeSlots(): int
      reads this
    {
      View().FreeSlots(Capacity())
    }

    method Submit(task: T) returns (ok: bool)
      requires Valid()
      modifies this`tasks, this`metrics
      ensures Valid()
      ensures ok <==> old(FreeSlots()) > 0
      ensures View() == old(View()).Submitted(task, Capacity())
    {
      if isStopped {
        return false;
      }
      if |tasks| < Capacity() {
        tasks := tasks + [task];
        metrics := metrics.Queued();
        return true;
      }
      return false;
    }

    /** Receive a task and count it as started. */
    method StartTask() returns (task: Option<T>)
      requires Valid()
      modifies this`tasks, this`metrics
      ensures Valid()
      ensures task == if old(tasks) == [] then None else Some(old(tasks)[0])
      ensures View() == if old(tasks) == [] then old(View()) else old(View()).Taken()
    {
      if tasks == [] {
        return None;
      }
      task := Some(tasks[0]);
      tasks := tasks[1..];
      metrics := metrics.Started();
    }

    /** Count the outcome of a task; its callback runs while the counters are locked. */
    method FinishTask(outcome: Outcome)
      requires Valid()
      modifies this`metrics
      ensures Valid() && View() == old(View()).Finished(outcome.ok, outcome.duration, outcome.now)
    {
      metrics := metrics.Finished(outcome.ok, outcome.duration, outcome.now);
    }

    /** One turn of a worker. */
    method ExecuteNext(run: T -> Outcome) returns (task: T)
      requires Valid() && tasks != []
      modifies this`tasks, this`metrics
      ensures Valid() && task == old(tasks)[0] && tasks == old(tasks)[1..]
      ensures View() == old(View()).Turn(run)
    {
      var received := StartTask();
      task := received.value;
      FinishTask(run(task));
    }

    /** The loop of a worker that nobody interrupts: it executes the tasks in the queue one
        after the other, in the order in which they were accepted. */
    method Work(run: T -> Outcome) returns (executed: seq<T>)
      requires Valid()
      modifies this`tasks, this`metrics
      ensures Valid() && executed == old(tasks) && View() == old(View()).Worked(run)
    {
      hide PoolView.Turn;
      executed := [];
      while tasks != []
        invariant Valid() && old(tasks) == executed + tasks
        invariant old(View()).Worked(run) == View().Worked(run)
        decreases |tasks|
      {
        var task := ExecuteNext(run);
        executed := executed + [task];
      }
    }
  }

  /** How many of the tasks have this outcome. */
  function CountOutcomes<T>(tasks: seq<T>, run: T -> Outcome, ok: bool): nat {
    if tasks == [] then 0 else (if run(tasks[0]).ok == ok then 1 else 0) + CountOutcomes(tasks[1..], run, ok)
  }

  function TotalDuration<T>(tasks: seq<T>, run: T -> Outcome): int {
    if tasks == [] then 0 else run(tasks[0]).duration + TotalDuration(tasks[1..], run)
  }

  /** A worker empties the queue.  Each task is counted once, by its outcome, its duration is
      added up, the last one leaves its time, and the worker is not active when it is done. */
  lemma {:induction false} WorkCounts<T>(view: PoolView<T>, run: T -> Outcome)
    ensures var m, m' := view.metrics, view.Worked(run).metrics;
      && view.Worked(run).tasks == [] && view.Worked(run).isStopped == view.isStopped
      && m'.completedTasks == m.completedTasks + CountOutcomes(view.tasks, run, true)
      && m'.failedTasks == m.failedTasks + CountOutcomes(view.tasks, run, false)
      && m'.queuedTasks == m.queuedTasks - |view.tasks| && m'.activeWorkers == m.activeWorkers
      && m'.processingTime == m.processingTime + TotalDuration(view.tasks, run)
      && m'.lastProcessed == if view.tasks == [] then m.lastProcessed else run(view.tasks[|view.tasks| - 1]).now
    decreases |view.tasks|
  {
    if view.tasks != [] {
      WorkCounts(view.Turn(run), run);
    }
  }

  lemma {:induction false} OutcomesAddUp<T>(tasks: seq<T>, run: T -> Outcome)
    ensures CountOutcomes(tasks, run, true) + CountOutcomes(tasks, run, false) == |tasks|
  {
    if tasks != [] {
      OutcomesAddUp(tasks[1..], run);
    }
  }
}
