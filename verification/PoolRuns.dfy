/** Runs of the worker pool and of the threads that share locks with it: the
    scheduling loop, workers, other submitters, callers of the scheduler, readers of
    the counters and `Stop`.  A step is one lock operation, one channel operation or
    the end of a task; counters change while their lock is held. */
module PoolRuns {
  import opened Wrappers
  import opened WorkerPool

  datatype Thread =
    | Dispatcher          // the scheduling loop, which submits while it holds the job lock
    | Worker(n: nat)
    | Submitter(n: nat)   // calls Submit and holds no lock
    | Client(n: nat)      // calls ScheduleJob
    | Observer(n: nat)    // calls GetMetrics or ResetMetrics
    | Stopper             // calls Stop

  /** Where a thread is.  A task is named by its ticket: tickets are given in the
      order in which the queue accepts tasks. */
  datatype Pc =
    | Idle
    | WantJobs | InJobs
    // Submit
    | WantPool | InPool | Admitted | WantCount | InCount
    // worker
    | Received(ticket: nat)
    | Starting(ticket: nat)
    | Executing(ticket: nat)
    | Executed(ticket: nat, ok: bool)
    | Finishing(ticket: nat, ok: bool) // counted; about to call back
    | Calling(ticket: nat, ok: bool)   // in a callback that holds the job lock
    | CalledBack(ticket: nat, ok: bool)
    | Exited
    // GetMetrics and ResetMetrics
    | WantRead | Reading | WantReset | Resetting
    // Stop
    | WantStop | InStop | Flagged | Cancelled | Closed | Returned

  /** What the threads share, and what happened so far. */
  datatype Pool = Pool(
    workers: nat,
    lockFree: bool,           // the callbacks take no lock
    queue: seq<nat>,
    accepted: nat,            // tickets given
    received: nat,
    metrics: Metrics,
    stopped: bool, cancelled: bool, closed: bool,
    panicked: bool,           // a send met the closed queue
    started: set<nat>,
    outcomes: map<nat, bool>, // OnSuccess or OnFailure was called
    lostQueued: int, lostFinished: int) // cleared by ResetMetrics

  datatype State = State(pcs: map<Thread, Pc>, pool: Pool)

  function NewPool(workers: nat, lockFree: bool): Pool {
    Pool(workers, lockFree, [], 0, 0, NO_METRICS, false, false, false, false, {}, map[], 0, 0)
  }

  ghost predicate IsStart(s: State) {
    && 0 < s.pool.workers && s.pool == NewPool(s.pool.workers, s.pool.lockFree)
    && Dispatcher in s.pcs && Stopper in s.pcs
    && (forall n: nat :: Worker(n) in s.pcs <==> n < s.pool.workers)
    && (forall t :: t in s.pcs ==> s.pcs[t] == Idle)
  }

  // ---------------------------------------------------------------------------
  // Locks

  datatype Lock = JobMu | PoolMu | MetricsMu

  datatype Mode = Shared | Exclusive

  function Held(t: Thread, pc: Pc, lock: Lock): Option<Mode> {
    match lock
    case JobMu =>
      if pc.Calling? || ((t.Client? || t == Dispatcher) && pc == InJobs)
         || (t == Dispatcher && (pc == WantPool || pc == InPool || pc == Admitted || pc == WantCount || pc == InCount))
      then Some(Exclusive) else None
    case PoolMu =>
      if pc == InPool then Some(Shared) else if pc == InStop then Some(Exclusive) else None
    case MetricsMu =>
      if pc == Reading then Some(Shared)
      else if pc == InCount || pc.Starting? || pc.Finishing? || pc.Calling? || pc.CalledBack? || pc == Resetting
      then Some(Exclusive) else None
  }

  /** The lock that a thread needs for its next step. */
  function Wanted(pc: Pc, lockFree: bool): Option<(Lock, Mode)> {
    match pc
    case WantJobs => Some((JobMu, Exclusive))
    case Finishing(_, _) => if lockFree then None else Some((JobMu, Exclusive))
    case WantPool => Some((PoolMu, Shared))
    case WantStop => Some((PoolMu, Exclusive))
    case WantCount => Some((MetricsMu, Exclusive))
    case Received(_) => Some((MetricsMu, Exclusive))
    case Executed(_, _) => Some((MetricsMu, Exclusive))
    case WantReset => Some((MetricsMu, Exclusive))
    case WantRead => Some((MetricsMu, Shared))
    case _ => None
  }

  predicate Conflict(held: Option<Mode>, mode: Mode) {
    held.Some? && !(held.value == Shared && mode == Shared)
  }

  ghost predicate Blocks(s: State, u: Thread, lock: Lock, mode: Mode)
    requires u in s.pcs
  {
    Conflict(Held(u, s.pcs[u], lock), mode)
  }

  ghost predicate CanProceed(s: State, t: Thread)
    requires t in s.pcs
  {
    match Wanted(s.pcs[t], s.pool.lockFree)
    case None => true
    case Some(want) => forall u :: u in s.pcs && u != t ==> !Blocks(s, u, want.0, want.1)
  }

  // ---------------------------------------------------------------------------
  // Steps

  /** A step of one thread.  `choice` selects between its alternatives. */
  datatype Step = Step(thread: Thread, choice: bool, duration: int, now: int)

  ghost predicate WorkersExited(s: State) {
    forall n: nat :: n < s.pool.workers && Worker(n) in s.pcs ==> s.pcs[Worker(n)] == Exited
  }

  /** Whether the thread has a step at its place, apart from locks. */
  predicate HasStep(pool: Pool, t: Thread, pc: Pc, choice: bool) {
    match pc
    case Idle => t.Worker? ==> if choice then pool.queue != [] else pool.cancelled || (pool.closed && pool.queue == [])
    case Exited => false
    case Returned => false
    case _ => true
  }

  ghost predicate Enabled(s: State, step: Step) {
    && !s.pool.panicked && step.thread in s.pcs && CanProceed(s, step.thread)
    && HasStep(s.pool, step.thread, s.pcs[step.thread], step.choice)
    && (s.pcs[step.thread] == Closed ==> WorkersExited(s))
  }

  /** Where Submit returns to. */
  function Base(t: Thread): Pc {
    if t == Dispatcher then InJobs else Idle
  }

  /** The thread's next place. */
  function NextPc(pool: Pool, t: Thread, pc: Pc, choice: bool): Pc {
    match pc
    case Idle =>
      (match t
       case Dispatcher => WantJobs
       case Worker(_) => if choice && pool.queue != [] then Received(pool.queue[0]) else Exited
       case Submitter(_) => WantPool
       case Client(_) => WantJobs
       case Observer(_) => if choice then WantRead else WantReset
       case Stopper => WantStop)
    case WantJobs => InJobs
    case InJobs => if t == Dispatcher && choice then WantPool else Idle
    case WantPool => InPool
    case InPool => if pool.stopped then Base(t) else Admitted
    case Admitted => if HasRoom(pool) then WantCount else Base(t)
    case WantCount => InCount
    case InCount => Base(t)
    case Received(k) => Starting(k)
    case Starting(k) => Executing(k)
    case Executing(k) => Executed(k, choice)
    case Executed(k, ok) => Finishing(k, ok)
    case Finishing(k, ok) => if pool.lockFree then CalledBack(k, ok) else Calling(k, ok)
    case Calling(k, ok) => CalledBack(k, ok)
    case CalledBack(_, _) => Idle
    case Exited => Exited
    case WantRead => Reading
    case Reading => Idle
    case WantReset => Resetting
    case Resetting => Idle
    case WantStop => InStop
    case InStop => Flagged
    case Flagged => Cancelled
    case Cancelled => Closed
    case Closed => Returned
    case Returned => Returned
  }

  predicate HasRoom(pool: Pool) {
    |pool.queue| < 2 * pool.workers
  }

  /** The thread is a worker that takes the task at the front. */
  predicate Takes(pool: Pool, t: Thread, pc: Pc, choice: bool) {
    pc == Idle && t.Worker? && choice && pool.queue != []
  }

  /** The counters change while their lock is taken. */
  function NextMetrics(m: Metrics, pc: Pc, step: Step): Metrics {
    match pc
    case WantCount => m.Queued()
    case Received(_) => m.Started()
    case Executed(_, ok) => m.Finished(ok, step.duration, step.now)
    case WantReset => m.Reset()
    case _ => m
  }

  /** What the step does to the pool. */
  function NextPool(pool: Pool, t: Thread, pc: Pc, step: Step): Pool {
    var sends := pc == Admitted && HasRoom(pool);
    var takes := Takes(pool, t, pc, step.choice);
    var m := pool.metrics;
    pool.(
      queue := if sends then pool.queue + [pool.accepted] else if takes then pool.queue[1..] else pool.queue,
      accepted := if sends then pool.accepted + 1 else pool.accepted,
      received := if takes then pool.received + 1 else pool.received,
      metrics := NextMetrics(m, pc, step),
      stopped := pool.stopped || pc == WantStop,
      cancelled := pool.cancelled || pc == Flagged,
      closed := pool.closed || pc == Cancelled,
      started := if pc.Starting? then pool.started + {pc.ticket} else pool.started,
      outcomes := if pc.Finishing? then pool.outcomes[pc.ticket := pc.ok] else pool.outcomes,
      lostQueued := if pc == WantReset then pool.lostQueued + m.queuedTasks else pool.lostQueued,
      lostFinished := if pc == WantReset then pool.lostFinished + m.completedTasks + m.failedTasks else pool.lostFinished)
  }

  /** A send to the closed queue panics and ends the run. */
  ghost function Apply(s: State, step: Step): State
    requires Enabled(s, step)
  {
    var t := step.thread;
    var pc := s.pcs[t];
    if pc == Admitted && s.pool.closed then s.(pool := s.pool.(panicked := true))
    else State(s.pcs[t := NextPc(s.pool, t, pc, step.choice)], NextPool(s.pool, t, pc, step))
  }

  ghost predicate Run(s: State, steps: seq<Step>, t: State)
    decreases |steps|
  {
    if steps == [] then s == t
    else Enabled(s, steps[0]) && Run(Apply(s, steps[0]), steps[1..], t)
  }

  ghost predicate Reachable(s: State) {
    exists start, steps :: IsStart(start) && Run(start, steps, s)
  }

  lemma {:induction false} RunAppend(s: State, steps: seq<Step>, t: State, step: Step)
    requires Run(s, steps, t) && Enabled(t, step)
    ensures Run(s, steps + [step], Apply(t, step))
    decreases |steps|
  {
    hide Enabled, Apply;
    if steps == [] {
      assert (steps + [step])[1..] == [];
    } else {
      assert (steps + [step])[1..] == steps[1..] + [step];
      RunAppend(Apply(s, steps[0]), steps[1..], t, step);
    }
  }

  lemma ReachableStep(s: State, step: Step)
    requires Reachable(s) && Enabled(s, step)
    ensures Reachable(Apply(s, step))
  {
    var start, steps :| IsStart(start) && Run(start, steps, s);
    RunAppend(start, steps, s, step);
  }

  // ---------------------------------------------------------------------------
  // Conservation

  /** How far a thread is with moving a task: sent but not counted, received but not
      counted, or counted as active. */
  datatype Phase = NoTask | Sent | Got | Active

  function PhaseOf(pc: Pc): Phase {
    if pc == WantCount then Sent
    else if pc.Received? then Got
    else if pc.Starting? || pc.Executing? || pc.Executed? then Active
    else NoTask
  }

  /** The number of threads in a phase. */
  function Count(pcs: map<Thread, Pc>, phase: Phase): nat {
    |set t | t in pcs && PhaseOf(pcs[t]) == phase|
  }

  lemma CountWithout(a: set<Thread>, b: set<Thread>, t: Thread)
    requires a - {t} == b - {t}
    ensures |a| - (if t in a then 1 else 0) == |b| - (if t in b then 1 else 0)
  {
    assert |a - {t}| == |a| - (if t in a then 1 else 0);
    assert |b - {t}| == |b| - (if t in b then 1 else 0);
  }

  /** Moving one thread changes a count by the difference for that thread. */
  lemma CountMove(pcs: map<Thread, Pc>, t: Thread, pc: Pc, phase: Phase)
    requires t in pcs
    ensures Count(pcs[t := pc], phase)
            == Count(pcs, phase) - (if PhaseOf(pcs[t]) == phase then 1 else 0) + (if PhaseOf(pc) == phase then 1 else 0)
  {
    var moved := pcs[t := pc];
    CountWithout(
      (set u | u in pcs && PhaseOf(pcs[u]) == phase), (set u | u in moved && PhaseOf(moved[u]) == phase), t);
  }

  /** The equations between the counters, the queue and the counts of threads. */
  predicate Balanced(pool: Pool, sent: int, got: int, active: int) {
    && pool.metrics.queuedTasks + pool.lostQueued == |pool.queue| + got - sent
    && pool.metrics.activeWorkers == active
    && pool.accepted == |pool.queue| + got + pool.metrics.activeWorkers
                        + pool.metrics.completedTasks + pool.metrics.failedTasks + pool.lostFinished
  }

  /** The counters and the queue agree, up to the tasks that a thread has moved but
      not counted yet and up to what resets have cleared. */
  ghost predicate Conserved(s: State) {
    Balanced(s.pool, Count(s.pcs, Sent), Count(s.pcs, Got), Count(s.pcs, Active))
  }

  lemma CountIdle(pcs: map<Thread, Pc>, phase: Phase)
    requires phase != NoTask && forall t :: t in pcs ==> pcs[t] == Idle
    ensures Count(pcs, phase) == 0
  {
    assert (set t | t in pcs && PhaseOf(pcs[t]) == phase) == {};
  }

  lemma StartConserved(s: State)
    requires IsStart(s)
    ensures Conserved(s)
  {
    hide Count;
    CountIdle(s.pcs, Sent);
    CountIdle(s.pcs, Got);
    CountIdle(s.pcs, Active);
  }

  function Delta(before: Pc, after: Pc, phase: Phase): int {
    (if PhaseOf(after) == phase then 1 else 0) - (if PhaseOf(before) == phase then 1 else 0)
  }

  /** The steps that move tasks or counters. */
  predicate MovesTasks(t: Thread, pc: Pc) {
    (pc == Idle && t.Worker?) || pc == Admitted || pc == WantCount || pc.Received? || pc.Executed? || pc == WantReset
  }

  lemma OtherStepBalanced(pool: Pool, step: Step, pc: Pc)
    requires HasStep(pool, step.thread, pc, step.choice) && !MovesTasks(step.thread, pc)
    ensures PhaseOf(NextPc(pool, step.thread, pc, step.choice)) == PhaseOf(pc)
    ensures var next := NextPool(pool, step.thread, pc, step);
      && next.metrics == pool.metrics && next.queue == pool.queue && next.accepted == pool.accepted
      && next.lostQueued == pool.lostQueued && next.lostFinished == pool.lostFinished
  {
  }

  /** A step moves the counters as it moves its thread. */
  lemma StepBalanced(pool: Pool, step: Step, pc: Pc, sent: int, got: int, active: int)
    requires Balanced(pool, sent, got, active) && HasStep(pool, step.thread, pc, step.choice)
    ensures var next := NextPc(pool, step.thread, pc, step.choice);
      Balanced(NextPool(pool, step.thread, pc, step),
               sent + Delta(pc, next, Sent), got + Delta(pc, next, Got), active + Delta(pc, next, Active))
  {
    if !MovesTasks(step.thread, pc) {
      hide NextPc, NextPool, PhaseOf, MovesTasks, HasStep;
      OtherStepBalanced(pool, step, pc);
    }
  }

  lemma StepConserved(s: State, step: Step)
    requires Enabled(s, step) && Conserved(s)
    ensures Conserved(Apply(s, step))
  {
    hide Count, CanProceed, WorkersExited, Balanced, NextPc, NextPool;
    var pc := s.pcs[step.thread];
    if !(pc == Admitted && s.pool.closed) {
      var next := NextPc(s.pool, step.thread, pc, step.choice);
      StepBalanced(s.pool, step, pc, Count(s.pcs, Sent), Count(s.pcs, Got), Count(s.pcs, Active));
      CountMove(s.pcs, step.thread, next, Sent);
      CountMove(s.pcs, step.thread, next, Got);
      CountMove(s.pcs, step.thread, next, Active);
    } else {
      PanicBalanced(s.pool, Count(s.pcs, Sent), Count(s.pcs, Got), Count(s.pcs, Active));
    }
  }

  lemma PanicBalanced(pool: Pool, sent: int, got: int, active: int)
    requires Balanced(pool, sent, got, active)
    ensures Balanced(pool.(panicked := true), sent, got, active)
  {
  }

  // ---------------------------------------------------------------------------
  // Places and locks

  /** The places that a thread of this kind can be at. */
  predicate Fits(t: Thread, pc: Pc) {
    match t
    case Dispatcher => pc == Idle || pc == WantJobs || pc == InJobs || InSubmit(pc)
    case Worker(_) =>
      pc == Idle || pc.Received? || pc.Starting? || pc.Executing? || pc.Executed? || pc.Finishing? || pc.Calling?
      || pc.CalledBack? || pc == Exited
    case Submitter(_) => pc == Idle || InSubmit(pc)
    case Client(_) => pc == Idle || pc == WantJobs || pc == InJobs
    case Observer(_) => pc == Idle || pc == WantRead || pc == Reading || pc == WantReset || pc == Resetting
    case Stopper =>
      pc == Idle || pc == WantStop || pc == InStop || pc == Flagged || pc == Cancelled || pc == Closed || pc == Returned
  }

  predicate InSubmit(pc: Pc) {
    pc == WantPool || pc == InPool || pc == Admitted || pc == WantCount || pc == InCount
  }

  ghost predicate AllFit(s: State) {
    forall t :: t in s.pcs ==> Fits(t, s.pcs[t])
  }

  lemma StepFits(pool: Pool, t: Thread, pc: Pc, choice: bool)
    requires Fits(t, pc) && HasStep(pool, t, pc, choice)
    ensures Fits(t, NextPc(pool, t, pc, choice))
  {
  }

  lemma StepAllFit(s: State, step: Step)
    requires Enabled(s, step) && AllFit(s)
    ensures AllFit(Apply(s, step))
  {
    hide NextPc, NextPool, Fits, CanProceed, WorkersExited, HasStep;
    StepFits(s.pool, step.thread, s.pcs[step.thread], step.choice);
  }

  /** No two threads hold the same lock, but readers share it. */
  ghost predicate MutuallyExclusive(s: State) {
    forall t, u, lock :: t in s.pcs && u in s.pcs && t != u && Held(t, s.pcs[t], lock).Some?
                         ==> !Blocks(s, u, lock, Held(t, s.pcs[t], lock).value)
  }

  /** A step only gains the lock that it waited for. */
  lemma LockGained(pool: Pool, t: Thread, pc: Pc, choice: bool, lock: Lock)
    requires Fits(t, pc) && HasStep(pool, t, pc, choice)
    ensures var after := Held(t, NextPc(pool, t, pc, choice), lock);
      after.Some? ==> after == Held(t, pc, lock) || Wanted(pc, pool.lockFree) == Some((lock, after.value))
  {
    match lock
    case JobMu =>
      hide NextPc, Held, Wanted, Fits, HasStep;
      JobLockGained(pool, t, pc, choice);
    case PoolMu =>
    case MetricsMu =>
      hide NextPc, Held, Wanted, Fits, HasStep;
      CounterLockGained(pool, t, pc, choice);
  }

  lemma JobLockGained(pool: Pool, t: Thread, pc: Pc, choice: bool)
    requires Fits(t, pc) && HasStep(pool, t, pc, choice)
    ensures var after := Held(t, NextPc(pool, t, pc, choice), JobMu);
      after.Some? ==> after == Held(t, pc, JobMu) || Wanted(pc, pool.lockFree) == Some((JobMu, after.value))
  {
  }

  lemma CounterLockGained(pool: Pool, t: Thread, pc: Pc, choice: bool)
    requires Fits(t, pc) && HasStep(pool, t, pc, choice)
    ensures var after := Held(t, NextPc(pool, t, pc, choice), MetricsMu);
      after.Some? ==> after == Held(t, pc, MetricsMu) || Wanted(pc, pool.lockFree) == Some((MetricsMu, after.value))
  {
  }

  lemma StepMutuallyExclusive(s: State, step: Step)
    requires Enabled(s, step) && AllFit(s) && MutuallyExclusive(s)
    ensures MutuallyExclusive(Apply(s, step))
  {
    hide NextPc, NextPool, Fits, WorkersExited, HasStep, Held, Wanted, Conflict;
    var s' := Apply(s, step);
    var moved := step.thread;
    forall t, u, lock | t in s'.pcs && u in s'.pcs && t != u && Held(t, s'.pcs[t], lock).Some?
      ensures !Conflict(Held(u, s'.pcs[u], lock), Held(t, s'.pcs[t], lock).value)
    {
      assert Held(t, s.pcs[t], lock).Some? ==> !Blocks(s, u, lock, Held(t, s.pcs[t], lock).value);
      assert Held(u, s.pcs[u], lock).Some? ==> !Blocks(s, t, lock, Held(u, s.pcs[u], lock).value);
      LockGained(s.pool, moved, s.pcs[moved], step.choice, lock);
      if t == moved {
        if s'.pcs[t] != s.pcs[t] {
          assert Wanted(s.pcs[t], s.pool.lockFree) == Some((lock, Held(t, s'.pcs[t], lock).value))
                 ==> !Blocks(s, u, lock, Held(t, s'.pcs[t], lock).value);
        }
      } else if u == moved {
        ConflictSymmetric(Held(t, s.pcs[t], lock), Held(u, s'.pcs[u], lock));
        if s'.pcs[u] != s.pcs[u] && Held(u, s'.pcs[u], lock).Some? {
          assert Wanted(s.pcs[u], s.pool.lockFree) == Some((lock, Held(u, s'.pcs[u], lock).value))
                 ==> !Blocks(s, t, lock, Held(u, s'.pcs[u], lock).value);
        }
      }
    }
  }

  lemma ConflictSymmetric(a: Option<Mode>, b: Option<Mode>)
    ensures a.Some? && b.Some? ==> Conflict(a, b.value) == Conflict(b, a.value)
    ensures a == None || b == None ==> (a.Some? ==> !Conflict(b, a.value)) && (b.Some? ==> !Conflict(a, b.value))
  {
  }

  // ---------------------------------------------------------------------------
  // Stop

  /** The flags that are set when `Stop` is at this place. */
  predicate FlagsAt(pool: Pool, pc: Pc) {
    && (pool.stopped <==> pc == InStop || pc == Flagged || pc == Cancelled || pc == Closed || pc == Returned)
    && (pool.cancelled <==> pc == Cancelled || pc == Closed || pc == Returned)
    && (pool.closed <==> pc == Closed || pc == Returned)
  }

  /** The flags follow `Stop`, which returns after all workers have ended. */
  ghost predicate StopOk(s: State) {
    && Stopper in s.pcs && FlagsAt(s.pool, s.pcs[Stopper])
    && (s.pcs[Stopper] == Returned ==> WorkersExited(s))
    && (s.pool.panicked ==> s.pool.closed)
  }

  lemma StopSetsFlags(pool: Pool, pc: Pc, step: Step)
    requires step.thread == Stopper && Fits(Stopper, pc) && FlagsAt(pool, pc)
    ensures FlagsAt(NextPool(pool, Stopper, pc, step), NextPc(pool, Stopper, pc, step.choice))
  {
  }

  lemma OthersKeepFlags(pool: Pool, pc: Pc, step: Step, place: Pc)
    requires step.thread != Stopper && Fits(step.thread, pc) && FlagsAt(pool, place)
    ensures FlagsAt(NextPool(pool, step.thread, pc, step), place)
  {
  }

  lemma ExitedStay(s: State, step: Step)
    requires Enabled(s, step) && WorkersExited(s)
    ensures WorkersExited(Apply(s, step))
  {
    hide CanProceed, NextPc, NextMetrics;
  }

  lemma ReturnsAfterWorkers(pool: Pool, pc: Pc, choice: bool)
    requires Fits(Stopper, pc) && HasStep(pool, Stopper, pc, choice) && NextPc(pool, Stopper, pc, choice) == Returned
    ensures pc == Closed
  {
  }

  lemma StepStopOk(s: State, step: Step)
    requires Enabled(s, step) && AllFit(s) && StopOk(s)
    ensures StopOk(Apply(s, step))
  {
    var pc := s.pcs[step.thread];
    assert Fits(step.thread, pc);
    if s.pcs[Stopper] == Returned || pc == Closed {
      ExitedStay(s, step);
    }
    hide CanProceed, WorkersExited, NextPc, NextPool, Fits, HasStep;
    if pc == Admitted && s.pool.closed {
      return;
    }
    hide FlagsAt;
    StepPanicked(s.pool, step.thread, pc, step);
    ClosedStays(s.pool, step.thread, pc, step);
    if step.thread == Stopper {
      StopSetsFlags(s.pool, pc, step);
      if NextPc(s.pool, Stopper, pc, step.choice) == Returned {
        ReturnsAfterWorkers(s.pool, pc, step.choice);
      }
    } else {
      OthersKeepFlags(s.pool, pc, step, s.pcs[Stopper]);
    }
  }

  lemma StepPanicked(pool: Pool, t: Thread, pc: Pc, step: Step)
    ensures NextPool(pool, t, pc, step).panicked == pool.panicked
  {
  }

  lemma ClosedStays(pool: Pool, t: Thread, pc: Pc, step: Step)
    ensures pool.closed ==> NextPool(pool, t, pc, step).closed
  {
  }

  // ---------------------------------------------------------------------------
  // Runs of two threads

  /** All threads but these two have not started. */
  ghost predicate OnlyTwo(s: State, t: Thread, other: Thread) {
    t != other && t in s.pcs && other in s.pcs && !s.pool.panicked
    && forall u :: u in s.pcs && u != t && u != other ==> s.pcs[u] == Idle
  }

  /** One of two running threads takes a step that the other does not block. */
  lemma Advance(s: State, t: Thread, other: Thread, choice: bool) returns (s': State)
    requires Reachable(s) && OnlyTwo(s, t, other)
    requires HasStep(s.pool, t, s.pcs[t], choice) && s.pcs[t] != Closed && !(s.pcs[t] == Admitted && s.pool.closed)
    requires var want := Wanted(s.pcs[t], s.pool.lockFree);
      want.Some? ==> !Conflict(Held(other, s.pcs[other], want.value.0), want.value.1)
    ensures Reachable(s') && OnlyTwo(s', t, other) && OnlyTwo(s', other, t)
    ensures s'.pcs[t] == NextPc(s.pool, t, s.pcs[t], choice) && s'.pcs[other] == s.pcs[other]
    ensures s'.pool == NextPool(s.pool, t, s.pcs[t], Step(t, choice, 0, 0))
  {
    hide NextPc, HasStep, Reachable, Wanted;
    var step := Step(t, choice, 0, 0);
    assert CanProceed(s, t);
    ReachableStep(s, step);
    s' := Apply(s, step);
    StepPanicked(s.pool, t, s.pcs[t], step);
  }

  /** The places that a thread leaves without a change of the pool. */
  predicate IsQuiet(t: Thread, pc: Pc) {
    || (pc == Idle && !t.Worker?) || pc == WantJobs || pc == InJobs || pc == WantPool || pc == InPool || pc == InCount
    || pc.Executing? || pc.Calling? || pc.CalledBack? || pc == InStop
  }

  lemma QuietKeepsPool(pool: Pool, t: Thread, pc: Pc, step: Step)
    requires IsQuiet(t, pc)
    ensures NextPool(pool, t, pc, step) == pool
  {
  }

  /** As `Advance`, from a quiet place. */
  lemma AdvanceQuietly(s: State, t: Thread, other: Thread, choice: bool) returns (s': State)
    requires Reachable(s) && OnlyTwo(s, t, other)
    requires HasStep(s.pool, t, s.pcs[t], choice) && IsQuiet(t, s.pcs[t])
    requires var want := Wanted(s.pcs[t], s.pool.lockFree);
      want.Some? ==> !Conflict(Held(other, s.pcs[other], want.value.0), want.value.1)
    ensures Reachable(s') && OnlyTwo(s', t, other) && OnlyTwo(s', other, t)
    ensures s'.pcs[t] == NextPc(s.pool, t, s.pcs[t], choice) && s'.pcs[other] == s.pcs[other]
    ensures s'.pool == s.pool
  {
    hide NextPc, HasStep, Reachable, Wanted, Held, NextPool;
    s' := Advance(s, t, other, choice);
    QuietKeepsPool(s.pool, t, s.pcs[t], Step(t, choice, 0, 0));
  }
}
