/** A thread of `PoolRuns` that nobody interrupts does to the pool what the functions of
    `PoolView` say, and so what the methods of `WorkerPool` do. */
module PoolAlone {
  import opened Wrappers
  import opened WorkerPool
  import opened PoolRuns
  import PoolTasks

  function ViewOf(pool: Pool): PoolView<nat> {
    PoolView(pool.queue, pool.stopped, pool.metrics)
  }

  /** No other thread holds a lock, and the queue is open while the flag is not set. */
  ghost predicate Alone(s: State, t: Thread) {
    && t in s.pcs && !s.pool.panicked && (s.pool.closed ==> s.pool.stopped)
    && forall u, lock :: u in s.pcs && u != t ==> Held(u, s.pcs[u], lock) == None
  }

  /** Only this thread has moved. */
  ghost predicate MovedAlone(s: State, s': State, t: Thread) {
    exists steps :: Run(s, steps, s') && AllBy(steps, t)
  }

  predicate AllBy(steps: seq<Step>, t: Thread) {
    forall i :: 0 <= i < |steps| ==> steps[i].thread == t
  }

  lemma NoMove(s: State, t: Thread)
    ensures MovedAlone(s, s, t)
  {
    assert Run(s, [], s);
  }

  lemma AppendMove(s0: State, s: State, step: Step)
    requires MovedAlone(s0, s, step.thread) && Enabled(s, step)
    ensures MovedAlone(s0, Apply(s, step), step.thread)
  {
    var steps :| Run(s0, steps, s) && AllBy(steps, step.thread);
    RunAppend(s0, steps, s, step);
  }

  lemma FreeToMove(s: State, t: Thread)
    requires Alone(s, t)
    ensures CanProceed(s, t)
  {
    hide Held, Wanted;
  }

  /** The next step of the thread. */
  lemma Move(s0: State, s: State, step: Step) returns (s': State)
    requires MovedAlone(s0, s, step.thread) && Alone(s, step.thread) && s.pcs == s0.pcs[step.thread := s.pcs[step.thread]]
    requires var pc := s.pcs[step.thread];
      && HasStep(s.pool, step.thread, pc, step.choice) && pc != Closed && !(pc == Admitted && s.pool.closed)
      && (pc == Cancelled ==> s.pool.stopped)
    ensures MovedAlone(s0, s', step.thread) && Alone(s', step.thread)
    ensures s'.pool == NextPool(s.pool, step.thread, s.pcs[step.thread], step)
    ensures s'.pcs == s0.pcs[step.thread := NextPc(s.pool, step.thread, s.pcs[step.thread], step.choice)]
  {
    hide MovedAlone, Held, NextPc, HasStep;
    FreeToMove(s, step.thread);
    s' := Apply(s, step);
    AppendMove(s0, s, step);
    GatesKept(s.pool, step, s.pcs[step.thread]);
  }

  lemma GatesKept(pool: Pool, step: Step, pc: Pc)
    requires (pool.closed ==> pool.stopped) && (pc == Cancelled ==> pool.stopped)
    ensures var next := NextPool(pool, step.thread, pc, step);
      next.panicked == pool.panicked && (next.closed ==> next.stopped)
  {
  }

  /** A submission is `WorkerPool.Submit`. */
  lemma SubmitAlone(s: State, t: Thread) returns (s': State)
    requires Alone(s, t) && t.Submitter? && s.pcs[t] == Idle
    ensures MovedAlone(s, s', t) && s'.pcs == s.pcs
    ensures ViewOf(s'.pool) == ViewOf(s.pool).Submitted(s.pool.accepted, 2 * s.pool.workers)
    ensures s'.pool.accepted == s.pool.accepted + if ViewOf(s.pool).FreeSlots(2 * s.pool.workers) > 0 then 1 else 0
  {
    hide MovedAlone, Alone, Held;
    var step := Step(t, true, 0, 0);
    NoMove(s, t);
    AloneKnown(s, t);
    s' := Move(s, s, step);
    s' := Move(s, s', step);
    s' := Move(s, s', step);
    if s.pool.stopped {
      return;
    }
    s' := Move(s, s', step);
    if s'.pcs[t] == WantCount {
      s' := Move(s, s', step);
      s' := Move(s, s', step);
    }
  }

  lemma AloneKnown(s: State, t: Thread)
    requires Alone(s, t)
    ensures t in s.pcs && (s.pool.closed ==> s.pool.stopped)
  {
  }

  /** The reception of a task is `WorkerPool.StartTask`. */
  lemma StartAlone(s: State, t: Thread) returns (s': State)
    requires Alone(s, t) && t.Worker? && s.pcs[t] == Idle && s.pool.queue != []
    ensures MovedAlone(s, s', t) && s'.pcs == s.pcs[t := Executing(s.pool.queue[0])]
    ensures ViewOf(s'.pool) == ViewOf(s.pool).Taken()
  {
    hide MovedAlone, Alone, Held;
    var step := Step(t, true, 0, 0);
    NoMove(s, t);
    AloneKnown(s, t);
    s' := Move(s, s, step);
    s' := Move(s, s', step);
    s' := Move(s, s', step);
  }

  /** The end of a task is `WorkerPool.FinishTask`, and the callback for its outcome is made. */
  lemma FinishAlone(s: State, t: Thread, ok: bool, duration: int, now: int) returns (s': State)
    requires Alone(s, t) && s.pcs[t].Executing?
    ensures MovedAlone(s, s', t) && s'.pcs == s.pcs[t := Idle]
    ensures ViewOf(s'.pool) == ViewOf(s.pool).Finished(ok, duration, now)
    ensures s'.pool.outcomes == s.pool.outcomes[s.pcs[t].ticket := ok]
  {
    hide MovedAlone, Alone, Held;
    var step := Step(t, ok, duration, now);
    NoMove(s, t);
    AloneKnown(s, t);
    s' := Move(s, s, step);
    s' := Move(s, s', step);
    s' := CallBackAlone(s, s', t);
  }

  lemma CallBackAlone(s0: State, s: State, t: Thread) returns (s': State)
    requires MovedAlone(s0, s, t) && Alone(s, t) && s.pcs[t].Finishing? && s.pcs == s0.pcs[t := s.pcs[t]]
    ensures MovedAlone(s0, s', t) && s'.pcs == s0.pcs[t := Idle]
    ensures s'.pool == s.pool.(outcomes := s.pool.outcomes[s.pcs[t].ticket := s.pcs[t].ok])
  {
    hide MovedAlone, Alone, Held, NextPool;
    var step := Step(t, true, 0, 0);
    AloneKnown(s, t);
    CallbackPool(s.pool, t, s.pcs[t]);
    s' := Move(s0, s, step);
    CallbackPool(s'.pool, t, s'.pcs[t]);
    if s'.pcs[t].Calling? {
      s' := Move(s0, s', step);
      CallbackPool(s'.pool, t, s'.pcs[t]);
    }
    s' := Move(s0, s', step);
  }

  lemma CallbackPool(pool: Pool, t: Thread, pc: Pc)
    requires pc.Finishing? || pc.Calling? || pc.CalledBack?
    ensures NextPool(pool, t, pc, Step(t, true, 0, 0))
            == if pc.Finishing? then pool.(outcomes := pool.outcomes[pc.ticket := pc.ok]) else pool
  {
  }

  /** A reset clears all counters but the number of active workers. */
  lemma ResetAlone(s: State, t: Thread) returns (s': State)
    requires Alone(s, t) && t.Observer? && s.pcs[t] == Idle
    ensures MovedAlone(s, s', t) && s'.pcs == s.pcs
    ensures ViewOf(s'.pool) == ViewOf(s.pool).Reset()
    ensures s'.pool.metrics == Metrics(s.pool.metrics.activeWorkers, 0, 0, 0, 0, 0)
    ensures s'.pool.queue == s.pool.queue && s'.pool.stopped == s.pool.stopped
  {
    hide MovedAlone, Alone, Held;
    var step := Step(t, false, 0, 0);
    NoMove(s, t);
    AloneKnown(s, t);
    s' := Move(s, s, step);
    s' := Move(s, s', step);
    s' := Move(s, s', step);
  }

  /** `Stop`, until it waits for the workers, leaves the tasks in the queue and the counters
      as they are. */
  lemma StopAlone(s: State) returns (s': State)
    requires Alone(s, Stopper) && s.pcs[Stopper] == Idle
    ensures MovedAlone(s, s', Stopper) && s'.pcs == s.pcs[Stopper := Closed]
    ensures ViewOf(s'.pool) == ViewOf(s.pool).Stopped() && s'.pool.cancelled && s'.pool.closed
  {
    hide MovedAlone, Alone, Held;
    var step := Step(Stopper, true, 0, 0);
    NoMove(s, Stopper);
    AloneKnown(s, Stopper);
    s' := Move(s, s, step);
    s' := Move(s, s', step);
    s' := CloseAlone(s, s');
  }

  lemma CloseAlone(s0: State, s: State) returns (s': State)
    requires MovedAlone(s0, s, Stopper) && Alone(s, Stopper) && s.pool.stopped
    requires s.pcs == s0.pcs[Stopper := InStop]
    ensures MovedAlone(s0, s', Stopper) && s'.pcs == s0.pcs[Stopper := Closed]
    ensures ViewOf(s'.pool) == ViewOf(s.pool) && s'.pool.cancelled && s'.pool.closed
  {
    hide MovedAlone, Alone, Held;
    var step := Step(Stopper, true, 0, 0);
    s' := Move(s0, s, step);
    s' := Move(s0, s', step);
    s' := Move(s0, s', step);
  }

  /** A pool object and a pool of the runs with as many workers and queued tasks have room
      for a task together: twice as many tasks as workers fit the queue. */
  lemma SameCapacity<T>(p: WorkerPool<T>, pool: Pool)
    requires p.workers == pool.workers && |p.tasks| == |pool.queue| && p.isStopped == pool.stopped
    ensures p.Capacity() == 2 * pool.workers
    ensures p.FreeSlots() > 0 <==> !pool.stopped && HasRoom(pool)
  {
  }

  // ---------------------------------------------------------------------------
  // Reading the counters

  predicate ChangesCounters(pc: Pc) {
    pc == WantCount || pc.Received? || pc.Executed? || pc == WantReset
  }

  lemma CountersKept(pool: Pool, step: Step, pc: Pc)
    requires !ChangesCounters(pc)
    ensures NextPool(pool, step.thread, pc, step).metrics == pool.metrics
  {
  }

  lemma ReaderBlocks(s: State, step: Step, u: Thread)
    requires Enabled(s, step) && u in s.pcs && s.pcs[u] == Reading
    ensures !ChangesCounters(s.pcs[step.thread])
  {
    assert Held(u, s.pcs[u], MetricsMu) == Some(Shared);
    assert u != step.thread ==> Wanted(s.pcs[step.thread], s.pool.lockFree) == Some((MetricsMu, Exclusive)) ==>
      !Blocks(s, u, MetricsMu, Exclusive);
  }

  /** While `GetMetrics` copies the counters no other thread changes them, so that the
      copy is the counters of one moment, for which the equations hold. */
  lemma {:induction false} ReadersSeeOneMoment(s: State, u: Thread, steps: seq<Step>, t: State)
    requires Reachable(s) && u in s.pcs && s.pcs[u] == Reading && Run(s, steps, t)
    requires forall i :: 0 <= i < |steps| ==> steps[i].thread != u
    ensures t.pool.metrics == s.pool.metrics && Conserved(s) && Conserved(t)
    decreases |steps|
  {
    hide Reachable, Conserved, Enabled, Apply;
    ReachableConserves(s);
    if steps != [] {
      ReachableStep(s, steps[0]);
      ReaderStep(s, u, steps[0]);
      ReadersSeeOneMoment(Apply(s, steps[0]), u, steps[1..], t);
    }
  }

  lemma ReaderStep(s: State, u: Thread, step: Step)
    requires Enabled(s, step) && u in s.pcs && s.pcs[u] == Reading && step.thread != u
    ensures var t := Apply(s, step); u in t.pcs && t.pcs[u] == Reading && t.pool.metrics == s.pool.metrics
  {
    hide NextPool, NextPc, CanProceed, HasStep, WorkersExited;
    ReaderBlocks(s, step, u);
    CountersKept(s.pool, step, s.pcs[step.thread]);
  }

  lemma ReachableConserves(s: State)
    requires Reachable(s)
    ensures Conserved(s)
  {
    PoolTasks.ReachableInv(s);
  }
}
