/** Which waiting threads of `PoolRuns` can still be served, by some continuation of the
    run, and that `Stop` can return in a pool whose callbacks take no lock. */
module LockProgress {
  import opened Wrappers
  import opened PoolRuns
  import T = PoolTasks
  import opened LockWaits

  ghost predicate Continues(s: State, s': State) {
    exists steps :: Run(s, steps, s')
  }

  lemma ContinuesHere(s: State)
    ensures Continues(s, s)
  {
    assert Run(s, [], s);
  }

  lemma ContinuesOn(s0: State, s: State, step: Step)
    requires Continues(s0, s) && Enabled(s, step)
    ensures Continues(s0, Apply(s, step))
  {
    hide Enabled, Apply;
    var steps :| Run(s0, steps, s);
    RunAppend(s0, steps, s, step);
  }

  /** A state on the way, from which the run can go on. */
  ghost predicate Going(s0: State, s: State) {
    Continues(s0, s) && T.Inv(s) && !s.pool.panicked
  }

  /** A thread makes its next move. */
  lemma Take(s0: State, s: State, u: Thread, choice: bool) returns (s': State)
    requires Going(s0, s) && u in s.pcs && CanProceed(s, u) && HasStep(s.pool, u, s.pcs[u], choice)
    requires s.pcs[u] != Closed && !(s.pcs[u] == Admitted && s.pool.closed)
    ensures Going(s0, s') && s'.pcs == s.pcs[u := NextPc(s.pool, u, s.pcs[u], choice)]
    ensures s'.pool == NextPool(s.pool, u, s.pcs[u], Step(u, choice, 0, 0))
  {
    hide T.Inv, CanProceed, HasStep, NextPc, NextPool, Continues;
    var step := Step(u, choice, 0, 0);
    s' := Apply(s, step);
    T.StepInv(s, step);
    ContinuesOn(s0, s, step);
    StepPanicked(s.pool, u, s.pcs[u], step);
  }

  /** A thread that wants no lock makes its next move. */
  lemma Release(s0: State, s: State, u: Thread) returns (s': State)
    requires Going(s0, s) && u in s.pcs && Wanted(s.pcs[u], s.pool.lockFree) == None && HasStep(s.pool, u, s.pcs[u], false)
    requires s.pcs[u] != Closed && !(s.pcs[u] == Admitted && s.pool.closed)
    ensures Going(s0, s') && s'.pcs == s.pcs[u := NextPc(s.pool, u, s.pcs[u], false)]
    ensures s'.pool == NextPool(s.pool, u, s.pcs[u], Step(u, false, 0, 0))
  {
    hide Going, Wanted, HasStep, NextPc, NextPool;
    s' := Take(s0, s, u, false);
  }

  lemma Facts(s0: State, s: State)
    requires Going(s0, s)
    ensures AllFit(s) && MutuallyExclusive(s) && StopOk(s) && !s.pool.panicked
  {
  }

  /** The run goes on to a state in which the thread can take its next step. */
  ghost predicate Served(s0: State, s: State, t: Thread) {
    t in s.pcs && CanProceed(s, t) && Going(s0, s)
  }

  // ---------------------------------------------------------------------------
  // The lock of the pool

  function Testing(s: State): set<Thread> {
    set u | u in s.pcs && s.pcs[u] == InPool
  }

  /** The submissions that test the flag leave their sections. */
  lemma {:induction false} FreePool(s0: State, s: State) returns (s': State)
    requires Going(s0, s) && Stopper in s.pcs && s.pcs[Stopper] == WantStop
    ensures Served(s0, s', Stopper) && s'.pool == s.pool && s'.pcs.Keys == s.pcs.Keys
    ensures forall u :: u in s.pcs && s.pcs[u] != InPool ==> s'.pcs[u] == s.pcs[u]
    decreases Testing(s)
  {
    hide Going, CanProceed;
    if Testing(s) == {} {
      s' := s;
      Facts(s0, s);
      NobodyTests(s);
    } else {
      var u :| u in Testing(s);
      TestingStep(s.pool, u);
      s' := Release(s0, s, u);
      assert Testing(s') == Testing(s) - {u};
      s' := FreePool(s0, s');
    }
  }

  lemma TestingStep(pool: Pool, u: Thread)
    ensures Wanted(InPool, pool.lockFree) == None && HasStep(pool, u, InPool, false)
    ensures NextPc(pool, u, InPool, false) != InPool && NextPool(pool, u, InPool, Step(u, false, 0, 0)) == pool
  {
  }

  lemma HoldsPool(u: Thread, pc: Pc)
    requires Fits(u, pc) && Held(u, pc, PoolMu).Some?
    ensures pc == InPool || (u == Stopper && pc == InStop)
    ensures pc == InPool ==> Held(u, pc, PoolMu) == Some(Shared)
  {
  }

  lemma NobodyTests(s: State)
    requires AllFit(s) && Testing(s) == {} && Stopper in s.pcs && s.pcs[Stopper] == WantStop
    ensures CanProceed(s, Stopper)
  {
    forall u | u in s.pcs && u != Stopper ensures Held(u, s.pcs[u], PoolMu) == None {
      assert u !in Testing(s);
      hide Held, Fits;
      if Held(u, s.pcs[u], PoolMu).Some? {
        HoldsPool(u, s.pcs[u]);
      }
    }
    hide Held, Fits;
  }

  /** `Stop` leaves its section. */
  lemma FreeTest(s0: State, s: State, t: Thread) returns (s': State)
    requires Going(s0, s) && Stopper in s.pcs && t in s.pcs && s.pcs[t] == WantPool
    ensures Served(s0, s', t) && s'.pool == s.pool && s'.pcs.Keys == s.pcs.Keys
    ensures forall u :: u in s.pcs && u != Stopper ==> s'.pcs[u] == s.pcs[u]
  {
    hide Going, CanProceed;
    s' := s;
    Facts(s0, s);
    if s.pcs[Stopper] == InStop {
      assert t != Stopper;
      s' := Release(s0, s, Stopper);
      Facts(s0, s');
    }
    NobodyStops(s', t);
  }

  lemma NobodyStops(s: State, t: Thread)
    requires AllFit(s) && Stopper in s.pcs && s.pcs[Stopper] != InStop && t in s.pcs && s.pcs[t] == WantPool
    ensures CanProceed(s, t)
  {
    forall u | u in s.pcs && u != t ensures !Conflict(Held(u, s.pcs[u], PoolMu), Shared) {
      hide Held, Fits;
      if Held(u, s.pcs[u], PoolMu).Some? {
        HoldsPool(u, s.pcs[u]);
      }
    }
    hide Held, Conflict, Fits;
  }

  // ---------------------------------------------------------------------------
  // The lock of the counters

  function Counting(s: State): set<Thread> {
    set u | u in s.pcs && Held(u, s.pcs[u], MetricsMu).Some?
  }

  function CallingBack(s: State): set<Thread> {
    set u | u in s.pcs && (s.pcs[u].Finishing? || s.pcs[u].Calling?)
  }

  predicate WantsCounters(pc: Pc) {
    pc == WantCount || pc.Received? || pc.Executed? || pc == WantReset || pc == WantRead
  }

  /** A holder of the lock that waits for nothing has a step, which releases the lock or
      ends a callback. */
  lemma CountingStep(pool: Pool, u: Thread, pc: Pc)
    requires Held(u, pc, MetricsMu).Some? && (pc.Finishing? ==> pool.lockFree)
    ensures Wanted(pc, pool.lockFree) == None && HasStep(pool, u, pc, false)
    ensures pc != Closed && pc != Admitted && !WantsCounters(pc)
    ensures var next := NextPc(pool, u, pc, false);
      !next.Finishing? && !next.Calling? && (Held(u, next, MetricsMu).Some? ==> pc.Finishing? || pc.Calling?)
  {
  }

  /** The flags are as before. */
  predicate SameFlags(pool: Pool, pool': Pool) {
    && pool'.lockFree == pool.lockFree && pool'.stopped == pool.stopped && pool'.cancelled == pool.cancelled
    && pool'.closed == pool.closed && pool'.workers == pool.workers && pool'.queue == pool.queue
  }

  lemma CountingKeeps(pool: Pool, u: Thread, pc: Pc)
    requires Held(u, pc, MetricsMu).Some?
    ensures SameFlags(pool, NextPool(pool, u, pc, Step(u, false, 0, 0)))
  {
  }

  /** The holders of the lock of the counters leave their sections. */
  lemma {:induction false} FreeCounters(s0: State, s: State, t: Thread) returns (s': State)
    requires Going(s0, s) && t in s.pcs && WantsCounters(s.pcs[t]) && !CallbackWaits(s)
    ensures Served(s0, s', t) && s'.pcs.Keys == s.pcs.Keys && SameFlags(s.pool, s'.pool) && !CallbackWaits(s')
    ensures forall u :: u in s.pcs && Held(u, s.pcs[u], MetricsMu) == None ==> s'.pcs[u] == s.pcs[u]
    decreases Counting(s), CallingBack(s)
  {
    hide Going, CanProceed, Held, WantsCounters, NextPc;
    if Counting(s) == {} {
      s' := s;
      NobodyCounts(s, t);
    } else {
      var u :| u in Counting(s);
      CountingStep(s.pool, u, s.pcs[u]);
      CountingKeeps(s.pool, u, s.pcs[u]);
      s' := Release(s0, s, u);
      CountingShrinks(s, s', u);
      assert Held(t, s.pcs[t], MetricsMu) == None by { WaiterHoldsNot(t, s.pcs[t]); }
      s' := FreeCounters(s0, s', t);
    }
  }

  lemma WaiterHoldsNot(t: Thread, pc: Pc)
    requires WantsCounters(pc)
    ensures Held(t, pc, MetricsMu) == None
  {
  }

  lemma CountingShrinks(s: State, s': State, u: Thread)
    requires u in Counting(s) && u in s'.pcs && s'.pcs == s.pcs[u := s'.pcs[u]]
    requires !s'.pcs[u].Finishing? && !s'.pcs[u].Calling?
    requires Held(u, s'.pcs[u], MetricsMu).Some? ==> s.pcs[u].Finishing? || s.pcs[u].Calling?
    ensures Counting(s') < Counting(s) || (Counting(s') == Counting(s) && CallingBack(s') < CallingBack(s))
  {
    hide Held;
    if Held(u, s'.pcs[u], MetricsMu).Some? {
      assert Counting(s') == Counting(s);
      assert CallingBack(s') == CallingBack(s) - {u} && u in CallingBack(s);
    } else {
      assert Counting(s') == Counting(s) - {u};
    }
  }

  lemma CountersWanted(pc: Pc, lockFree: bool)
    requires WantsCounters(pc)
    ensures Wanted(pc, lockFree).Some? && Wanted(pc, lockFree).value.0 == MetricsMu
  {
  }

  lemma NobodyCounts(s: State, t: Thread)
    requires Counting(s) == {} && t in s.pcs && WantsCounters(s.pcs[t])
    ensures CanProceed(s, t)
  {
    CountersWanted(s.pcs[t], s.pool.lockFree);
    hide Held, Wanted;
    forall u | u in s.pcs && u != t ensures Held(u, s.pcs[u], MetricsMu) == None {
      assert u !in Counting(s);
    }
  }

  // ---------------------------------------------------------------------------
  // The job lock

  /** The loop holds the job lock in a submission that it cannot end: it would meet the
      closed queue, or come to wait for the counters while a callback holds them. */
  ghost predicate LoopStuck(s: State) {
    Dispatcher in s.pcs &&
    match s.pcs[Dispatcher]
    case InPool => !s.pool.stopped && HasRoom(s.pool) && CallbackWaits(s)
    case Admitted => s.pool.closed || (HasRoom(s.pool) && CallbackWaits(s))
    case WantCount => CallbackWaits(s)
    case _ => false
  }

  predicate WantsJobs(pc: Pc, lockFree: bool) {
    pc == WantJobs || (pc.Finishing? && !lockFree)
  }

  /** The loop is at this place of its section, and another thread wants the job lock. */
  ghost predicate LoopAt(s0: State, s: State, t: Thread, pc: Pc) {
    && Going(s0, s) && t in s.pcs && t != Dispatcher && t != Stopper && WantsJobs(s.pcs[t], s.pool.lockFree)
    && Dispatcher in s.pcs && Stopper in s.pcs && s.pcs[Dispatcher] == pc
  }

  /** The thread is served, and threads that hold no lock and are not `Stop` have not moved. */
  ghost predicate Result(s0: State, s: State, s': State, t: Thread) {
    && Served(s0, s', t) && s'.pcs.Keys == s.pcs.Keys && s'.pcs[t] == s.pcs[t]
    && SameSettings(s, s')
    && forall u :: u in s.pcs && Bystander(s, u) ==> s'.pcs[u] == s.pcs[u]
  }

  predicate SameSettings(s: State, s': State) {
    s'.pool.lockFree == s.pool.lockFree && s'.pool.workers == s.pool.workers
  }

  ghost predicate Bystander(s: State, u: Thread) {
    u in s.pcs && u != Dispatcher && u != Stopper && forall lock :: Held(u, s.pcs[u], lock) == None
  }

  lemma JobsWanted(pc: Pc, lockFree: bool)
    requires WantsJobs(pc, lockFree)
    ensures Wanted(pc, lockFree) == Some((JobMu, Exclusive))
  {
  }

  /** A caller, a callback or the loop leaves its section of the job lock. */
  lemma LeaveSection(s0: State, s: State, t: Thread, u: Thread) returns (s': State)
    requires Going(s0, s) && t in s.pcs && u in s.pcs && u != t && WantsJobs(s.pcs[t], s.pool.lockFree)
    requires InJobSection(u, s.pcs[u])
    ensures Result(s0, s, s', t)
  {
    hide Going, CanProceed, Held, Wanted, HasStep, NextPc, NextPool, WantsJobs, InJobSection;
    Facts(s0, s);
    SectionStep(s.pool, u, s.pcs[u]);
    s' := Release(s0, s, u);
    NobodyElse(s, s', t, u);
    assert !Bystander(s, u);
  }

  predicate InJobSection(u: Thread, pc: Pc) {
    ((u.Client? || u == Dispatcher) && pc == InJobs) || pc.Calling?
  }

  lemma SectionStep(pool: Pool, u: Thread, pc: Pc)
    requires InJobSection(u, pc)
    ensures Wanted(pc, pool.lockFree) == None && HasStep(pool, u, pc, false) && pc != Closed && pc != Admitted
    ensures Held(u, pc, JobMu) == Some(Exclusive) && Held(u, NextPc(pool, u, pc, false), JobMu) == None
    ensures NextPool(pool, u, pc, Step(u, false, 0, 0)) == pool
  {
  }

  lemma NobodyElse(s: State, s': State, t: Thread, u: Thread)
    requires MutuallyExclusive(s) && u in s.pcs && Held(u, s.pcs[u], JobMu) == Some(Exclusive)
    requires u in s'.pcs && s'.pcs == s.pcs[u := s'.pcs[u]] && Held(u, s'.pcs[u], JobMu) == None
    requires t in s'.pcs && WantsJobs(s'.pcs[t], s'.pool.lockFree)
    ensures CanProceed(s', t)
  {
    JobsWanted(s'.pcs[t], s'.pool.lockFree);
    hide Held, Wanted, WantsJobs;
    forall v | v in s'.pcs && v != t ensures Held(v, s'.pcs[v], JobMu) == None {
      if v != u {
        assert !Blocks(s, v, JobMu, Exclusive);
      }
    }
  }

  /** A move of the loop to its next place. */
  lemma LoopGoes(s0: State, s: State, t: Thread, pc: Pc, next: Pc) returns (s': State)
    requires LoopAt(s0, s, t, pc) && CanProceed(s, Dispatcher) && HasStep(s.pool, Dispatcher, pc, false)
    requires pc != Closed && !(pc == Admitted && s.pool.closed) && next == NextPc(s.pool, Dispatcher, pc, false)
    ensures LoopAt(s0, s', t, next) && s'.pcs == s.pcs[Dispatcher := next]
    ensures s'.pool == NextPool(s.pool, Dispatcher, pc, Step(Dispatcher, false, 0, 0)) && SameSettings(s, s')
  {
    hide Going, CanProceed, HasStep, NextPc, NextPool, WantsJobs;
    s' := Take(s0, s, Dispatcher, false);
    T.SettingsAfter(s.pool, Step(Dispatcher, false, 0, 0), pc);
  }

  lemma ResultLater(s0: State, s: State, s1: State, s': State, t: Thread)
    requires Result(s0, s1, s', t) && s1.pcs.Keys == s.pcs.Keys && t in s.pcs && s1.pcs[t] == s.pcs[t] && SameSettings(s, s1)
    requires forall u :: u in s.pcs && Bystander(s, u) ==> s1.pcs[u] == s.pcs[u]
    ensures Result(s0, s, s', t)
  {
    hide Served, Held;
    forall u | u in s.pcs && Bystander(s, u) ensures s'.pcs[u] == s.pcs[u] {
      assert Bystander(s1, u);
    }
  }

  lemma InCountStep(s: State)
    requires Dispatcher in s.pcs && s.pcs[Dispatcher] == InCount
    ensures CanProceed(s, Dispatcher) && HasStep(s.pool, Dispatcher, InCount, false)
    ensures NextPc(s.pool, Dispatcher, InCount, false) == InJobs
  {
  }

  lemma LeaveInCount(s0: State, s: State, t: Thread) returns (s': State)
    requires LoopAt(s0, s, t, InCount)
    ensures Result(s0, s, s', t)
  {
    hide Going, CanProceed, HasStep, NextPc, NextPool, WantsJobs, Result, Bystander;
    InCountStep(s);
    LoopIsNoBystander(s);
    var s1 := LoopGoes(s0, s, t, InCount, InJobs);
    s' := LeaveSection(s0, s1, t, Dispatcher);
    ResultLater(s0, s, s1, s', t);
  }

  lemma LoopIsNoBystander(s: State)
    ensures !Bystander(s, Dispatcher) && !Bystander(s, Stopper)
  {
  }

  lemma WantCountStep(s: State)
    ensures HasStep(s.pool, Dispatcher, WantCount, false) && NextPc(s.pool, Dispatcher, WantCount, false) == InCount
    ensures WantsCounters(WantCount)
  {
  }

  lemma LeaveWantCount(s0: State, s: State, t: Thread) returns (s': State)
    requires LoopAt(s0, s, t, WantCount) && !CallbackWaits(s)
    ensures Result(s0, s, s', t)
  {
    hide Going, CanProceed, HasStep, NextPc, NextPool, WantsJobs, Result, Bystander, Held, CallbackWaits, WantsCounters;
    WantCountStep(s);
    assert Held(Dispatcher, WantCount, MetricsMu) == None by { WaiterHoldsNot(Dispatcher, WantCount); }
    var s1 := FreeCounters(s0, s, Dispatcher);
    OthersStayForCounters(s, s1, t);
    WantCountStep(s1);
    var s2 := LoopGoes(s0, s1, t, WantCount, InCount);
    LoopIsNoBystander(s);
    s' := LeaveInCount(s0, s2, t);
    ResultLater(s0, s, s2, s', t);
  }

  /** A thread that waits for the job lock, and bystanders, hold no lock of the counters. */
  lemma OthersStayForCounters(s: State, s1: State, t: Thread)
    requires t in s.pcs && WantsJobs(s.pcs[t], s.pool.lockFree) && !CallbackWaits(s) && s1.pcs.Keys == s.pcs.Keys
    requires forall u :: u in s.pcs && Held(u, s.pcs[u], MetricsMu) == None ==> s1.pcs[u] == s.pcs[u]
    ensures s1.pcs[t] == s.pcs[t] && forall u :: u in s.pcs && Bystander(s, u) ==> s1.pcs[u] == s.pcs[u]
  {
  }

  lemma AdmittedStep(s: State)
    requires Dispatcher in s.pcs && s.pcs[Dispatcher] == Admitted
    ensures CanProceed(s, Dispatcher) && HasStep(s.pool, Dispatcher, Admitted, false)
    ensures NextPc(s.pool, Dispatcher, Admitted, false) == if HasRoom(s.pool) then WantCount else InJobs
  {
  }

  lemma SameCallbacks(s: State, s': State, next: Pc)
    requires Dispatcher in s.pcs && !s.pcs[Dispatcher].Finishing? && s'.pcs == s.pcs[Dispatcher := next] && !next.Finishing?
    requires SameSettings(s, s')
    ensures CallbackWaits(s') == CallbackWaits(s)
  {
    if t :| t in s.pcs && s.pcs[t].Finishing? {
      assert s'.pcs[t].Finishing?;
    }
    if t :| t in s'.pcs && s'.pcs[t].Finishing? {
      assert s.pcs[t].Finishing?;
    }
  }

  lemma LeaveAdmitted(s0: State, s: State, t: Thread) returns (s': State)
    requires LoopAt(s0, s, t, Admitted) && !LoopStuck(s)
    ensures Result(s0, s, s', t)
  {
    hide Going, CanProceed, HasStep, NextPc, NextPool, WantsJobs, Result, Bystander, CallbackWaits;
    AdmittedStep(s);
    LoopIsNoBystander(s);
    var room := HasRoom(s.pool);
    var s1 := LoopGoes(s0, s, t, Admitted, if room then WantCount else InJobs);
    if room {
      SameCallbacks(s, s1, WantCount);
      s' := LeaveWantCount(s0, s1, t);
    } else {
      s' := LeaveSection(s0, s1, t, Dispatcher);
    }
    ResultLater(s0, s, s1, s', t);
  }

  lemma InPoolStep(s: State)
    requires Dispatcher in s.pcs && s.pcs[Dispatcher] == InPool
    ensures CanProceed(s, Dispatcher) && HasStep(s.pool, Dispatcher, InPool, false)
    ensures NextPc(s.pool, Dispatcher, InPool, false) == if s.pool.stopped then InJobs else Admitted
    ensures NextPool(s.pool, Dispatcher, InPool, Step(Dispatcher, false, 0, 0)) == s.pool
  {
  }

  lemma LeaveInPool(s0: State, s: State, t: Thread) returns (s': State)
    requires LoopAt(s0, s, t, InPool) && !LoopStuck(s)
    ensures Result(s0, s, s', t)
  {
    hide Going, CanProceed, HasStep, NextPc, NextPool, WantsJobs, Result, Bystander, CallbackWaits;
    OpenUnlessStopped(s0, s);
    InPoolStep(s);
    LoopIsNoBystander(s);
    var s1 := LoopGoes(s0, s, t, InPool, if s.pool.stopped then InJobs else Admitted);
    if s.pool.stopped {
      s' := LeaveSection(s0, s1, t, Dispatcher);
    } else {
      SameCallbacks(s, s1, Admitted);
      s' := LeaveAdmitted(s0, s1, t);
    }
    ResultLater(s0, s, s1, s', t);
  }

  lemma OpenUnlessStopped(s0: State, s: State)
    requires Going(s0, s)
    ensures s.pool.closed ==> s.pool.stopped
    ensures Stopper in s.pcs && (!s.pool.stopped <==> s.pcs[Stopper] == Idle || s.pcs[Stopper] == WantStop)
  {
    Facts(s0, s);
    hide Going;
    assert Fits(Stopper, s.pcs[Stopper]);
  }

  lemma WantPoolStep(s: State)
    ensures HasStep(s.pool, Dispatcher, WantPool, false) && NextPc(s.pool, Dispatcher, WantPool, false) == InPool
    ensures NextPool(s.pool, Dispatcher, WantPool, Step(Dispatcher, false, 0, 0)) == s.pool
  {
  }

  /** The loop comes to the test of the flag, which it passes or fails. */
  lemma LeaveWantPoolNow(s0: State, s: State, t: Thread) returns (s': State)
    requires LoopAt(s0, s, t, WantPool) && (s.pool.stopped || !CallbackWaits(s))
    ensures Result(s0, s, s', t)
  {
    hide Going, CanProceed, HasStep, NextPc, NextPool, WantsJobs, Result, Bystander, CallbackWaits;
    WantPoolStep(s);
    var s1 := FreeTest(s0, s, Dispatcher);
    CallbacksElsewhere(s0, s, s1);
    LoopIsNoBystander(s);
    var s2 := LoopGoes(s0, s1, t, WantPool, InPool);
    SameCallbacks(s1, s2, InPool);
    s' := LeaveInPool(s0, s2, t);
    ResultLater(s0, s, s2, s', t);
  }

  lemma CallbacksElsewhere(s0: State, s: State, s': State)
    requires Going(s0, s') && s'.pcs.Keys == s.pcs.Keys && SameSettings(s, s')
    requires forall u :: u in s.pcs && u != Stopper ==> s'.pcs[u] == s.pcs[u]
    ensures CallbackWaits(s') ==> CallbackWaits(s)
  {
    Facts(s0, s');
    hide Going;
    if CallbackWaits(s') {
      var u :| u in s'.pcs && s'.pcs[u].Finishing?;
      assert Fits(u, s'.pcs[u]);
      assert s.pcs[u].Finishing?;
    }
  }

  // ---------------------------------------------------------------------------
  // The loop gives way to Stop

  lemma StopArrives(s: State)
    requires Stopper in s.pcs && s.pcs[Stopper] == Idle
    ensures CanProceed(s, Stopper) && HasStep(s.pool, Stopper, Idle, false)
    ensures NextPc(s.pool, Stopper, Idle, false) == WantStop
    ensures NextPool(s.pool, Stopper, Idle, Step(Stopper, false, 0, 0)) == s.pool
  {
  }

  lemma StopSets(s: State)
    ensures HasStep(s.pool, Stopper, WantStop, false) && NextPc(s.pool, Stopper, WantStop, false) == InStop
    ensures NextPool(s.pool, Stopper, WantStop, Step(Stopper, false, 0, 0)) == s.pool.(stopped := true)
  {
  }

  /** `Stop` sets the flag. */
  lemma SetFlag(s0: State, s: State) returns (s': State)
    requires Going(s0, s) && Stopper in s.pcs && (s.pcs[Stopper] == Idle || s.pcs[Stopper] == WantStop)
    ensures Going(s0, s') && s'.pool == s.pool.(stopped := true) && s'.pcs.Keys == s.pcs.Keys
    ensures s'.pcs[Stopper] == InStop
    ensures forall u :: u in s.pcs && u != Stopper && s.pcs[u] != InPool ==> s'.pcs[u] == s.pcs[u]
  {
    hide Going, CanProceed, HasStep, NextPc, NextPool;
    s' := s;
    if s.pcs[Stopper] == Idle {
      StopArrives(s);
      s' := Take(s0, s, Stopper, false);
    }
    StopSets(s');
    s' := FreePool(s0, s');
    s' := Take(s0, s', Stopper, false);
  }

  lemma TesterIsNoBystander(s: State, u: Thread)
    requires Bystander(s, u)
    ensures s.pcs[u] != InPool
  {
    assert Held(u, s.pcs[u], PoolMu) == None;
  }

  lemma SameWaiters(s: State, s': State)
    requires forall u :: u in s.pcs && u != Stopper && s.pcs[u] != InPool ==> u in s'.pcs && s'.pcs[u] == s.pcs[u]
    ensures forall u :: u in s.pcs && Bystander(s, u) ==> u in s'.pcs && s'.pcs[u] == s.pcs[u]
  {
    forall u | u in s.pcs && Bystander(s, u) ensures u in s'.pcs && s'.pcs[u] == s.pcs[u] {
      TesterIsNoBystander(s, u);
      assert u != Stopper;
    }
  }

  lemma LeaveWantPool(s0: State, s: State, t: Thread) returns (s': State)
    requires LoopAt(s0, s, t, WantPool)
    ensures Result(s0, s, s', t)
  {
    hide Going, CanProceed, HasStep, NextPc, NextPool, Result, Bystander, CallbackWaits;
    if s.pool.stopped || !CallbackWaits(s) {
      s' := LeaveWantPoolNow(s0, s, t);
    } else {
      OpenUnlessStopped(s0, s);
      var s1 := SetFlag(s0, s);
      SameWaiters(s, s1);
      s' := LeaveWantPoolNow(s0, s1, t);
      ResultLater(s0, s, s1, s', t);
    }
  }

  // ---------------------------------------------------------------------------
  // The job lock is freed

  /** One thread at most holds the job lock. */
  lemma JobHolder(s: State, u: Thread)
    requires AllFit(s) && u in s.pcs && Held(u, s.pcs[u], JobMu).Some?
    ensures (u.Client? && s.pcs[u] == InJobs) || s.pcs[u].Calling?
            || (u == Dispatcher && (s.pcs[u] == InJobs || InSubmit(s.pcs[u])))
    ensures Held(u, s.pcs[u], JobMu) == Some(Exclusive)
  {
    assert Fits(u, s.pcs[u]);
  }

  lemma NobodyHoldsJobs(s: State, t: Thread)
    requires t in s.pcs && WantsJobs(s.pcs[t], s.pool.lockFree)
    requires forall u :: u in s.pcs && u != t ==> Held(u, s.pcs[u], JobMu) == None
    ensures CanProceed(s, t)
  {
    JobsWanted(s.pcs[t], s.pool.lockFree);
    hide Held, Wanted, WantsJobs;
  }

  /** Whoever waits for the job lock gets it unless the loop is stuck in its section. */
  lemma FreeJobs(s0: State, s: State, t: Thread) returns (s': State)
    requires Going(s0, s) && t in s.pcs && WantsJobs(s.pcs[t], s.pool.lockFree) && !LoopStuck(s)
    ensures Result(s0, s, s', t)
  {
    hide Going, CanProceed, Held, Result, LoopStuck;
    Facts(s0, s);
    if u :| u in s.pcs && u != t && Held(u, s.pcs[u], JobMu).Some? {
      JobHolder(s, u);
      if u == Dispatcher {
        s' := LoopLeaves(s0, s, t);
      } else {
        s' := LeaveSection(s0, s, t, u);
      }
    } else {
      s' := s;
      NobodyHoldsJobs(s, t);
      SameResult(s0, s, t);
    }
  }

  lemma SameResult(s0: State, s: State, t: Thread)
    requires Served(s0, s, t)
    ensures Result(s0, s, s, t)
  {
  }

  lemma WaiterIsNotStop(s0: State, s: State, t: Thread)
    requires Going(s0, s) && t in s.pcs && WantsJobs(s.pcs[t], s.pool.lockFree)
    ensures t != Stopper && Stopper in s.pcs
  {
    Facts(s0, s);
    hide Going;
    assert Fits(t, s.pcs[t]);
  }

  lemma LoopLeaves(s0: State, s: State, t: Thread) returns (s': State)
    requires Going(s0, s) && t in s.pcs && t != Dispatcher && WantsJobs(s.pcs[t], s.pool.lockFree) && !LoopStuck(s)
    requires Dispatcher in s.pcs && (s.pcs[Dispatcher] == InJobs || InSubmit(s.pcs[Dispatcher]))
    ensures Result(s0, s, s', t)
  {
    hide Going, Result, WantsJobs;
    WaiterIsNotStop(s0, s, t);
    match s.pcs[Dispatcher]
    case InJobs => s' := LeaveSection(s0, s, t, Dispatcher);
    case WantPool => s' := LeaveWantPool(s0, s, t);
    case InPool => s' := LeaveInPool(s0, s, t);
    case Admitted => s' := LeaveAdmitted(s0, s, t);
    case WantCount => s' := LeaveWantCount(s0, s, t);
    case InCount => s' := LeaveInCount(s0, s, t);
  }

  // ---------------------------------------------------------------------------
  // Who can be served

  /** The thread waits for the job lock, or for the counters behind a callback that waits for
      the job lock, while the loop cannot leave its section. */
  ghost predicate Hopeless(s: State, t: Thread)
    requires t in s.pcs
  {
    LoopStuck(s) && (WantsJobs(s.pcs[t], s.pool.lockFree) || (WantsCounters(s.pcs[t]) && CallbackWaits(s)))
  }

  /** Some continuation lets the thread take its step. */
  ghost predicate CanBeServed(s: State, t: Thread) {
    exists s' :: ServedLater(s, s', t)
  }

  ghost predicate ServedLater(s: State, s': State, t: Thread) {
    Continues(s, s') && !s'.pool.panicked && t in s.pcs && t in s'.pcs && s'.pcs[t] == s.pcs[t] && CanProceed(s', t)
  }

  lemma WantedPlaces(pc: Pc, lockFree: bool)
    requires Wanted(pc, lockFree).Some?
    ensures pc == WantStop || pc == WantPool || WantsJobs(pc, lockFree) || WantsCounters(pc)
  {
  }

  lemma WaiterIsBystander(s: State, t: Thread)
    requires t in s.pcs && Fits(t, s.pcs[t]) && WantsCounters(s.pcs[t]) && t != Dispatcher
    ensures Bystander(s, t)
  {
  }

  lemma CallbackDone(s: State, s': State, t: Thread, w: Thread)
    requires MutuallyExclusive(s) && w in s.pcs && Held(w, s.pcs[w], MetricsMu) == Some(Exclusive)
    requires s'.pcs == s.pcs[w := Idle] && t in s'.pcs && WantsCounters(s'.pcs[t])
    ensures CanProceed(s', t)
  {
    CountersWanted(s'.pcs[t], s'.pool.lockFree);
    assert Held(w, Idle, MetricsMu) == None;
    hide Held, Wanted;
    forall v | v in s'.pcs && v != t ensures Held(v, s'.pcs[v], MetricsMu) == None {
      if v != w {
        assert !Blocks(s, v, MetricsMu, Exclusive);
      }
    }
  }

  /** A callback that can take the job lock goes through, and frees the counters. */
  lemma CallbackGoesThrough(s0: State, s: State, t: Thread, w: Thread) returns (s': State)
    requires Served(s0, s, w) && s.pcs[w].Finishing? && !s.pool.lockFree
    requires t in s.pcs && t != w && WantsCounters(s.pcs[t])
    ensures Served(s0, s', t) && s'.pcs[t] == s.pcs[t]
  {
    hide Going, CanProceed, WantsCounters, Held, Wanted, NextPool, NextPc, HasStep;
    CallbackPlaces(s.pool, w, s.pcs[w]);
    var s1 := Take(s0, s, w, false);
    T.SettingsAfter(s.pool, Step(w, false, 0, 0), s.pcs[w]);
    CallbackPlaces(s1.pool, w, s1.pcs[w]);
    var s2 := Release(s0, s1, w);
    CallbackPlaces(s2.pool, w, s2.pcs[w]);
    s' := Release(s0, s2, w);
    Facts(s0, s2);
    CallbackDone(s2, s', t, w);
  }

  lemma CallbackPlaces(pool: Pool, w: Thread, pc: Pc)
    requires pc.Finishing? || pc.Calling? || pc.CalledBack?
    ensures HasStep(pool, w, pc, false) && (!pc.Finishing? ==> Wanted(pc, pool.lockFree) == None)
    ensures Held(w, pc, MetricsMu) == Some(Exclusive)
    ensures var next := NextPc(pool, w, pc, false);
      && (pc.Finishing? && !pool.lockFree ==> next.Calling?) && (pc.Calling? ==> next.CalledBack?)
      && (pc.CalledBack? ==> next == Idle)
  {
  }

  lemma ServeCounters(s0: State, s: State, t: Thread) returns (s': State)
    requires Going(s0, s) && t in s.pcs && WantsCounters(s.pcs[t]) && !(LoopStuck(s) && CallbackWaits(s))
    ensures Served(s0, s', t) && s'.pcs[t] == s.pcs[t]
  {
    hide Going, CanProceed, WantsCounters, Held, Wanted;
    WaiterHoldsNot(t, s.pcs[t]);
    if !CallbackWaits(s) {
      s' := FreeCounters(s0, s, t);
    } else {
      var w :| w in s.pcs && s.pcs[w].Finishing?;
      Facts(s0, s);
      assert WantsCounters(WantCount) && (s.pcs[t] == WantCount || t != Dispatcher) by { LoopWaiter(s, t); }
      WaiterIsBystander(s, t);
      FinisherWaits(s.pcs[t], s.pcs[w]);
      var s1 := FreeJobs(s0, s, w);
      s' := CallbackGoesThrough(s0, s1, t, w);
    }
  }

  lemma LoopWaiter(s: State, t: Thread)
    requires t in s.pcs && Fits(t, s.pcs[t]) && WantsCounters(s.pcs[t])
    ensures WantsCounters(WantCount) && (t == Dispatcher ==> s.pcs[t] == WantCount)
  {
  }

  lemma FinisherWaits(pc: Pc, pc2: Pc)
    requires WantsCounters(pc) && pc2.Finishing?
    ensures pc != pc2
  {
  }

  lemma Serve(s: State, t: Thread) returns (s': State)
    requires Reachable(s) && !s.pool.panicked && t in s.pcs && Wanted(s.pcs[t], s.pool.lockFree).Some? && !Hopeless(s, t)
    ensures ServedLater(s, s', t)
  {
    assert Going(s, s) by {
      T.ReachableInv(s);
      ContinuesHere(s);
    }
    hide Reachable, CanProceed, Wanted, Fits, LoopStuck, CallbackWaits, WantsCounters, WantsJobs, Held, Going;
    WantedPlaces(s.pcs[t], s.pool.lockFree);
    Facts(s, s);
    if s.pcs[t] == WantStop {
      OnlyStopWantsIt(s, t);
      s' := FreePool(s, s);
    } else if s.pcs[t] == WantPool {
      OnlyStopWantsIt(s, t);
      s' := FreeTest(s, s, t);
    } else if WantsJobs(s.pcs[t], s.pool.lockFree) {
      s' := FreeJobs(s, s, t);
    } else {
      s' := ServeCounters(s, s, t);
    }
    GoingOn(s, s');
  }

  lemma GoingOn(s: State, s': State)
    requires Going(s, s')
    ensures Continues(s, s') && !s'.pool.panicked
  {
  }

  lemma OnlyStopWantsIt(s: State, t: Thread)
    requires AllFit(s) && t in s.pcs
    ensures s.pcs[t] == WantStop ==> t == Stopper
    ensures s.pcs[t] == WantPool ==> t != Stopper
  {
    assert Fits(t, s.pcs[t]);
  }

  // ---------------------------------------------------------------------------
  // Who is never served

  /** The loop is stuck, and only the loop submits. */
  ghost predicate StuckForGood(s: State, waits: bool) {
    && LoopStuck(s) && !s.pool.panicked && T.Inv(s) && (forall t :: t in s.pcs ==> !t.Submitter?)
    && (waits ==> CallbackWaits(s))
  }

  lemma LoopHoldsJobs(s: State)
    requires LoopStuck(s)
    ensures Held(Dispatcher, s.pcs[Dispatcher], JobMu) == Some(Exclusive)
    ensures s.pcs[Dispatcher] == InPool ==> Held(Dispatcher, s.pcs[Dispatcher], PoolMu) == Some(Shared)
  {
  }

  /** A callback that waits does not get the job lock from the loop. */
  lemma CallbackStays(s: State, step: Step)
    requires LoopStuck(s) && Enabled(s, step) && CallbackWaits(s)
    ensures CallbackWaits(Apply(s, step))
  {
    LoopHoldsJobs(s);
    hide NextPc, NextPool, HasStep, WorkersExited, Held, LoopStuck;
    var w :| w in s.pcs && s.pcs[w].Finishing?;
    FinishingWants(s.pcs[w]);
    assert w == step.thread ==> !Blocks(s, Dispatcher, JobMu, Exclusive);
    T.SettingsAfter(s.pool, step, s.pcs[step.thread]);
    assert Apply(s, step).pcs[w].Finishing?;
  }

  /** The loop itself does not get out. */
  lemma LoopStaysStuck(s: State, step: Step)
    requires LoopStuck(s) && Enabled(s, step) && step.thread == Dispatcher
    ensures LoopStuck(Apply(s, step)) || Apply(s, step).pool.panicked
  {
    if CallbackWaits(s) {
      CallbackStays(s, step);
      hide CallbackWaits;
      if s.pcs[Dispatcher] == WantCount {
        CallbackBlocksCount(s);
      }
    }
  }

  lemma CallbackBlocksCount(s: State)
    requires CallbackWaits(s) && Dispatcher in s.pcs && s.pcs[Dispatcher] == WantCount
    ensures !CanProceed(s, Dispatcher)
  {
    var w :| w in s.pcs && s.pcs[w].Finishing?;
    assert Held(w, s.pcs[w], MetricsMu) == Some(Exclusive);
    assert Blocks(s, w, MetricsMu, Exclusive);
  }

  /** The other threads do not help. */
  lemma OthersLeaveItStuck(s: State, step: Step)
    requires LoopStuck(s) && Enabled(s, step) && step.thread != Dispatcher && !step.thread.Submitter? && AllFit(s)
    ensures LoopStuck(Apply(s, step))
  {
    LoopHoldsJobs(s);
    if CallbackWaits(s) {
      CallbackStays(s, step);
    }
    var pc := s.pcs[step.thread];
    assert Fits(step.thread, pc);
    assert pc == WantStop ==> !Blocks(s, Dispatcher, PoolMu, Exclusive);
    hide CallbackWaits, CanProceed, NextPc, Held, WorkersExited, HasStep, Fits;
    OtherPool(s.pool, step, pc);
  }

  lemma OtherPool(pool: Pool, step: Step, pc: Pc)
    requires pc != Admitted
    ensures var next := NextPool(pool, step.thread, pc, step);
      && next.workers == pool.workers && |next.queue| <= |pool.queue| && (pool.closed ==> next.closed)
      && (pc != WantStop ==> next.stopped == pool.stopped)
  {
    T.SettingsAfter(pool, step, pc);
  }

  lemma StuckStep(s: State, step: Step, waits: bool)
    requires StuckForGood(s, waits) && Enabled(s, step)
    ensures StuckForGood(Apply(s, step), waits) || Apply(s, step).pool.panicked
  {
    hide T.Inv, Apply, Enabled, LoopStuck, CallbackWaits;
    T.StepInv(s, step);
    SameThreads(s, step);
    if waits {
      CallbackStays(s, step);
    }
    if step.thread == Dispatcher {
      LoopStaysStuck(s, step);
    } else {
      assert AllFit(s) by { FitsInv(s); }
      OthersLeaveItStuck(s, step);
    }
  }

  lemma FitsInv(s: State)
    requires T.Inv(s)
    ensures AllFit(s)
  {
  }

  lemma SameThreads(s: State, step: Step)
    requires Enabled(s, step)
    ensures Apply(s, step).pcs.Keys == s.pcs.Keys && step.thread in s.pcs
  {
    hide NextPc, NextPool, CanProceed, HasStep, WorkersExited;
  }

  lemma PanickedStops(s: State, steps: seq<Step>, t: State)
    requires Run(s, steps, t) && s.pool.panicked
    ensures t == s
  {
  }

  lemma {:induction false} StuckRun(s: State, steps: seq<Step>, t: State, waits: bool)
    requires StuckForGood(s, waits) && Run(s, steps, t)
    ensures StuckForGood(t, waits) || t.pool.panicked
    decreases |steps|
  {
    hide StuckForGood, Enabled, Apply;
    if steps != [] {
      StuckStep(s, steps[0], waits);
      var s1 := Apply(s, steps[0]);
      if s1.pool.panicked {
        PanickedStops(s1, steps[1..], t);
      } else {
        StuckRun(s1, steps[1..], t, waits);
      }
    }
  }

  /** In a state like this neither the job lock nor the counters can be had. */
  lemma NotServed(s: State, t: Thread, waits: bool)
    requires StuckForGood(s, waits) && t in s.pcs
    requires WantsJobs(s.pcs[t], s.pool.lockFree) || (WantsCounters(s.pcs[t]) && waits)
    ensures !CanProceed(s, t)
  {
    hide CanProceed, LoopStuck, CallbackWaits, T.Inv, WantsJobs, WantsCounters;
    if WantsJobs(s.pcs[t], s.pool.lockFree) {
      JobsNotServed(s, t);
    } else {
      CountersNotServed(s, t);
    }
  }

  lemma JobsNotServed(s: State, t: Thread)
    requires LoopStuck(s) && t in s.pcs && WantsJobs(s.pcs[t], s.pool.lockFree)
    ensures !CanProceed(s, t)
  {
    LoopHoldsJobs(s);
    JobsWanted(s.pcs[t], s.pool.lockFree);
    assert t != Dispatcher;
    hide Held, Wanted, LoopStuck, CallbackWaits;
    assert Blocks(s, Dispatcher, JobMu, Exclusive);
  }

  lemma CountersNotServed(s: State, t: Thread)
    requires CallbackWaits(s) && t in s.pcs && WantsCounters(s.pcs[t])
    ensures !CanProceed(s, t)
  {
    var w :| w in s.pcs && s.pcs[w].Finishing?;
    CallbackPlaces(s.pool, w, s.pcs[w]);
    CountersWanted(s.pcs[t], s.pool.lockFree);
    FinisherWaits(s.pcs[t], s.pcs[w]);
    hide Held, Wanted;
    assert Blocks(s, w, MetricsMu, Wanted(s.pcs[t], s.pool.lockFree).value.1);
  }

  lemma HopelessIsNeverServed(s: State, s': State, t: Thread)
    requires Reachable(s) && !s.pool.panicked && t in s.pcs && (forall u :: u in s.pcs ==> !u.Submitter?)
    requires Hopeless(s, t)
    ensures !ServedLater(s, s', t)
  {
    hide Reachable, CanProceed, LoopStuck, CallbackWaits, T.Inv;
    T.ReachableInv(s);
    if ServedLater(s, s', t) {
      var steps :| Run(s, steps, s');
      StuckRun(s, steps, s', CallbackWaits(s));
      LockFreeStays(s, steps, s');
      NotServed(s', t, CallbackWaits(s));
    }
  }

  lemma {:induction false} LockFreeStays(s: State, steps: seq<Step>, t: State)
    requires Run(s, steps, t)
    ensures t.pool.lockFree == s.pool.lockFree
    decreases |steps|
  {
    if steps != [] {
      hide CanProceed, HasStep, WorkersExited, NextPc, NextPool;
      T.SettingsAfter(s.pool, steps[0], s.pcs[steps[0].thread]);
      LockFreeStays(Apply(s, steps[0]), steps[1..], t);
    }
  }

  /** A thread that waits for a lock, in a state without a panic, is served by some
      continuation if and only if it is not hopeless. */
  lemma WaitersAreServedExactly(s: State, t: Thread)
    requires Reachable(s) && !s.pool.panicked && t in s.pcs && Wanted(s.pcs[t], s.pool.lockFree).Some?
    requires forall u :: u in s.pcs ==> !u.Submitter?
    ensures CanBeServed(s, t) <==> !Hopeless(s, t)
  {
    hide Reachable, ServedLater, Hopeless, Wanted;
    if Hopeless(s, t) {
      forall s' ensures !ServedLater(s, s', t) {
        HopelessIsNeverServed(s, s', t);
      }
    } else {
      var s' := Serve(s, t);
    }
  }

  /** The loop comes to its send while the worker waits for the job lock. */
  lemma SendBehindCallback(s: State) returns (s': State)
    requires Reachable(s) && OnlyTwo(s, Dispatcher, Worker(0)) && s.pcs[Dispatcher] == InJobs && s.pcs[Worker(0)].Finishing?
    requires !s.pool.stopped
    ensures Reachable(s') && OnlyTwo(s', Dispatcher, Worker(0)) && s'.pool == s.pool
    ensures s'.pcs[Dispatcher] == Admitted && s'.pcs[Worker(0)] == s.pcs[Worker(0)]
  {
    hide Reachable, OnlyTwo, Held;
    OnlyTwoKnown(s, Dispatcher, Worker(0));
    FinisherHoldsNoPool(s.pcs[Worker(0)]);
    s' := AdvanceQuietly(s, Dispatcher, Worker(0), true);
    OnlyTwoKnown(s', Dispatcher, Worker(0));
    s' := AdvanceQuietly(s', Dispatcher, Worker(0), true);
    OnlyTwoKnown(s', Dispatcher, Worker(0));
    s' := AdvanceQuietly(s', Dispatcher, Worker(0), true);
    OnlyTwoKnown(s', Dispatcher, Worker(0));
  }

  lemma FinisherHoldsNoPool(pc: Pc)
    requires pc.Finishing?
    ensures Held(Worker(0), pc, PoolMu) == None
  {
  }

  /** Waiting is hopeless already before there is a circle: the loop has passed the test of
      the flag and will wait for the counters that the worker holds. */
  lemma HopelessWithoutCircle(start: State) returns (s: State)
    requires IsStart(start) && !start.pool.lockFree
    ensures Reachable(s) && !s.pool.panicked && (forall n :: !DeadlockPair(s, n))
    ensures Worker(0) in s.pcs && Hopeless(s, Worker(0))
  {
    hide Reachable, OnlyTwo, Held;
    var counted := FirstTaskCounted(start);
    OnlyTwoKnown(counted, Dispatcher, Worker(0));
    s := SendBehindCallback(counted);
    OnlyTwoKnown(s, Dispatcher, Worker(0));
    OnlyTwoAlive(s);
    assert CallbackWaits(s);
  }

  lemma OnlyTwoAlive(s: State)
    requires OnlyTwo(s, Dispatcher, Worker(0))
    ensures !s.pool.panicked
  {
  }

  // ---------------------------------------------------------------------------
  // Stop can return

  /** A worker moves on; the ended workers and `Stop` do not. */
  ghost predicate WorkerMoved(s: State, s': State, w: Thread) {
    && s'.pcs.Keys == s.pcs.Keys && s'.pool.cancelled == s.pool.cancelled && s'.pool.lockFree == s.pool.lockFree
    && s'.pool.workers == s.pool.workers
    && forall u :: u in s.pcs && u != w && (s.pcs[u] == Exited || s.pcs[u] == Closed) ==> s'.pcs[u] == s.pcs[u]
  }

  lemma FreeForWorker(s0: State, s: State, w: Thread) returns (s': State)
    requires Going(s0, s) && w in s.pcs && s.pool.lockFree && (s.pcs[w].Received? || s.pcs[w].Executed?)
    ensures Served(s0, s', w) && s'.pcs[w] == s.pcs[w] && WorkerMoved(s, s', w)
  {
    hide Going, CanProceed;
    s' := FreeCounters(s0, s, w);
    EndedHoldNothing();
    hide Held;
  }

  lemma EndedHoldNothing()
    ensures forall u :: Held(u, Exited, MetricsMu) == None && Held(u, Closed, MetricsMu) == None
  {
  }

  /** How far a worker is from its end. */
  function MovesLeft(pc: Pc): nat {
    match pc
    case Received(_) => 8
    case Starting(_) => 7
    case Executing(_) => 6
    case Executed(_, _) => 5
    case Finishing(_, _) => 4
    case Calling(_, _) => 3
    case CalledBack(_, _) => 2
    case Idle => 1
    case _ => 0
  }

  lemma WorkerStep(pool: Pool, w: Thread, pc: Pc)
    requires w.Worker? && Fits(w, pc) && pool.cancelled && pool.lockFree && pc != Exited
    ensures HasStep(pool, w, pc, false) && pc != Closed && pc != Admitted
    ensures Wanted(pc, pool.lockFree) == None || pc.Received? || pc.Executed?
    ensures var next := NextPc(pool, w, pc, false);
      MovesLeft(next) < MovesLeft(pc) && (next == Exited || 0 < MovesLeft(next))
    ensures var next := NextPool(pool, w, pc, Step(w, false, 0, 0));
      next.cancelled == pool.cancelled && next.lockFree == pool.lockFree
  {
  }

  lemma MovedOn(s: State, s1: State, s2: State, w: Thread)
    requires WorkerMoved(s, s1, w) && WorkerMoved(s1, s2, w)
    ensures WorkerMoved(s, s2, w)
  {
  }

  /** The worker makes its next move. */
  lemma WorkerMoves(s0: State, s: State, w: Thread) returns (s': State)
    requires Going(s0, s) && w in s.pcs && w.Worker? && s.pool.cancelled && s.pool.lockFree && s.pcs[w] != Exited
    ensures Going(s0, s') && WorkerMoved(s, s', w) && MovesLeft(s'.pcs[w]) < MovesLeft(s.pcs[w])
  {
    hide Going, CanProceed, Held, Wanted, HasStep, NextPc, NextPool, Fits, MovesLeft;
    Facts(s0, s);
    WorkerStep(s.pool, w, s.pcs[w]);
    var s1 := s;
    if s.pcs[w].Received? || s.pcs[w].Executed? {
      s1 := FreeForWorker(s0, s, w);
    } else {
      FreeThread(s, w);
    }
    WorkerStep(s1.pool, w, s1.pcs[w]);
    s' := Take(s0, s1, w, false);
    T.SettingsAfter(s1.pool, Step(w, false, 0, 0), s1.pcs[w]);
  }

  /** After the cancellation a worker finishes its task and ends. */
  lemma {:induction false} WorkerEnds(s0: State, s: State, w: Thread) returns (s': State)
    requires Going(s0, s) && w in s.pcs && w.Worker? && s.pool.cancelled && s.pool.lockFree
    ensures Going(s0, s') && WorkerMoved(s, s', w) && s'.pcs[w] == Exited
    decreases MovesLeft(s.pcs[w])
  {
    hide Going, MovesLeft;
    if s.pcs[w] == Exited {
      return s;
    }
    var s1 := WorkerMoves(s0, s, w);
    s' := WorkerEnds(s0, s1, w);
    MovedOn(s, s1, s', w);
  }

  lemma FreeThread(s: State, t: Thread)
    requires t in s.pcs && Wanted(s.pcs[t], s.pool.lockFree) == None
    ensures CanProceed(s, t)
  {
  }

  lemma {:induction false} WorkersEnd(s0: State, s: State, n: nat) returns (s': State)
    requires Going(s0, s) && s.pool.cancelled && s.pool.lockFree && Stopper in s.pcs && s.pcs[Stopper] == Closed
    requires forall k: nat :: n <= k && Worker(k) in s.pcs ==> s.pcs[Worker(k)] == Exited
    ensures Going(s0, s') && Stopper in s'.pcs && s'.pcs[Stopper] == Closed && WorkersExited(s')
    decreases n
  {
    hide Going;
    if n == 0 {
      return s;
    }
    var w := Worker(n - 1);
    if w in s.pcs {
      var s1 := WorkerEnds(s0, s, w);
      s' := WorkersEnd(s0, s1, n - 1);
    } else {
      s' := WorkersEnd(s0, s, n - 1);
    }
  }

  lemma CrewOnly(s0: State, s: State)
    requires Going(s0, s)
    ensures forall k: nat :: s.pool.workers <= k ==> Worker(k) !in s.pcs
  {
  }

  lemma ClosingStep(s: State)
    requires Stopper in s.pcs && (s.pcs[Stopper] == InStop || s.pcs[Stopper] == Flagged || s.pcs[Stopper] == Cancelled)
    ensures CanProceed(s, Stopper) && HasStep(s.pool, Stopper, s.pcs[Stopper], false)
    ensures NextPc(s.pool, Stopper, s.pcs[Stopper], false)
            == if s.pcs[Stopper] == InStop then Flagged else if s.pcs[Stopper] == Flagged then Cancelled else Closed
  {
  }

  /** `Stop` cancels and closes. */
  lemma {:induction false} CloseQueue(s0: State, s: State) returns (s': State)
    requires Going(s0, s) && Stopper in s.pcs && s.pcs[Stopper] != Returned && s.pool.lockFree
    ensures Going(s0, s') && Stopper in s'.pcs && s'.pcs[Stopper] == Closed && s'.pool.lockFree
    decreases if s.pcs[Stopper] == Closed then 0 else if s.pool.stopped then T.StepsToClose(s.pcs[Stopper]) else 4
  {
    hide Going, CanProceed, HasStep, NextPc, NextPool, Fits;
    OpenUnlessStopped(s0, s);
    StopPlaces(s0, s);
    if s.pcs[Stopper] == Closed {
      return s;
    }
    var s1 := s;
    if !s.pool.stopped {
      s1 := SetFlag(s0, s);
    } else {
      ClosingStep(s);
      s1 := Take(s0, s, Stopper, false);
      T.SettingsAfter(s.pool, Step(Stopper, false, 0, 0), s.pcs[Stopper]);
    }
    OpenUnlessStopped(s0, s1);
    s' := CloseQueue(s0, s1);
  }

  lemma StopPlaces(s0: State, s: State)
    requires Going(s0, s) && Stopper in s.pcs
    ensures var pc := s.pcs[Stopper];
      && (s.pool.stopped <==> pc == InStop || pc == Flagged || pc == Cancelled || pc == Closed || pc == Returned)
      && (pc == Closed ==> s.pool.cancelled)
  {
    Facts(s0, s);
    hide Going;
    assert Fits(Stopper, s.pcs[Stopper]);
  }

  /** In a pool whose callbacks take no lock, `Stop` can return from every state without a
      panic: some continuation ends all workers and returns. */
  lemma StopCanReturn(s: State) returns (s': State)
    requires Reachable(s) && !s.pool.panicked && s.pool.lockFree
    ensures Continues(s, s') && Stopper in s'.pcs && s'.pcs[Stopper] == Returned
  {
    assert Going(s, s) && Stopper in s.pcs by {
      T.ReachableInv(s);
      ContinuesHere(s);
    }
    hide Reachable, Going, T.Inv;
    if s.pcs[Stopper] == Returned {
      ContinuesHere(s);
      return s;
    }
    var s1 := CloseQueue(s, s);
    StopPlaces(s, s1);
    CrewOnly(s, s1);
    var s2 := WorkersEnd(s, s1, s1.pool.workers);
    GoingOn(s, s2);
    s' := ReturnFromStop(s, s2);
  }

  lemma ReturnFromStop(s0: State, s: State) returns (s': State)
    requires Continues(s0, s) && !s.pool.panicked && Stopper in s.pcs && s.pcs[Stopper] == Closed && WorkersExited(s)
    ensures Continues(s0, s') && Stopper in s'.pcs && s'.pcs[Stopper] == Returned
  {
    hide Continues, WorkersExited;
    var step := Step(Stopper, false, 0, 0);
    s' := Apply(s, step);
    ContinuesOn(s0, s, step);
  }
}
