/** Which threads of `PoolRuns` wait for which, and the one circular wait there is: the
    scheduling loop submits while it holds the job lock, and a worker calls back while
    it holds the lock of the counters. */
module LockWaits {
  import opened Wrappers
  import opened PoolRuns
  import opened PoolTasks

  /** t may wait for u: u holds the lock that t wants, or u waits to write where t wants
      to read, or t is `Stop` and u is a worker that has not ended. */
  ghost predicate WaitsFor(s: State, t: Thread, u: Thread) {
    && t in s.pcs && u in s.pcs && t != u
    && (Waits(t, s.pcs[t], u, s.pcs[u], s.pool.lockFree))
  }

  predicate Waits(t: Thread, pc: Pc, u: Thread, pc2: Pc, lockFree: bool) {
    match Wanted(pc, lockFree)
    case Some(want) =>
      || Conflict(Held(u, pc2, want.0), want.1)
      || (want.1 == Shared && Wanted(pc2, lockFree) == Some((want.0, Exclusive)))
    case None => pc == Closed && u.Worker? && pc2 != Exited
  }

  ghost predicate Cycle(s: State, ts: seq<Thread>) {
    0 < |ts| && forall i :: 0 <= i < |ts| ==> WaitsFor(s, ts[i], ts[NextIndex(ts, i)])
  }

  function NextIndex(ts: seq<Thread>, i: nat): nat {
    if i + 1 < |ts| then i + 1 else 0
  }

  /** A worker that wants the job lock for its callback holds the lock of the counters,
      which the loop wants in a submission while it holds the job lock. */
  ghost predicate DeadlockPair(s: State, n: nat) {
    && !s.pool.lockFree && Dispatcher in s.pcs && s.pcs[Dispatcher] == WantCount
    && Worker(n) in s.pcs && s.pcs[Worker(n)].Finishing?
  }

  // ---------------------------------------------------------------------------
  // Ranks

  /** A rank that grows along waits when no callback waits for the job lock. */
  function RankWithoutCallback(pc: Pc, lockFree: bool): nat {
    match Wanted(pc, lockFree)
    case None => if pc == Closed then 0 else 4
    case Some(want) => if want.0 == JobMu then 1 else if want.1 == Shared then 2 else 3
  }

  /** A rank that grows along waits when the loop does not wait for the counters. */
  function RankWithoutSubmission(pc: Pc, lockFree: bool): nat {
    match Wanted(pc, lockFree)
    case None => if pc == Closed then 0 else 6
    case Some(want) =>
      (match want.0
       case MetricsMu => if want.1 == Shared then 1 else 2
       case JobMu => 3
       case PoolMu => if want.1 == Shared then 4 else 5)
  }

  ghost predicate CallbackWaits(s: State) {
    !s.pool.lockFree && exists t :: t in s.pcs && s.pcs[t].Finishing?
  }

  ghost function Rank(s: State, t: Thread): nat
    requires t in s.pcs
  {
    if CallbackWaits(s) then RankWithoutSubmission(s.pcs[t], s.pool.lockFree)
    else RankWithoutCallback(s.pcs[t], s.pool.lockFree)
  }

  lemma HolderRank(u: Thread, pc: Pc, lock: Lock, lockFree: bool)
    requires Fits(u, pc) && Held(u, pc, lock).Some? && (pc.Finishing? ==> lockFree)
    ensures lock == JobMu ==> 2 <= RankWithoutCallback(pc, lockFree)
    ensures lock != JobMu ==> RankWithoutCallback(pc, lockFree) == 4
  {
  }

  lemma RankWithoutCallbackGrows(t: Thread, pc: Pc, u: Thread, pc2: Pc, lockFree: bool)
    requires Fits(t, pc) && Fits(u, pc2) && Waits(t, pc, u, pc2, lockFree)
    requires pc.Finishing? || pc2.Finishing? ==> lockFree
    ensures RankWithoutCallback(pc, lockFree) < RankWithoutCallback(pc2, lockFree)
  {
    var want := Wanted(pc, lockFree);
    if want.Some? {
      hide Fits, Held;
      if Held(u, pc2, want.value.0).Some? {
        HolderRank(u, pc2, want.value.0, lockFree);
      }
    }
  }

  lemma HolderRankWithoutSubmission(u: Thread, pc: Pc, lock: Lock, lockFree: bool)
    requires Fits(u, pc) && Held(u, pc, lock).Some? && !(u == Dispatcher && pc == WantCount)
    ensures (match lock case MetricsMu => 3 case JobMu => 4 case PoolMu => 6) <= RankWithoutSubmission(pc, lockFree)
  {
  }

  lemma RankWithoutSubmissionGrows(t: Thread, pc: Pc, u: Thread, pc2: Pc, lockFree: bool)
    requires Fits(t, pc) && Fits(u, pc2) && Waits(t, pc, u, pc2, lockFree)
    requires !(u == Dispatcher && pc2 == WantCount)
    ensures RankWithoutSubmission(pc, lockFree) < RankWithoutSubmission(pc2, lockFree)
  {
    var want := Wanted(pc, lockFree);
    if want.Some? {
      hide Fits, Held;
      if Held(u, pc2, want.value.0).Some? {
        HolderRankWithoutSubmission(u, pc2, want.value.0, lockFree);
      }
    }
  }

  lemma RankGrows(s: State, t: Thread, u: Thread)
    requires AllFit(s) && WaitsFor(s, t, u) && forall n :: !DeadlockPair(s, n)
    ensures Rank(s, t) < Rank(s, u)
  {
    hide RankWithoutCallback, RankWithoutSubmission, Fits, Waits;
    if CallbackWaits(s) {
      var w :| w in s.pcs && s.pcs[w].Finishing?;
      FinishingIsWorker(w, s.pcs[w]);
      assert !DeadlockPair(s, w.n);
      RankWithoutSubmissionGrows(t, s.pcs[t], u, s.pcs[u], s.pool.lockFree);
    } else {
      RankWithoutCallbackGrows(t, s.pcs[t], u, s.pcs[u], s.pool.lockFree);
    }
  }

  lemma FinishingIsWorker(t: Thread, pc: Pc)
    requires Fits(t, pc) && pc.Finishing?
    ensures t.Worker?
  {
  }

  // ---------------------------------------------------------------------------
  // Cycles

  lemma {:induction false} RankAlongCycle(s: State, ts: seq<Thread>, i: nat)
    requires AllFit(s) && Cycle(s, ts) && (forall n :: !DeadlockPair(s, n)) && i < |ts|
    ensures ts[0] in s.pcs && ts[i] in s.pcs && Rank(s, ts[0]) + i <= Rank(s, ts[i])
  {
    hide Rank, AllFit, DeadlockPair;
    assert WaitsFor(s, ts[i], ts[NextIndex(ts, i)]);
    if i > 0 {
      RankAlongCycle(s, ts, i - 1);
      assert WaitsFor(s, ts[i - 1], ts[NextIndex(ts, i - 1)]);
      RankGrows(s, ts[i - 1], ts[i]);
    }
  }

  lemma CycleNeedsPair(s: State, ts: seq<Thread>)
    requires AllFit(s) && Cycle(s, ts)
    ensures exists n :: DeadlockPair(s, n)
  {
    hide Rank, AllFit, DeadlockPair;
    if forall n :: !DeadlockPair(s, n) {
      RankAlongCycle(s, ts, |ts| - 1);
      assert WaitsFor(s, ts[|ts| - 1], ts[NextIndex(ts, |ts| - 1)]);
      RankGrows(s, ts[|ts| - 1], ts[0]);
      assert false;
    }
  }

  lemma PairIsCycle(s: State, n: nat)
    requires DeadlockPair(s, n)
    ensures Cycle(s, [Dispatcher, Worker(n)])
  {
  }

  /** Threads wait in a circle exactly when the loop in a submission and a worker in
      front of its callback wait for each other. */
  lemma CircularWaitExactly(s: State)
    requires Reachable(s)
    ensures (exists ts :: Cycle(s, ts)) <==> (exists n :: DeadlockPair(s, n))
  {
    hide Reachable, Cycle, DeadlockPair;
    ReachableInv(s);
    forall ts | Cycle(s, ts) ensures exists n :: DeadlockPair(s, n) {
      CycleNeedsPair(s, ts);
    }
    forall n | DeadlockPair(s, n) ensures Cycle(s, [Dispatcher, Worker(n)]) {
      PairIsCycle(s, n);
    }
  }

  /** Where the callbacks take no lock, no threads wait in a circle. */
  lemma LockFreePoolHasNoCircularWait(s: State, ts: seq<Thread>)
    requires Reachable(s) && s.pool.lockFree
    ensures !Cycle(s, ts)
  {
    hide Reachable, Cycle;
    CircularWaitExactly(s);
  }

  // ---------------------------------------------------------------------------
  // The members of a cycle

  /** A thread that others wait for neither wants to read nor waits for the workers. */
  lemma AwaitedThread(t: Thread, pc: Pc, u: Thread, pc2: Pc, lockFree: bool)
    requires Fits(t, pc) && Fits(u, pc2) && Waits(t, pc, u, pc2, lockFree)
    ensures pc2 != WantRead && pc2 != Closed
  {
  }

  lemma HeldByAwaited(t: Thread, pc: Pc, u: Thread, pc2: Pc, lockFree: bool)
    requires Fits(u, pc2) && Waits(t, pc, u, pc2, lockFree) && pc != WantRead && pc != Closed
    ensures Held(u, pc2, JobMu).Some? || Held(u, pc2, MetricsMu).Some? || pc2 == InPool || pc2 == InStop || pc2 == WantStop
  {
  }

  /** A thread in a section of the pool lock waits for nobody. */
  lemma PoolSectionEnds(t: Thread, pc: Pc, u: Thread, pc2: Pc, v: Thread, pc3: Pc, lockFree: bool)
    requires Waits(t, pc, u, pc2, lockFree) && Waits(u, pc2, v, pc3, lockFree)
    ensures pc != InPool && pc != InStop && pc != WantStop
  {
  }

  lemma HolderInPair(s: State, n: nat, u: Thread)
    requires MutuallyExclusive(s) && DeadlockPair(s, n) && u in s.pcs
    requires Held(u, s.pcs[u], JobMu).Some? || Held(u, s.pcs[u], MetricsMu).Some?
    ensures u == Dispatcher || u == Worker(n)
  {
    assert Held(Dispatcher, s.pcs[Dispatcher], JobMu) == Some(Exclusive);
    assert Held(Worker(n), s.pcs[Worker(n)], MetricsMu) == Some(Exclusive);
    hide Held;
    assert u != Dispatcher ==> !Blocks(s, u, JobMu, Exclusive);
    assert u != Worker(n) ==> !Blocks(s, u, MetricsMu, Exclusive);
  }

  lemma ChainMember(s: State, n: nat, ts: seq<Thread>)
    requires AllFit(s) && MutuallyExclusive(s) && DeadlockPair(s, n) && |ts| == 5
    requires forall i :: 0 <= i < 4 ==> WaitsFor(s, ts[i], ts[i + 1])
    ensures ts[2] == Dispatcher || ts[2] == Worker(n)
  {
    hide Waits, Fits, Held, MutuallyExclusive, DeadlockPair;
    assert WaitsFor(s, ts[0], ts[0 + 1]) && WaitsFor(s, ts[1], ts[1 + 1]) && WaitsFor(s, ts[2], ts[2 + 1])
           && WaitsFor(s, ts[3], ts[3 + 1]);
    AwaitedThread(ts[0], s.pcs[ts[0]], ts[1], s.pcs[ts[1]], s.pool.lockFree);
    HeldByAwaited(ts[1], s.pcs[ts[1]], ts[2], s.pcs[ts[2]], s.pool.lockFree);
    PoolSectionEnds(ts[2], s.pcs[ts[2]], ts[3], s.pcs[ts[3]], ts[4], s.pcs[ts[4]], s.pool.lockFree);
    HolderInPair(s, n, ts[2]);
  }

  /** No other thread takes part in a circular wait. */
  lemma OnlyThePairWaitsInACircle(s: State, ts: seq<Thread>)
    requires Reachable(s) && Cycle(s, ts)
    ensures exists n :: DeadlockPair(s, n) && forall t :: t in ts ==> t == Dispatcher || t == Worker(n)
  {
    hide Reachable, AllFit, MutuallyExclusive, DeadlockPair, WaitsFor;
    ReachableInv(s);
    CycleNeedsPair(s, ts);
    var n :| DeadlockPair(s, n);
    forall t | t in ts ensures t == Dispatcher || t == Worker(n) {
      var i :| 0 <= i < |ts| && ts[i] == t;
      var b := if i == 0 then |ts| - 1 else i - 1;
      var a := if b == 0 then |ts| - 1 else b - 1;
      var c := NextIndex(ts, i);
      var d := NextIndex(ts, c);
      assert NextIndex(ts, a) == b && NextIndex(ts, b) == i;
      assert WaitsFor(s, ts[a], ts[NextIndex(ts, a)]) && WaitsFor(s, ts[b], ts[NextIndex(ts, b)]);
      assert WaitsFor(s, ts[i], ts[NextIndex(ts, i)]) && WaitsFor(s, ts[c], ts[NextIndex(ts, c)]);
      ChainMember(s, n, [ts[a], ts[b], ts[i], ts[c], ts[d]]);
    }
  }

  // ---------------------------------------------------------------------------
  // Without the pair, waiting ends at a thread that can move

  /** Each thread of the chain waits for the next one. */
  ghost predicate Chain(s: State, ts: seq<Thread>) {
    0 < |ts| && ts[0] in s.pcs && forall i :: 0 <= i < |ts| - 1 ==> WaitsFor(s, ts[i], ts[i + 1])
  }

  ghost predicate Waiting(s: State, t: Thread) {
    exists u :: WaitsFor(s, t, u)
  }

  lemma UnblockedProceeds(s: State, t: Thread)
    requires AllFit(s) && t in s.pcs && !Waiting(s, t)
    ensures CanProceed(s, t) && (s.pcs[t] == Closed ==> WorkersExited(s))
  {
    forall u | u in s.pcs && u != t ensures !Waits(t, s.pcs[t], u, s.pcs[u], s.pool.lockFree) {
      assert !WaitsFor(s, t, u);
    }
    assert Fits(t, s.pcs[t]);
  }

  /** A thread that another waits for has a step at its place. */
  lemma AwaitedHasStep(s: State, t: Thread, u: Thread)
    requires AllFit(s) && StopOk(s) && WaitsFor(s, t, u)
    ensures HasStep(s.pool, u, s.pcs[u], false)
  {
    hide Wanted, Held;
    WaitsHasPlace(t, s.pcs[t], u, s.pcs[u], s.pool.lockFree);
    assert Fits(t, s.pcs[t]) && Fits(u, s.pcs[u]);
  }

  lemma WaitsHasPlace(t: Thread, pc: Pc, u: Thread, pc2: Pc, lockFree: bool)
    requires Fits(u, pc2) && Waits(t, pc, u, pc2, lockFree)
    ensures pc2 != Exited && pc2 != Returned && (pc2 == Idle ==> pc == Closed)
  {
  }

  lemma RankBound(s: State, t: Thread)
    requires t in s.pcs
    ensures Rank(s, t) <= 6
  {
  }

  lemma WaitsForKnown(s: State, t: Thread, u: Thread)
    requires WaitsFor(s, t, u)
    ensures t in s.pcs && u in s.pcs
  {
  }

  lemma {:induction false} ChainToUnblocked(s: State, t: Thread) returns (ts: seq<Thread>)
    requires AllFit(s) && (forall n :: !DeadlockPair(s, n)) && t in s.pcs
    ensures Chain(s, ts) && ts[0] == t && ts[|ts| - 1] in s.pcs && !Waiting(s, ts[|ts| - 1])
    ensures Waiting(s, t) ==> |ts| >= 2
    decreases 6 - Rank(s, t)
  {
    hide AllFit, DeadlockPair, Rank, WaitsFor;
    if !Waiting(s, t) {
      return [t];
    }
    var u :| WaitsFor(s, t, u);
    WaitsForKnown(s, t, u);
    RankGrows(s, t, u);
    RankBound(s, u);
    var rest := ChainToUnblocked(s, u);
    ts := [t] + rest;
  }

  lemma {:induction false} ChainEnd(s: State, ts: seq<Thread>)
    requires Chain(s, ts) && |ts| >= 2
    ensures WaitsFor(s, ts[|ts| - 2], ts[|ts| - 1])
  {
    assert WaitsFor(s, ts[|ts| - 2], ts[|ts| - 2 + 1]);
  }

  /** While there is no circular wait, whoever waits for a lock or in `Stop` waits,
      through others, for a thread that can take its next step. */
  lemma WaitingEndsAtEnabledThread(s: State, t: Thread) returns (ts: seq<Thread>)
    requires Reachable(s) && !s.pool.panicked && Waiting(s, t) && forall n :: !DeadlockPair(s, n)
    ensures Chain(s, ts) && ts[0] == t && |ts| >= 2
    ensures Enabled(s, Step(ts[|ts| - 1], false, 0, 0))
  {
    hide Reachable, AllFit, StopOk, MutuallyExclusive, DeadlockPair, WaitsFor, Waiting, HasStep, WorkersExited,
      CanProceed, Chain;
    ReachableInv(s);
    WaitingKnown(s, t);
    ts := ChainToUnblocked(s, t);
    ChainEnd(s, ts);
    AwaitedHasStep(s, ts[|ts| - 2], ts[|ts| - 1]);
    UnblockedProceeds(s, ts[|ts| - 1]);
  }

  lemma WaitingKnown(s: State, t: Thread)
    requires Waiting(s, t)
    ensures t in s.pcs
  {
  }

  // ---------------------------------------------------------------------------
  // The deadlock stays

  /** What a step cannot change while both locks of the pair are held. */
  ghost predicate Frozen(s: State, s': State) {
    && s'.pool.lockFree == s.pool.lockFree && s'.pcs.Keys == s.pcs.Keys
    && s'.pool.metrics == s.pool.metrics && s'.pool.started == s.pool.started && s'.pool.outcomes == s.pool.outcomes
    && (forall t :: t in s.pcs && Stuck(s.pcs[t]) ==> s'.pcs[t] == s.pcs[t])
  }

  /** The places in front of the job lock or the lock of the counters. */
  predicate Stuck(pc: Pc) {
    pc == WantJobs || pc.Finishing? || pc == WantCount || pc.Received? || pc.Executed? || pc == WantReset || pc == WantRead
  }

  lemma StuckWants(pc: Pc)
    ensures var want := Wanted(pc, false);
      Stuck(pc) <==> want.Some? && (want.value.0 == JobMu || want.value.0 == MetricsMu)
  {
  }

  lemma StuckCannotProceed(s: State, n: nat, t: Thread)
    requires DeadlockPair(s, n) && t in s.pcs && Stuck(s.pcs[t])
    ensures !CanProceed(s, t)
  {
    assert Held(Dispatcher, s.pcs[Dispatcher], JobMu) == Some(Exclusive);
    assert Held(Worker(n), s.pcs[Worker(n)], MetricsMu) == Some(Exclusive);
    hide Held, Stuck, Wanted;
    StuckWants(s.pcs[t]);
    if t == Dispatcher {
      assert Wanted(s.pcs[t], false) == Some((MetricsMu, Exclusive)) by { DispatcherWants(); }
      assert Blocks(s, Worker(n), MetricsMu, Exclusive);
    } else if t == Worker(n) {
      assert Wanted(s.pcs[t], false) == Some((JobMu, Exclusive)) by { FinishingWants(s.pcs[t]); }
      assert Blocks(s, Dispatcher, JobMu, Exclusive);
    } else {
      var want := Wanted(s.pcs[t], false).value;
      assert Blocks(s, Dispatcher, want.0, want.1) || Blocks(s, Worker(n), want.0, want.1);
    }
  }

  lemma DispatcherWants()
    ensures Wanted(WantCount, false) == Some((MetricsMu, Exclusive))
  {
  }

  lemma FinishingWants(pc: Pc)
    requires pc.Finishing?
    ensures Wanted(pc, false) == Some((JobMu, Exclusive))
  {
  }

  lemma UnstuckKeeps(pool: Pool, step: Step, pc: Pc)
    requires !Stuck(pc) && !pc.Starting?
    ensures var next := NextPool(pool, step.thread, pc, step);
      && next.lockFree == pool.lockFree && next.metrics == pool.metrics
      && next.started == pool.started && next.outcomes == pool.outcomes
  {
  }

  lemma PairIsStuck(s: State, n: nat)
    requires DeadlockPair(s, n)
    ensures Stuck(s.pcs[Dispatcher]) && Stuck(s.pcs[Worker(n)])
  {
  }

  lemma NobodyStarts(s: State, n: nat, t: Thread)
    requires DeadlockPair(s, n) && MutuallyExclusive(s) && t in s.pcs
    ensures !s.pcs[t].Starting?
  {
    assert Held(Worker(n), s.pcs[Worker(n)], MetricsMu) == Some(Exclusive);
    assert t != Worker(n) ==> !Blocks(s, t, MetricsMu, Exclusive);
  }

  lemma FrozenStep(s: State, n: nat, step: Step)
    requires DeadlockPair(s, n) && MutuallyExclusive(s) && Enabled(s, step)
    ensures Frozen(s, Apply(s, step)) && DeadlockPair(Apply(s, step), n)
  {
    hide CanProceed, HasStep, WorkersExited, NextPc, NextPool, MutuallyExclusive, Stuck;
    var pc := s.pcs[step.thread];
    if Stuck(pc) {
      StuckCannotProceed(s, n, step.thread);
      assert false;
    }
    NobodyStarts(s, n, step.thread);
    PairIsStuck(s, n);
    UnstuckKeeps(s.pool, step, pc);
  }

  /** The deadlock stays in every continuation: no thread in front of one of the two locks
      moves again, so no caller of the scheduler is served, no counter changes, no task is
      executed or called back, and `Stop` does not return. */
  lemma {:induction false} DeadlockStays(s: State, n: nat, steps: seq<Step>, t: State)
    requires Reachable(s) && DeadlockPair(s, n) && Run(s, steps, t)
    ensures DeadlockPair(t, n) && Frozen(s, t)
    ensures Stopper in t.pcs && t.pcs[Stopper] != Returned
    decreases |steps|
  {
    hide Reachable, Enabled, Apply, Frozen, DeadlockPair;
    if steps == [] {
      StopCannotReturn(s, n);
      FrozenSelf(s);
    } else {
      var s1 := Apply(s, steps[0]);
      assert MutuallyExclusive(s) by { ReachableInv(s); }
      hide MutuallyExclusive;
      ReachableStep(s, steps[0]);
      FrozenStep(s, n, steps[0]);
      DeadlockStays(s1, n, steps[1..], t);
      FrozenJoin(s, s1, t);
    }
  }

  lemma StopCannotReturn(s: State, n: nat)
    requires Reachable(s) && DeadlockPair(s, n)
    ensures Stopper in s.pcs && s.pcs[Stopper] != Returned
  {
    hide Reachable, AllFit, MutuallyExclusive, Conserved, TicketsOk;
    ReachableInv(s);
    assert n < s.pool.workers;
  }

  lemma FrozenSelf(s: State)
    ensures Frozen(s, s)
  {
  }

  lemma FrozenJoin(a: State, b: State, c: State)
    requires Frozen(a, b) && Frozen(b, c)
    ensures Frozen(a, c)
  {
    hide Stuck;
  }

  // ---------------------------------------------------------------------------
  // The deadlock is reached

  /** The loop passes the tests of a submission and has its task in the queue. */
  lemma Submission(s: State, other: Thread) returns (s': State)
    requires Reachable(s) && OnlyTwo(s, Dispatcher, other) && s.pcs[Dispatcher] == InJobs
    requires Held(other, s.pcs[other], PoolMu) == None && !s.pool.stopped && !s.pool.closed
    requires HasRoom(s.pool)
    ensures Reachable(s') && OnlyTwo(s', Dispatcher, other) && OnlyTwo(s', other, Dispatcher)
    ensures s'.pcs[Dispatcher] == WantCount && s'.pcs[other] == s.pcs[other]
    ensures s'.pool == s.pool.(queue := s.pool.queue + [s.pool.accepted], accepted := s.pool.accepted + 1)
  {
    hide Reachable, OnlyTwo, Held, NextPool;
    OnlyTwoKnown(s, Dispatcher, other);
    var s1 := AdvanceQuietly(s, Dispatcher, other, true);
    OnlyTwoKnown(s1, Dispatcher, other);
    var s2 := AdvanceQuietly(s1, Dispatcher, other, true);
    OnlyTwoKnown(s2, Dispatcher, other);
    var s3 := AdvanceQuietly(s2, Dispatcher, other, true);
    OnlyTwoKnown(s3, Dispatcher, other);
    s' := Advance(s3, Dispatcher, other, true);
    SendAccepts(s3.pool);
    OnlyTwoKnown(s', Dispatcher, other);
  }

  lemma SendAccepts(pool: Pool)
    requires HasRoom(pool)
    ensures NextPool(pool, Dispatcher, Admitted, Step(Dispatcher, true, 0, 0))
            == pool.(queue := pool.queue + [pool.accepted], accepted := pool.accepted + 1)
  {
  }

  lemma OnlyTwoKnown(s: State, t: Thread, other: Thread)
    requires OnlyTwo(s, t, other)
    ensures t in s.pcs && other in s.pcs && t != other
  {
  }

  /** What the worker leaves for the loop's next submission. */
  predicate SameGates(pool: Pool, next: Pool) {
    && next.workers == pool.workers && next.lockFree == pool.lockFree
    && next.stopped == pool.stopped && next.closed == pool.closed
  }

  /** A worker takes the first task and starts it. */
  lemma Reception(s: State) returns (s': State)
    requires Reachable(s) && OnlyTwo(s, Worker(0), Dispatcher)
    requires s.pcs[Worker(0)] == Idle && s.pcs[Dispatcher] == InJobs && s.pool.queue != []
    ensures Reachable(s') && OnlyTwo(s', Worker(0), Dispatcher)
    ensures s'.pcs[Worker(0)].Executing? && s'.pcs[Dispatcher] == InJobs
    ensures s'.pool.queue == s.pool.queue[1..] && SameGates(s.pool, s'.pool)
  {
    hide Reachable, OnlyTwo, Held, NextPool;
    OnlyTwoKnown(s, Worker(0), Dispatcher);
    LoopHoldsNoCounters();
    var s1 := Advance(s, Worker(0), Dispatcher, true);
    WorkerKeepsGates(s.pool, s.pcs[Worker(0)]);
    OnlyTwoKnown(s1, Worker(0), Dispatcher);
    var s2 := Advance(s1, Worker(0), Dispatcher, true);
    WorkerKeepsGates(s1.pool, s1.pcs[Worker(0)]);
    OnlyTwoKnown(s2, Worker(0), Dispatcher);
    s' := Advance(s2, Worker(0), Dispatcher, true);
    WorkerKeepsGates(s2.pool, s2.pcs[Worker(0)]);
    OnlyTwoKnown(s', Worker(0), Dispatcher);
  }

  lemma WorkerKeepsGates(pool: Pool, pc: Pc)
    requires (pc == Idle && pool.queue != []) || pc.Received? || pc.Starting?
    ensures var next := NextPool(pool, Worker(0), pc, Step(Worker(0), true, 0, 0));
      next.queue == (if pc == Idle then pool.queue[1..] else pool.queue) && SameGates(pool, next)
  {
  }

  /** The task ends and the worker counts it. */
  lemma Completion(s: State) returns (s': State)
    requires Reachable(s) && OnlyTwo(s, Worker(0), Dispatcher)
    requires s.pcs[Worker(0)].Executing? && s.pcs[Dispatcher] == InJobs
    ensures Reachable(s') && OnlyTwo(s', Dispatcher, Worker(0))
    ensures s'.pcs[Worker(0)].Finishing? && s'.pcs[Dispatcher] == InJobs
    ensures s'.pool.queue == s.pool.queue && SameGates(s.pool, s'.pool)
  {
    hide Reachable, OnlyTwo, Held;
    OnlyTwoKnown(s, Worker(0), Dispatcher);
    LoopHoldsNoCounters();
    var s1 := AdvanceQuietly(s, Worker(0), Dispatcher, true);
    OnlyTwoKnown(s1, Worker(0), Dispatcher);
    s' := Advance(s1, Worker(0), Dispatcher, true);
    OnlyTwoKnown(s', Dispatcher, Worker(0));
  }

  lemma LoopHoldsNoCounters()
    ensures Held(Dispatcher, InJobs, MetricsMu) == None
  {
  }

  lemma StartIsReachable(start: State)
    requires IsStart(start)
    ensures Reachable(start)
  {
    assert Run(start, [], start);
  }

  lemma LoopEntersSection(start: State, other: Thread) returns (s: State)
    requires IsStart(start) && other in start.pcs && other != Dispatcher
    ensures Reachable(s) && OnlyTwo(s, Dispatcher, other) && s.pcs[Dispatcher] == InJobs && s.pcs[other] == Idle
    ensures s.pool == start.pool
  {
    hide Reachable;
    StartIsReachable(start);
    var s1 := AdvanceQuietly(start, Dispatcher, other, true);
    s := AdvanceQuietly(s1, Dispatcher, other, true);
  }

  /** A submission, and an execution: the loop is in its section, and the worker is in front
      of its callback. */
  lemma FirstTaskCounted(start: State) returns (s: State)
    requires IsStart(start) && !start.pool.lockFree
    ensures Reachable(s) && OnlyTwo(s, Dispatcher, Worker(0)) && s.pcs[Dispatcher] == InJobs && s.pcs[Worker(0)].Finishing?
    ensures s.pool.queue == [] && SameGates(start.pool, s.pool) && 0 < s.pool.workers
  {
    hide Reachable, OnlyTwo;
    var s1 := LoopEntersSection(start, Worker(0));
    OnlyTwoKnown(s1, Dispatcher, Worker(0));
    var s2 := Submission(s1, Worker(0));
    OnlyTwoKnown(s2, Dispatcher, Worker(0));
    hide IsStart, NextPool;
    var s3 := Advance(s2, Dispatcher, Worker(0), true);
    CountKeepsGates(s2.pool);
    OnlyTwoKnown(s3, Dispatcher, Worker(0));
    var s4 := AdvanceQuietly(s3, Dispatcher, Worker(0), true);
    OnlyTwoKnown(s4, Dispatcher, Worker(0));
    var received := Reception(s4);
    s := Completion(received);
  }

  lemma CountKeepsGates(pool: Pool)
    ensures var next := NextPool(pool, Dispatcher, WantCount, Step(Dispatcher, true, 0, 0));
      next.queue == pool.queue && SameGates(pool, next)
  {
  }

  /** From every start, with callbacks that take the job lock, the deadlock is reached by
      two submissions and one execution. */
  lemma DeadlockIsReachable(start: State) returns (s: State)
    requires IsStart(start) && !start.pool.lockFree
    ensures Reachable(s) && DeadlockPair(s, 0)
  {
    hide Reachable, OnlyTwo;
    var s1 := FirstTaskCounted(start);
    OnlyTwoKnown(s1, Dispatcher, Worker(0));
    s := Submission(s1, Worker(0));
    OnlyTwoKnown(s, Dispatcher, Worker(0));
  }

  lemma LoopIsAdmitted(start: State) returns (s: State)
    requires IsStart(start)
    ensures Reachable(s) && OnlyTwo(s, Stopper, Dispatcher) && s.pool == start.pool
    ensures s.pcs[Dispatcher] == Admitted && s.pcs[Stopper] == Idle
  {
    hide Reachable, OnlyTwo, Held;
    var s1 := LoopEntersSection(start, Stopper);
    OnlyTwoKnown(s1, Dispatcher, Stopper);
    var s2 := AdvanceQuietly(s1, Dispatcher, Stopper, true);
    OnlyTwoKnown(s2, Dispatcher, Stopper);
    assert Held(Stopper, Idle, PoolMu) == None by { IdleHoldsNothing(Stopper); }
    var s3 := AdvanceQuietly(s2, Dispatcher, Stopper, true);
    OnlyTwoKnown(s3, Dispatcher, Stopper);
    s := AdvanceQuietly(s3, Dispatcher, Stopper, true);
    OnlyTwoKnown(s, Stopper, Dispatcher);
  }

  lemma IdleHoldsNothing(t: Thread)
    ensures forall lock :: Held(t, Idle, lock) == None
  {
  }

  /** From every start, a submission can overlap `Stop` and end the run with a panic. */
  lemma PanicIsReachable(start: State) returns (s: State)
    requires IsStart(start)
    ensures Reachable(s) && s.pool.panicked
  {
    hide Reachable, OnlyTwo, IsStart;
    var s1 := LoopIsAdmitted(start);
    OnlyTwoKnown(s1, Stopper, Dispatcher);
    var s2 := AdvanceQuietly(s1, Stopper, Dispatcher, true);
    OnlyTwoKnown(s2, Stopper, Dispatcher);
    var s3 := Advance(s2, Stopper, Dispatcher, true);
    OnlyTwoKnown(s3, Stopper, Dispatcher);
    s := PanicFollows(s3);
  }

  lemma PanicFollows(s: State) returns (end: State)
    requires Reachable(s) && OnlyTwo(s, Dispatcher, Stopper)
    requires s.pcs[Dispatcher] == Admitted && s.pcs[Stopper] == InStop
    ensures Reachable(end) && end.pool.panicked
  {
    hide Reachable, Run;
    ReachableInv(s);
    var steps;
    steps, end := AdmittedCanPanic(s, Dispatcher);
    ReachableRun(s, steps, end);
  }

  lemma {:induction false} ReachableRun(s: State, steps: seq<Step>, t: State)
    requires Reachable(s) && Run(s, steps, t)
    ensures Reachable(t)
    decreases |steps|
  {
    hide Reachable, Enabled, Apply;
    if steps != [] {
      ReachableStep(s, steps[0]);
      ReachableRun(Apply(s, steps[0]), steps[1..], t);
    }
  }

  // ---------------------------------------------------------------------------
  // A schedule call that hangs

  /** A caller of the scheduler is in its section and holds the job lock.  A call whose
      search for the next run never returns stays there. */
  ghost predicate InSection(s: State, c: Thread) {
    c.Client? && c in s.pcs && s.pcs[c] == InJobs && !s.pool.lockFree
  }

  lemma SectionExcludes(s: State, c: Thread, t: Thread)
    requires InSection(s, c) && MutuallyExclusive(s) && t in s.pcs && t != c
    ensures Held(t, s.pcs[t], JobMu) == None
  {
    assert Held(c, s.pcs[c], JobMu) == Some(Exclusive);
    assert !Blocks(s, t, JobMu, Exclusive);
  }

  lemma SectionBlocks(s: State, c: Thread, step: Step)
    requires InSection(s, c) && Enabled(s, step) && step.thread != c
    ensures s.pcs[step.thread] != WantJobs && !s.pcs[step.thread].Finishing?
  {
    assert Held(c, s.pcs[c], JobMu) == Some(Exclusive);
    assert Wanted(s.pcs[step.thread], false) == Some((JobMu, Exclusive)) ==> !Blocks(s, c, JobMu, Exclusive);
  }

  lemma HungStep(s: State, c: Thread, step: Step)
    requires InSection(s, c) && AllFit(s) && Enabled(s, step) && step.thread != c
    ensures var t := Apply(s, step); InSection(t, c) && t.pool.outcomes == s.pool.outcomes
  {
    hide CanProceed, HasStep, WorkersExited, NextPc, NextPool, Fits;
    SectionBlocks(s, c, step);
    OutcomesAfter(s.pool, step, s.pcs[step.thread]);
    SettingsAfter(s.pool, step, s.pcs[step.thread]);
  }

  lemma LoopOutsideSection(s: State, c: Thread)
    requires InSection(s, c) && AllFit(s) && MutuallyExclusive(s) && Dispatcher in s.pcs
    ensures s.pcs[Dispatcher] == Idle || s.pcs[Dispatcher] == WantJobs
  {
    SectionExcludes(s, c, Dispatcher);
    assert Fits(Dispatcher, s.pcs[Dispatcher]);
  }

  /** While a call hangs in its section, in every continuation the loop does not get the
      job lock, so that nothing is dispatched, and no task is called back. */
  lemma {:induction false} HungCallStopsTheScheduler(s: State, c: Thread, steps: seq<Step>, t: State)
    requires Reachable(s) && InSection(s, c) && Run(s, steps, t)
    requires forall i :: 0 <= i < |steps| ==> steps[i].thread != c
    ensures InSection(t, c) && t.pool.outcomes == s.pool.outcomes
    ensures Dispatcher in t.pcs && (t.pcs[Dispatcher] == Idle || t.pcs[Dispatcher] == WantJobs)
    ensures forall u :: u in t.pcs && u != c ==> Held(u, t.pcs[u], JobMu) == None
    decreases |steps|
  {
    hide Reachable, Enabled, Apply, InSection, AllFit, MutuallyExclusive, Held, StopOk, Conserved, TicketsOk;
    ReachableInv(s);
    if steps == [] {
      LoopOutsideSection(s, c);
      forall u | u in t.pcs && u != c ensures Held(u, t.pcs[u], JobMu) == None {
        SectionExcludes(s, c, u);
      }
    } else {
      HungStep(s, c, steps[0]);
      ReachableStep(s, steps[0]);
      HungCallStopsTheScheduler(Apply(s, steps[0]), c, steps[1..], t);
    }
  }
}
