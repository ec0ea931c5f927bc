/** What the worker pool does with the tasks that it accepts, over all runs of
    `PoolRuns`: their order, how often they run, how many are there, and what `Stop`
    leaves behind. */
module PoolTasks {
  import opened Wrappers
  import opened Sets
  import opened PoolRuns

  // ---------------------------------------------------------------------------
  // Tickets

  /** The task that a worker has in hand. */
  function TicketOf(pc: Pc): Option<nat> {
    match pc
    case Received(k) => Some(k)
    case Starting(k) => Some(k)
    case Executing(k) => Some(k)
    case Executed(k, _) => Some(k)
    case Finishing(k, _) => Some(k)
    case Calling(k, _) => Some(k)
    case CalledBack(k, _) => Some(k)
    case _ => None
  }

  /** The outcome that a worker has reported. */
  function Reported(pc: Pc): Option<bool> {
    match pc
    case Calling(_, ok) => Some(ok)
    case CalledBack(_, ok) => Some(ok)
    case _ => None
  }

  /** What has happened to the task in hand follows from where its worker is. */
  predicate TicketOk(pool: Pool, pc: Pc) {
    TicketOf(pc).Some? ==>
      var k := TicketOf(pc).value;
      && k < pool.received
      && (k in pool.started <==> !pc.Received? && !pc.Starting?)
      && (k in pool.outcomes <==> Reported(pc).Some?)
      && (Reported(pc).Some? ==> pool.outcomes[k] == Reported(pc).value)
  }

  /** The queue holds the accepted tasks that were not received, in order. */
  predicate QueueOk(pool: Pool) {
    && |pool.queue| <= 2 * pool.workers
    && pool.accepted == pool.received + |pool.queue|
    && (forall i :: 0 <= i < |pool.queue| ==> pool.queue[i] == pool.received + i)
  }

  /** A callback follows an execution, which follows a reception. */
  ghost predicate Recorded(pool: Pool) {
    && (forall k :: k in pool.outcomes ==> k in pool.started)
    && (forall k :: k in pool.started ==> k < pool.received)
  }

  ghost predicate DistinctTickets(pcs: map<Thread, Pc>) {
    forall t, u :: t in pcs && u in pcs && t != u && TicketOf(pcs[t]).Some? ==> TicketOf(pcs[t]) != TicketOf(pcs[u])
  }

  ghost predicate InHand(pcs: map<Thread, Pc>, k: nat) {
    exists t :: t in pcs && TicketOf(pcs[t]) == Some(k)
  }

  /** A received task was called back unless a worker has it in hand. */
  ghost predicate Complete(s: State) {
    forall k: nat :: k < s.pool.received && k !in s.pool.outcomes ==> InHand(s.pcs, k)
  }

  ghost predicate TicketsOk(s: State) {
    && QueueOk(s.pool) && Recorded(s.pool) && DistinctTickets(s.pcs) && Complete(s)
    && (forall t :: t in s.pcs ==> TicketOk(s.pool, s.pcs[t]))
  }

  lemma MovedTicket(pool: Pool, step: Step, pc: Pc)
    requires TicketOk(pool, pc) && QueueOk(pool) && Recorded(pool) && HasStep(pool, step.thread, pc, step.choice)
    ensures TicketOk(NextPool(pool, step.thread, pc, step), NextPc(pool, step.thread, pc, step.choice))
  {
  }

  lemma OtherTicket(pool: Pool, step: Step, pc: Pc, other: Pc)
    requires TicketOk(pool, other) && HasStep(pool, step.thread, pc, step.choice)
    requires TicketOf(other).Some? ==> TicketOf(pc) != TicketOf(other)
    ensures TicketOk(NextPool(pool, step.thread, pc, step), other)
  {
  }

  lemma StepQueueOk(pool: Pool, step: Step, pc: Pc)
    requires QueueOk(pool) && HasStep(pool, step.thread, pc, step.choice)
    ensures QueueOk(NextPool(pool, step.thread, pc, step))
  {
  }

  lemma StepRecorded(pool: Pool, step: Step, pc: Pc)
    requires TicketOk(pool, pc) && Recorded(pool) && HasStep(pool, step.thread, pc, step.choice)
    ensures Recorded(NextPool(pool, step.thread, pc, step))
  {
  }

  lemma TicketAfter(pool: Pool, t: Thread, pc: Pc, choice: bool)
    requires HasStep(pool, t, pc, choice)
    ensures TicketOf(NextPc(pool, t, pc, choice))
            == if Takes(pool, t, pc, choice) then Some(pool.queue[0]) else if pc.CalledBack? then None else TicketOf(pc)
  {
  }

  lemma ReceivedAfter(pool: Pool, step: Step, pc: Pc)
    requires HasStep(pool, step.thread, pc, step.choice)
    ensures NextPool(pool, step.thread, pc, step).received
            == if Takes(pool, step.thread, pc, step.choice) then pool.received + 1 else pool.received
  {
    if pc != Idle {
      assert !Takes(pool, step.thread, pc, step.choice);
    }
  }

  lemma OutcomesAfter(pool: Pool, step: Step, pc: Pc)
    ensures NextPool(pool, step.thread, pc, step).outcomes
            == if pc.Finishing? then pool.outcomes[pc.ticket := pc.ok] else pool.outcomes
  {
  }

  lemma SettingsAfter(pool: Pool, step: Step, pc: Pc)
    ensures var next := NextPool(pool, step.thread, pc, step);
      next.lockFree == pool.lockFree && next.workers == pool.workers
  {
  }

  /** A worker takes the first task that was not received, and puts a task down only
      after its callback. */
  lemma TicketMove(pool: Pool, step: Step, pc: Pc)
    requires TicketOk(pool, pc) && QueueOk(pool) && HasStep(pool, step.thread, pc, step.choice)
    ensures var next := NextPool(pool, step.thread, pc, step);
      var before, after := TicketOf(pc), TicketOf(NextPc(pool, step.thread, pc, step.choice));
      && pool.outcomes.Keys <= next.outcomes.Keys
      && (next.received == pool.received
          || (next.received == pool.received + 1 && before == None && after == Some(pool.received)))
      && (after == before || after == None || (before == None && after == Some(pool.received)
                                               && next.received == pool.received + 1))
      && (before.Some? && after == None ==> before.value in next.outcomes)
  {
    hide NextPc, NextPool, HasStep;
    TicketAfter(pool, step.thread, pc, step.choice);
    ReceivedAfter(pool, step, pc);
    OutcomesAfter(pool, step, pc);
  }

  lemma StepDistinctTickets(s: State, step: Step)
    requires Enabled(s, step) && TicketsOk(s) && !(s.pcs[step.thread] == Admitted && s.pool.closed)
    ensures DistinctTickets(Apply(s, step).pcs)
  {
    hide CanProceed, WorkersExited, HasStep, NextPc, NextPool, QueueOk, TicketOf, Complete, Recorded;
    TicketMove(s.pool, step, s.pcs[step.thread]);
    forall t | t in s.pcs ensures TicketOf(s.pcs[t]) != Some(s.pool.received) {
      assert TicketOk(s.pool, s.pcs[t]);
    }
  }

  lemma StepComplete(s: State, step: Step)
    requires Enabled(s, step) && TicketsOk(s) && !(s.pcs[step.thread] == Admitted && s.pool.closed)
    ensures Complete(Apply(s, step))
  {
    hide CanProceed, WorkersExited, HasStep, NextPc, NextPool, QueueOk, TicketOf, TicketOk, DistinctTickets, Recorded, Reported;
    var s' := Apply(s, step);
    TicketMove(s.pool, step, s.pcs[step.thread]);
    forall k: nat | k < s'.pool.received && k !in s'.pool.outcomes ensures InHand(s'.pcs, k) {
      if k < s.pool.received {
        assert InHand(s.pcs, k);
        var t :| t in s.pcs && TicketOf(s.pcs[t]) == Some(k);
        assert TicketOf(s'.pcs[t]) == Some(k);
      } else {
        assert TicketOf(s'.pcs[step.thread]) == Some(k);
      }
    }
  }

  lemma StepTicketsOk(s: State, step: Step)
    requires Enabled(s, step) && TicketsOk(s)
    ensures TicketsOk(Apply(s, step))
  {
    hide CanProceed, WorkersExited, HasStep, NextPc, NextPool, QueueOk, TicketOf, TicketOk, Recorded;
    var s' := Apply(s, step);
    var pc := s.pcs[step.thread];
    if pc == Admitted && s.pool.closed {
      PanicTicketsOk(s);
    } else {
      StepQueueOk(s.pool, step, pc);
      StepRecorded(s.pool, step, pc);
      StepDistinctTickets(s, step);
      StepComplete(s, step);
      MovedTicket(s.pool, step, pc);
      forall t | t in s'.pcs ensures TicketOk(s'.pool, s'.pcs[t]) {
        if t != step.thread {
          OtherTicket(s.pool, step, pc, s.pcs[t]);
        }
      }
    }
  }

  lemma PanicTicketsOk(s: State)
    requires TicketsOk(s)
    ensures TicketsOk(s.(pool := s.pool.(panicked := true)))
  {
    var s' := s.(pool := s.pool.(panicked := true));
    forall t | t in s'.pcs ensures TicketOk(s'.pool, s'.pcs[t]) {
      assert TicketOk(s.pool, s.pcs[t]);
    }
  }

  // ---------------------------------------------------------------------------
  // The invariant

  ghost predicate Staffed(s: State) {
    && 0 < s.pool.workers && Dispatcher in s.pcs
    && (forall n: nat :: Worker(n) in s.pcs <==> n < s.pool.workers)
  }

  ghost predicate Inv(s: State) {
    Staffed(s) && AllFit(s) && MutuallyExclusive(s) && Conserved(s) && StopOk(s) && TicketsOk(s)
  }

  lemma StartInv(s: State)
    requires IsStart(s)
    ensures Inv(s)
  {
    hide Conserved;
    StartConserved(s);
  }

  lemma StepStaffed(s: State, step: Step)
    requires Enabled(s, step) && Staffed(s)
    ensures Staffed(Apply(s, step))
    ensures Apply(s, step).pcs.Keys == s.pcs.Keys
  {
    hide CanProceed, WorkersExited, HasStep, NextPc;
  }

  lemma StepInv(s: State, step: Step)
    requires Enabled(s, step) && Inv(s)
    ensures Inv(Apply(s, step))
  {
    hide Enabled, Apply, Staffed, AllFit, MutuallyExclusive, Conserved, StopOk, TicketsOk;
    StepStaffed(s, step);
    StepAllFit(s, step);
    StepMutuallyExclusive(s, step);
    StepConserved(s, step);
    StepStopOk(s, step);
    StepTicketsOk(s, step);
  }

  lemma {:induction false} RunInv(s: State, steps: seq<Step>, t: State)
    requires Run(s, steps, t) && Inv(s)
    ensures Inv(t)
    decreases |steps|
  {
    hide Inv, Enabled, Apply;
    if steps != [] {
      StepInv(s, steps[0]);
      RunInv(Apply(s, steps[0]), steps[1..], t);
    }
  }

  lemma ReachableInv(s: State)
    requires Reachable(s)
    ensures Inv(s)
  {
    hide Inv, Run, IsStart;
    var start, steps :| IsStart(start) && Run(start, steps, s);
    StartInv(start);
    RunInv(start, steps, s);
  }

  // ---------------------------------------------------------------------------
  // The counters

  /** In every reachable state the counters and the queue agree, up to the tasks that a
      thread has moved but not counted and up to what resets have cleared. */
  lemma PoolConserves(s: State)
    requires Reachable(s)
    ensures s.pool.metrics.queuedTasks == |s.pool.queue| + Count(s.pcs, Got) - Count(s.pcs, Sent) - s.pool.lostQueued
    ensures s.pool.metrics.activeWorkers == Count(s.pcs, Active)
    ensures s.pool.accepted == |s.pool.queue| + Count(s.pcs, Got) + s.pool.metrics.activeWorkers
              + s.pool.metrics.completedTasks + s.pool.metrics.failedTasks + s.pool.lostFinished
  {
    hide Count;
    ReachableInv(s);
  }

  // ---------------------------------------------------------------------------
  // Bounds

  function Crew(n: nat): (c: set<Thread>)
    ensures |c| == n
    ensures forall t :: t in c <==> t.Worker? && t.n < n
  {
    if n == 0 then {} else Crew(n - 1) + {Worker(n - 1)}
  }

  /** The threads with a task in hand. */
  function Holders(pcs: map<Thread, Pc>): set<Thread> {
    set t | t in pcs && TicketOf(pcs[t]).Some?
  }

  lemma OnlyWorkersHold(t: Thread, pc: Pc)
    requires Fits(t, pc) && TicketOf(pc).Some?
    ensures t.Worker?
  {
  }

  lemma HoldersWithinCrew(s: State)
    requires Staffed(s) && AllFit(s)
    ensures |Holders(s.pcs)| <= s.pool.workers
  {
    hide Fits, TicketOf;
    forall t | t in Holders(s.pcs) ensures t in Crew(s.pool.workers) {
      OnlyWorkersHold(t, s.pcs[t]);
    }
    SubsetCount(Holders(s.pcs), Crew(s.pool.workers));
  }

  lemma ActiveHold(pcs: map<Thread, Pc>)
    ensures Count(pcs, Active) <= |Holders(pcs)|
  {
    SubsetCount((set t | t in pcs && PhaseOf(pcs[t]) == Active), Holders(pcs));
  }

  /** The channel holds at most twice as many tasks as there are workers, and at most
      one task for each worker is received and not finished. */
  lemma PoolIsBounded(s: State)
    requires Reachable(s)
    ensures |s.pool.queue| <= 2 * s.pool.workers
    ensures 0 <= s.pool.metrics.activeWorkers <= |Holders(s.pcs)| <= s.pool.workers
  {
    hide Reachable, MutuallyExclusive, StopOk, Complete, DistinctTickets, Count, Holders, Recorded, AllFit, Staffed, TicketOk;
    ReachableInv(s);
    HoldersWithinCrew(s);
    ActiveHold(s.pcs);
  }

  // ---------------------------------------------------------------------------
  // The history of each task

  datatype Event =
    | Accept(ticket: nat)
    | Receive(ticket: nat)
    | Execute(ticket: nat)
    | CallBack(ticket: nat, ok: bool)

  function EventsOf(pool: Pool, step: Step, pc: Pc): seq<Event> {
    if pc == Admitted && HasRoom(pool) then [Accept(pool.accepted)]
    else if Takes(pool, step.thread, pc, step.choice) then [Receive(pool.queue[0])]
    else if pc.Starting? then [Execute(pc.ticket)]
    else if pc.Finishing? then [CallBack(pc.ticket, pc.ok)]
    else []
  }

  ghost function StepEvents(s: State, step: Step): seq<Event>
    requires Enabled(s, step)
  {
    var pc := s.pcs[step.thread];
    if pc == Admitted && s.pool.closed then [] else EventsOf(s.pool, step, pc)
  }

  ghost function EventsIn(s: State, steps: seq<Step>, t: State): seq<Event>
    requires Run(s, steps, t)
    decreases |steps|
  {
    if steps == [] then []
    else StepEvents(s, steps[0]) + EventsIn(Apply(s, steps[0]), steps[1..], t)
  }

  /** The tickets that were received, or else accepted, in order. */
  function TicketsIn(events: seq<Event>, receptions: bool): seq<nat> {
    if events == [] then [] else
      (if (if receptions then events[0].Receive? else events[0].Accept?) then [events[0].ticket] else [])
      + TicketsIn(events[1..], receptions)
  }

  function Consecutive(from: nat, to: nat): (r: seq<nat>)
    requires from <= to
    ensures |r| == to - from && forall i :: 0 <= i < |r| ==> r[i] == from + i
  {
    seq(to - from, i requires 0 <= i => from + i)
  }

  lemma {:induction false} TicketsAppend(a: seq<Event>, b: seq<Event>, receptions: bool)
    ensures TicketsIn(a + b, receptions) == TicketsIn(a, receptions) + TicketsIn(b, receptions)
  {
    if a == [] {
      assert a + b == b;
    } else {
      assert (a + b)[0] == a[0] && (a + b)[1..] == a[1..] + b;
      TicketsAppend(a[1..], b, receptions);
    }
  }

  lemma AcceptedAfter(pool: Pool, step: Step, pc: Pc)
    ensures NextPool(pool, step.thread, pc, step).accepted
            == if pc == Admitted && HasRoom(pool) then pool.accepted + 1 else pool.accepted
  {
  }

  lemma OneStepOrder(pool: Pool, step: Step, pc: Pc)
    requires HasStep(pool, step.thread, pc, step.choice) && QueueOk(pool)
    ensures var next := NextPool(pool, step.thread, pc, step);
      && pool.accepted <= next.accepted && pool.received <= next.received
      && TicketsIn(EventsOf(pool, step, pc), false) == Consecutive(pool.accepted, next.accepted)
      && TicketsIn(EventsOf(pool, step, pc), true) == Consecutive(pool.received, next.received)
  {
    hide NextPool, HasStep;
    AcceptedAfter(pool, step, pc);
    ReceivedAfter(pool, step, pc);
  }

  lemma StepOrder(s: State, step: Step)
    requires Enabled(s, step) && Inv(s)
    ensures var next := Apply(s, step).pool;
      && s.pool.accepted <= next.accepted && s.pool.received <= next.received
      && TicketsIn(StepEvents(s, step), false) == Consecutive(s.pool.accepted, next.accepted)
      && TicketsIn(StepEvents(s, step), true) == Consecutive(s.pool.received, next.received)
  {
    hide CanProceed, WorkersExited, EventsOf, HasStep, NextPc, NextPool, QueueOk, Staffed, AllFit, MutuallyExclusive,
      Conserved, StopOk, Recorded, DistinctTickets, Complete, TicketOk;
    OneStepOrder(s.pool, step, s.pcs[step.thread]);
  }

  /** A run accepts and receives consecutive tickets. */
  lemma {:induction false} RunOrder(s: State, steps: seq<Step>, t: State)
    requires Run(s, steps, t) && Inv(s)
    ensures s.pool.accepted <= t.pool.accepted && s.pool.received <= t.pool.received
    ensures TicketsIn(EventsIn(s, steps, t), false) == Consecutive(s.pool.accepted, t.pool.accepted)
    ensures TicketsIn(EventsIn(s, steps, t), true) == Consecutive(s.pool.received, t.pool.received)
    decreases |steps|
  {
    if steps != [] {
      hide Inv, Enabled, Apply, StepEvents, TicketsIn, Consecutive;
      var s1 := Apply(s, steps[0]);
      StepInv(s, steps[0]);
      StepOrder(s, steps[0]);
      RunOrder(s1, steps[1..], t);
      TicketsAppend(StepEvents(s, steps[0]), EventsIn(s1, steps[1..], t), false);
      TicketsAppend(StepEvents(s, steps[0]), EventsIn(s1, steps[1..], t), true);
      ConsecutiveJoin(s.pool.accepted, s1.pool.accepted, t.pool.accepted);
      ConsecutiveJoin(s.pool.received, s1.pool.received, t.pool.received);
    }
  }

  lemma ConsecutiveJoin(from: nat, mid: nat, to: nat)
    requires from <= mid <= to
    ensures Consecutive(from, mid) + Consecutive(mid, to) == Consecutive(from, to)
  {
  }

  /** Tasks are received in the order in which they were accepted. */
  lemma ReceiveOrderIsAcceptOrder(start: State, steps: seq<Step>, t: State)
    requires IsStart(start) && Run(start, steps, t)
    ensures var events := EventsIn(start, steps, t);
      TicketsIn(events, true) + t.pool.queue == TicketsIn(events, false)
  {
    hide EventsIn, TicketsIn, IsStart, Run, Recorded, DistinctTickets, Complete, TicketOk, Conserved, StopOk, AllFit,
      MutuallyExclusive, Staffed;
    StartInv(start);
    RunInv(start, steps, t);
    RunOrder(start, steps, t);
    StartEmpty(start);
  }

  lemma StartEmpty(s: State)
    requires IsStart(s)
    ensures s.pool.accepted == 0 && s.pool.received == 0 && s.pool.started == {} && s.pool.outcomes == map[]
  {
  }

  // ---------------------------------------------------------------------------
  // Executions and callbacks

  /** How often an event occurred. */
  function Times(events: seq<Event>, e: Event): nat {
    multiset(events)[e]
  }

  function Bit(b: bool): nat {
    if b then 1 else 0
  }

  predicate Called(pool: Pool, k: nat, ok: bool) {
    k in pool.outcomes && pool.outcomes[k] == ok
  }

  lemma StartedAfter(pool: Pool, step: Step, pc: Pc)
    ensures NextPool(pool, step.thread, pc, step).started
            == if pc.Starting? then pool.started + {pc.ticket} else pool.started
  {
  }

  /** The events of a step are the changes of its records. */
  lemma StepTimes(pool: Pool, step: Step, pc: Pc, k: nat, ok: bool)
    requires TicketOk(pool, pc)
    ensures var next := NextPool(pool, step.thread, pc, step);
      var events := EventsOf(pool, step, pc);
      && Times(events, Execute(k)) == Bit(k in next.started) - Bit(k in pool.started)
      && Times(events, CallBack(k, ok)) == Bit(Called(next, k, ok)) - Bit(Called(pool, k, ok))
  {
    hide NextPool;
    StartedAfter(pool, step, pc);
    OutcomesAfter(pool, step, pc);
  }

  lemma TimesAppend(a: seq<Event>, b: seq<Event>, e: Event)
    ensures Times(a + b, e) == Times(a, e) + Times(b, e)
  {
  }

  lemma StateTimes(s: State, step: Step, k: nat, ok: bool)
    requires Enabled(s, step) && Inv(s)
    ensures var next := Apply(s, step).pool;
      && Times(StepEvents(s, step), Execute(k)) == Bit(k in next.started) - Bit(k in s.pool.started)
      && Times(StepEvents(s, step), CallBack(k, ok)) == Bit(Called(next, k, ok)) - Bit(Called(s.pool, k, ok))
  {
    hide CanProceed, WorkersExited, EventsOf, HasStep, NextPc, NextPool, QueueOk, Staffed, AllFit, MutuallyExclusive,
      Conserved, StopOk, Recorded, DistinctTickets, Complete, TicketOk;
    assert TicketOk(s.pool, s.pcs[step.thread]);
    StepTimes(s.pool, step, s.pcs[step.thread], k, ok);
  }

  lemma {:induction false} RunTimes(s: State, steps: seq<Step>, t: State, k: nat, ok: bool)
    requires Run(s, steps, t) && Inv(s)
    ensures Times(EventsIn(s, steps, t), Execute(k)) == Bit(k in t.pool.started) - Bit(k in s.pool.started)
    ensures Times(EventsIn(s, steps, t), CallBack(k, ok)) == Bit(Called(t.pool, k, ok)) - Bit(Called(s.pool, k, ok))
    decreases |steps|
  {
    if steps != [] {
      hide Inv, Enabled, Apply, StepEvents, Times, Called, Bit;
      var s1 := Apply(s, steps[0]);
      StepInv(s, steps[0]);
      StateTimes(s, steps[0], k, ok);
      RunTimes(s1, steps[1..], t, k, ok);
      TimesAppend(StepEvents(s, steps[0]), EventsIn(s1, steps[1..], t), Execute(k));
      TimesAppend(StepEvents(s, steps[0]), EventsIn(s1, steps[1..], t), CallBack(k, ok));
    }
  }

  /** Over a whole run a task is executed at most once, only after it was accepted, and
      gets exactly one callback if it was executed and no worker has it in hand. */
  lemma ExecutedAtMostOnce(start: State, steps: seq<Step>, t: State, k: nat)
    requires IsStart(start) && Run(start, steps, t)
    ensures var events := EventsIn(start, steps, t);
      var executions := Times(events, Execute(k));
      var callbacks := Times(events, CallBack(k, true)) + Times(events, CallBack(k, false));
      && callbacks <= executions <= 1
      && (executions == 1 ==> k < t.pool.received)
      && (executions == 1 && !InHand(t.pcs, k) ==> callbacks == 1)
      && (k < t.pool.received && !InHand(t.pcs, k) ==> executions == 1)
  {
    hide EventsIn, IsStart, Run, DistinctTickets, TicketOk, Conserved, StopOk, AllFit, MutuallyExclusive, Staffed, QueueOk, Times,
      InHand;
    StartInv(start);
    RunInv(start, steps, t);
    StartEmpty(start);
    RunTimes(start, steps, t, k, true);
    RunTimes(start, steps, t, k, false);
  }

  // ---------------------------------------------------------------------------
  // Where an accepted task is

  /** The accepted tasks without a callback. */
  function Outstanding(pool: Pool): set<nat> {
    set k | 0 <= k < pool.accepted && k !in pool.outcomes
  }

  /** An accepted task is in the queue, in the hands of one worker, or was called back. */
  lemma AcceptedTaskIsSomewhere(s: State, k: nat)
    requires Reachable(s)
    ensures k < s.pool.accepted <==> (k in s.pool.queue || InHand(s.pcs, k) || k in s.pool.outcomes)
    ensures !(k in s.pool.queue && InHand(s.pcs, k)) && !(k in s.pool.queue && k in s.pool.outcomes)
    ensures forall t, u :: t in s.pcs && u in s.pcs && TicketOf(s.pcs[t]) == Some(k) && TicketOf(s.pcs[u]) == Some(k)
                           ==> t == u
  {
    hide Reachable, Conserved, StopOk, AllFit, MutuallyExclusive, Staffed;
    ReachableInv(s);
    if InHand(s.pcs, k) {
      var t :| t in s.pcs && TicketOf(s.pcs[t]) == Some(k);
      assert TicketOk(s.pool, s.pcs[t]);
    }
    if s.pool.received <= k < s.pool.accepted {
      assert s.pool.queue[k - s.pool.received] == k;
    }
  }

  /** Only an accepting send adds an outstanding task and only its callback removes it. */
  lemma OutstandingChanges(s: State, step: Step)
    requires Reachable(s) && Enabled(s, step)
    ensures var pc := s.pcs[step.thread];
      Outstanding(Apply(s, step).pool)
      == if pc == Admitted && !s.pool.closed && HasRoom(s.pool)
         then Outstanding(s.pool) + {s.pool.accepted}
         else if pc.Finishing? then Outstanding(s.pool) - {pc.ticket} else Outstanding(s.pool)
  {
    hide Reachable, Conserved, StopOk, AllFit, MutuallyExclusive, Staffed, DistinctTickets, Complete, CanProceed, HasStep,
      NextPool, NextPc, WorkersExited, TicketOk;
    ReachableInv(s);
    AcceptedAfter(s.pool, step, s.pcs[step.thread]);
    OutcomesAfter(s.pool, step, s.pcs[step.thread]);
  }

  // ---------------------------------------------------------------------------
  // Stop

  function UpTo(n: nat): (r: set<nat>)
    ensures |r| == n
    ensures forall k: nat :: k in r <==> k < n
  {
    if n == 0 then {} else UpTo(n - 1) + {n - 1}
  }

  /** When `Stop` has returned, nothing runs, every execution was called back, and the
      accepted tasks were finished or abandoned in the queue. */
  lemma StoppedPoolIsQuiet(s: State)
    requires Reachable(s) && Stopper in s.pcs && s.pcs[Stopper] == Returned
    ensures Holders(s.pcs) == {} && s.pool.metrics.activeWorkers == 0
    ensures s.pool.started == s.pool.outcomes.Keys == UpTo(s.pool.received)
    ensures s.pool.accepted == |s.pool.outcomes| + |s.pool.queue|
    ensures forall k :: k in s.pool.queue ==> k !in s.pool.started
  {
    hide Reachable, Conserved, MutuallyExclusive, Count, PhaseOf;
    ReachableInv(s);
    forall t | t in s.pcs ensures TicketOf(s.pcs[t]) == None {
      if TicketOf(s.pcs[t]).Some? {
        OnlyWorkersHold(t, s.pcs[t]);
      }
    }
    PoolIsBounded(s);
    forall k: nat | k < s.pool.received ensures k in s.pool.outcomes {
      assert !InHand(s.pcs, k);
    }
    assert s.pool.outcomes.Keys == UpTo(s.pool.received);
  }

  lemma QuietStep(s: State, step: Step)
    requires Enabled(s, step) && Inv(s) && s.pcs[Stopper] == Returned
    ensures var s' := Apply(s, step);
      && s'.pcs[Stopper] == Returned && s'.pool.queue == s.pool.queue
      && s'.pool.started == s.pool.started && s'.pool.outcomes == s.pool.outcomes && s'.pool.received == s.pool.received
  {
    hide Conserved, MutuallyExclusive, CanProceed, QueueOk, TicketOk, DistinctTickets, Complete, Recorded;
    var pc := s.pcs[step.thread];
    assert Fits(step.thread, pc);
    StartedAfter(s.pool, step, pc);
    OutcomesAfter(s.pool, step, pc);
    ReceivedAfter(s.pool, step, pc);
  }

  /** After `Stop` has returned nothing is accepted, received, executed or called back. */
  lemma {:induction false} StoppedPoolStaysQuiet(s: State, steps: seq<Step>, t: State)
    requires Reachable(s) && Stopper in s.pcs && s.pcs[Stopper] == Returned && Run(s, steps, t)
    ensures t.pool.queue == s.pool.queue && t.pool.received == s.pool.received
    ensures t.pool.started == s.pool.started && t.pool.outcomes == s.pool.outcomes
    decreases |steps|
  {
    if steps != [] {
      hide Inv, Enabled, Apply, Reachable;
      ReachableInv(s);
      ReachableStep(s, steps[0]);
      QuietStep(s, steps[0]);
      StoppedPoolStaysQuiet(Apply(s, steps[0]), steps[1..], t);
    }
  }

  // ---------------------------------------------------------------------------
  // A submission that overlaps Stop

  ghost predicate SomeAdmitted(s: State) {
    exists t :: t in s.pcs && s.pcs[t] == Admitted
  }

  lemma NoneAdmittedStep(s: State, step: Step)
    requires Enabled(s, step) && Inv(s) && s.pool.stopped && !SomeAdmitted(s)
    ensures var s' := Apply(s, step); s'.pool.stopped && !SomeAdmitted(s') && !s'.pool.panicked
  {
    hide Conserved, MutuallyExclusive, CanProceed, TicketsOk, WorkersExited, HasStep, AllFit, StopOk;
    var pc := s.pcs[step.thread];
    assert pc != Admitted;
    StoppedAdmitsNone(s.pool, step, pc);
  }

  lemma StoppedAdmitsNone(pool: Pool, step: Step, pc: Pc)
    requires pool.stopped && pc != Admitted
    ensures NextPc(pool, step.thread, pc, step.choice) != Admitted
    ensures var next := NextPool(pool, step.thread, pc, step); next.stopped && next.panicked == pool.panicked
  {
  }

  lemma {:induction false} NoneAdmittedNeverPanics(s: State, steps: seq<Step>, t: State)
    requires Inv(s) && s.pool.stopped && !SomeAdmitted(s) && !s.pool.panicked && Run(s, steps, t)
    ensures !t.pool.panicked
    decreases |steps|
  {
    if steps != [] {
      hide Inv, Enabled, Apply, SomeAdmitted;
      StepInv(s, steps[0]);
      NoneAdmittedStep(s, steps[0]);
      NoneAdmittedNeverPanics(Apply(s, steps[0]), steps[1..], t);
    }
  }

  /** A step that needs no lock. */
  lemma FreeStep(s: State, t: Thread, choice: bool)
    requires !s.pool.panicked && t in s.pcs
    requires s.pcs[t] == InStop || s.pcs[t] == Flagged || s.pcs[t] == Cancelled || s.pcs[t] == Admitted
    ensures Enabled(s, Step(t, choice, 0, 0))
  {
  }

  /** How far `Stop` is from closing the queue. */
  function StepsToClose(pc: Pc): nat {
    if pc == InStop then 3 else if pc == Flagged then 2 else if pc == Cancelled then 1 else 0
  }

  lemma {:induction false} AdmittedCanPanic(s: State, t: Thread) returns (steps: seq<Step>, end: State)
    requires AllFit(s) && StopOk(s) && s.pool.stopped && !s.pool.panicked && t in s.pcs && s.pcs[t] == Admitted
    ensures Run(s, steps, end) && end.pool.panicked
    decreases StepsToClose(s.pcs[Stopper])
  {
    if s.pool.closed {
      FreeStep(s, t, true);
      end := Apply(s, Step(t, true, 0, 0));
      steps := [Step(t, true, 0, 0)];
      assert Run(end, steps[1..], end);
    } else {
      var stop := Step(Stopper, true, 0, 0);
      FreeStep(s, Stopper, true);
      var s1 := Apply(s, stop);
      StepAllFit(s, stop);
      StepStopOk(s, stop);
      hide AllFit, Enabled;
      var rest;
      rest, end := AdmittedCanPanic(s1, t);
      steps := [stop] + rest;
      assert steps[1..] == rest;
    }
  }

  /** Once `Stop` has set the flag, and until a panic, a submission can still meet the
      closed queue exactly when some submission passed the test of the flag before and
      has not sent its task yet. */
  lemma PanicNeedsAdmittedSubmission(s: State)
    requires Reachable(s) && s.pool.stopped && !s.pool.panicked
    ensures (exists steps, t :: Run(s, steps, t) && t.pool.panicked) <==> SomeAdmitted(s)
  {
    hide Reachable, Run, SomeAdmitted;
    ReachableInv(s);
    if SomeAdmitted(s) {
      var t := AdmittedThread(s);
      var steps, end := AdmittedCanPanic(s, t);
    } else {
      forall steps, t | Run(s, steps, t) ensures !t.pool.panicked {
        NoneAdmittedNeverPanics(s, steps, t);
      }
    }
  }

  ghost function AdmittedThread(s: State): (t: Thread)
    requires SomeAdmitted(s)
    ensures t in s.pcs && s.pcs[t] == Admitted
  {
    var t :| t in s.pcs && s.pcs[t] == Admitted;
    t
  }

  // ---------------------------------------------------------------------------
  // Workers serve until Stop

  /** Workers end only after the cancellation. */
  ghost predicate NoneEndedEarly(s: State) {
    forall t :: t in s.pcs && s.pcs[t] == Exited ==> s.pool.cancelled
  }

  lemma EndsWhenCancelled(pool: Pool, t: Thread, pc: Pc, choice: bool)
    requires HasStep(pool, t, pc, choice) && Fits(t, pc) && NextPc(pool, t, pc, choice) == Exited
    ensures pool.cancelled || pool.closed
  {
  }

  lemma CancelledStays(pool: Pool, step: Step, pc: Pc)
    ensures pool.cancelled ==> NextPool(pool, step.thread, pc, step).cancelled
  {
  }

  lemma StepServes(s: State, step: Step)
    requires Enabled(s, step) && AllFit(s) && StopOk(s) && NoneEndedEarly(s)
    ensures NoneEndedEarly(Apply(s, step))
  {
    var pc := s.pcs[step.thread];
    assert Fits(step.thread, pc) && (s.pool.closed ==> s.pool.cancelled);
    hide CanProceed, WorkersExited, HasStep, NextPc, NextPool, Fits, AllFit, StopOk;
    CancelledStays(s.pool, step, pc);
    if NextPc(s.pool, step.thread, pc, step.choice) == Exited {
      EndsWhenCancelled(s.pool, step.thread, pc, step.choice);
    }
  }

  lemma {:induction false} RunServes(s: State, steps: seq<Step>, t: State)
    requires Run(s, steps, t) && Inv(s) && NoneEndedEarly(s)
    ensures NoneEndedEarly(t)
    decreases |steps|
  {
    if steps != [] {
      InvParts(s);
      hide Inv, Enabled, Apply, NoneEndedEarly, AllFit, StopOk;
      StepInv(s, steps[0]);
      StepServes(s, steps[0]);
      RunServes(Apply(s, steps[0]), steps[1..], t);
    }
  }

  lemma InvParts(s: State)
    requires Inv(s)
    ensures AllFit(s) && StopOk(s) && Staffed(s)
  {
  }

  lemma ReachableServes(s: State)
    requires Reachable(s)
    ensures NoneEndedEarly(s) && Staffed(s) && StopOk(s)
  {
    hide NoneEndedEarly, Inv, Run, IsStart;
    var start, steps :| IsStart(start) && Run(start, steps, s);
    NoneEndedAtStart(start);
    StartInv(start);
    RunServes(start, steps, s);
    RunInv(start, steps, s);
    InvParts(s);
  }

  lemma NoneEndedAtStart(s: State)
    requires IsStart(s)
    ensures NoneEndedEarly(s)
  {
  }

  /** As long as `Stop` has not cancelled, all workers are there, and a worker at its turn
      can take a task whenever the queue has one, and cannot end. */
  lemma WorkersServeUntilStop(s: State, n: nat)
    requires Reachable(s) && !s.pool.panicked && !s.pool.cancelled && n < s.pool.workers
    ensures Worker(n) in s.pcs && s.pcs[Worker(n)] != Exited
    ensures s.pcs[Worker(n)] == Idle ==>
      && (Enabled(s, Step(Worker(n), true, 0, 0)) <==> s.pool.queue != []) && !Enabled(s, Step(Worker(n), false, 0, 0))
  {
    ReachableServes(s);
    hide Reachable, WorkersExited;
  }
}
