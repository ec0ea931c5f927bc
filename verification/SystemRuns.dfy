/** The scheduler and the worker pool together.  The threads of `PoolRuns` carry out the
    steps of `SchedulerRuns`: a thread leaves its section of the job lock with the step
    that it did there, and the loop submits the due jobs one by one in its section while
    workers already receive and execute them. */
module SystemRuns {
  import opened Wrappers
  import opened Cron
  import opened Jobs
  import opened SchedulerSpec
  import S = SchedulerRuns
  import P = PoolRuns
  import T = PoolTasks
  import L = LockWaits

  type Id = string

  /** The job that a task belongs to. */
  datatype Ticket = Ticket(id: Id, key: Key)

  datatype System = System(
    sched: S.State,
    pool: P.State,
    tickets: seq<Ticket>,    // the tasks that the pool accepted since it was started
    committed: nat,          // how many of them were accepted in sections that have ended
    todo: set<Id>,           // due jobs that the loop has not visited in its section
    visit: Option<Id>,       // the job that it is submitting
    refused: set<Id>,        // the jobs that the pool refused
    done: set<nat>,          // tasks whose callback has updated the job
    executed: multiset<Key>) // executions, over all restarts

  /** A pool whose callbacks take the job lock and to which only the loop submits. */
  ghost predicate IsPoolStart(q: P.State) {
    P.IsStart(q) && !q.pool.lockFree && forall t :: t in q.pcs ==> !t.Submitter?
  }

  ghost predicate IsStart(p: System) {
    && S.IsStart(p.sched) && IsPoolStart(p.pool)
    && p == System(p.sched, p.pool, [], 0, {}, None, {}, {}, multiset{})
  }

  /** The jobs accepted in the current section of the loop. */
  function Batch(p: System): set<Id> {
    set k | p.committed <= k < |p.tickets| :: p.tickets[k].id
  }

  function DueNow(p: System): set<Id> {
    if p.sched.loop.Firing? then Due(p.sched.data.mem, p.sched.loop.target) else {}
  }

  // ---------------------------------------------------------------------------
  // Steps

  datatype Step =
    | Outside(step: S.Step)              // the loop or the clock, without the job lock
    | Inside(move: P.Step)               // a move that leaves the jobs alone
    | Visit(move: P.Step, id: Id)        // the loop begins to submit a due job
    | Commit(move: P.Step, step: S.Step) // a section of the job lock ends
    | Restart(written: set<Id>, start: P.State)

  predicate IsOutside(step: S.Step) {
    step.Wake? || step.Fire? || step.ForceCheck? || step.Tick? || step.StopLoop?
  }

  /** The move ends a section of the job lock, or begins a submission in it. */
  predicate LeavesSection(t: P.Thread, pc: P.Pc) {
    pc == P.InJobs || pc.Calling?
  }

  /** The step of the scheduler that the section of this thread has done. */
  ghost predicate Does(p: System, move: P.Step, step: S.Step)
    requires move.thread in p.pool.pcs
  {
    var pc := p.pool.pcs[move.thread];
    match move.thread
    case Dispatcher =>
      pc == P.InJobs && !move.choice
      && if p.sched.loop.Firing? then step.Dispatch? && step.accepted == Batch(p) && p.todo == {} else step.FindNext?
    case Client(_) =>
      pc == P.InJobs && step.Schedule?
    case Worker(_) =>
      && pc.Calling? && pc.ticket < |p.tickets|
      && (if pc.ok then step.Succeed? else step.Fail?) && step.id == p.tickets[pc.ticket].id
    case _ => false
  }

  ghost predicate Enabled(p: System, step: Step) {
    match step
    case Outside(s) =>
      IsOutside(s) && S.Enabled(p.sched, s) && (s.StopLoop? ==> LoopIdle(p))
    case Inside(move) =>
      && P.Enabled(p.pool, move) && !LeavesSection(move.thread, p.pool.pcs[move.thread])
      && (move.thread == P.Dispatcher && LoopIdle(p) ==> p.sched.loop.Computing? || p.sched.loop.Firing?)
    case Visit(move, id) =>
      && P.Enabled(p.pool, move) && move.thread == P.Dispatcher && p.pool.pcs[P.Dispatcher] == P.InJobs && move.choice
      && p.sched.loop.Firing? && id in p.todo
    case Commit(move, s) =>
      P.Enabled(p.pool, move) && Does(p, move, s) && S.Enabled(p.sched, s)
    case Restart(written, start) =>
      IsPoolStart(start) && written <= Batch(p) && (p.sched.loop.Firing? ==> S.Enabled(p.sched, S.Dispatch(Batch(p), written)))
  }

  ghost predicate LoopIdle(p: System) {
    P.Dispatcher in p.pool.pcs && p.pool.pcs[P.Dispatcher] == P.Idle
  }

  function Refuse(p: System): System {
    p.(visit := None, refused := if p.visit.Some? then p.refused + {p.visit.value} else p.refused)
  }

  function Accept(p: System): System {
    if p.visit.Some? && p.visit.value in p.sched.data.mem then
      p.(visit := None, tickets := p.tickets + [Ticket(p.visit.value, p.sched.data.mem[p.visit.value].key)])
    else p
  }

  /** What a move means for the jobs: the loop enters its section, a submission is refused
      or accepted, or a task is executed. */
  function Noted(p: System, move: P.Step): System
    requires move.thread in p.pool.pcs
  {
    var pc := p.pool.pcs[move.thread];
    if pc.Starting? then
      (if pc.ticket < |p.tickets| then p.(executed := p.executed + multiset{p.tickets[pc.ticket].key}) else p)
    else if move.thread == P.Dispatcher && pc == P.WantJobs then p.(todo := DueNow(p), visit := None, refused := {})
    else if pc == P.InPool && p.pool.pool.stopped then Refuse(p)
    else if pc == P.Admitted && !p.pool.pool.closed then
      (if P.HasRoom(p.pool.pool) then Accept(p) else Refuse(p))
    else p
  }

  ghost function Apply(p: System, step: Step): System
    requires Enabled(p, step)
  {
    match step
    case Outside(s) => p.(sched := S.Apply(p.sched, s))
    case Inside(move) => Noted(p, move).(pool := P.Apply(p.pool, move))
    case Visit(move, id) => p.(pool := P.Apply(p.pool, move), todo := p.todo - {id}, visit := Some(id))
    case Commit(move, s) =>
      p.(pool := P.Apply(p.pool, move), sched := S.Apply(p.sched, s),
         committed := if move.thread == P.Dispatcher then |p.tickets| else p.committed,
         done := if move.thread.Worker? then p.done + {p.pool.pcs[move.thread].ticket} else p.done)
    case Restart(written, start) =>
      System(S.Apply(Crashed(p, written), S.Restart), start, [], 0, {}, None, {}, {}, p.executed)
  }

  /** A crash in the section of the loop leaves the jobs that it had submitted; the table
      has learned of some of them. */
  ghost function Crashed(p: System, written: set<Id>): S.State
    requires p.sched.loop.Firing? ==> S.Enabled(p.sched, S.Dispatch(Batch(p), written))
  {
    if p.sched.loop.Firing? then S.Apply(p.sched, S.Dispatch(Batch(p), written)) else p.sched
  }

  ghost predicate Run(p: System, steps: seq<Step>, q: System)
    decreases |steps|
  {
    if steps == [] then p == q
    else Enabled(p, steps[0]) && Run(Apply(p, steps[0]), steps[1..], q)
  }

  // ---------------------------------------------------------------------------
  // The two systems inside

  ghost predicate Base(p: System) {
    && S.Reachable(p.sched) && P.Reachable(p.pool) && P.Dispatcher in p.pool.pcs
    && !p.pool.pool.lockFree && forall t :: t in p.pool.pcs ==> !t.Submitter?
  }

  lemma PoolBase(q: P.State, move: P.Step)
    requires P.Reachable(q) && P.Enabled(q, move)
    ensures var q' := P.Apply(q, move);
      P.Reachable(q') && q'.pcs.Keys == q.pcs.Keys && q'.pool.lockFree == q.pool.lockFree
  {
    hide P.Reachable, P.NextPool, P.NextPc, P.CanProceed, P.HasStep, P.WorkersExited;
    P.ReachableStep(q, move);
    T.SettingsAfter(q.pool, move, q.pcs[move.thread]);
  }

  lemma StepBase(p: System, step: Step)
    requires Base(p) && Enabled(p, step)
    ensures Base(Apply(p, step))
  {
    hide S.Reachable, P.Reachable, S.Enabled, S.Apply, P.Enabled, P.Apply, Does, DueNow, Batch, P.IsStart;
    match step
    case Outside(s) => S.ReachableStep(p.sched, s);
    case Inside(move) => PoolBase(p.pool, move);
    case Visit(move, _) => PoolBase(p.pool, move);
    case Commit(move, s) =>
      PoolBase(p.pool, move);
      S.ReachableStep(p.sched, s);
    case Restart(written, start) =>
      if p.sched.loop.Firing? {
        S.ReachableStep(p.sched, S.Dispatch(Batch(p), written));
      }
      RestartEnabled(Crashed(p, written));
      S.ReachableStep(Crashed(p, written), S.Restart);
      PoolStartReachable(start);
  }

  lemma RestartEnabled(s: S.State)
    ensures S.Enabled(s, S.Restart)
  {
  }

  lemma PoolStartReachable(q: P.State)
    requires P.IsStart(q)
    ensures P.Reachable(q) && P.Dispatcher in q.pcs
  {
    assert P.Run(q, [], q);
  }

  // ---------------------------------------------------------------------------
  // Tickets and the section of the loop

  /** The loop is in a section of the job lock that dispatches. */
  ghost predicate InSection(p: System) {
    && p.sched.loop.Firing? && P.Dispatcher in p.pool.pcs
    && (p.pool.pcs[P.Dispatcher] == P.InJobs || P.InSubmit(p.pool.pcs[P.Dispatcher]))
  }

  ghost predicate TicketsMatch(p: System) {
    && |p.tickets| == p.pool.pool.accepted && p.committed <= |p.tickets|
    && (forall i, j :: p.committed <= i < j < |p.tickets| ==> p.tickets[i].id != p.tickets[j].id)
  }

  function Visited(visit: Option<Id>): set<Id> {
    if visit.Some? then {visit.value} else {}
  }

  /** Every due job is accepted, still to visit, refused or being submitted. */
  predicate Parts(due: set<Id>, batch: set<Id>, todo: set<Id>, refused: set<Id>, visit: set<Id>) {
    && due == batch + todo + refused + visit
    && batch !! todo && batch !! refused && batch !! visit && todo !! refused && todo !! visit && refused !! visit
  }

  predicate Submitting(pc: P.Pc) {
    pc == P.WantPool || pc == P.InPool || pc == P.Admitted
  }

  ghost predicate SectionOk(p: System)
    requires P.Dispatcher in p.pool.pcs
  {
    var pc := p.pool.pcs[P.Dispatcher];
    && (pc != P.Idle ==> p.sched.loop.Computing? || p.sched.loop.Firing?)
    && (P.InSubmit(pc) ==> p.sched.loop.Firing?)
    && if InSection(p) then
         && Parts(DueNow(p), Batch(p), p.todo, p.refused, Visited(p.visit))
         && (p.visit.Some? <==> Submitting(pc))
         && (forall k :: p.committed <= k < |p.tickets| ==>
               p.tickets[k].id in p.sched.data.mem && p.sched.data.mem[p.tickets[k].id].key == p.tickets[k].key)
       else p.committed == |p.tickets|
  }

  ghost predicate SameJobs(p: System, q: System) {
    && q.sched.loop == p.sched.loop && q.sched.data.mem == p.sched.data.mem
    && q.tickets == p.tickets && q.committed == p.committed
  }

  /** Moves of other threads do not touch what the section of the loop has done. */
  lemma OtherMove(p: System, move: P.Step)
    requires Base(p) && T.Inv(p.pool) && Enabled(p, Inside(move)) && move.thread != P.Dispatcher
    ensures var q := Apply(p, Inside(move));
      && SameJobs(p, q) && q.sched == p.sched && q.todo == p.todo && q.visit == p.visit && q.refused == p.refused
      && P.Dispatcher in q.pool.pcs && q.pool.pcs[P.Dispatcher] == p.pool.pcs[P.Dispatcher]
      && q.pool.pool.accepted == p.pool.pool.accepted
  {
    hide S.Reachable, P.Reachable, P.CanProceed, P.HasStep, P.WorkersExited, P.NextPc, P.NextPool, T.Staffed,
      P.MutuallyExclusive, P.Conserved, P.StopOk, T.TicketsOk, DueNow;
    var pc := p.pool.pcs[move.thread];
    assert P.Fits(move.thread, pc);
    T.AcceptedAfter(p.pool.pool, move, pc);
  }

  lemma SameSection(p: System, q: System)
    requires P.Dispatcher in p.pool.pcs && SectionOk(p) && SameJobs(p, q)
    requires q.todo == p.todo && q.visit == p.visit && q.refused == p.refused
    requires P.Dispatcher in q.pool.pcs && q.pool.pcs[P.Dispatcher] == p.pool.pcs[P.Dispatcher]
    ensures SectionOk(q)
  {
    assert Batch(q) == Batch(p);
    hide Parts;
  }

  // ---------------------------------------------------------------------------
  // The moves of the loop

  ghost predicate LoopMove(p: System, move: P.Step) {
    && Base(p) && Enabled(p, Inside(move)) && move.thread == P.Dispatcher && P.Fits(P.Dispatcher, p.pool.pcs[P.Dispatcher])
  }

  /** The loop comes to the job lock, or takes it and begins to visit the due jobs. */
  lemma LoopEnters(p: System, move: P.Step)
    requires LoopMove(p, move) && SectionOk(p) && TicketsMatch(p)
    requires p.pool.pcs[P.Dispatcher] == P.Idle || p.pool.pcs[P.Dispatcher] == P.WantJobs
    ensures SectionOk(Apply(p, Inside(move))) && TicketsMatch(Apply(p, Inside(move)))
  {
    hide S.Reachable, P.Reachable, P.CanProceed, P.WorkersExited;
    assert Batch(Apply(p, Inside(move))) == {};
  }

  /** The moves of a submission that neither accept nor refuse. */
  lemma LoopSubmits(p: System, move: P.Step)
    requires LoopMove(p, move) && SectionOk(p) && TicketsMatch(p)
    requires var pc := p.pool.pcs[P.Dispatcher];
      || pc == P.WantPool || pc == P.WantCount || pc == P.InCount || (pc == P.InPool && !p.pool.pool.stopped)
      || (pc == P.Admitted && p.pool.pool.closed)
    ensures SectionOk(Apply(p, Inside(move))) && TicketsMatch(Apply(p, Inside(move)))
  {
    hide S.Reachable, P.Reachable, P.CanProceed, P.WorkersExited, Parts;
    assert Batch(Apply(p, Inside(move))) == Batch(p);
  }

  predicate Refuses(p: System, pc: P.Pc) {
    || (pc == P.InPool && p.pool.pool.stopped)
    || (pc == P.Admitted && !p.pool.pool.closed && !P.HasRoom(p.pool.pool))
  }

  lemma LoopIsRefused(p: System, move: P.Step)
    requires LoopMove(p, move) && SectionOk(p) && TicketsMatch(p)
    requires Refuses(p, p.pool.pcs[P.Dispatcher])
    ensures SectionOk(Apply(p, Inside(move))) && TicketsMatch(Apply(p, Inside(move)))
    ensures Apply(p, Inside(move)).refused == p.refused + Visited(p.visit)
  {
    hide S.Reachable, P.Reachable, P.CanProceed, P.WorkersExited;
    hide SectionOk, TicketsMatch, DueNow;
    RefusedSection(p, Apply(p, Inside(move)));
  }

  lemma RefusedSection(p: System, q: System)
    requires P.Dispatcher in p.pool.pcs && Submitting(p.pool.pcs[P.Dispatcher]) && SectionOk(p) && TicketsMatch(p)
    requires P.Dispatcher in q.pool.pcs && q.pool.pcs[P.Dispatcher] == P.InJobs
    requires q.sched == p.sched && q.committed == p.committed && q.todo == p.todo && q.tickets == p.tickets
    requires q.visit == None && q.refused == p.refused + Visited(p.visit)
    requires q.pool.pool.accepted == p.pool.pool.accepted
    ensures SectionOk(q) && TicketsMatch(q)
  {
    assert Batch(q) == Batch(p) && DueNow(q) == DueNow(p);
    hide DueNow, Batch;
    RefusedParts(DueNow(p), Batch(p), p.todo, p.refused, Visited(p.visit));
    hide Parts;
  }

  lemma RefusedParts(due: set<Id>, batch: set<Id>, todo: set<Id>, refused: set<Id>, visit: set<Id>)
    requires Parts(due, batch, todo, refused, visit)
    ensures Parts(due, batch, todo, refused + visit, {})
  {
  }

  lemma LoopIsAccepted(p: System, move: P.Step)
    requires LoopMove(p, move) && SectionOk(p) && TicketsMatch(p)
    requires p.pool.pcs[P.Dispatcher] == P.Admitted && !p.pool.pool.closed
    requires P.HasRoom(p.pool.pool)
    ensures SectionOk(Apply(p, Inside(move))) && TicketsMatch(Apply(p, Inside(move)))
    ensures p.visit.Some? && p.visit.value in p.sched.data.mem
    ensures Apply(p, Inside(move)).tickets == p.tickets + [Ticket(p.visit.value, p.sched.data.mem[p.visit.value].key)]
  {
    hide S.Reachable, P.Reachable, P.CanProceed, P.WorkersExited;
    VisitIsDue(p);
    hide SectionOk, TicketsMatch, DueNow;
    AcceptedSection(p, Apply(p, Inside(move)), p.visit.value);
  }

  lemma VisitIsDue(p: System)
    requires P.Dispatcher in p.pool.pcs && SectionOk(p) && p.pool.pcs[P.Dispatcher] == P.Admitted
    ensures p.visit.Some? && p.visit.value in DueNow(p) && p.visit.value in p.sched.data.mem
  {
    assert p.visit.value in Visited(p.visit);
  }

  lemma AcceptedSection(p: System, q: System, id: Id)
    requires P.Dispatcher in p.pool.pcs && p.pool.pcs[P.Dispatcher] == P.Admitted && SectionOk(p) && TicketsMatch(p)
    requires P.Dispatcher in q.pool.pcs && q.pool.pcs[P.Dispatcher] == P.WantCount
    requires q.sched == p.sched && q.committed == p.committed && q.todo == p.todo && q.refused == p.refused
    requires p.visit == Some(id) && q.visit == None && id in p.sched.data.mem
    requires q.tickets == p.tickets + [Ticket(id, p.sched.data.mem[id].key)]
    requires q.pool.pool.accepted == p.pool.pool.accepted + 1
    ensures SectionOk(q) && TicketsMatch(q)
  {
    assert id in Visited(p.visit);
    AcceptedBatch(p, q, id);
    assert DueNow(q) == DueNow(p);
    hide DueNow, Batch;
    AcceptedParts(DueNow(p), Batch(p), p.todo, p.refused, id);
    hide Parts;
  }

  lemma AcceptedParts(due: set<Id>, batch: set<Id>, todo: set<Id>, refused: set<Id>, id: Id)
    requires Parts(due, batch, todo, refused, {id})
    ensures Parts(due, batch + {id}, todo, refused, {})
  {
  }

  lemma AcceptedBatch(p: System, q: System, id: Id)
    requires q.committed == p.committed <= |p.tickets| && id in p.sched.data.mem && id !in Batch(p)
    requires q.tickets == p.tickets + [Ticket(id, p.sched.data.mem[id].key)]
    ensures Batch(q) == Batch(p) + {id}
    ensures forall i :: p.committed <= i < |p.tickets| ==> q.tickets[i] == p.tickets[i] && q.tickets[i].id != id
  {
    assert q.tickets[|p.tickets|].id == id;
    forall i | p.committed <= i < |p.tickets| ensures q.tickets[i] == p.tickets[i] && q.tickets[i].id != id {
      assert p.tickets[i].id in Batch(p);
    }
    forall x | x in Batch(p) ensures x in Batch(q) {
      var k :| p.committed <= k < |p.tickets| && p.tickets[k].id == x;
      assert q.tickets[k].id == x;
    }
  }

  lemma InsideSection(p: System, move: P.Step)
    requires Base(p) && T.Inv(p.pool) && Enabled(p, Inside(move)) && SectionOk(p) && TicketsMatch(p)
    ensures SectionOk(Apply(p, Inside(move))) && TicketsMatch(Apply(p, Inside(move)))
  {
    var pc := p.pool.pcs[move.thread];
    assert P.Fits(move.thread, pc);
    if move.thread != P.Dispatcher {
      hide Base, T.Inv, Apply, Enabled, SectionOk, TicketsMatch;
      OtherMove(p, move);
      SameSection(p, Apply(p, Inside(move)));
      SameTickets(p, Apply(p, Inside(move)));
    } else {
      assert LoopMove(p, move);
      hide *;
      LoopSection(p, move);
    }
  }

  lemma SameTickets(p: System, q: System)
    requires TicketsMatch(p) && SameJobs(p, q) && q.pool.pool.accepted == p.pool.pool.accepted
    ensures TicketsMatch(q)
  {
  }

  lemma LoopSection(p: System, move: P.Step)
    requires LoopMove(p, move) && SectionOk(p) && TicketsMatch(p)
    ensures SectionOk(Apply(p, Inside(move))) && TicketsMatch(Apply(p, Inside(move)))
  {
    var pc := p.pool.pcs[P.Dispatcher];
    hide Base, SectionOk, TicketsMatch, Apply, Enabled, LoopMove, P.Enabled, P.Apply;
    if pc == P.Idle || pc == P.WantJobs {
      LoopEnters(p, move);
    } else if Refuses(p, pc) {
      LoopIsRefused(p, move);
    } else if pc == P.Admitted && !p.pool.pool.closed {
      LoopIsAccepted(p, move);
    } else {
      LoopPlace(p, move);
      LoopSubmits(p, move);
    }
  }

  lemma LoopPlace(p: System, move: P.Step)
    requires LoopMove(p, move)
    ensures var pc := p.pool.pcs[P.Dispatcher]; pc == P.Idle || pc == P.WantJobs || P.InSubmit(pc)
  {
    hide S.Reachable, P.Reachable, P.CanProceed, P.WorkersExited, P.HasStep;
  }

  // ---------------------------------------------------------------------------
  // The other steps and the section

  ghost predicate SectionAndTickets(p: System) {
    P.Dispatcher in p.pool.pcs && SectionOk(p) && TicketsMatch(p)
  }

  lemma OutsideSection(p: System, step: Step)
    requires step.Outside? && Enabled(p, step) && Base(p) && SectionAndTickets(p)
    ensures SectionAndTickets(Apply(p, step))
  {
    hide S.Reachable, P.Reachable, Parts;
    assert Batch(Apply(p, step)) == Batch(p);
  }

  lemma VisitSection(p: System, step: Step)
    requires step.Visit? && Enabled(p, step) && Base(p) && SectionAndTickets(p)
    ensures SectionAndTickets(Apply(p, step))
  {
    hide S.Reachable, P.Reachable, P.CanProceed, P.WorkersExited;
    hide SectionOk, TicketsMatch, DueNow;
    VisitingSection(p, Apply(p, step), step.id);
  }

  lemma VisitingSection(p: System, q: System, id: Id)
    requires P.Dispatcher in p.pool.pcs && p.pool.pcs[P.Dispatcher] == P.InJobs && p.sched.loop.Firing?
    requires SectionOk(p) && TicketsMatch(p) && id in p.todo
    requires P.Dispatcher in q.pool.pcs && q.pool.pcs[P.Dispatcher] == P.WantPool
    requires q.sched == p.sched && q.committed == p.committed && q.tickets == p.tickets && q.refused == p.refused
    requires q.todo == p.todo - {id} && q.visit == Some(id) && q.pool.pool.accepted == p.pool.pool.accepted
    ensures SectionOk(q) && TicketsMatch(q)
  {
    assert Batch(q) == Batch(p) && DueNow(q) == DueNow(p);
    hide DueNow, Batch;
    VisitedParts(DueNow(p), Batch(p), p.todo, p.refused, id);
    hide Parts;
  }

  lemma VisitedParts(due: set<Id>, batch: set<Id>, todo: set<Id>, refused: set<Id>, id: Id)
    requires Parts(due, batch, todo, refused, {}) && id in todo
    ensures Parts(due, batch, todo - {id}, refused, {id})
  {
  }

  lemma RestartSection(p: System, step: Step)
    requires step.Restart? && Enabled(p, step) && Base(p) && SectionAndTickets(p)
    ensures SectionAndTickets(Apply(p, step))
  {
    hide S.Reachable, P.Reachable, P.CanProceed, P.WorkersExited, Parts, SectionOk, TicketsMatch, Base;
    var q := Apply(p, step);
    RestartLoop(Crashed(p, step.written));
    FreshSection(q);
  }

  lemma RestartLoop(s: S.State)
    ensures S.Apply(s, S.Restart).loop.Computing?
  {
  }

  lemma FreshSection(q: System)
    requires P.IsStart(q.pool) && q.tickets == [] && q.committed == 0 && q.sched.loop.Computing?
    ensures SectionAndTickets(q)
  {
  }

  /** The loop ends its section. */
  lemma CommitOfLoop(p: System, move: P.Step, step: S.Step)
    requires Enabled(p, Commit(move, step)) && move.thread == P.Dispatcher && Base(p) && SectionAndTickets(p)
    ensures SectionAndTickets(Apply(p, Commit(move, step)))
  {
    hide S.Reachable, P.Reachable, P.CanProceed, P.WorkersExited, Parts;
  }

  /** A thread that ends its section of the job lock excludes the loop from one. */
  lemma LoopExcluded(q: P.State, t: P.Thread)
    requires P.MutuallyExclusive(q) && t in q.pcs && P.Dispatcher in q.pcs && t != P.Dispatcher
    requires (t.Client? && q.pcs[t] == P.InJobs) || q.pcs[t].Calling?
    ensures var pc := q.pcs[P.Dispatcher]; pc != P.InJobs && !P.InSubmit(pc)
  {
    assert P.Held(t, q.pcs[t], P.JobMu) == Some(P.Exclusive);
    assert !P.Blocks(q, P.Dispatcher, P.JobMu, P.Exclusive);
  }

  lemma JobStepKeepsLoop(s: S.State, step: S.Step)
    requires S.Enabled(s, step) && (step.Schedule? || step.Succeed? || step.Fail?)
    ensures S.Apply(s, step).loop == s.loop && S.Apply(s, step).h.dispatches == s.h.dispatches
  {
    hide Scheduled, CalledBack, ScheduleHalts, NextRunTime;
  }

  /** A caller or a worker ends its section. */
  lemma CommitOfOther(p: System, move: P.Step, step: S.Step)
    requires Enabled(p, Commit(move, step)) && move.thread != P.Dispatcher
    requires Base(p) && SectionAndTickets(p) && T.Inv(p.pool)
    ensures SectionAndTickets(Apply(p, Commit(move, step))) && !InSection(p)
    ensures Apply(p, Commit(move, step)).pool.pool.accepted == p.pool.pool.accepted
  {
    hide S.Reachable, P.Reachable, P.CanProceed, P.WorkersExited, P.HasStep, Parts, S.Apply, S.Enabled, P.NextPc, P.NextPool,
      T.Staffed, P.AllFit, P.Conserved, P.StopOk, T.TicketsOk, P.MutuallyExclusive;
    LoopExcluded(p.pool, move.thread);
    JobStepKeepsLoop(p.sched, step);
    T.AcceptedAfter(p.pool.pool, move, p.pool.pcs[move.thread]);
  }

  lemma StepSection(p: System, step: Step)
    requires Enabled(p, step) && Base(p) && SectionAndTickets(p) && T.Inv(p.pool)
    ensures SectionAndTickets(Apply(p, step))
  {
    match step
    case Outside(_) =>
      hide *;
      OutsideSection(p, step);
    case Inside(move) =>
      InsideSection(p, move);
      hide SectionOk, TicketsMatch;
      StepBase(p, step);
    case Visit(_, _) =>
      hide *;
      VisitSection(p, step);
    case Commit(move, s) =>
      hide *;
      if move.thread == P.Dispatcher {
        CommitOfLoop(p, move, s);
      } else {
        CommitOfOther(p, move, s);
      }
    case Restart(_, _) =>
      hide *;
      RestartSection(p, step);
  }

  // ---------------------------------------------------------------------------
  // Outstanding tasks

  /** The tasks of a job whose section has ended and that have not updated the job. */
  function Live(p: System, id: Id): set<nat> {
    set k: nat | k < p.committed && k < |p.tickets| && k !in p.done && p.tickets[k].id == id
  }

  ghost predicate InCallback(q: P.State, k: nat) {
    exists t :: t in q.pcs && q.pcs[t].Calling? && q.pcs[t].ticket == k
  }

  /** The outstanding tasks of the scheduler are the tasks of the pool.  A callback that has
      begun and not updated its job is at work in a thread. */
  ghost predicate TasksOk(p: System) {
    && (forall id :: p.sched.tasks[id] == |Live(p, id)|)
    && (forall k :: k in p.done ==> k < p.committed && k in p.pool.pool.outcomes)
    && (forall k :: k in p.pool.pool.outcomes && k !in p.done ==> InCallback(p.pool, k))
    && (forall t :: t in p.pool.pcs && p.pool.pcs[t].Calling? ==>
          p.pool.pcs[t].ticket < p.committed && p.pool.pcs[t].ticket !in p.done)
  }

  ghost predicate Inv(p: System) {
    Base(p) && SectionAndTickets(p) && TasksOk(p) && ExecutionsOk(p)
  }

  // ---------------------------------------------------------------------------
  // Executions

  /** The tasks of a key that were accepted and not executed. */
  function Unstarted(p: System, key: Key): set<nat> {
    set k: nat | k < |p.tickets| && k !in p.pool.pool.started && p.tickets[k].key == key
  }

  /** The tasks of a key that were accepted in the current section. */
  function Uncommitted(p: System, key: Key): set<nat> {
    set k: nat | p.committed <= k < |p.tickets| && p.tickets[k].key == key
  }

  /** Executions, done and to come, are paid for by dispatches, done or in progress. */
  ghost predicate ExecutionsOk(p: System) {
    forall key :: Paid(p, key)
  }

  ghost predicate Paid(p: System, key: Key) {
    p.executed[key] + |Unstarted(p, key)| <= p.sched.h.dispatches[key] + |Uncommitted(p, key)|
  }

  // ---------------------------------------------------------------------------
  // Steps and outstanding tasks

  /** Nothing that counts for the outstanding tasks has changed. */
  ghost predicate SameTasks(p: System, q: System) {
    && q.sched.tasks == p.sched.tasks && q.committed == p.committed && q.done == p.done
    && q.pool.pool.outcomes == p.pool.pool.outcomes
    && p.committed <= |p.tickets| <= |q.tickets| && q.tickets[..|p.tickets|] == p.tickets
    && (forall t :: t in p.pool.pcs && p.pool.pcs[t].Calling? ==> t in q.pool.pcs && q.pool.pcs[t] == p.pool.pcs[t])
    && (forall t :: t in q.pool.pcs && q.pool.pcs[t].Calling? ==> t in p.pool.pcs && q.pool.pcs[t] == p.pool.pcs[t])
  }

  lemma SameTasksOk(p: System, q: System)
    requires SameTasks(p, q) && TasksOk(p)
    ensures TasksOk(q)
  {
    forall id ensures Live(q, id) == Live(p, id) {
      assert forall k: nat :: k < p.committed ==> q.tickets[k] == p.tickets[k];
    }
    forall k | k in q.pool.pool.outcomes && k !in q.done ensures InCallback(q.pool, k) {
      assert InCallback(p.pool, k);
    }
  }

  lemma OutsideTasks(s: S.State, step: S.Step)
    requires IsOutside(step) && S.Enabled(s, step)
    ensures S.Apply(s, step).tasks == s.tasks && S.Apply(s, step).h.dispatches == s.h.dispatches
  {
  }

  lemma QuietCommitTasks(s: S.State, step: S.Step)
    requires S.Enabled(s, step) && (step.Schedule? || step.FindNext?)
    ensures S.Apply(s, step).tasks == s.tasks && S.Apply(s, step).h.dispatches == s.h.dispatches
  {
    hide Scheduled, ScheduleHalts;
  }

  lemma CallbackTasks(s: S.State, step: S.Step)
    requires S.Enabled(s, step) && (step.Succeed? || step.Fail?) && IdsMatch(s.data.mem)
    ensures S.Apply(s, step).tasks == s.tasks - multiset{step.id}
  {
    hide CalledBack, ScheduleHalts, NextRunTime;
    assert s.data.mem[step.id].id == step.id;
  }

  /** The places that the move takes a thread from and to. */
  predicate CallsBack(pc: P.Pc) {
    pc.Finishing? || pc.Calling?
  }

  lemma CallingAfter(pool: P.Pool, t: P.Thread, pc: P.Pc, choice: bool)
    requires P.HasStep(pool, t, pc, choice) && !pool.lockFree
    ensures P.NextPc(pool, t, pc, choice).Calling? <==> pc.Finishing?
    ensures pc.Finishing? ==> P.NextPc(pool, t, pc, choice).ticket == pc.ticket
  {
  }

  /** A move of the pool that is no part of a callback. */
  lemma PlainMove(p: System, q: System, move: P.Step)
    requires P.Enabled(p.pool, move) && !CallsBack(p.pool.pcs[move.thread]) && !p.pool.pool.lockFree
    requires q.pool == P.Apply(p.pool, move)
    requires q.sched.tasks == p.sched.tasks && q.committed == p.committed <= |p.tickets| && q.done == p.done
    requires |p.tickets| <= |q.tickets| && q.tickets[..|p.tickets|] == p.tickets
    ensures SameTasks(p, q)
  {
    hide P.CanProceed, P.WorkersExited, P.HasStep, P.NextPc, P.NextPool;
    var pc := p.pool.pcs[move.thread];
    CallingAfter(p.pool.pool, move.thread, pc, move.choice);
    T.OutcomesAfter(p.pool.pool, move, pc);
  }

  /** A callback takes the job lock and begins. */
  lemma CallbackBegins(p: System, move: P.Step)
    requires Enabled(p, Inside(move)) && p.pool.pcs[move.thread].Finishing?
    requires Base(p) && SectionAndTickets(p) && T.Inv(p.pool) && TasksOk(p)
    ensures TasksOk(Apply(p, Inside(move)))
  {
    hide S.Reachable, P.Reachable, P.WorkersExited, P.NextPc, P.NextPool, P.HasStep, T.Staffed, P.Conserved, P.StopOk,
      P.CanProceed, T.Complete, T.Recorded, P.MutuallyExclusive, P.AllFit, T.DistinctTickets, SectionOk;
    var q := Apply(p, Inside(move));
    var pc := p.pool.pcs[move.thread];
    assert T.TicketOk(p.pool.pool, pc);
    CallingAfter(p.pool.pool, move.thread, pc, move.choice);
    T.OutcomesAfter(p.pool.pool, move, pc);
    LoopOut(p, move);
    forall id ensures Live(q, id) == Live(p, id) {
    }
    forall k | k in q.pool.pool.outcomes && k !in q.done ensures InCallback(q.pool, k) {
      if k == pc.ticket {
        assert q.pool.pcs[move.thread].Calling?;
      } else {
        assert InCallback(p.pool, k);
        var t :| t in p.pool.pcs && p.pool.pcs[t].Calling? && p.pool.pcs[t].ticket == k;
        assert q.pool.pcs[t] == p.pool.pcs[t];
      }
    }
  }

  lemma LoopOut(p: System, move: P.Step)
    requires Enabled(p, Inside(move)) && p.pool.pcs[move.thread].Finishing?
    requires Base(p) && SectionAndTickets(p) && T.Inv(p.pool)
    ensures p.committed == |p.tickets|
  {
    hide S.Reachable, P.Reachable, P.WorkersExited, P.NextPc, P.NextPool, P.HasStep, T.Staffed, P.Conserved, P.StopOk,
      T.TicketsOk, Parts, DueNow;
    assert P.Fits(move.thread, p.pool.pcs[move.thread]);
    assert !P.Blocks(p.pool, P.Dispatcher, P.JobMu, P.Exclusive);
  }

  /** The task of this thread has updated its job. */
  lemma TaskDone(p: System, q: System, t: P.Thread, k: nat)
    requires TasksOk(p) && k < p.committed <= |p.tickets| && q.tickets == p.tickets && q.committed == p.committed
    requires q.done == p.done + {k} && q.sched.tasks == p.sched.tasks - multiset{p.tickets[k].id}
    requires k in p.pool.pool.outcomes && q.pool.pool.outcomes == p.pool.pool.outcomes
    requires t in p.pool.pcs && p.pool.pcs[t].Calling? && p.pool.pcs[t].ticket == k
    requires q.pool.pcs.Keys == p.pool.pcs.Keys && !q.pool.pcs[t].Calling?
    requires forall u :: u in p.pool.pcs && u != t ==>
               q.pool.pcs[u] == p.pool.pcs[u] && (p.pool.pcs[u].Calling? ==> p.pool.pcs[u].ticket != k)
    ensures TasksOk(q)
  {
    forall id ensures q.sched.tasks[id] == |Live(q, id)| {
      LiveWithout(p, q, k, id);
      assert p.sched.tasks[id] == |Live(p, id)|;
    }
    forall j | j in q.pool.pool.outcomes && j !in q.done ensures InCallback(q.pool, j) {
      assert InCallback(p.pool, j);
      var u :| u in p.pool.pcs && p.pool.pcs[u].Calling? && p.pool.pcs[u].ticket == j;
      assert q.pool.pcs[u] == p.pool.pcs[u];
    }
  }

  lemma LiveWithout(p: System, q: System, k: nat, id: Id)
    requires k < p.committed <= |p.tickets| && q.tickets == p.tickets && q.committed == p.committed
    requires k !in p.done && q.done == p.done + {k}
    ensures |Live(q, id)| == |Live(p, id)| - if id == p.tickets[k].id then 1 else 0
  {
    if id == p.tickets[k].id {
      assert k in Live(p, id) && Live(q, id) == Live(p, id) - {k};
    } else {
      assert Live(q, id) == Live(p, id);
    }
  }

  /** A callback updates its job and leaves its section. */
  lemma CallbackEnds(p: System, move: P.Step, step: S.Step)
    requires Enabled(p, Commit(move, step)) && p.pool.pcs[move.thread].Calling?
    requires Base(p) && SectionAndTickets(p) && T.Inv(p.pool) && TasksOk(p) && IdsMatch(p.sched.data.mem)
    ensures TasksOk(Apply(p, Commit(move, step)))
  {
    hide S.Reachable, P.Reachable, P.WorkersExited, P.NextPc, P.NextPool, P.HasStep, T.Staffed, P.Conserved, P.StopOk,
      P.CanProceed, T.Complete, T.Recorded, P.MutuallyExclusive, S.Enabled, S.Apply, SectionOk, T.QueueOk, Live;
    var q := Apply(p, Commit(move, step));
    var pc := p.pool.pcs[move.thread];
    assert P.Fits(move.thread, pc);
    hide P.AllFit;
    CallingTicket(p, move.thread);
    CallingAfter(p.pool.pool, move.thread, pc, move.choice);
    T.OutcomesAfter(p.pool.pool, move, pc);
    CallbackTasks(p.sched, step);
    hide T.DistinctTickets, T.TicketOk, TasksOk;
    TaskDone(p, q, move.thread, pc.ticket);
  }

  lemma CallingTicket(p: System, t: P.Thread)
    requires T.TicketsOk(p.pool) && TasksOk(p) && t in p.pool.pcs && p.pool.pcs[t].Calling?
    ensures p.pool.pcs[t].ticket in p.pool.pool.outcomes && p.pool.pcs[t].ticket < p.committed
    ensures forall u :: u in p.pool.pcs && u != t && p.pool.pcs[u].Calling? ==> p.pool.pcs[u].ticket != p.pool.pcs[t].ticket
  {
    assert T.TicketOk(p.pool.pool, p.pool.pcs[t]);
  }

  lemma DispatchTasks(s: S.State, step: S.Step)
    requires S.Enabled(s, step) && step.Dispatch?
    ensures var t := S.Apply(s, step);
      && t.tasks == s.tasks + multiset(step.accepted)
      && t.h.dispatches == s.h.dispatches + multiset(S.KeysOf(s.data.mem, step.accepted))
  {
    hide Dispatched, Due;
  }

  /** With distinct jobs in the section, each has one task there. */
  lemma BatchTasks(p: System, id: Id) returns (more: set<nat>)
    requires TicketsMatch(p)
    ensures more == set k: nat | p.committed <= k < |p.tickets| && p.tickets[k].id == id
    ensures |more| == if id in Batch(p) then 1 else 0
  {
    more := set k: nat | p.committed <= k < |p.tickets| && p.tickets[k].id == id;
    if id in Batch(p) {
      var k :| p.committed <= k < |p.tickets| && p.tickets[k].id == id;
      assert more == {k};
    } else {
      assert more == {};
    }
  }

  lemma LiveWithBatch(p: System, q: System, id: Id)
    requires TicketsMatch(p) && q.tickets == p.tickets && q.committed == |p.tickets| && q.done == p.done
    requires forall k :: k in p.done ==> k < p.committed
    ensures |Live(q, id)| == |Live(p, id)| + if id in Batch(p) then 1 else 0
  {
    var more := BatchTasks(p, id);
    assert Live(q, id) == Live(p, id) + more;
    assert Live(p, id) !! more;
  }

  /** The loop ends a section in which it dispatched. */
  lemma TasksDispatched(p: System, q: System)
    requires TasksOk(p) && TicketsMatch(p)
    requires q.tickets == p.tickets && q.committed == |p.tickets| && q.done == p.done
    requires q.sched.tasks == p.sched.tasks + multiset(Batch(p))
    requires q.pool.pool.outcomes == p.pool.pool.outcomes
    requires forall t :: t in p.pool.pcs && p.pool.pcs[t].Calling? ==> t in q.pool.pcs && q.pool.pcs[t] == p.pool.pcs[t]
    requires forall t :: t in q.pool.pcs && q.pool.pcs[t].Calling? ==> t in p.pool.pcs && q.pool.pcs[t] == p.pool.pcs[t]
    ensures TasksOk(q)
  {
    forall id ensures q.sched.tasks[id] == |Live(q, id)| {
      LiveWithBatch(p, q, id);
      assert p.sched.tasks[id] == |Live(p, id)|;
    }
    hide Live;
    forall k | k in q.pool.pool.outcomes && k !in q.done ensures InCallback(q.pool, k) {
      assert InCallback(p.pool, k);
    }
  }

  lemma LoopCommitTasks(p: System, move: P.Step, step: S.Step)
    requires Enabled(p, Commit(move, step)) && move.thread == P.Dispatcher
    requires Base(p) && SectionAndTickets(p) && TasksOk(p)
    ensures TasksOk(Apply(p, Commit(move, step)))
  {
    hide S.Reachable, P.Reachable, P.WorkersExited, P.NextPc, P.NextPool, P.HasStep, P.CanProceed, S.Enabled, S.Apply,
      Parts, DueNow, Live, Batch;
    var q := Apply(p, Commit(move, step));
    var pc := p.pool.pcs[move.thread];
    CallingAfter(p.pool.pool, move.thread, pc, move.choice);
    T.OutcomesAfter(p.pool.pool, move, pc);
    if p.sched.loop.Firing? {
      DispatchTasks(p.sched, step);
      hide SectionOk, TasksOk, TicketsMatch;
      TasksDispatched(p, q);
    } else {
      QuietCommitTasks(p.sched, step);
      assert SameTasks(p, q);
      SameTasksOk(p, q);
    }
  }

  lemma FreshTasks(q: System)
    requires P.IsStart(q.pool) && q.tickets == [] && q.committed == 0 && q.done == {} && q.sched.tasks == multiset{}
    ensures TasksOk(q)
  {
    assert forall id :: Live(q, id) == {};
  }

  lemma RestartTasks(s: S.State)
    ensures S.Apply(s, S.Restart).tasks == multiset{} && S.Apply(s, S.Restart).h.dispatches == s.h.dispatches
  {
  }

  lemma NotedTickets(p: System, move: P.Step)
    requires move.thread in p.pool.pcs
    ensures var q := Noted(p, move);
      && q.sched == p.sched && q.committed == p.committed && q.done == p.done
      && |p.tickets| <= |q.tickets| && q.tickets[..|p.tickets|] == p.tickets
  {
  }

  lemma StepTasks(p: System, step: Step)
    requires Enabled(p, step) && Base(p) && SectionAndTickets(p) && T.Inv(p.pool) && TasksOk(p) && IdsMatch(p.sched.data.mem)
    ensures TasksOk(Apply(p, step))
  {
    hide S.Reachable, P.Reachable, S.Enabled, S.Apply, P.CanProceed, P.HasStep, P.WorkersExited, P.Apply, T.Inv, TasksOk,
      SectionOk, Noted, Batch, P.IsStart;
    var q := Apply(p, step);
    match step
    case Outside(s) =>
      OutsideTasks(p.sched, s);
      assert SameTasks(p, q);
      SameTasksOk(p, q);
    case Inside(move) =>
      NotedTickets(p, move);
      if p.pool.pcs[move.thread].Finishing? {
        CallbackBegins(p, move);
      } else {
        PlainMove(p, q, move);
        SameTasksOk(p, q);
      }
    case Visit(move, _) =>
      PlainMove(p, q, move);
      SameTasksOk(p, q);
    case Commit(move, s) =>
      if move.thread == P.Dispatcher {
        LoopCommitTasks(p, move, s);
      } else if move.thread.Worker? {
        CallbackEnds(p, move, s);
      } else {
        QuietCommitTasks(p.sched, s);
        PlainMove(p, q, move);
        SameTasksOk(p, q);
      }
    case Restart(written, start) =>
      RestartTasks(Crashed(p, written));
      FreshTasks(q);
  }

  // ---------------------------------------------------------------------------
  // Steps and executions

  /** Nothing that counts for the executions has changed. */
  lemma SameExecutions(p: System, q: System, key: Key)
    requires Paid(p, key) && q.executed == p.executed && q.tickets == p.tickets && q.committed == p.committed
    requires q.pool.pool.started == p.pool.pool.started && q.sched.h.dispatches == p.sched.h.dispatches
    ensures Paid(q, key)
  {
    assert Unstarted(q, key) == Unstarted(p, key) && Uncommitted(q, key) == Uncommitted(p, key);
  }

  /** A task is executed. */
  lemma TaskExecuted(p: System, q: System, k: nat, key: Key)
    requires Paid(p, key) && k < |p.tickets| && k !in p.pool.pool.started
    requires q.executed == p.executed + multiset{p.tickets[k].key} && q.tickets == p.tickets && q.committed == p.committed
    requires q.pool.pool.started == p.pool.pool.started + {k} && q.sched.h.dispatches == p.sched.h.dispatches
    ensures Paid(q, key)
  {
    assert Uncommitted(q, key) == Uncommitted(p, key);
    if p.tickets[k].key == key {
      assert k in Unstarted(p, key) && Unstarted(q, key) == Unstarted(p, key) - {k};
    } else {
      assert Unstarted(q, key) == Unstarted(p, key);
    }
  }

  /** A task is accepted. */
  lemma TaskAccepted(p: System, q: System, ticket: Ticket, key: Key)
    requires Paid(p, key) && q.tickets == p.tickets + [ticket] && q.committed == p.committed <= |p.tickets|
    requires q.executed == p.executed && q.sched.h.dispatches == p.sched.h.dispatches
    requires q.pool.pool.started == p.pool.pool.started && |p.tickets| !in p.pool.pool.started
    ensures Paid(q, key)
  {
    UnstartedAccepts(p, q, ticket, key);
    UncommittedAccepts(p, q, ticket, key);
    hide Unstarted, Uncommitted;
  }

  lemma UnstartedAccepts(p: System, q: System, ticket: Ticket, key: Key)
    requires q.tickets == p.tickets + [ticket] && q.pool.pool.started == p.pool.pool.started
    requires |p.tickets| !in p.pool.pool.started
    ensures |Unstarted(q, key)| == |Unstarted(p, key)| + if ticket.key == key then 1 else 0
  {
    var n := |p.tickets|;
    if ticket.key == key {
      assert Unstarted(q, key) == Unstarted(p, key) + {n};
    } else {
      assert Unstarted(q, key) == Unstarted(p, key);
    }
  }

  lemma UncommittedAccepts(p: System, q: System, ticket: Ticket, key: Key)
    requires q.tickets == p.tickets + [ticket] && q.committed == p.committed <= |p.tickets|
    ensures |Uncommitted(q, key)| == |Uncommitted(p, key)| + if ticket.key == key then 1 else 0
  {
    var n := |p.tickets|;
    if ticket.key == key {
      assert Uncommitted(q, key) == Uncommitted(p, key) + {n};
    } else {
      assert Uncommitted(q, key) == Uncommitted(p, key);
    }
  }

  /** Jobs with different ids have different keys, so a section dispatches a key once. */
  lemma UncommittedIsOne(p: System, key: Key)
    requires TicketsMatch(p) && TableValid(p.sched.data.mem)
    requires forall k :: p.committed <= k < |p.tickets| ==>
               p.tickets[k].id in p.sched.data.mem && p.sched.data.mem[p.tickets[k].id].key == p.tickets[k].key
    ensures |Uncommitted(p, key)| == if key in S.KeysOf(p.sched.data.mem, Batch(p)) then 1 else 0
  {
    var keys := S.KeysOf(p.sched.data.mem, Batch(p));
    forall j | j in Uncommitted(p, key) ensures key in keys {
      assert p.tickets[j].id in Batch(p);
    }
    if key in keys {
      var id :| id in Batch(p) && id in p.sched.data.mem && p.sched.data.mem[id].key == key;
      var k: nat :| p.committed <= k < |p.tickets| && p.tickets[k].id == id;
      forall j | j in Uncommitted(p, key) ensures j == k {
        assert p.sched.data.mem[p.tickets[j].id].key == key;
      }
      assert Uncommitted(p, key) == {k};
    } else {
      assert Uncommitted(p, key) == {};
    }
  }

  /** The loop ends a section in which it dispatched. */
  lemma SectionPaid(p: System, q: System, key: Key)
    requires Paid(p, key) && TicketsMatch(p) && TableValid(p.sched.data.mem)
    requires forall k :: p.committed <= k < |p.tickets| ==>
               p.tickets[k].id in p.sched.data.mem && p.sched.data.mem[p.tickets[k].id].key == p.tickets[k].key
    requires q.sched.h.dispatches == p.sched.h.dispatches + multiset(S.KeysOf(p.sched.data.mem, Batch(p)))
    requires q.executed == p.executed && q.tickets == p.tickets && q.committed == |p.tickets|
    requires q.pool.pool.started == p.pool.pool.started
    ensures Paid(q, key)
  {
    UncommittedIsOne(p, key);
    assert Unstarted(q, key) == Unstarted(p, key) && Uncommitted(q, key) == {};
  }

  /** A restart gives up the tasks that were not executed. */
  lemma RestartPaid(p: System, q: System, key: Key)
    requires Paid(p, key) && q.executed == p.executed && q.tickets == [] && q.committed == 0
    requires p.sched.h.dispatches[key] + |Uncommitted(p, key)| <= q.sched.h.dispatches[key]
    ensures Paid(q, key)
  {
    assert Unstarted(q, key) == {} && Uncommitted(q, key) == {};
  }

  lemma NothingUncommitted(p: System, key: Key)
    requires p.committed == |p.tickets|
    ensures Uncommitted(p, key) == {}
  {
  }

  lemma PoolStarted(q: P.State, move: P.Step)
    requires P.Enabled(q, move)
    ensures var pc := q.pcs[move.thread];
      P.Apply(q, move).pool.started == if pc.Starting? then q.pool.started + {pc.ticket} else q.pool.started
  {
    hide P.CanProceed, P.HasStep, P.WorkersExited, P.NextPc, P.NextPool;
    T.StartedAfter(q.pool, move, q.pcs[move.thread]);
  }

  lemma InsideExecutions(p: System, move: P.Step, key: Key)
    requires Enabled(p, Inside(move)) && Base(p) && SectionAndTickets(p) && T.Inv(p.pool) && Paid(p, key)
    ensures Paid(Apply(p, Inside(move)), key)
  {
    hide S.Reachable, P.Reachable, P.CanProceed, P.HasStep, P.WorkersExited, P.Apply, SectionOk, DueNow, Paid,
      T.Staffed, P.Conserved, P.StopOk, P.MutuallyExclusive, P.AllFit, T.DistinctTickets, T.Complete, T.Recorded, T.QueueOk;
    var q := Apply(p, Inside(move));
    var pc := p.pool.pcs[move.thread];
    PoolStarted(p.pool, move);
    if pc.Starting? {
      StartingTicket(p, move.thread);
      TaskExecuted(p, q, pc.ticket, key);
    } else if q.tickets == p.tickets {
      SameExecutions(p, q, key);
    } else {
      NothingStartedAhead(p);
      TaskAccepted(p, q, q.tickets[|p.tickets|], key);
    }
  }

  lemma StartingTicket(p: System, t: P.Thread)
    requires T.TicketsOk(p.pool) && TicketsMatch(p) && t in p.pool.pcs && p.pool.pcs[t].Starting?
    ensures p.pool.pcs[t].ticket < |p.tickets| && p.pool.pcs[t].ticket !in p.pool.pool.started
  {
    assert T.TicketOk(p.pool.pool, p.pool.pcs[t]);
  }

  lemma NothingStartedAhead(p: System)
    requires T.TicketsOk(p.pool) && TicketsMatch(p)
    ensures |p.tickets| !in p.pool.pool.started
  {
  }

  /** A dispatch of the whole section is enabled, or the loop has none open. */
  lemma CrashDispatches(p: System, written: set<Id>, key: Key)
    requires p.sched.loop.Firing? ==> S.Enabled(p.sched, S.Dispatch(Batch(p), written))
    requires SectionAndTickets(p) && TableValid(p.sched.data.mem)
    ensures p.sched.h.dispatches[key] + |Uncommitted(p, key)| <= Crashed(p, written).h.dispatches[key]
  {
    hide S.Enabled, S.Apply, Parts, Batch;
    if InSection(p) {
      DispatchTasks(p.sched, S.Dispatch(Batch(p), written));
      UncommittedIsOne(p, key);
    } else {
      NothingUncommitted(p, key);
      if p.sched.loop.Firing? {
        DispatchTasks(p.sched, S.Dispatch(Batch(p), written));
      }
    }
  }

  lemma CommitExecutions(p: System, move: P.Step, step: S.Step, key: Key)
    requires Enabled(p, Commit(move, step)) && Base(p) && SectionAndTickets(p) && T.Inv(p.pool) && Paid(p, key)
    requires TableValid(p.sched.data.mem)
    ensures Paid(Apply(p, Commit(move, step)), key)
  {
    hide S.Reachable, P.Reachable, P.CanProceed, P.HasStep, P.WorkersExited, P.Apply, DueNow, Paid, S.Enabled, S.Apply,
      T.Inv, Parts, Batch;
    var q := Apply(p, Commit(move, step));
    PoolStarted(p.pool, move);
    if move.thread != P.Dispatcher {
      CommitOfOther(p, move, step);
      JobStepKeepsLoop(p.sched, step);
      SameExecutions(p, q, key);
    } else if p.sched.loop.Firing? {
      DispatchTasks(p.sched, step);
      SectionPaid(p, q, key);
    } else {
      QuietCommitTasks(p.sched, step);
      SameExecutions(p, q, key);
    }
  }

  lemma StepExecutions(p: System, step: Step)
    requires Enabled(p, step) && Base(p) && SectionAndTickets(p) && T.Inv(p.pool) && ExecutionsOk(p)
    requires TableValid(p.sched.data.mem)
    ensures ExecutionsOk(Apply(p, step))
  {
    hide Enabled, Apply, Base, SectionAndTickets, Paid, T.Inv;
    var q := Apply(p, step);
    forall key ensures Paid(q, key) {
      assert Paid(p, key);
      StepPaid(p, step, key);
    }
  }

  lemma StepPaid(p: System, step: Step, key: Key)
    requires Enabled(p, step) && Base(p) && SectionAndTickets(p) && T.Inv(p.pool) && Paid(p, key)
    requires TableValid(p.sched.data.mem)
    ensures Paid(Apply(p, step), key)
  {
    hide S.Reachable, P.Reachable, P.CanProceed, P.HasStep, P.WorkersExited, P.Apply, SectionOk, DueNow, Paid, S.Enabled,
      S.Apply, T.Inv, Noted, P.IsStart, Batch, SectionAndTickets, Crashed;
    var q := Apply(p, step);
    match step
    case Outside(s) =>
      OutsideTasks(p.sched, s);
      SameExecutions(p, q, key);
    case Inside(move) =>
      InsideExecutions(p, move, key);
    case Visit(move, _) =>
      PoolStarted(p.pool, move);
      SameExecutions(p, q, key);
    case Commit(move, s) =>
      CommitExecutions(p, move, s, key);
    case Restart(written, start) =>
      CrashDispatches(p, written, key);
      RestartTasks(Crashed(p, written));
      RestartPaid(p, q, key);
  }

  // ---------------------------------------------------------------------------
  // Every run

  lemma BaseInv(p: System)
    requires Base(p)
    ensures T.Inv(p.pool) && TableValid(p.sched.data.mem) && S.Inv(p.sched)
  {
    hide T.Inv, P.Reachable, S.Reachable;
    T.ReachableInv(p.pool);
    S.ReachableInv(p.sched);
    SchedulerTable(p.sched);
  }

  lemma SchedulerTable(s: S.State)
    requires S.Inv(s)
    ensures TableValid(s.data.mem)
  {
  }

  /** Every step keeps the invariant of the two systems. */
  lemma StepInv(p: System, step: Step)
    requires Enabled(p, step) && Inv(p)
    ensures Inv(Apply(p, step))
  {
    hide Enabled, Apply, Base, SectionAndTickets, TasksOk, ExecutionsOk, T.Inv, S.Inv;
    BaseInv(p);
    StepBase(p, step);
    StepSection(p, step);
    StepTasks(p, step);
    StepExecutions(p, step);
  }

  lemma StartInv(p: System)
    requires IsStart(p)
    ensures Inv(p)
  {
    hide P.IsStart, S.IsStart;
    assert S.Run(p.sched, [], p.sched);
    PoolStartReachable(p.pool);
    StartLoop(p.sched);
    FreshSection(p);
    FreshTasks(p);
    forall key ensures Paid(p, key) {
      assert Unstarted(p, key) == {};
    }
  }

  lemma StartLoop(s: S.State)
    requires S.IsStart(s)
    ensures s.loop.Computing? && s.tasks == multiset{}
  {
  }

  lemma {:induction false} RunInv(p: System, steps: seq<Step>, q: System)
    requires Run(p, steps, q) && Inv(p)
    ensures Inv(q)
    decreases |steps|
  {
    hide Inv, Enabled, Apply;
    if steps != [] {
      StepInv(p, steps[0]);
      RunInv(Apply(p, steps[0]), steps[1..], q);
    }
  }

  ghost predicate Reachable(p: System) {
    exists start, steps :: IsStart(start) && Run(start, steps, p)
  }

  lemma ReachableInv(p: System)
    requires Reachable(p)
    ensures Inv(p)
  {
    hide Inv, IsStart, Run;
    var start, steps :| IsStart(start) && Run(start, steps, p);
    StartInv(start);
    RunInv(start, steps, p);
  }

  lemma {:induction false} RunAppend(p: System, steps: seq<Step>, q: System, step: Step)
    requires Run(p, steps, q) && Enabled(q, step)
    ensures Run(p, steps + [step], Apply(q, step))
    decreases |steps|
  {
    hide Enabled, Apply;
    if steps == [] {
      assert (steps + [step])[1..] == [];
    } else {
      assert (steps + [step])[1..] == steps[1..] + [step];
      RunAppend(Apply(p, steps[0]), steps[1..], q, step);
    }
  }

  lemma ReachableStep(p: System, step: Step)
    requires Reachable(p) && Enabled(p, step)
    ensures Reachable(Apply(p, step))
  {
    hide Enabled, Apply, IsStart, Run;
    var start, steps :| IsStart(start) && Run(start, steps, p);
    RunAppend(start, steps, p, step);
  }

  /** The scheduler and the pool of the system run as they do on their own, so that all
      theorems about `SchedulerRuns` and `PoolRuns` hold of them. */
  lemma BothSystemsRun(p: System)
    requires Reachable(p)
    ensures S.Reachable(p.sched) && P.Reachable(p.pool)
  {
    hide Reachable, S.Reachable, P.Reachable, SectionAndTickets, TasksOk, ExecutionsOk;
    ReachableInv(p);
  }

  // ---------------------------------------------------------------------------
  // Executions and schedule calls

  /** The loop submits in its section only jobs that are pending. */
  lemma UncommittedIsPending(p: System, key: Key)
    requires SectionAndTickets(p) && TableValid(p.sched.data.mem)
    ensures |Uncommitted(p, key)| <= if S.PendingIn(p.sched.data.mem, key) then 1 else 0
  {
    if InSection(p) {
      UncommittedIsOne(p, key);
      if id :| id in Batch(p) && id in p.sched.data.mem && p.sched.data.mem[id].key == key {
        assert id in DueNow(p);
        assert IsDue(p.sched.data.mem[id], p.sched.loop.target);
      }
    } else {
      NothingUncommitted(p, key);
    }
  }

  /** Over any run and any restarts, a key is executed at most once for each schedule call
      for it and each dispatch that the table did not learn of. */
  lemma EachCallBuysOneExecution(p: System, key: Key)
    requires Reachable(p)
    ensures p.executed[key] + |Unstarted(p, key)| <= p.sched.h.calls[key] + p.sched.h.lostWrites[key]
  {
    hide Reachable, T.Inv, S.Inv, P.Reachable, S.Reachable, TasksOk, S.PendingIn, Unstarted;
    ReachableInv(p);
    BaseInv(p);
    assert Paid(p, key);
    hide SectionAndTickets;
    UncommittedIsPending(p, key);
    S.EachCallBuysOneDispatch(p.sched, key);
  }

  // ---------------------------------------------------------------------------
  // What raises the executions

  /** A job with this key is pending and was not submitted in the current section. */
  ghost predicate ToCome(p: System, key: Key) {
    exists id :: IsToCome(p, key, id)
  }

  ghost predicate IsToCome(p: System, key: Key, id: Id) {
    id in p.sched.data.mem && p.sched.data.mem[id].key == key && p.sched.data.mem[id].status == Pending && id !in Batch(p)
  }

  /** The executions of a key, done and to come. */
  ghost function Expected(p: System, key: Key): nat {
    p.executed[key] + |Unstarted(p, key)| + if ToCome(p, key) then 1 else 0
  }

  /** The process ends while nothing is to come for the key, and the table that it leaves has
      the key pending: a write was lost, or the process ended between an acceptance and
      its write. */
  ghost predicate Revives(p: System, step: Step, key: Key)
    requires Enabled(p, step)
  {
    && step.Restart? && S.PendingIn(Crashed(p, step.written).data.table, key)
    && Unstarted(p, key) == {} && !ToCome(p, key)
  }

  lemma SameExpected(p: System, q: System, key: Key)
    requires q.executed == p.executed && Unstarted(q, key) == Unstarted(p, key)
    requires forall id :: IsToCome(q, key, id) ==> IsToCome(p, key, id)
    ensures Expected(q, key) <= Expected(p, key)
  {
  }

  lemma SameUnstarted(p: System, q: System, key: Key)
    requires q.tickets == p.tickets && q.pool.pool.started == p.pool.pool.started
    ensures Unstarted(q, key) == Unstarted(p, key)
  {
  }

  /** A task is executed that was expected. */
  lemma ExpectedExecuted(p: System, q: System, k: nat, key: Key)
    requires k < |p.tickets| && k !in p.pool.pool.started
    requires q.executed == p.executed + multiset{p.tickets[k].key}
    requires q.tickets == p.tickets && q.committed == p.committed && q.sched == p.sched
    requires q.pool.pool.started == p.pool.pool.started + {k}
    ensures Expected(q, key) <= Expected(p, key)
  {
    assert Batch(q) == Batch(p);
    assert ToCome(q, key) ==> ToCome(p, key) by {
      if id :| IsToCome(q, key, id) {
        assert IsToCome(p, key, id);
      }
    }
    hide ToCome, Batch;
    if p.tickets[k].key == key {
      assert k in Unstarted(p, key) && Unstarted(q, key) == Unstarted(p, key) - {k};
    } else {
      assert Unstarted(q, key) == Unstarted(p, key);
    }
  }

  /** A pending job is submitted that was to come. */
  lemma ExpectedAccepted(p: System, q: System, id: Id, key: Key)
    requires TableValid(p.sched.data.mem) && id in p.sched.data.mem && p.sched.data.mem[id].status == Pending
    requires p.committed <= |p.tickets| && id !in Batch(p) && |p.tickets| !in p.pool.pool.started
    requires q.tickets == p.tickets + [Ticket(id, p.sched.data.mem[id].key)] && q.committed == p.committed
    requires q.executed == p.executed && q.sched == p.sched && q.pool.pool.started == p.pool.pool.started
    ensures Expected(q, key) <= Expected(p, key)
  {
    var n := |p.tickets|;
    AcceptedBatch(p, q, id);
    assert ToCome(q, key) ==> ToCome(p, key) by {
      if other :| IsToCome(q, key, other) {
        assert IsToCome(p, key, other);
      }
    }
    if p.sched.data.mem[id].key == key {
      assert IsToCome(p, key, id);
      assert !ToCome(q, key);
      hide ToCome, Batch;
      assert Unstarted(q, key) == Unstarted(p, key) + {n};
    } else {
      hide ToCome, Batch;
      assert Unstarted(q, key) == Unstarted(p, key);
    }
  }

  lemma InsideExpected(p: System, move: P.Step, key: Key)
    requires Enabled(p, Inside(move)) && Base(p) && SectionAndTickets(p) && T.Inv(p.pool) && TableValid(p.sched.data.mem)
    ensures Expected(Apply(p, Inside(move)), key) <= Expected(p, key)
  {
    hide S.Reachable, P.Reachable, P.CanProceed, P.HasStep, P.WorkersExited, P.Apply, DueNow, Expected, IsToCome,
      T.Staffed, P.Conserved, P.StopOk, P.MutuallyExclusive, P.AllFit, T.DistinctTickets, T.Complete, T.Recorded, T.QueueOk,
      SectionOk;
    var q := Apply(p, Inside(move));
    var pc := p.pool.pcs[move.thread];
    PoolStarted(p.pool, move);
    if pc.Starting? {
      StartingTicket(p, move.thread);
      ExpectedExecuted(p, q, pc.ticket, key);
    } else if q.tickets == p.tickets {
      SameUnstarted(p, q, key);
      SameToCome(p, q, key);
      SameExpected(p, q, key);
    } else {
      NothingStartedAhead(p);
      AcceptsVisit(p, move);
      ExpectedAccepted(p, q, p.visit.value, key);
    }
  }

  lemma SameToCome(p: System, q: System, key: Key)
    requires q.sched.data.mem == p.sched.data.mem && q.tickets == p.tickets && q.committed == p.committed
    ensures forall id :: IsToCome(q, key, id) ==> IsToCome(p, key, id)
  {
    assert Batch(q) == Batch(p);
  }

  /** Only the loop adds a ticket, for the job that it is submitting. */
  lemma AcceptsVisit(p: System, move: P.Step)
    requires Enabled(p, Inside(move)) && Base(p) && SectionAndTickets(p) && P.AllFit(p.pool)
    requires Noted(p, move).tickets != p.tickets
    ensures p.visit.Some? && p.visit.value in p.sched.data.mem && p.visit.value !in Batch(p)
    ensures p.sched.data.mem[p.visit.value].status == Pending
  {
    hide S.Reachable, P.Reachable, P.CanProceed, P.HasStep, P.WorkersExited, Batch;
    assert P.Fits(move.thread, p.pool.pcs[move.thread]);
    VisitIsDue(p);
    assert p.visit.value in Visited(p.visit);
  }

  /** Nothing is to come that was not, in a section that has ended. */
  lemma CommitOfJobs(p: System, move: P.Step, step: S.Step, key: Key)
    requires Enabled(p, Commit(move, step)) && Base(p) && SectionAndTickets(p) && S.Inv(p.sched)
    requires !(step.Schedule? && step.key == key) && move.thread != P.Dispatcher && p.committed == |p.tickets|
    ensures forall id :: IsToCome(Apply(p, Commit(move, step)), key, id) ==> IsToCome(p, key, id)
  {
    hide S.Reachable, P.Reachable, P.Enabled, P.Apply, S.Enabled, S.Apply, SectionAndTickets, S.Inv;
    SchedulerData(p.sched);
    var q := Apply(p, Commit(move, step));
    assert Batch(p) == {} && Batch(q) == {};
    hide S.DataOk, Batch, IsToCome;
    JobsToCome(p.sched, step, key);
    PendingIsToCome(p, q, key);
  }

  lemma PendingIsToCome(p: System, q: System, key: Key)
    requires Batch(p) == {} && Batch(q) == {}
    requires forall id :: PendingJob(q.sched, key, id) ==> PendingJob(p.sched, key, id)
    ensures forall id :: IsToCome(q, key, id) ==> IsToCome(p, key, id)
  {
    hide Batch;
    forall id | IsToCome(q, key, id) ensures IsToCome(p, key, id) {
      assert PendingJob(q.sched, key, id);
    }
  }

  ghost predicate PendingJob(s: S.State, key: Key, id: Id) {
    id in s.data.mem && s.data.mem[id].key == key && s.data.mem[id].status == Pending
  }

  lemma JobsToCome(s: S.State, step: S.Step, key: Key)
    requires S.Enabled(s, step) && S.DataOk(s.data, s.h.dirty) && 0 <= s.clock
    requires (step.Schedule? && step.key != key) || step.Succeed? || step.Fail?
    ensures forall id :: PendingJob(S.Apply(s, step), key, id) ==> PendingJob(s, key, id)
  {
    hide S.Enabled, S.Apply, S.DataOk, S.Failures;
    if step.Schedule? {
      var changed := S.ScheduleEffect(s, step);
    } else {
      S.CallbackEffect(s, step);
    }
  }

  lemma SchedulerData(s: S.State)
    requires S.Inv(s)
    ensures S.DataOk(s.data, s.h.dirty) && 0 <= s.clock
  {
  }

  lemma CommitOfDispatch(p: System, move: P.Step, step: S.Step, key: Key)
    requires Enabled(p, Commit(move, step)) && move.thread == P.Dispatcher && Base(p) && SectionAndTickets(p)
    ensures forall id :: IsToCome(Apply(p, Commit(move, step)), key, id) ==> IsToCome(p, key, id)
  {
    hide S.Reachable, P.Reachable, P.Enabled, P.Apply, S.Enabled, S.Apply, Parts, DueNow;
    var q := Apply(p, Commit(move, step));
    assert Batch(q) == {};
    if p.sched.loop.Firing? {
      hide SectionAndTickets, Batch;
      S.DispatchEffect(p.sched, step);
    } else {
      assert Batch(p) == {};
      hide SectionAndTickets, Batch;
      S.QuietEffect(p.sched, step);
    }
  }

  lemma CommitExpected(p: System, move: P.Step, step: S.Step, key: Key)
    requires Enabled(p, Commit(move, step)) && Base(p) && SectionAndTickets(p) && T.Inv(p.pool) && S.Inv(p.sched)
    ensures var q := Apply(p, Commit(move, step));
      Expected(q, key) <= Expected(p, key) + if step.Schedule? && step.key == key then 1 else 0
  {
    hide S.Reachable, P.Reachable, P.CanProceed, P.HasStep, P.WorkersExited, P.Apply, S.Apply, S.Enabled, SectionAndTickets,
      T.Inv, S.Inv, IsToCome, Unstarted, Base;
    var q := Apply(p, Commit(move, step));
    PoolStarted(p.pool, move);
    SameUnstarted(p, q, key);
    if !(step.Schedule? && step.key == key) {
      if move.thread == P.Dispatcher {
        CommitOfDispatch(p, move, step, key);
      } else {
        OutsideLoop(p, move, step);
        CommitOfJobs(p, move, step, key);
      }
      SameExpected(p, q, key);
    }
  }

  lemma OutsideLoop(p: System, move: P.Step, step: S.Step)
    requires Enabled(p, Commit(move, step)) && move.thread != P.Dispatcher
    requires Base(p) && SectionAndTickets(p) && T.Inv(p.pool)
    ensures p.committed == |p.tickets|
  {
    hide Enabled, T.Inv, Base, Apply;
    CommitOfOther(p, move, step);
  }

  lemma RestartExpected(p: System, step: Step, key: Key)
    requires step.Restart? && Enabled(p, step)
    ensures var q := Apply(p, step);
      && (Expected(q, key) > Expected(p, key) <==> Revives(p, step, key)) && Expected(q, key) <= Expected(p, key) + 1
  {
    hide S.Apply, S.Enabled, Crashed, P.IsStart;
    var q := Apply(p, step);
    S.RestartEffect(Crashed(p, step.written));
    assert Batch(q) == {} && Unstarted(q, key) == {};
    assert ToCome(q, key) <==> S.PendingIn(Crashed(p, step.written).data.table, key) by {
      if S.PendingIn(q.sched.data.mem, key) {
        var id :| id in q.sched.data.mem && q.sched.data.mem[id].key == key && q.sched.data.mem[id].status == Pending;
        assert IsToCome(q, key, id);
      }
    }
    hide ToCome, S.PendingIn, Batch;
    assert |Unstarted(p, key)| == 0 <==> Unstarted(p, key) == {};
    hide Unstarted;
  }

  /** Apart from the schedule calls for a key, a step raises the executions of the key, done
      and to come, if and only if it ends the process while nothing is to come and the
      table has the key pending; then it raises them by one. */
  lemma ExpectedGrowsExactly(p: System, step: Step, key: Key)
    requires Reachable(p) && Enabled(p, step)
    ensures var q := Apply(p, step);
      && (!(step.Commit? && step.step.Schedule? && step.step.key == key) ==>
            (Expected(q, key) > Expected(p, key) <==> Revives(p, step, key)))
      && Expected(q, key) <= Expected(p, key) + (if step.Commit? && step.step.Schedule? && step.step.key == key then 1 else 0)
                             + (if Revives(p, step, key) then 1 else 0)
  {
    hide Reachable, Base, SectionAndTickets, TasksOk, ExecutionsOk, T.Inv, S.Inv, Expected, Revives, IsToCome, Unstarted,
      P.Enabled, P.Apply, S.Enabled, S.Apply, Does, Batch, P.IsStart;
    ReachableInv(p);
    BaseInv(p);
    if !step.Restart? {
      NoRevival(p, step, key);
    }
    var q := Apply(p, step);
    match step
    case Outside(s) =>
      S.QuietEffect(p.sched, s);
      SameUnstarted(p, q, key);
      SameToCome(p, q, key);
      SameExpected(p, q, key);
    case Inside(move) =>
      InsideExpected(p, move, key);
    case Visit(move, _) =>
      PoolStarted(p.pool, move);
      SameUnstarted(p, q, key);
      SameToCome(p, q, key);
      SameExpected(p, q, key);
    case Commit(move, s) =>
      CommitExpected(p, move, s, key);
    case Restart(_, _) =>
      RestartExpected(p, step, key);
  }

  lemma NoRevival(p: System, step: Step, key: Key)
    requires Enabled(p, step) && !step.Restart?
    ensures !Revives(p, step, key)
  {
  }

  ghost function Revivals(p: System, steps: seq<Step>, q: System, key: Key): nat
    requires Run(p, steps, q)
    decreases |steps|
  {
    if steps == [] then 0
    else (if Revives(p, steps[0], key) then 1 else 0) + Revivals(Apply(p, steps[0]), steps[1..], q, key)
  }

  /** The scheduler counts the schedule calls. */
  lemma CallsCounted(s: S.State, step: S.Step, key: Key)
    requires S.Enabled(s, step) && S.DataOk(s.data, s.h.dirty) && 0 <= s.clock
    ensures S.Apply(s, step).h.calls[key] == s.h.calls[key] + if step.Schedule? && step.key == key then 1 else 0
  {
    hide S.Apply, S.Enabled, S.DataOk;
    match step
    case Schedule(_, _, _, _) => S.ScheduleCalls(s, step);
    case Dispatch(_, _) => S.DispatchEffect(s, step);
    case Succeed(_, _) => S.CallbackEffect(s, step);
    case Fail(_, _, _) => S.CallbackEffect(s, step);
    case Restart => S.RestartEffect(s);
    case _ => S.QuietEffect(s, step);
  }

  lemma CallsOfStep(p: System, step: Step, key: Key)
    requires Reachable(p) && Enabled(p, step)
    ensures Apply(p, step).sched.h.calls[key]
            == p.sched.h.calls[key] + if step.Commit? && step.step.Schedule? && step.step.key == key then 1 else 0
  {
    hide Reachable, S.Apply, S.Enabled, P.Apply, P.Enabled, Does, Batch, P.IsStart, S.Reachable, S.DataOk;
    BothSystemsRun(p);
    S.InvData(p.sched);
    match step
    case Outside(s) => CallsCounted(p.sched, s, key);
    case Inside(_) =>
    case Visit(_, _) =>
    case Commit(_, s) => CallsCounted(p.sched, s, key);
    case Restart(written, _) =>
      if p.sched.loop.Firing? {
        CallsCounted(p.sched, S.Dispatch(Batch(p), written), key);
      }
      S.RestartEffect(Crashed(p, written));
  }

  lemma {:induction false} ExpectedOverRun(p: System, steps: seq<Step>, q: System, key: Key)
    requires Reachable(p) && Run(p, steps, q)
    ensures Expected(q, key) - Expected(p, key) <= q.sched.h.calls[key] - p.sched.h.calls[key] + Revivals(p, steps, q, key)
    decreases |steps|
  {
    if steps != [] {
      hide Reachable, Enabled, Apply, Expected, Revives;
      ExpectedGrowsExactly(p, steps[0], key);
      CallsOfStep(p, steps[0], key);
      ReachableStep(p, steps[0]);
      ExpectedOverRun(Apply(p, steps[0]), steps[1..], q, key);
    }
  }

  lemma NothingExpected(p: System, key: Key)
    requires IsStart(p)
    ensures Expected(p, key) == 0
  {
    assert Unstarted(p, key) == {};
  }

  /** Over any run, the executions of a key, done and to come, exceed the schedule calls for
      it at most by the restarts that revive it. */
  lemma OnlyRevivalsExceedTheCalls(start: System, steps: seq<Step>, p: System, key: Key)
    requires IsStart(start) && Run(start, steps, p)
    ensures Expected(p, key) <= p.sched.h.calls[key] + Revivals(start, steps, p, key)
  {
    hide Expected;
    assert Run(start, [], start);
    NothingExpected(start, key);
    hide IsStart, Run;
    StartReachable(start);
    ExpectedOverRun(start, steps, p, key);
  }

  lemma StartReachable(start: System)
    requires IsStart(start)
    ensures Reachable(start)
  {
    assert Run(start, [], start);
  }

  /** Every write of the step succeeds, also before a crash. */
  predicate Stored(p: System, step: Step) {
    match step
    case Commit(_, s) => S.Stored(s)
    case Restart(written, _) => written == Batch(p)
    case _ => true
  }

  ghost predicate StoredRun(p: System, steps: seq<Step>, q: System)
    decreases |steps|
  {
    if steps == [] then p == q
    else Enabled(p, steps[0]) && Stored(p, steps[0]) && StoredRun(Apply(p, steps[0]), steps[1..], q)
  }

  lemma StoredStep(p: System, step: Step)
    requires Enabled(p, step) && Stored(p, step) && S.NothingFailed(p.sched.h)
    ensures S.NothingFailed(Apply(p, step).sched.h)
  {
    hide S.Apply, S.Enabled, P.Enabled, P.Apply, S.NothingFailed, Batch, Does, P.IsStart;
    match step
    case Outside(s) =>
      S.StoredStep(p.sched, s);
    case Commit(_, s) =>
      S.StoredStep(p.sched, s);
    case Restart(written, _) =>
      if p.sched.loop.Firing? {
        S.StoredStep(p.sched, S.Dispatch(Batch(p), written));
      }
      RestartEnabled(Crashed(p, written));
      S.StoredStep(Crashed(p, written), S.Restart);
    case _ =>
  }

  lemma {:induction false} NothingFails(p: System, steps: seq<Step>, q: System)
    requires StoredRun(p, steps, q) && S.NothingFailed(p.sched.h)
    ensures Run(p, steps, q) && S.NothingFailed(q.sched.h)
    decreases |steps|
  {
    hide Enabled, Apply, Stored, S.NothingFailed;
    if steps != [] {
      StoredStep(p, steps[0]);
      NothingFails(Apply(p, steps[0]), steps[1..], q);
    }
  }

  /** If all writes succeed, each schedule call buys at most one execution, over any restarts. */
  lemma EachCallBuysOneExecutionWhenStored(start: System, steps: seq<Step>, p: System, key: Key)
    requires IsStart(start) && StoredRun(start, steps, p)
    ensures p.executed[key] + |Unstarted(p, key)| <= p.sched.h.calls[key]
  {
    hide StoredRun, Run, Unstarted, P.IsStart;
    NothingFails(start, steps, p);
    EachCallBuysOneExecution(p, key);
  }

  // ---------------------------------------------------------------------------
  // Tasks of the scheduler and of the pool

  /** A worker in a callback can always end it: its job has an outstanding task, whose next
      run can be computed. */
  lemma CallbackCanEnd(p: System, t: P.Thread, error: string, io: bool)
    requires Reachable(p) && t in p.pool.pcs && p.pool.pcs[t].Calling?
    ensures var k := p.pool.pcs[t].ticket;
      && k < |p.tickets|
      && S.Enabled(p.sched, if p.pool.pcs[t].ok then S.Succeed(p.tickets[k].id, io) else S.Fail(p.tickets[k].id, error, io))
  {
    hide Reachable, P.Reachable, S.Reachable, ExecutionsOk, SectionOk, S.Enabled;
    ReachableInv(p);
    var k := p.pool.pcs[t].ticket;
    assert k in Live(p, p.tickets[k].id);
    S.OnlyScheduleCallsHang(p.sched);
  }

  /** The callback that updates a job is that for the outcome of its task. */
  lemma CallbackMatchesOutcome(p: System, move: P.Step, step: S.Step)
    requires Reachable(p) && Enabled(p, Commit(move, step)) && move.thread.Worker?
    ensures var k := p.pool.pcs[move.thread].ticket;
      && k < |p.tickets| && k in p.pool.pool.outcomes && step.id == p.tickets[k].id
      && (step.Succeed? <==> p.pool.pool.outcomes[k]) && (step.Fail? <==> !p.pool.pool.outcomes[k])
  {
    assert T.TicketOk(p.pool.pool, p.pool.pcs[move.thread]) by {
      ReachableInv(p);
      BaseInv(p);
    }
    hide Reachable, S.Enabled, P.CanProceed, P.HasStep, P.WorkersExited;
  }

  /** No thread is in a section of the job lock. */
  ghost predicate JobLockFree(p: System) {
    forall t :: t in p.pool.pcs ==> P.Held(t, p.pool.pcs[t], P.JobMu) == None
  }

  /** Whenever the job lock is free, the outstanding tasks of each job are the tasks that the
      pool has accepted for it and not called back. */
  lemma OutstandingTasksAgree(p: System, id: Id)
    requires Reachable(p) && JobLockFree(p)
    ensures p.committed == |p.tickets| == p.pool.pool.accepted
    ensures p.sched.tasks[id] == |set k | k in T.Outstanding(p.pool.pool) && p.tickets[k].id == id|
  {
    hide Reachable, P.Reachable, S.Reachable, ExecutionsOk, T.Inv;
    ReachableInv(p);
    LoopOutside(p);
    hide SectionOk;
    forall k ensures !InCallback(p.pool, k) {
      if t :| t in p.pool.pcs && p.pool.pcs[t].Calling? && p.pool.pcs[t].ticket == k {
        assert P.Held(t, p.pool.pcs[t], P.JobMu) == None;
      }
    }
    assert Live(p, id) == set k | k in T.Outstanding(p.pool.pool) && p.tickets[k].id == id;
  }

  lemma LoopOutside(p: System)
    requires P.Dispatcher in p.pool.pcs && JobLockFree(p) && SectionOk(p)
    ensures p.committed == |p.tickets|
  {
    assert P.Held(P.Dispatcher, p.pool.pcs[P.Dispatcher], P.JobMu) == None;
  }

  // ---------------------------------------------------------------------------
  // Backpressure

  ghost predicate Backpressure(p: System) {
    p.pool.pool.stopped || |p.pool.pool.queue| == 2 * p.pool.pool.workers
  }

  lemma NoRestartAccepts(p: System, step: Step)
    requires Reachable(p) && Enabled(p, step) && !step.Restart?
    ensures p.pool.pool.accepted <= Apply(p, step).pool.pool.accepted
  {
    hide Reachable, S.Apply, S.Enabled, P.CanProceed, P.HasStep, P.WorkersExited, P.NextPc, P.NextPool, Does, Batch;
    if !step.Outside? {
      T.AcceptedAfter(p.pool.pool, step.move, p.pool.pcs[step.move.thread]);
    }
  }

  predicate NoRestart(steps: seq<Step>) {
    forall i :: 0 <= i < |steps| ==> !steps[i].Restart?
  }

  lemma {:induction false} AcceptedGrows(p: System, steps: seq<Step>, q: System)
    requires Reachable(p) && Run(p, steps, q) && NoRestart(steps)
    ensures p.pool.pool.accepted <= q.pool.pool.accepted
    decreases |steps|
  {
    if steps != [] {
      hide Reachable, Enabled, Apply;
      NoRestartAccepts(p, steps[0]);
      ReachableStep(p, steps[0]);
      AcceptedGrows(Apply(p, steps[0]), steps[1..], q);
    }
  }

  /** The loop is in a submission that was neither accepted nor refused. */
  ghost predicate InDoubt(p: System) {
    P.Dispatcher in p.pool.pcs && Submitting(p.pool.pcs[P.Dispatcher])
  }

  ghost predicate ByLoop(step: Step) {
    step.Inside? && step.move.thread == P.Dispatcher
  }

  lemma DoubtStep(p: System, step: Step)
    requires Reachable(p) && Enabled(p, step) && !step.Restart? && InDoubt(p)
    requires ByLoop(step) ==> !Backpressure(p)
    ensures var q := Apply(p, step); InDoubt(q) || q.pool.pool.accepted > p.pool.pool.accepted
  {
    ReachableQueue(p);
    hide Reachable, S.Apply, S.Enabled, P.CanProceed, P.WorkersExited, Does, Batch, DueNow, Crashed, Noted;
    if !step.Outside? {
      hide P.NextPool, T.QueueOk;
      T.AcceptedAfter(p.pool.pool, step.move, p.pool.pcs[step.move.thread]);
      if step.move.thread != P.Dispatcher {
        hide P.NextPc, P.HasStep;
      } else {
        RoomUnlessFull(p);
      }
    }
  }

  lemma RoomUnlessFull(p: System)
    requires T.QueueOk(p.pool.pool) && !Backpressure(p)
    ensures P.HasRoom(p.pool.pool) && !p.pool.pool.stopped
  {
  }

  lemma ReachableQueue(p: System)
    requires Reachable(p)
    ensures T.QueueOk(p.pool.pool)
  {
    ReachableInv(p);
    BaseInv(p);
  }

  /** A submission of the loop that comes back without an accepted task has found, at one of
      its own moves, the pool stopped or its queue full. */
  lemma {:induction false} UnacceptedSubmissionMetBackpressure(p: System, steps: seq<Step>, q: System) returns (i: nat, r: System)
    requires Reachable(p) && Run(p, steps, q) && NoRestart(steps) && InDoubt(p)
    requires q.pool.pool.accepted == p.pool.pool.accepted && !InDoubt(q)
    ensures i < |steps| && Run(p, steps[..i], r) && ByLoop(steps[i]) && Backpressure(r)
    decreases |steps|
  {
    hide Reachable, Enabled, Apply, InDoubt, Backpressure;
    if ByLoop(steps[0]) && Backpressure(p) {
      i, r := 0, p;
    } else {
      var p1 := Apply(p, steps[0]);
      ReachableStep(p, steps[0]);
      DoubtStep(p, steps[0]);
      NoRestartAccepts(p, steps[0]);
      AcceptedGrows(p1, steps[1..], q);
      var j;
      j, r := UnacceptedSubmissionMetBackpressure(p1, steps[1..], q);
      i := j + 1;
      assert steps[..i][0] == steps[0] && steps[..i][1..] == steps[1..][..j];
    }
  }

  /** When the loop ends a section in which it dispatched, each job that was due was accepted,
      and is Running with one more task, or was refused, and is unchanged and still due. */
  lemma DueJobIsAcceptedOrRefused(p: System, move: P.Step, step: S.Step, id: Id)
    requires Reachable(p) && Enabled(p, Commit(move, step)) && step.Dispatch? && id in p.sched.data.mem
    requires p.sched.data.mem[id].status == Pending && p.sched.data.mem[id].nextRun <= p.sched.loop.target
    ensures id in p.refused <==> id !in step.accepted
    ensures var s := Apply(p, Commit(move, step)).sched;
      if id in p.refused then
        s.data.mem[id] == p.sched.data.mem[id] && s.tasks[id] == p.sched.tasks[id] && id in Due(s.data.mem, p.sched.loop.target)
      else
        s.data.mem[id].status == Running && s.data.mem[id].lastRun == Some(p.sched.loop.target)
        && s.tasks[id] == p.sched.tasks[id] + 1
  {
    hide Reachable, P.Reachable, S.Reachable, ExecutionsOk, TasksOk, P.Apply, S.Apply, P.Enabled, S.PendingIn;
    ReachableInv(p);
    SectionEnds(p, move, step);
    S.DispatchIsTimely(p.sched, step.accepted, step.written);
  }

  /** A refused job keeps the loop awake: its next wait ends at once. */
  lemma RefusedJobIsTriedAgain(p: System, move: P.Step, step: S.Step, id: Id, next: Instant)
    requires Reachable(p) && Enabled(p, Commit(move, step)) && step.Dispatch? && id in p.refused
    requires S.Enabled(Apply(p, Commit(move, step)).sched, S.FindNext(next))
    ensures next <= p.sched.loop.target
    ensures S.Enabled(S.Apply(Apply(p, Commit(move, step)).sched, S.FindNext(next)), S.Fire)
  {
    hide Reachable, P.Apply, P.Enabled, S.Apply, S.Enabled;
    RefusedJobIsDue(p, move, step, id);
    DueJobIsAcceptedOrRefused(p, move, step, id);
    AfterDispatchClock(p.sched, step);
    hide Enabled, Apply;
    NextWakeIsDue(Apply(p, Commit(move, step)).sched, next, id, p.sched.loop.target);
  }

  lemma RefusedJobIsDue(p: System, move: P.Step, step: S.Step, id: Id)
    requires Reachable(p) && Enabled(p, Commit(move, step)) && step.Dispatch? && id in p.refused
    ensures p.sched.loop.Firing? && p.sched.loop.target <= p.sched.clock && id in Due(p.sched.data.mem, p.sched.loop.target)
  {
    hide Reachable, P.Reachable, S.Reachable, P.Apply, P.Enabled, S.Apply, ExecutionsOk, TasksOk, SectionAndTickets, Due;
    ReachableInv(p);
    SectionEnds(p, move, step);
    S.WaitsAreBounded(p.sched);
  }

  lemma AfterDispatchClock(s: S.State, step: S.Step)
    requires step.Dispatch? && S.Enabled(s, step)
    ensures S.Apply(s, step).clock == s.clock && S.Apply(s, step).loop.Computing?
  {
  }

  lemma NextWakeIsDue(s: S.State, next: Instant, id: Id, target: Instant)
    requires S.Enabled(s, S.FindNext(next)) && id in Due(s.data.mem, target) && target <= s.clock
    ensures next <= target && S.Enabled(S.Apply(s, S.FindNext(next)), S.Fire)
  {
    assert IsDue(s.data.mem[id], target);
  }

  lemma SectionEnds(p: System, move: P.Step, step: S.Step)
    requires Enabled(p, Commit(move, step)) && step.Dispatch? && SectionAndTickets(p)
    ensures step == S.Dispatch(step.accepted, step.written) && step.accepted == Batch(p)
    ensures Due(p.sched.data.mem, p.sched.loop.target) == step.accepted + p.refused && step.accepted !! p.refused
  {
    hide P.Enabled, S.Apply, P.Apply, Batch, Due;
  }

  // ---------------------------------------------------------------------------
  // A run that executes a job

  /** No call of the store fails; the process may end at any time. */
  predicate CallsSucceed(steps: seq<Step>) {
    forall i :: 0 <= i < |steps| && steps[i].Commit? ==> S.Stored(steps[i].step)
  }

  /** A state that is reached although no call of the store fails. */
  ghost predicate Clean(p: System) {
    exists start, steps :: IsStart(start) && Run(start, steps, p) && CallsSucceed(steps)
  }

  lemma CleanStep(p: System, step: Step)
    requires Clean(p) && Enabled(p, step) && (step.Commit? ==> S.Stored(step.step))
    ensures Clean(Apply(p, step))
  {
    hide Enabled, Apply, IsStart, Run;
    var start, steps :| IsStart(start) && Run(start, steps, p) && CallsSucceed(steps);
    RunAppend(start, steps, p, step);
  }

  lemma CleanIsReachable(p: System)
    requires Clean(p)
    ensures Reachable(p)
  {
  }

  /** The other threads have not started, but for the loop, which may be in a submission. */
  ghost predicate OthersRest(q: P.State, t: P.Thread) {
    && t in q.pcs && !q.pool.panicked && q.pcs[t] != P.Closed && !q.pcs[t].Finishing?
    && forall u :: u in q.pcs && u != t ==>
         || q.pcs[u] == P.Idle
         || (u == P.Dispatcher && (q.pcs[u] == P.WantCount || q.pcs[u] == P.Admitted) && (t.Worker? || t == P.Stopper))
  }

  lemma RestersLetPass(q: P.State, t: P.Thread, choice: bool)
    requires OthersRest(q, t) && P.Fits(t, q.pcs[t]) && P.HasStep(q.pool, t, q.pcs[t], choice)
    ensures P.Enabled(q, P.Step(t, choice, 0, 0))
  {
    forall u | u in q.pcs && u != t
      ensures P.Held(u, q.pcs[u], P.PoolMu) == None && P.Held(u, q.pcs[u], P.MetricsMu) == None
      ensures !t.Worker? && t != P.Stopper ==> P.Held(u, q.pcs[u], P.JobMu) == None
    {
    }
    hide P.Held;
  }

  /** The thread makes its next move. */
  lemma Move(p: System, t: P.Thread, choice: bool) returns (q: System)
    requires Clean(p) && OthersRest(p.pool, t) && P.Fits(t, p.pool.pcs[t])
    requires P.HasStep(p.pool.pool, t, p.pool.pcs[t], choice) && !LeavesSection(t, p.pool.pcs[t])
    requires !p.pool.pool.closed && (t == P.Dispatcher ==> p.sched.loop.Computing? || p.sched.loop.Firing?)
    ensures Clean(q) && q == Noted(p, P.Step(t, choice, 0, 0)).(pool := q.pool)
    ensures q.pool.pcs == p.pool.pcs[t := P.NextPc(p.pool.pool, t, p.pool.pcs[t], choice)]
    ensures q.pool.pool == P.NextPool(p.pool.pool, t, p.pool.pcs[t], P.Step(t, choice, 0, 0))
  {
    hide Clean, P.NextPc, P.NextPool, Noted, P.HasStep;
    var step := Inside(P.Step(t, choice, 0, 0));
    RestersLetPass(p.pool, t, choice);
    hide P.CanProceed, P.WorkersExited;
    CleanStep(p, step);
    q := Apply(p, step);
  }

  /** A move from here means nothing for the jobs. */
  predicate IsSilent(p: System, t: P.Thread, pc: P.Pc) {
    && !pc.Starting? && pc != P.Admitted && !(t == P.Dispatcher && pc == P.WantJobs)
    && !(pc == P.InPool && p.pool.pool.stopped)
  }

  lemma NothingNoted(p: System, move: P.Step)
    requires move.thread in p.pool.pcs && IsSilent(p, move.thread, p.pool.pcs[move.thread])
    ensures Noted(p, move) == p
  {
  }

  /** As `Move`, from a place that leaves the pool and the jobs alone. */
  lemma QuietMove(p: System, t: P.Thread, choice: bool, next: P.Pc) returns (q: System)
    requires Clean(p) && OthersRest(p.pool, t) && P.Fits(t, p.pool.pcs[t])
    requires P.HasStep(p.pool.pool, t, p.pool.pcs[t], choice) && !LeavesSection(t, p.pool.pcs[t])
    requires !p.pool.pool.closed && (t == P.Dispatcher ==> p.sched.loop.Computing? || p.sched.loop.Firing?)
    requires P.IsQuiet(t, p.pool.pcs[t]) && IsSilent(p, t, p.pool.pcs[t])
    requires next == P.NextPc(p.pool.pool, t, p.pool.pcs[t], choice)
    ensures Clean(q) && q == p.(pool := P.State(p.pool.pcs[t := next], p.pool.pool))
  {
    hide Clean, P.NextPc, P.NextPool, Noted, P.HasStep, P.Fits, P.IsQuiet, IsSilent;
    P.QuietKeepsPool(p.pool.pool, t, p.pool.pcs[t], P.Step(t, choice, 0, 0));
    NothingNoted(p, P.Step(t, choice, 0, 0));
    q := Move(p, t, choice);
  }

  /** What a worker's move leaves alone. */
  predicate SameGates(pool: P.Pool, next: P.Pool) {
    next.closed == pool.closed && next.lockFree == pool.lockFree && next.panicked == pool.panicked
  }

  lemma WorkerGates(pool: P.Pool, pc: P.Pc, choice: bool)
    requires pc != P.Cancelled
    ensures SameGates(pool, P.NextPool(pool, P.Worker(0), pc, P.Step(P.Worker(0), choice, 0, 0)))
  {
  }

  lemma WorkerNotes(p: System, pc: P.Pc, choice: bool)
    requires P.Worker(0) in p.pool.pcs && pc == p.pool.pcs[P.Worker(0)]
    requires pc != P.InPool && pc != P.Admitted && (pc.Starting? ==> pc.ticket < |p.tickets|)
    ensures Noted(p, P.Step(P.Worker(0), choice, 0, 0))
            == if pc.Starting? then p.(executed := p.executed + multiset{p.tickets[pc.ticket].key}) else p
  {
  }

  /** A worker goes on with its task. */
  lemma WorkerMoves(p: System, pc: P.Pc, next: P.Pc) returns (q: System)
    requires Clean(p) && OthersRest(p.pool, P.Worker(0)) && p.pool.pcs[P.Worker(0)] == pc && P.Fits(P.Worker(0), pc)
    requires P.HasStep(p.pool.pool, P.Worker(0), pc, true) && !pc.Calling? && !p.pool.pool.closed
    requires pc.Starting? ==> pc.ticket < |p.tickets|
    requires next == P.NextPc(p.pool.pool, P.Worker(0), pc, true)
    ensures Clean(q) && SameGates(p.pool.pool, q.pool.pool) && q.pool.pcs == p.pool.pcs[P.Worker(0) := next]
    ensures q == p.(pool := q.pool,
                    executed := if pc.Starting? then p.executed + multiset{p.tickets[pc.ticket].key} else p.executed)
  {
    assert pc != P.InPool && pc != P.Admitted && pc != P.InJobs && pc != P.Cancelled;
    hide Clean, P.NextPc, P.NextPool, Noted, P.HasStep, OthersRest, P.Fits;
    WorkerGates(p.pool.pool, pc, true);
    WorkerNotes(p, pc, true);
    q := Move(p, P.Worker(0), true);
  }

  /** The thread takes the job lock. */
  lemma EnterSection(p: System, t: P.Thread) returns (q: System)
    requires Clean(p) && OthersRest(p.pool, t) && (t.Client? || t == P.Dispatcher) && p.pool.pcs[t] == P.Idle
    requires !p.pool.pool.closed && (t == P.Dispatcher ==> p.sched.loop.Computing? || p.sched.loop.Firing?)
    ensures Clean(q) && q.pool == P.State(p.pool.pcs[t := P.InJobs], p.pool.pool)
    ensures q == if t == P.Dispatcher then p.(pool := q.pool, todo := DueNow(p), visit := None, refused := {}) else p.(pool := q.pool)
  {
    hide Clean, DueNow, OthersRest;
    StillResting(p, t, P.WantJobs);
    var arrived := QuietMove(p, t, true, P.WantJobs);
    SameDue(p, arrived);
    hide P.NextPool;
    q := Move(arrived, t, true);
    P.QuietKeepsPool(arrived.pool.pool, t, P.WantJobs, P.Step(t, true, 0, 0));
    assert q.pool.pcs == p.pool.pcs[t := P.InJobs];
  }

  lemma StillResting(p: System, t: P.Thread, next: P.Pc)
    requires OthersRest(p.pool, t) && next != P.Closed && !next.Finishing?
    ensures t in p.pool.pcs && OthersRest(P.State(p.pool.pcs[t := next], p.pool.pool), t)
  {
  }

  lemma SameDue(p: System, q: System)
    requires q.sched == p.sched
    ensures DueNow(q) == DueNow(p)
  {
  }

  /** The thread leaves its section with a step of the scheduler. */
  lemma LeaveSection(p: System, t: P.Thread, step: S.Step) returns (q: System)
    requires Clean(p) && OthersRest(p.pool, t) && p.pool.pcs[t] == P.InJobs && S.Enabled(p.sched, step)
    requires S.Stored(step)
    requires (t.Client? && step.Schedule?) || (t == P.Dispatcher && !p.sched.loop.Firing? && step.FindNext?)
    ensures Clean(q) && q.pool == P.State(p.pool.pcs[t := P.Idle], p.pool.pool)
    ensures q.sched == S.Apply(p.sched, step) && q.executed == p.executed && q.tickets == p.tickets
  {
    hide Clean, S.Enabled, S.Apply;
    var move := P.Step(t, false, 0, 0);
    RestersLetPass(p.pool, t, false);
    hide P.CanProceed, P.WorkersExited;
    CleanStep(p, Commit(move, step));
    q := Apply(p, Commit(move, step));
  }

  const CREW: map<P.Thread, P.Pc> :=
    map[P.Dispatcher := P.Idle, P.Stopper := P.Idle, P.Worker(0) := P.Idle, P.Client(0) := P.Idle]

  /** The loop is about to dispatch the only job to a pool that was just started. */
  ghost predicate AboutToDispatch(p: System) {
    && Clean(p) && p.pool == P.State(CREW, P.NewPool(1, false)) && p.tickets == []
    && p.sched.loop.Firing? && DueNow(p) == {S.JOB}
    && p.sched.data.mem.Keys == {S.JOB} && p.sched.data.mem[S.JOB].key == S.HOURLY
  }

  lemma NobodyStarted() returns (p: System)
    ensures Clean(p) && p.pool == P.State(CREW, P.NewPool(1, false)) && p.sched == S.EMPTY
    ensures p.tickets == [] && p.executed == multiset{}
  {
    var start := System(S.EMPTY, P.State(CREW, P.NewPool(1, false)), [], 0, {}, None, {}, {}, multiset{});
    assert IsStart(start) && Run(start, [], start);
    p := start;
  }

  lemma JobIsScheduled() returns (p: System)
    ensures AboutToDispatch(p) && S.NothingFailed(p.sched.h)
    ensures p.executed == multiset{} && p.sched.h.calls[S.HOURLY] == 1
  {
    hide Clean, S.Reachable, S.Enabled, S.Apply, S.NothingFailed;
    var s := S.ArmedStart();
    p := NobodyStarted();
    p := EnterSection(p, P.Client(0));
    p := LeaveSection(p, P.Client(0), S.FIRST_CALL);
    assert p.pool.pcs == CREW;
    p := TimerFires(p);
  }

  lemma TimerFires(p: System) returns (q: System)
    requires Clean(p) && p.pool == P.State(CREW, P.NewPool(1, false)) && S.Armed(p.sched, 0) && p.tickets == []
    ensures AboutToDispatch(q) && S.NothingFailed(q.sched.h)
    ensures q.executed == p.executed && q.sched.h.calls == p.sched.h.calls
  {
    hide Clean, S.Reachable, S.Enabled, S.Apply, S.NothingFailed;
    var s := S.HourPasses(p.sched, 0);
    q := EnterSection(p, P.Dispatcher);
    q := LeaveSection(q, P.Dispatcher, S.FindNext(p.sched.clock + HOUR));
    assert q.pool.pcs == CREW;
    q := GoOutside(q, S.Tick(HOUR));
    q := GoOutside(q, S.Fire);
  }

  lemma GoOutside(p: System, step: S.Step) returns (q: System)
    requires Clean(p) && IsOutside(step) && !step.StopLoop? && S.Enabled(p.sched, step)
    ensures Clean(q) && q == p.(sched := S.Apply(p.sched, step))
  {
    hide Clean, S.Enabled, S.Apply;
    CleanStep(p, Outside(step));
    q := Apply(p, Outside(step));
  }

  /** The loop is in front of its send. */
  lemma LoopIsAdmitted(p: System) returns (q: System)
    requires AboutToDispatch(p)
    ensures Clean(q) && q.sched == p.sched && q.tickets == p.tickets && q.committed == p.committed
    ensures q.executed == p.executed && q.visit == Some(S.JOB)
    ensures q.pool == P.State(CREW[P.Dispatcher := P.Admitted], P.NewPool(1, false))
  {
    hide Clean;
    q := EnterSection(p, P.Dispatcher);
    q := BeginVisit(q, S.JOB);
    q := QuietMove(q, P.Dispatcher, true, P.InPool);
    q := QuietMove(q, P.Dispatcher, true, P.Admitted);
    assert q.pool.pcs == CREW[P.Dispatcher := P.Admitted];
  }

  /** The loop has submitted the job and not counted it. */
  lemma JobIsAccepted(p: System) returns (q: System)
    requires AboutToDispatch(p)
    ensures Clean(q) && q.tickets == [Ticket(S.JOB, S.HOURLY)] && q.committed == 0 && q.executed == p.executed
    ensures q.pool.pcs == CREW[P.Dispatcher := P.WantCount] && q.pool.pool.queue == [0] && !q.pool.pool.panicked
    ensures !q.pool.pool.closed && !q.pool.pool.lockFree && q.sched == p.sched
  {
    hide Clean, P.NextPool;
    NothingSubmitted(p);
    q := LoopIsAdmitted(p);
    FirstAccepted();
    q := Move(q, P.Dispatcher, true);
    assert q.pool.pcs == CREW[P.Dispatcher := P.WantCount];
  }

  lemma FirstAccepted()
    ensures var pool := P.NewPool(1, false);
      P.NextPool(pool, P.Dispatcher, P.Admitted, P.Step(P.Dispatcher, true, 0, 0)) == pool.(queue := [0], accepted := 1)
  {
  }

  lemma NothingSubmitted(p: System)
    requires Clean(p) && p.tickets == []
    ensures p.committed == 0
  {
    hide Clean, Base, TasksOk, ExecutionsOk, SectionOk;
    CleanIsReachable(p);
    ReachableInv(p);
  }

  lemma BeginVisit(p: System, id: Id) returns (q: System)
    requires Clean(p) && OthersRest(p.pool, P.Dispatcher) && p.pool.pcs[P.Dispatcher] == P.InJobs
    requires p.sched.loop.Firing? && id in p.todo
    ensures Clean(q) && q == p.(pool := q.pool, todo := p.todo - {id}, visit := Some(id))
    ensures q.pool == P.State(p.pool.pcs[P.Dispatcher := P.WantPool], p.pool.pool)
  {
    hide Clean;
    var step := Visit(P.Step(P.Dispatcher, true, 0, 0), id);
    RestersLetPass(p.pool, P.Dispatcher, true);
    hide P.CanProceed, P.WorkersExited;
    CleanStep(p, step);
    q := Apply(p, step);
  }

  /** A worker executes the job while the loop is still in its section. */
  lemma JobRuns(p: System) returns (q: System)
    requires AboutToDispatch(p)
    ensures Clean(q) && q.tickets == [Ticket(S.JOB, S.HOURLY)] && q.committed == 0 && q.sched == p.sched
    ensures q.executed == p.executed + multiset{S.HOURLY}
    ensures q.pool.pcs == CREW[P.Dispatcher := P.WantCount][P.Worker(0) := P.Executing(0)]
    ensures !q.pool.pool.closed && !q.pool.pool.lockFree && !q.pool.pool.panicked
  {
    hide Clean;
    q := JobIsAccepted(p);
    q := WorkerMoves(q, P.Idle, P.Received(0));
    q := WorkerMoves(q, P.Received(0), P.Starting(0));
    q := WorkerMoves(q, P.Starting(0), P.Executing(0));
  }

  /** The bound of one execution for each schedule call is reached. */
  lemma JobIsExecuted()
    ensures exists p :: Clean(p) && p.executed[S.HOURLY] == 1 && p.sched.h.calls[S.HOURLY] == 1
  {
    hide Clean;
    var p := JobIsScheduled();
    var q := JobRuns(p);
  }

  /** The process ends between the acceptance of the job and its write, and the next one
      finds the job pending. */
  lemma CrashBeforeWrite(p: System) returns (q: System)
    requires Clean(p) && p.tickets == [Ticket(S.JOB, S.HOURLY)] && p.committed == 0 && S.NothingFailed(p.sched.h)
    requires p.sched.loop.Firing? && DueNow(p) == {S.JOB}
    requires p.sched.data.mem.Keys == {S.JOB} && p.sched.data.mem[S.JOB].key == S.HOURLY
    ensures AboutToDispatch(q) && q.executed == p.executed && q.sched.h.calls == p.sched.h.calls
  {
    hide Clean, S.Reachable, S.Enabled, S.Apply, S.NothingFailed;
    hide AboutToDispatch;
    CleanIsReachable(p);
    BothSystemsRun(p);
    WaitsEnded(p.sched);
    var s := S.UnwrittenDispatch(p.sched);
    RestartEnabled(s);
    q := EndProcess(p);
    q := TimerFiresAgain(q, s);
  }

  lemma TimerFiresAgain(p: System, s: S.State) returns (q: System)
    requires Clean(p) && p.pool == P.State(CREW, P.NewPool(1, false)) && p.tickets == []
    requires S.Enabled(s, S.Restart) && p.sched == S.Apply(s, S.Restart) && S.Reachable(s)
    requires s.data.table.Keys == {S.JOB} && s.data.table[S.JOB].key == S.HOURLY
    requires s.data.table[S.JOB].status == Pending && s.data.table[S.JOB].nextRun <= s.clock
    ensures AboutToDispatch(q) && q.executed == p.executed && q.sched.h.calls == s.h.calls
  {
    hide Clean, S.Reachable, S.Enabled, S.Apply;
    RestartLoop(s);
    var fired := S.RestartFires(s);
    q := EnterSection(p, P.Dispatcher);
    q := LeaveSection(q, P.Dispatcher, S.FindNext(s.data.table[S.JOB].nextRun));
    assert q.pool.pcs == CREW;
    q := GoOutside(q, S.Fire);
  }

  lemma WaitsEnded(s: S.State)
    requires S.Reachable(s) && s.loop.Firing? && Due(s.data.mem, s.loop.target) == {S.JOB}
    ensures s.data.mem[S.JOB].status == Pending && s.data.mem[S.JOB].nextRun <= s.clock
  {
    hide S.Reachable;
    S.WaitsAreBounded(s);
    assert S.JOB in Due(s.data.mem, s.loop.target);
  }

  lemma EndProcess(p: System) returns (q: System)
    requires Clean(p) && p.tickets == [Ticket(S.JOB, S.HOURLY)] && p.committed == 0 && p.sched.loop.Firing?
    requires S.Enabled(p.sched, S.Dispatch({S.JOB}, {}))
    ensures Clean(q) && q.pool == P.State(CREW, P.NewPool(1, false)) && q.tickets == [] && q.executed == p.executed
    ensures q.sched == S.Apply(S.Apply(p.sched, S.Dispatch({S.JOB}, {})), S.Restart)
  {
    var start := P.State(CREW, P.NewPool(1, false));
    assert IsPoolStart(start);
    hide Clean, S.Enabled, S.Apply, P.IsStart;
    assert Batch(p) == {S.JOB} by {
      assert p.tickets[0].id == S.JOB;
    }
    CleanStep(p, Restart({}, start));
    q := Apply(p, Restart({}, start));
  }

  /** One schedule call, two executions, and no call of the store has failed. */
  lemma CrashRepeatsExecution()
    ensures exists p :: Clean(p) && p.executed[S.HOURLY] == 2 && p.sched.h.calls[S.HOURLY] == 1
  {
    hide Clean, S.NothingFailed, DueNow;
    var p := JobIsScheduled();
    var q := JobRuns(p);
    assert DueNow(q) == DueNow(p) by { SameDue(p, q); }
    q := CrashBeforeWrite(q);
    q := JobRuns(q);
  }

  // ---------------------------------------------------------------------------
  // The deadlock and the panic of the composed system

  /** The worker counts the task and is in front of its callback. */
  lemma JobIsCounted(p: System) returns (q: System)
    requires AboutToDispatch(p)
    ensures Clean(q) && q.sched == p.sched && L.DeadlockPair(q.pool, 0)
  {
    hide Clean, AboutToDispatch;
    q := JobRuns(p);
    q := WorkerMoves(q, P.Executing(0), P.Executed(0, true));
    q := WorkerMoves(q, P.Executed(0, true), P.Finishing(0, true));
  }

  /** One schedule call is enough: the loop is in the submission of the job, and the worker
      that has executed it wants to call back. */
  lemma SystemDeadlocks()
    ensures exists p :: Clean(p) && L.DeadlockPair(p.pool, 0) && p.sched.h.calls[S.HOURLY] == 1
  {
    hide Clean, AboutToDispatch, L.DeadlockPair;
    var p := JobIsScheduled();
    var q := JobIsCounted(p);
  }

  /** The loop is about to send, and `Stop` is at this place. */
  ghost predicate SendMeetsStop(p: System, place: P.Pc) {
    && Clean(p) && p.pool.pcs == CREW[P.Dispatcher := P.Admitted][P.Stopper := place] && !p.pool.pool.panicked
    && (p.pool.pool.closed <==> place == P.Closed)
  }

  lemma StopMoves(p: System, place: P.Pc, next: P.Pc) returns (q: System)
    requires SendMeetsStop(p, place) && place != P.Closed && P.Fits(P.Stopper, place)
    requires P.HasStep(p.pool.pool, P.Stopper, place, true) && next == P.NextPc(p.pool.pool, P.Stopper, place, true)
    requires next == P.Closed <==> place == P.Cancelled
    ensures SendMeetsStop(q, next) && q.sched == p.sched
  {
    hide Clean, P.HasStep, P.NextPc, P.NextPool, Noted;
    NothingNoted(p, P.Step(P.Stopper, true, 0, 0));
    StopGates(p.pool.pool, place);
    q := Move(p, P.Stopper, true);
    assert q.pool.pcs == CREW[P.Dispatcher := P.Admitted][P.Stopper := next];
  }

  lemma StopGates(pool: P.Pool, place: P.Pc)
    ensures var next := P.NextPool(pool, P.Stopper, place, P.Step(P.Stopper, true, 0, 0));
      next.closed == (pool.closed || place == P.Cancelled) && next.panicked == pool.panicked
  {
  }

  lemma QueueIsClosed(p: System) returns (q: System)
    requires SendMeetsStop(p, P.Idle)
    ensures SendMeetsStop(q, P.Closed) && q.sched == p.sched
  {
    hide SendMeetsStop;
    q := StopMoves(p, P.Idle, P.WantStop);
    q := StopMoves(q, P.WantStop, P.InStop);
    q := StopMoves(q, P.InStop, P.Flagged);
    q := StopMoves(q, P.Flagged, P.Cancelled);
    q := StopMoves(q, P.Cancelled, P.Closed);
  }

  lemma JobIsAdmitted(p: System) returns (q: System)
    requires AboutToDispatch(p)
    ensures SendMeetsStop(q, P.Idle) && q.sched == p.sched
  {
    hide Clean, AboutToDispatch;
    q := LoopIsAdmitted(p);
    assert q.pool.pcs == CREW[P.Dispatcher := P.Admitted][P.Stopper := P.Idle];
  }

  /** The submission of a due job can meet the queue that `Stop` has closed. */
  lemma SystemPanics()
    ensures exists p :: Clean(p) && p.pool.pool.panicked && p.sched.h.calls[S.HOURLY] == 1
  {
    hide Clean, AboutToDispatch;
    var p := JobIsScheduled();
    var q := JobIsAdmitted(p);
    q := QueueIsClosed(q);
    var r := SendPanics(q);
  }

  lemma SendPanics(p: System) returns (q: System)
    requires Clean(p) && P.Dispatcher in p.pool.pcs && p.pool.pcs[P.Dispatcher] == P.Admitted
    requires p.pool.pool.closed && !p.pool.pool.panicked
    ensures Clean(q) && q.sched == p.sched && q.pool.pool.panicked
  {
    hide Clean;
    var move := P.Step(P.Dispatcher, true, 0, 0);
    T.FreeStep(p.pool, P.Dispatcher, true);
    hide P.CanProceed, P.HasStep, P.WorkersExited;
    CleanStep(p, Inside(move));
    q := Apply(p, Inside(move));
  }

  /** The jobs and the tasks stand still. */
  ghost predicate StandsStill(p: System, q: System) {
    && q.tickets == p.tickets && q.committed == p.committed && q.done == p.done && q.executed == p.executed
    && q.sched.data.mem == p.sched.data.mem && q.sched.data.table == p.sched.data.table
    && q.sched.tasks == p.sched.tasks && q.sched.h.calls == p.sched.h.calls
  }

  lemma DeadlockedCommit(p: System, move: P.Step, step: S.Step, n: nat)
    requires Enabled(p, Commit(move, step)) && P.MutuallyExclusive(p.pool)
    ensures !L.DeadlockPair(p.pool, n)
  {
    hide P.CanProceed, P.HasStep, P.WorkersExited, S.Enabled, P.MutuallyExclusive;
    if L.DeadlockPair(p.pool, n) {
      LoopExcludedBy(p, move.thread);
    }
  }

  lemma LoopExcludedBy(p: System, t: P.Thread)
    requires P.MutuallyExclusive(p.pool) && t in p.pool.pcs && P.Dispatcher in p.pool.pcs && t != P.Dispatcher
    requires (t.Client? && p.pool.pcs[t] == P.InJobs) || p.pool.pcs[t].Calling?
    ensures p.pool.pcs[P.Dispatcher] != P.WantCount
  {
    hide P.MutuallyExclusive;
    LoopExcluded(p.pool, t);
  }

  lemma PoolFacts(p: System)
    requires Reachable(p)
    ensures P.MutuallyExclusive(p.pool) && P.AllFit(p.pool) && forall t :: t in p.pool.pcs ==> !t.Submitter?
  {
    hide Reachable;
    ReachableInv(p);
    BaseInv(p);
  }

  lemma DeadlockedStep(p: System, step: Step, n: nat)
    requires Reachable(p) && Enabled(p, step) && !step.Restart? && L.DeadlockPair(p.pool, n)
    ensures var q := Apply(p, step); (step.Outside? || step.Inside?) && StandsStill(p, q) && L.DeadlockPair(q.pool, n)
  {
    PoolFacts(p);
    hide Reachable, P.MutuallyExclusive, P.AllFit, P.Apply, P.CanProceed, P.WorkersExited, P.HasStep, S.Apply, S.Enabled, Does;
    match step
    case Outside(s) =>
      S.QuietEffect(p.sched, s);
      OutsideTasks(p.sched, s);
    case Inside(move) =>
      L.FrozenStep(p.pool, n, move);
      L.NobodyStarts(p.pool, n, move.thread);
      StuckLoop(p, move, n);
    case Visit(_, _) =>
    case Commit(move, s) =>
      DeadlockedCommit(p, move, s, n);
  }

  lemma StuckLoop(p: System, move: P.Step, n: nat)
    requires L.DeadlockPair(p.pool, n) && P.Enabled(p.pool, move) && !p.pool.pcs[move.thread].Starting?
    requires forall t :: t in p.pool.pcs ==> !t.Submitter?
    requires P.AllFit(p.pool)
    ensures Noted(p, move) == p
  {
    hide P.CanProceed, P.WorkersExited, P.HasStep;
    if move.thread == P.Dispatcher {
      L.PairIsStuck(p.pool, n);
      L.StuckCannotProceed(p.pool, n, P.Dispatcher);
    }
    assert P.Fits(move.thread, p.pool.pcs[move.thread]);
  }

  /** Until the process ends, no section of the job lock ends any more: no callback, no
      dispatch and no schedule call. */
  lemma {:induction false} SystemStaysDeadlocked(p: System, steps: seq<Step>, q: System, n: nat)
    requires Reachable(p) && L.DeadlockPair(p.pool, n) && Run(p, steps, q) && NoRestart(steps)
    ensures L.DeadlockPair(q.pool, n) && StandsStill(p, q)
    ensures forall i :: 0 <= i < |steps| ==> !steps[i].Commit?
    decreases |steps|
  {
    hide Reachable, Enabled, Apply, L.DeadlockPair, StandsStill;
    if steps == [] {
      StillHere(p);
    } else {
      DeadlockedStep(p, steps[0], n);
      ReachableStep(p, steps[0]);
      SystemStaysDeadlocked(Apply(p, steps[0]), steps[1..], q, n);
      StillOn(p, Apply(p, steps[0]), q);
    }
  }

  lemma StillHere(p: System)
    ensures StandsStill(p, p)
  {
  }

  lemma StillOn(p: System, q: System, r: System)
    requires StandsStill(p, q) && StandsStill(q, r)
    ensures StandsStill(p, r)
  {
  }
}
