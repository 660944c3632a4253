/**
  The scheduler thread as the imperative code it is. Between any two accesses to shared state,
  `Interfere` lets the workers and the event loop take any number of their steps. Every method is
  proved to perform a run of the transition system, and `Iterate` to leave nothing undone.
*/
module AvalancheScheduler {
  import opened Common
  import opened AlgsExecutionStates
  import opened ResourcePool
  import opened SchedulerState
  import opened TaskInvariants
  import opened TaskSteps
  import opened EventCounters
  import opened SchedulerTheorems
  import opened Traces
  import opened WakeUp

  /** The indices of the algorithms in a state, in increasing order: a copy of one index set. */
  function AlgsIn(states: seq<State>, st: State, from_: nat): (r: seq<nat>)
    requires from_ <= |states|
    ensures forall i, j :: 0 <= i < j < |r| ==> r[i] < r[j]
    ensures forall i :: 0 <= i < |r| ==> from_ <= r[i] < |states| && states[r[i]] == st
    decreases |states| - from_
  {
    if from_ == |states| then []
    else if states[from_] == st then [from_] + AlgsIn(states, st, from_ + 1)
    else AlgsIn(states, st, from_ + 1)
  }

  lemma {:induction false} AlgsInAll(states: seq<State>, st: State, from_: nat, a: nat)
    requires from_ <= a < |states| && states[a] == st
    ensures a in AlgsIn(states, st, from_)
    decreases |states| - from_
  {
    if a == from_ {
      assert AlgsIn(states, st, from_)[0] == a;
    } else {
      AlgsInAll(states, st, from_ + 1, a);
      if states[from_] == st {
        assert AlgsIn(states, st, from_) == [from_] + AlgsIn(states, st, from_ + 1);
      }
    }
  }

  lemma TakeNext(q: seq<nat>, n: nat)
    requires n < |q| && forall i, j :: 0 <= i < j < |q| ==> q[i] < q[j]
    ensures q[..n + 1] == q[..n] + [q[n]] && q[n] !in q[..n] && q[n] in q
  {
  }

  lemma SignoffHead(u: Setup, s: Sys)
    requires GoodSetup(u) && Reachable(u, s) && s.sched.pc.Idle? && s.actions != [] && s.actions[0].SignoffAction?
    ensures StateOf(s.sched.slots, s.actions[0].ts) == Some(SCHEDULED)
  {
    HeadAction(u, s);
  }

  /** A sign-off of an algorithm that is SCHEDULED is accepted, and the visitor may promote the slot. */
  lemma SignoffStep(u: Setup, s: Sys, outcome: State, after: Slot) returns (l: Label)
    requires s.sched.pc.Idle? && s.actions != [] && s.actions[0].SignoffAction?
    requires outcome in {EVTACCEPTED, EVTREJECTED, ERROR}
    requires StateOf(s.sched.slots, s.actions[0].ts) == Some(SCHEDULED)
    requires Promoted(Revised(s.sched.slots, s.actions[0].ts, outcome)[s.actions[0].ts.ctx.slot], after)
    ensures l == ExecSignoff(outcome, after) && SchedEnabled(u, s, l)
    ensures SchedApply(u, s, l) == SignedOff(s, after)
  {
    l := ExecSignoff(outcome, after);
  }

  /** The state after the head sign-off left its slot like this. */
  function SignedOff(s: Sys, after: Slot): Sys
    requires s.actions != [] && s.actions[0].SignoffAction? && s.actions[0].ts.ctx.slot < |s.sched.slots|
  {
    s.(actions := s.actions[1..],
       sched := s.sched.(slots := s.sched.slots[s.actions[0].ts.ctx.slot := after],
                         inFlight := s.sched.inFlight - 1, needsUpdate := true))
  }

  lemma SignoffReaches(u: Setup, s: Sys, t: Sys, outcome: State, after: Slot)
    requires Reachable(u, s) && s.sched.pc.Idle? && s.actions != [] && s.actions[0].SignoffAction?
    requires outcome in {EVTACCEPTED, EVTREJECTED, ERROR}
    requires StateOf(s.sched.slots, s.actions[0].ts) == Some(SCHEDULED)
    requires Promoted(Revised(s.sched.slots, s.actions[0].ts, outcome)[s.actions[0].ts.ctx.slot], after)
    requires t == SignedOff(s, after)
    ensures Reachable(u, t) && Does(u, s, [Done(s, ExecSignoff(outcome, after))], t)
  {
    var l := SignoffStep(u, s, outcome, after);
    Stepped(u, s, l);
  }

  ghost predicate PromotedVector(a: seq<State>, b: seq<State>) {
    |a| == |b| && forall k :: 0 <= k < |a| ==> PromotedState(a[k], b[k])
  }

  lemma PromotedSlot(a: Slot, b: Slot)
    requires b == a.(states := b.states, subs := b.subs, root := b.root) && (a.root != -1 ==> b.root == a.root)
    requires PromotedVector(a.states, b.states) && |a.subs| == |b.subs|
    requires forall j :: 0 <= j < |a.subs| ==> PromotedVector(a.subs[j], b.subs[j])
    ensures Promoted(a, b)
  {
    forall sub, alg | SlotState(a, sub, alg).Some?
      ensures SlotState(b, sub, alg).Some?
      ensures PromotedState(SlotState(a, sub, alg).value, SlotState(b, sub, alg).value)
    {
      match sub
      case None => assert PromotedState(a.states[alg], b.states[alg]);
      case Some(j) => assert PromotedVector(a.subs[j], b.subs[j]);
    }
  }

  /** The first half of a release changes three fields. */
  lemma GiveResourcesEffect(u: Setup, s: Sys, ts: TaskSpec, t: Sys)
    requires WorkEnabled(u, s, Label.GiveResources(ts))
    requires t == s.(work := s.work.(pool := ReleaseResources(u.pool, s.work.pool, ts),
                                     executed := s.work.executed - multiset{ts},
                                     unlocked := s.work.unlocked + multiset{ts}))
    ensures t == WorkApply(u, s, Label.GiveResources(ts))
  {
  }

  /** So does the second half. */
  lemma GiveInstanceEffect(u: Setup, s: Sys, ts: TaskSpec, t: Sys)
    requires WorkEnabled(u, s, Label.GiveInstance(ts))
    requires t == s.(work := s.work.(pool := ReleaseInstance(u.pool, s.work.pool, ts),
                                     unlocked := s.work.unlocked - multiset{ts},
                                     returned := s.work.returned + multiset{ts}))
    ensures t == WorkApply(u, s, Label.GiveInstance(ts))
  {
  }

  // ----- pieces of runs ---------------------------------------------------------------------------

  lemma DoesDispatch(u: Setup, s0: Sys, s1: Sys, s2: Sys, t: Sys)
    requires Does(u, s0, [Done(s0, QueueSpec)], s1) && Does(u, s1, [Done(s1, SpawnTask)], s2)
    requires Does(u, s2, [Done(s2, MarkScheduled)], t)
    ensures Does(u, s0, [Done(s0, QueueSpec), Done(s1, SpawnTask), Done(s2, MarkScheduled)], t)
  {
    DoesTrans(u, s0, [Done(s0, QueueSpec)], s1, [Done(s1, SpawnTask)], s2);
    DoesTrans(u, s0, [Done(s0, QueueSpec), Done(s1, SpawnTask)], s2, [Done(s2, MarkScheduled)], t);
  }

  /** A DATAREADY algorithm is scheduled after the others had their turn. */
  lemma PassesEntry(u: Setup, s0: Sys, s1: Sys, ts: TaskSpec, rest: seq<Done>, t: Sys)
    requires Does(u, s0, [], s1) && Does(u, s1, [Done(s1, TakeReady(ts))] + rest, t) && OfPass(rest)
    ensures Passes(u, s0, t)
  {
    var tr := [Done(s1, TakeReady(ts))] + rest;
    DoesTrans(u, s0, [], s1, tr, t);
    assert [] + tr == tr;
    assert OfPass(tr);
  }

  lemma PassAfter(u: Setup, start: Sys, tr: seq<Done>, s: Sys, t: Sys) returns (more: seq<Done>)
    requires Does(u, start, tr, s) && Passes(u, s, t)
    ensures Does(u, start, more, t) && Where(more, IsTry) == Where(tr, IsTry)
    ensures Where(more, IsAction) == Where(tr, IsAction)
  {
    var pass :| Does(u, s, pass, t) && OfPass(pass);
    DoesTrans(u, start, tr, s, pass, t);
    WherePass(tr, pass, IsTry);
    WherePass(tr, pass, IsAction);
    more := tr + pass;
  }

  /** An `iterate`: no action is taken, and it ends by noting that no update is due. */
  ghost predicate Updates(tr: seq<Done>) {
    tr != [] && tr[|tr| - 1].l.IterateDone? && Where(tr, IsAction) == []
  }

  lemma DoneAfter(u: Setup, start: Sys, tr: seq<Done>, s: Sys, t: Sys) returns (more: seq<Done>)
    requires Does(u, start, tr, s) && Does(u, s, [Done(s, IterateDone)], t) && Where(tr, IsAction) == []
    ensures Does(u, start, more, t) && Where(more, IsTry) == Where(tr, IsTry) && Updates(more)
  {
    var last := [Done(s, IterateDone)];
    more := tr + last;
    DoesTrans(u, start, tr, s, last, t);
    WhereConcat(tr, last, IsTry);
    WhereConcat(tr, last, IsAction);
    WhereNone(last, IsTry);
    WhereNone(last, IsAction);
  }

  /** A round adds one action. */
  lemma OneAction(tr: seq<Done>, acted: seq<Done>, update: seq<Done>)
    requires acted != [] && Where(acted, IsAction) == [acted[0]] && (update == [] || Updates(update))
    ensures Where(tr + (acted + update), IsAction) == Where(tr, IsAction) + [acted[0]]
  {
    WhereConcat(tr, acted + update, IsAction);
    WhereConcat(acted, update, IsAction);
  }

  // ----- verdicts -----------------------------------------------------------------------------------

  /** What the execution state service records of an executed algorithm. */
  datatype AlgExecState = AlgExecState(success: bool, filterPassed: bool)

  type Execution = TaskSpec -> AlgExecState

  ghost predicate Verdict(outcome: State, e: AlgExecState) {
    && outcome in {EVTACCEPTED, EVTREJECTED, ERROR}
    && (outcome == ERROR <==> !e.success)
    && (outcome == EVTACCEPTED <==> e.success && e.filterPassed)
  }

  /** If the step is a sign-off, the algorithm gets the verdict of its execution. */
  ghost predicate Judges(d: Done, execution: Execution) {
    d.l.ExecSignoff? ==>
      && d.at.actions != [] && d.at.actions[0].SignoffAction?
      && Verdict(d.l.outcome, execution(d.at.actions[0].ts))
  }

  // ----- when a slot is done ------------------------------------------------------------------------

  /** What retiring slot i does, for each kind of slot; s is before and t after. */
  ghost predicate Retires(s: Sys, t: Sys, i: nat) {
    && i < |s.sched.slots| && i < |s.status| && s.sched.slots[i].ctx.Some?
    && var sl := s.sched.slots[i];
    && ((exists sub, alg :: SlotState(sl, sub, alg) in {Some(SCHEDULED), Some(RESOURCELESS)}) ==> t == s)
    && (Resting(sl) && sl.root == -1 ==> HandedOver(s, t, i) && t.status == s.status[i := AlgStall])
    && (Resting(sl) && (exists sub, alg :: SlotState(sl, sub, alg) == Some(CONTROLREADY)) ==>
          HandedOver(s, t, i) && t.status == s.status[i := AlgStall])
    && (Over(sl) && sl.root != -1 ==>
          t.status == s.status && if s.status[i] == Success then HandedOver(s, t, i) else Lost(s, t, i))
  }

  predicate Vacated(s: Sys, t: Sys, i: nat)
    requires i < |s.sched.slots|
  {
    t.sched.slots == s.sched.slots[i := s.sched.slots[i].(ctx := None, complete := true)]
  }

  predicate HandedOver(s: Sys, t: Sys, i: nat)
    requires i < |s.sched.slots| && s.sched.slots[i].ctx.Some?
  {
    Vacated(s, t, i) && t.finished == s.finished + [s.sched.slots[i].ctx.value] && t.dropped == s.dropped
  }

  predicate Lost(s: Sys, t: Sys, i: nat)
    requires i < |s.sched.slots|
  {
    Vacated(s, t, i) && t.finished == s.finished && t.dropped == s.dropped + multiset{i}
  }

  lemma FinishRetires(u: Setup, s: Sys, i: nat)
    requires SchedEnabled(u, s, Finish(i))
    ensures Retires(s, SchedApply(u, s, Finish(i)), i)
  {
    FinishedMeans(s.sched.slots[i]);
    RestingOrOver(s.sched.slots[i]);
  }

  lemma StallRetires(u: Setup, s: Sys, i: nat)
    requires SchedEnabled(u, s, Stall(i)) && !s.sched.slots[i].complete
    ensures Retires(s, SchedApply(u, s, Stall(i)), i)
  {
    FinishedMeans(s.sched.slots[i]);
    StalledMeans(s.sched.slots[i]);
    RestingOrOver(s.sched.slots[i]);
  }

  lemma NothingRetires(s: Sys, i: nat)
    requires i < |s.sched.slots| && i < |s.status| && s.sched.slots[i].ctx.Some? && !s.sched.slots[i].complete
    requires !IsFinished(s.sched.slots[i]) && !IsStalled(s.sched.slots[i])
    ensures Retires(s, s, i)
  {
    FinishedMeans(s.sched.slots[i]);
    StalledMeans(s.sched.slots[i]);
    RestingOrOver(s.sched.slots[i]);
  }

  /** The algorithm that signs off has its outcome, whatever the visitor promotes. */
  lemma OutcomeStays(slots: seq<Slot>, ts: TaskSpec, outcome: State, after: Slot)
    requires StateOf(slots, ts) == Some(SCHEDULED) && outcome in {EVTACCEPTED, EVTREJECTED, ERROR}
    requires Promoted(Revised(slots, ts, outcome)[ts.ctx.slot], after)
    ensures StateOf(slots[ts.ctx.slot := after], ts) == Some(outcome)
  {
    var marked := Revised(slots, ts, outcome);
    StateOfRevised(slots, ts, outcome, ts);
    StateOfPromoted(marked, ts.ctx.slot, after, ts);
    assert marked[ts.ctx.slot := after] == slots[ts.ctx.slot := after];
  }

  /** An algorithm that is ready or waits is marked as asked. */
  lemma MarkedAs(s: Sys, r: Sys, ts: TaskSpec, st: State)
    requires RetryMatch(s) && RetryTaken(s, r, ts) && st in {SCHEDULED, RESOURCELESS}
    ensures StateOf(s.sched.slots, ts).Some? && StateOf(Revised(s.sched.slots, ts, st), ts) == Some(st)
  {
    RetryHead(s, r, ts);
    StateOfRevised(s.sched.slots, ts, st, ts);
  }

  lemma MarksAsAsked(u: Setup, s: Sys, r: Sys, ts: TaskSpec)
    requires GoodSetup(u) && Reachable(u, s) && RetryTaken(s, r, ts) && s.sched.pc.Idle?
    ensures StateOf(s.sched.slots, ts).Some?
    ensures StateOf(Revised(s.sched.slots, ts, SCHEDULED), ts) == Some(SCHEDULED)
    ensures StateOf(Revised(s.sched.slots, ts, RESOURCELESS), ts) == Some(RESOURCELESS)
  {
    ReachableInv(u, s);
    MarkedAs(s, r, ts, SCHEDULED);
    MarkedAs(s, r, ts, RESOURCELESS);
  }

  /** The visitor finds the root decision of a new event not made, and may make it or not. */
  lemma DecidedByVisitor(algs: nat, c: Context, root: int)
    ensures Promoted(ResetSlot(algs, c), Slot(Some(c), false, seq(algs, k => INITIAL), root, []))
  {
    assert Blank(algs) == seq(algs, k => INITIAL);
  }

  /** The slot holds the event c, and its algorithms have not gone beyond being ready. */
  ghost predicate Begun(sl: Slot, c: Context, algs: nat) {
    && sl.ctx == Some(c) && !sl.complete && sl.subs == [] && |sl.states| == algs
    && forall a :: 0 <= a < algs ==> sl.states[a] in {INITIAL, CONTROLREADY, DATAREADY}
  }

  lemma BegunAfterReset(algs: nat, c: Context, sl: Slot)
    requires Promoted(ResetSlot(algs, c), sl)
    ensures Begun(sl, c, algs)
  {
    forall a | 0 <= a < algs
      ensures sl.states[a] in {INITIAL, CONTROLREADY, DATAREADY}
    {
      assert SlotState(ResetSlot(algs, c), None, a) == Some(INITIAL);
      assert SlotState(sl, None, a) == Some(sl.states[a]);
    }
  }

  class AvalancheSchedulerSvc {
    const u: Setup

    // private to the scheduler thread
    var m_eventSlots: seq<Slot>
    var m_retryQueue: seq<TaskSpec>
    var m_algosInFlight: int
    var m_needsUpdate: bool
    var m_pc: Pc

    // shared
    var m_actionsQueue: seq<Action>
    var m_finishedEvents: seq<Context>
    var m_freeSlots: int
    var m_scheduledQueue: multiset<TaskSpec>
    var m_arena: nat
    var m_algResourcePool: Pool<TaskSpec>
    var m_algExecStateSvc: seq<Status>

    // the other threads
    var executing: multiset<TaskSpec>
    var executed: multiset<TaskSpec>
    var unlocked: multiset<TaskSpec>
    var returned: multiset<TaskSpec>
    var eventLoop: Loop
    var whiteboard: Board
    var dropped: multiset<nat>
    var leaked: multiset<nat>

    function View(): Sys
      reads this
    {
      Sys(Sched(m_eventSlots, m_retryQueue, m_algosInFlight, m_needsUpdate, m_pc),
          Work(m_scheduledQueue, m_arena, executing, executed, unlocked, returned, m_algResourcePool),
          eventLoop, whiteboard, m_actionsQueue, m_finishedEvents, m_freeSlots, m_algExecStateSvc, dropped, leaked)
    }

    ghost predicate Valid()
      reads this
    {
      GoodSetup(u) && Reachable(u, View())
    }

    constructor (u: Setup, pool: Pool<TaskSpec>)
      requires GoodSetup(u) && Initial(u.pool, pool)
      ensures this.u == u && Init(u, View()) && Valid() && Awake(View())
    {
      this.u := u;
      m_eventSlots := seq(u.slots, i => Slot(None, true, Blank(u.algs), -1, []));
      m_retryQueue, m_algosInFlight, m_needsUpdate, m_pc := [], 0, true, Idle;
      m_actionsQueue, m_finishedEvents, m_freeSlots := [], [], u.slots;
      m_scheduledQueue, m_arena, m_algResourcePool := multiset{}, 0, pool;
      m_algExecStateSvc := seq(u.slots, i => Invalid);
      executing, executed, unlocked, returned := multiset{}, multiset{}, multiset{}, multiset{};
      eventLoop := Loop(0, None, None, None, []);
      whiteboard := Board(seq(u.slots, i => None), seq(u.slots, i => i));
      dropped, leaked := multiset{}, multiset{};
      new;
      assert Init(u, View()) && Run(u, View(), [], View());
      InitAwake(u, View());
    }

    // ----- the other threads ------------------------------------------------------

    /** A started task takes its specification from the queue: `next`. */
    method DoStartTask(ts: TaskSpec)
      requires WorkEnabled(u, View(), Label.StartTask(ts))
      modifies `m_arena, `m_scheduledQueue, `executing
      ensures View() == WorkApply(u, old(View()), Label.StartTask(ts))
    {
      m_arena, m_scheduledQueue, executing :=
        m_arena - 1, m_scheduledQueue - multiset{ts}, executing + multiset{ts};
    }

    /** A started task that finds no specification warns and ends. */
    method DoStartEmpty()
      requires WorkEnabled(u, View(), Label.StartEmpty)
      modifies `m_arena
      ensures View() == WorkApply(u, old(View()), Label.StartEmpty)
    {
      m_arena := m_arena - 1;
    }

    /** An executing algorithm calls `scheduleEventView`. */
    method DoIssueView(ts: TaskSpec, attach: bool)
      requires WorkEnabled(u, View(), Label.IssueView(ts, attach))
      modifies `m_actionsQueue
      ensures View() == WorkApply(u, old(View()), Label.IssueView(ts, attach))
      ensures m_actionsQueue == old(m_actionsQueue) + [ViewAction(ts, attach)]
    {
      m_actionsQueue := m_actionsQueue + [ViewAction(ts, attach)];
    }

    /** The algorithm has returned or thrown; the event status is updated. */
    method DoEndExecution(ts: TaskSpec, failed: bool)
      requires WorkEnabled(u, View(), Label.EndExecution(ts, failed))
      modifies `executing, `executed, `m_algExecStateSvc
      ensures View() == WorkApply(u, old(View()), Label.EndExecution(ts, failed))
    {
      var i := ts.ctx.slot;
      executing := executing - multiset{ts};
      executed := executed + multiset{ts};
      m_algExecStateSvc := m_algExecStateSvc[i := Updated(m_algExecStateSvc[i], failed)];
    }

    /** First half of `releaseAlgorithm`. */
    method DoGiveResources(ts: TaskSpec)
      requires WorkEnabled(u, View(), Label.GiveResources(ts))
      modifies `m_algResourcePool, `executed, `unlocked
      ensures View() == WorkApply(u, old(View()), Label.GiveResources(ts))
    {
      ghost var s := View();
      m_algResourcePool, executed, unlocked :=
        ReleaseResources(u.pool, m_algResourcePool, ts), executed - multiset{ts}, unlocked + multiset{ts};
      GiveResourcesEffect(u, s, ts, View());
    }

    /** Second half of `releaseAlgorithm`. */
    method DoGiveInstance(ts: TaskSpec)
      requires WorkEnabled(u, View(), Label.GiveInstance(ts))
      modifies `m_algResourcePool, `unlocked, `returned
      ensures View() == WorkApply(u, old(View()), Label.GiveInstance(ts))
    {
      ghost var s := View();
      m_algResourcePool, unlocked, returned :=
        ReleaseInstance(u.pool, m_algResourcePool, ts), unlocked - multiset{ts}, returned + multiset{ts};
      GiveInstanceEffect(u, s, ts, View());
    }

    /** The sign-off closure enters the action queue. */
    method DoPushSignoff(ts: TaskSpec)
      requires WorkEnabled(u, View(), Label.PushSignoff(ts))
      modifies `returned, `m_actionsQueue
      ensures View() == WorkApply(u, old(View()), Label.PushSignoff(ts))
      ensures m_actionsQueue == old(m_actionsQueue) + [SignoffAction(ts)]
    {
      returned := returned - multiset{ts};
      m_actionsQueue := m_actionsQueue + [SignoffAction(ts)];
    }

    /** One step of a worker in `AlgTask::operator()`. */
    method AlgTaskStep(l: Label)
      requires WorkLabel(l) && WorkEnabled(u, View(), l)
      modifies this
      ensures View() == WorkApply(u, old(View()), l)
    {
      match l
      case StartTask(ts) => DoStartTask(ts);
      case StartEmpty => DoStartEmpty();
      case IssueView(ts, attach) => DoIssueView(ts, attach);
      case EndExecution(ts, failed) => DoEndExecution(ts, failed);
      case GiveResources(ts) => DoGiveResources(ts);
      case GiveInstance(ts) => DoGiveInstance(ts);
      case PushSignoff(ts) => DoPushSignoff(ts);
    }

    /** `createEventContext` with input left. */
    method DoCreate()
      requires LoopEnabled(View(), Label.Create)
      modifies this
      ensures View() == LoopApply(old(View()), Label.Create)
    {
      var i := whiteboard.free[0];
      whiteboard := Board(whiteboard.partitions[i := Some(eventLoop.nevt)], whiteboard.free[1..]);
      eventLoop := eventLoop.(nevt := eventLoop.nevt + 1, created := Some(Context(eventLoop.nevt, i)));
    }

    /** The event is on the black list. */
    method DoSkip()
      requires LoopEnabled(View(), Label.Skip)
      modifies this
      ensures View() == LoopApply(old(View()), Label.Skip)
    {
      var i := eventLoop.created.value.slot;
      m_algExecStateSvc := m_algExecStateSvc[i := Invalid];
      whiteboard := Freed(whiteboard, i);
      eventLoop := eventLoop.(created := None);
    }

    /** The input has run out; the allocated store is not freed. */
    method DoEndInput()
      requires LoopEnabled(View(), Label.EndInput)
      modifies this
      ensures View() == LoopApply(old(View()), Label.EndInput)
    {
      leaked := leaked + multiset{eventLoop.created.value.slot};
      eventLoop := eventLoop.(created := None);
    }

    /** `pushNewEvent` up to the decrement of the free slots. */
    method DoReserve()
      requires LoopEnabled(View(), Label.Reserve)
      modifies this
      ensures View() == LoopApply(old(View()), Label.Reserve)
    {
      m_algExecStateSvc := m_algExecStateSvc[eventLoop.created.value.slot := Invalid];
      m_freeSlots := m_freeSlots - 1;
      eventLoop := eventLoop.(created := None, reserved := eventLoop.created);
    }

    /** `pushNewEvent` without a free slot. */
    method DoPushRefused()
      requires LoopEnabled(View(), Label.PushRefused)
      modifies this
      ensures View() == LoopApply(old(View()), Label.PushRefused)
    {
      m_algExecStateSvc := m_algExecStateSvc[eventLoop.created.value.slot := Invalid];
      eventLoop := eventLoop.(created := None);
    }

    /** The end of `pushNewEvent`. */
    method DoPushEvent()
      requires LoopEnabled(View(), Label.PushEvent)
      modifies this
      ensures View() == LoopApply(old(View()), Label.PushEvent)
    {
      m_actionsQueue := m_actionsQueue + [PushAction(eventLoop.reserved.value)];
      eventLoop := eventLoop.(reserved := None);
    }

    /** `popFinishedEvent` or `tryPopFinishedEvent` obtains a context. */
    method DoPopFinished()
      requires LoopEnabled(View(), Label.PopFinished)
      modifies this
      ensures View() == LoopApply(old(View()), Label.PopFinished)
    {
      eventLoop := eventLoop.(popped := Some(m_finishedEvents[0]));
      m_finishedEvents := m_finishedEvents[1..];
    }

    /** The popped context is counted. */
    method DoCountPopped()
      requires LoopEnabled(View(), Label.CountPopped)
      modifies this
      ensures View() == LoopApply(old(View()), Label.CountPopped)
    {
      m_freeSlots := m_freeSlots + 1;
      eventLoop := eventLoop.(popped := None, drained := eventLoop.drained + [eventLoop.popped.value]);
    }

    /** `drainScheduler` frees the store and deletes the context. */
    method DoFlush()
      requires LoopEnabled(View(), Label.Flush)
      modifies this
      ensures View() == LoopApply(old(View()), Label.Flush)
    {
      whiteboard := Freed(whiteboard, eventLoop.drained[0].slot);
      eventLoop := eventLoop.(drained := eventLoop.drained[1..]);
    }

    /** One step of the event-loop thread. */
    method EventLoopStep(l: Label)
      requires !SchedLabel(l) && !WorkLabel(l) && LoopEnabled(View(), l)
      modifies this
      ensures View() == LoopApply(old(View()), l)
    {
      match l
      case Create => DoCreate();
      case Skip => DoSkip();
      case EndInput => DoEndInput();
      case Reserve => DoReserve();
      case PushRefused => DoPushRefused();
      case PushEvent => DoPushEvent();
      case PopFinished => DoPopFinished();
      case CountPopped => DoCountPopped();
      case Flush => DoFlush();
    }

    /** Nothing of the scheduler thread's own has changed, and no action was taken from the queue. */
    twostate predicate Undisturbed()
      reads this
    {
      && m_eventSlots == old(m_eventSlots) && m_retryQueue == old(m_retryQueue)
      && m_algosInFlight == old(m_algosInFlight) && m_needsUpdate == old(m_needsUpdate) && m_pc == old(m_pc)
      && old(m_actionsQueue) <= m_actionsQueue
    }

    /** At most one step of another thread. */
    method OtherStep()
      requires Valid()
      modifies this
      ensures Valid() && Undisturbed()
      ensures Does(u, old(View()), [], View())
    {
      var l: Label := *;
      ghost var s := View();
      DoesNothing(u, s);
      if WorkLabel(l) && WorkEnabled(u, View(), l) {
        Stepped(u, s, l);
        AlgTaskStep(l);
      } else if !SchedLabel(l) && !WorkLabel(l) && LoopEnabled(View(), l) {
        Stepped(u, s, l);
        EventLoopStep(l);
      }
    }

    /** Any number of steps of the other threads. */
    method Interfere()
      requires Valid()
      modifies this
      ensures Valid() && Undisturbed()
      ensures Does(u, old(View()), [], View())
    {
      DoesNothing(u, View());
      var steps: nat := *;
      while steps > 0
        invariant Valid() && Undisturbed()
        invariant Does(u, old(View()), [], View())
      {
        ghost var s := View();
        OtherStep();
        DoesTrans(u, old(View()), [], s, [], View());
        steps := steps - 1;
      }
    }

    // ----- schedule -----------------------------------------------------------------

    method DoQueueSpec()
      requires SchedEnabled(u, View(), QueueSpec)
      modifies this`m_pc, this`m_scheduledQueue
      ensures View() == SchedApply(u, old(View()), QueueSpec)
    {
      m_scheduledQueue := m_scheduledQueue + multiset{m_pc.ts};
      m_pc := Queued(m_pc.ts);
    }

    method DoSpawnTask()
      requires SchedEnabled(u, View(), SpawnTask)
      modifies this`m_pc, this`m_arena
      ensures View() == SchedApply(u, old(View()), SpawnTask)
    {
      m_arena := m_arena + 1;
      m_pc := Spawned(m_pc.ts);
    }

    method DoMarkScheduled()
      requires SchedEnabled(u, View(), MarkScheduled)
      modifies this`m_pc, this`m_algosInFlight, this`m_eventSlots
      ensures View() == SchedApply(u, old(View()), MarkScheduled)
    {
      m_algosInFlight := m_algosInFlight + 1;
      m_eventSlots := Revised(m_eventSlots, m_pc.ts, SCHEDULED);
      m_pc := Idle;
    }

    /** Nothing but the place in `schedule` has changed for the scheduler thread. */
    twostate predicate OwnKept()
      reads this
    {
      && m_eventSlots == old(m_eventSlots) && m_retryQueue == old(m_retryQueue)
      && m_algosInFlight == old(m_algosInFlight) && m_needsUpdate == old(m_needsUpdate)
      && old(m_actionsQueue) <= m_actionsQueue
    }

    /** The acquired specification enters the queue, and the other threads go on. */
    method PushSpec()
      requires Valid() && m_pc.Got?
      modifies this
      ensures Valid() && m_pc == Queued(old(m_pc).ts) && OwnKept()
      ensures Does(u, old(View()), [Done(old(View()), QueueSpec)], View())
    {
      ghost var s := View();
      QueueStepped(u, s);
      DoQueueSpec();
      ghost var t := View();
      Interfere();
      DoesTrans(u, s, [Done(s, QueueSpec)], t, [], View());
    }

    /** A task for it is spawned, and the other threads go on. */
    method Spawn()
      requires Valid() && m_pc.Queued?
      modifies this
      ensures Valid() && m_pc == Spawned(old(m_pc).ts) && OwnKept()
      ensures Does(u, old(View()), [Done(old(View()), SpawnTask)], View())
    {
      ghost var s := View();
      SpawnStepped(u, s);
      DoSpawnTask();
      ghost var t := View();
      Interfere();
      DoesTrans(u, s, [Done(s, SpawnTask)], t, [], View());
    }

    /** The part of `schedule` after a successful acquisition: launch, count and mark. */
    method Dispatch() returns (ghost tr: seq<Done>)
      requires Valid() && m_pc.Got?
      modifies this
      ensures Valid() && m_pc.Idle? && Does(u, old(View()), tr, View()) && OfPass(tr)
      ensures Addressable(old(m_eventSlots), old(m_pc).ts)
      ensures m_eventSlots == Revised(old(m_eventSlots), old(m_pc).ts, SCHEDULED)
      ensures m_retryQueue == old(m_retryQueue) && m_algosInFlight == old(m_algosInFlight) + 1
      ensures m_needsUpdate == old(m_needsUpdate) && old(m_actionsQueue) <= m_actionsQueue
    {
      ghost var s0 := View();
      PushSpec();
      ghost var s1 := View();
      Spawn();
      ghost var s2 := View();
      HandAddressable(u, s2);
      Stepped(u, s2, MarkScheduled);
      DoMarkScheduled();
      tr := [Done(s0, QueueSpec), Done(s1, SpawnTask), Done(s2, MarkScheduled)];
      DoesDispatch(u, s0, s1, s2, View());
    }

    /** Try to acquire; park the specification in the retry queue if that fails. */
    method AcquireOrPark(ts: TaskSpec) returns (acquired: bool)
      requires Schedulable(u, View(), ts) && m_pc.Idle?
      modifies this`m_eventSlots, this`m_retryQueue, this`m_algResourcePool, this`m_pc
      ensures View() == TrySchedule(u, old(View()), ts)
      ensures acquired == CanAcquire(u.pool, old(m_algResourcePool), ts.alg)
      ensures acquired ==> m_pc == Got(ts) && m_eventSlots == old(m_eventSlots) && m_retryQueue == old(m_retryQueue)
      ensures !acquired ==>
                && m_pc.Idle? && m_eventSlots == Revised(old(m_eventSlots), ts, RESOURCELESS)
                && m_retryQueue == old(m_retryQueue) + [ts]
    {
      acquired := CanAcquire(u.pool, m_algResourcePool, ts.alg);
      m_algResourcePool := Acquire(u.pool, m_algResourcePool, ts, ts.alg);
      if acquired {
        m_pc := Got(ts);
      } else {
        m_eventSlots := Revised(m_eventSlots, ts, RESOURCELESS);
        m_retryQueue := m_retryQueue + [ts];
      }
    }

    /**
      Acquire an instance and its resources; then queue the specification, spawn a task, count it
      and mark it SCHEDULED, while the other threads go on. Or park it in the retry queue. Either
      way something is in flight afterwards.
    */
    method Schedule(ts: TaskSpec, ghost before: Sys) returns (acquired: bool, ghost rest: seq<Done>)
      requires GoodSetup(u) && Reachable(u, before) && before.sched.pc.Idle? && m_pc.Idle?
      requires RetryTaken(before, View(), ts)
      modifies this
      ensures Valid() && m_pc.Idle? && OfPass(rest)
      ensures Does(u, before, [Done(before, Beginning(before, old(View()), ts))] + rest, View())
      ensures acquired == Served(u, before, ts)
      ensures Addressable(before.sched.slots, ts)
      ensures m_eventSlots == Revised(before.sched.slots, ts, if acquired then SCHEDULED else RESOURCELESS)
      ensures StateOf(m_eventSlots, ts) == Some(if acquired then SCHEDULED else RESOURCELESS)
      ensures m_retryQueue == old(m_retryQueue) + if acquired then [] else [ts]
      ensures m_algosInFlight == old(m_algosInFlight) + if acquired then 1 else 0
      ensures m_algosInFlight > 0
      ensures m_needsUpdate == old(m_needsUpdate) && old(m_actionsQueue) <= m_actionsQueue
    {
      ghost var r := View();
      TryStepped(u, before, r, ts);
      FailureFindsFlight(u, before, r, ts);
      MarksAsAsked(u, before, r, ts);
      ghost var first := [Done(before, Beginning(before, r, ts))];
      rest := [];
      acquired := AcquireOrPark(ts);
      ghost var got := View();
      if acquired {
        rest := Dispatch();
        DoesTrans(u, before, first, got, rest, View());
      } else {
        assert first + rest == first;
      }
    }

    // ----- iterate --------------------------------------------------------------------

    /** Schedule the algorithm of a DATAREADY entry of slot i, after the others had their turn. */
    method ScheduleEntry(i: nat, sub: Option<nat>, alg: nat, ghost start: Sys, ghost done: seq<nat>)
      requires Valid() && m_pc.Idle? && i < |m_eventSlots| && m_eventSlots[i].ctx.Some?
      requires SlotState(m_eventSlots[i], sub, alg) == Some(DATAREADY)
      requires SlotProgress(u, start, View(), i, sub, done)
      modifies this
      ensures Valid() && m_pc.Idle?
      ensures SlotProgress(u, start, View(), i, sub, done + [alg])
    {
      ghost var s0 := View();
      Interfere();
      ghost var s1 := View();
      OccupiedContext(u, s1, i);
      var ts := TaskSpec(m_eventSlots[i].ctx.value, sub, alg);
      var acquired;
      ghost var rest;
      acquired, rest := Schedule(ts, s1);
      PassesEntry(u, s0, s1, ts, rest, View());
      SlotProgressTrans(u, start, s0, View(), i, sub, done, alg, if acquired then SCHEDULED else RESOURCELESS);
    }

    /** Perform DATAREADY to SCHEDULED for one state vector of slot i. */
    method ScheduleReady(i: nat, sub: Option<nat>)
      requires Valid() && m_pc.Idle? && i < |m_eventSlots| && m_eventSlots[i].ctx.Some?
      requires sub.Some? ==> sub.value < |m_eventSlots[i].subs|
      modifies this
      ensures Valid() && m_pc.Idle?
      ensures exists done :: SlotProgress(u, old(View()), View(), i, sub, done)
      ensures i < |m_eventSlots| && NoneReady(m_eventSlots[i], sub)
    {
      ghost var start := View();
      var states := if sub.None? then m_eventSlots[i].states else m_eventSlots[i].subs[sub.value];
      var drAlgs := AlgsIn(states, DATAREADY, 0);
      forall alg: nat | SlotState(start.sched.slots[i], sub, alg) == Some(DATAREADY)
        ensures alg in drAlgs
      {
        AlgsInAll(states, DATAREADY, 0, alg);
      }
      SlotProgressSelf(u, start, i, sub);
      for n := 0 to |drAlgs|
        invariant Valid() && m_pc.Idle?
        invariant SlotProgress(u, start, View(), i, sub, drAlgs[..n])
      {
        TakeNext(drAlgs, n);
        ScheduleEntry(i, sub, drAlgs[n], start, drAlgs[..n]);
      }
      assert drAlgs[..|drAlgs|] == drAlgs;
      AdvancedReady(start.sched.slots[i], m_eventSlots[i], sub, drAlgs);
    }

    /** Schedule everything DATAREADY in the slot and in its sub-slots. */
    method ScheduleSlot(i: nat)
      requires Valid() && m_pc.Idle? && i < |m_eventSlots| && m_eventSlots[i].ctx.Some?
      modifies this
      ensures Valid() && m_pc.Idle? && PassProgress(u, old(View()), View(), i)
      ensures i < |m_eventSlots| && m_eventSlots[i].ctx.Some? && !HasAny(m_eventSlots[i], {DATAREADY})
    {
      ghost var start := View();
      PassSelf(u, start, i);
      ScheduleVector(i, None, start);
      var n := |m_eventSlots[i].subs|;
      for j := 0 to n
        invariant Valid() && m_pc.Idle? && PassProgress(u, start, View(), i)
        invariant i < |m_eventSlots| && m_eventSlots[i].ctx.Some? && |m_eventSlots[i].subs| == n
        invariant CleanUpTo(m_eventSlots[i], j)
      {
        ScheduleSub(i, j, start);
      }
      AllVectorsDone(m_eventSlots[i]);
    }

    method ScheduleSub(i: nat, j: nat, ghost start: Sys)
      requires Valid() && m_pc.Idle? && i < |m_eventSlots| && m_eventSlots[i].ctx.Some?
      requires j < |m_eventSlots[i].subs| && CleanUpTo(m_eventSlots[i], j)
      requires PassProgress(u, start, View(), i)
      modifies this
      ensures Valid() && m_pc.Idle? && PassProgress(u, start, View(), i)
      ensures i < |m_eventSlots| && m_eventSlots[i].ctx.Some?
      ensures |m_eventSlots[i].subs| == |old(m_eventSlots)[i].subs|
      ensures CleanUpTo(m_eventSlots[i], j + 1)
    {
      ScheduleVector(i, Some(j), start);
    }

    /** One state vector of the slot, as part of a pass that began at `start`. */
    method ScheduleVector(i: nat, sub: Option<nat>, ghost start: Sys)
      requires Valid() && m_pc.Idle? && i < |m_eventSlots| && m_eventSlots[i].ctx.Some?
      requires sub.Some? ==> sub.value < |m_eventSlots[i].subs|
      requires PassProgress(u, start, View(), i)
      modifies this
      ensures Valid() && m_pc.Idle? && PassProgress(u, start, View(), i)
      ensures i < |m_eventSlots| && m_eventSlots[i].ctx.Some?
      ensures |m_eventSlots[i].subs| == |old(m_eventSlots)[i].subs|
      ensures NoneReady(m_eventSlots[i], sub)
      ensures forall other :: NoneReady(old(m_eventSlots)[i], other) ==> NoneReady(m_eventSlots[i], other)
    {
      ghost var s := View();
      ScheduleReady(i, sub);
      ghost var done :| SlotProgress(u, s, View(), i, sub, done);
      VectorDone(u, s, View(), i, sub, done);
      PassTrans(u, start, s, View(), i);
    }

    /** The slot is finished: hand the context over if the event did not fail. */
    method DoFinish(i: nat)
      requires SchedEnabled(u, View(), Finish(i))
      modifies this`m_eventSlots, this`m_finishedEvents, this`dropped
      ensures View() == SchedApply(u, old(View()), Finish(i))
    {
      ghost var s := View();
      if m_algExecStateSvc[i] == Success {
        m_finishedEvents := m_finishedEvents + [m_eventSlots[i].ctx.value];
      } else {
        dropped := dropped + multiset{i};
      }
      m_eventSlots := m_eventSlots[i := m_eventSlots[i].(complete := true, ctx := None)];
      assert m_eventSlots == s.sched.slots[i := Retired(s.sched.slots[i])];
    }

    /** The slot is stalled: `eventFailed`. */
    method DoStall(i: nat)
      requires SchedEnabled(u, View(), Stall(i))
      modifies this`m_eventSlots, this`m_finishedEvents, this`m_algExecStateSvc
      ensures View() == SchedApply(u, old(View()), Stall(i))
    {
      m_algExecStateSvc := m_algExecStateSvc[i := AlgStall];
      m_finishedEvents := m_finishedEvents + [m_eventSlots[i].ctx.value];
      m_eventSlots := m_eventSlots[i := m_eventSlots[i].(complete := true, ctx := None)];
    }

    /**
      Declare the slot finished or stalled if it is. An event whose root decision is made and whose
      algorithms all have not begun or are judged is finished: its context is handed over if its status is
      Success, and dropped otherwise. With nothing on its way but the decision not made, or an algorithm
      left ready to be considered, it is stalled: its context is handed over with the status of a stall.
    */
    method RetireIfDone(i: nat)
      requires Valid() && m_pc.Idle? && i < |m_eventSlots| && m_eventSlots[i].ctx.Some?
      requires !HasAny(m_eventSlots[i], {DATAREADY})
      modifies this
      ensures Valid() && m_pc.Idle? && PassProgress(u, old(View()), View(), i)
      ensures i < |m_eventSlots| && Settled(m_eventSlots[i])
      ensures Retires(old(View()), View(), i)
    {
      ghost var s := View();
      OccupiedContext(u, s, i);
      PassSelf(u, s, i);
      if IsFinished(m_eventSlots[i]) {
        RetirePasses(u, s, Finish(i));
        FinishRetires(u, s, i);
        DoFinish(i);
      } else if IsStalled(m_eventSlots[i]) {
        RetirePasses(u, s, Stall(i));
        StallRetires(u, s, i);
        DoStall(i);
      } else {
        NotStalledSettled(m_eventSlots[i]);
        NothingRetires(s, i);
      }
    }

    /** One turn of the loop over all slots. */
    method UpdateSlot(i: nat)
      requires Valid() && m_pc.Idle? && i < |m_eventSlots|
      modifies this
      ensures Valid() && m_pc.Idle? && PassProgress(u, old(View()), View(), i)
      ensures i < |m_eventSlots| && Settled(m_eventSlots[i])
    {
      ghost var s0 := View();
      PassSelf(u, s0, i);
      if m_eventSlots[i].ctx.Some? {
        ScheduleSlot(i);
        ghost var s1 := View();
        Interfere();
        ghost var s2 := View();
        assert PassProgress(u, s1, s2, i);
        PassTrans(u, s0, s1, s2, i);
        RetireIfDone(i);
        PassTrans(u, s0, s2, View(), i);
      }
    }

    /**
      Retry every algorithm that is in the retry queue at the start: each entry gets one turn, in the order
      of the queue, and those that the pool does not serve at their turn are the queue afterwards.
    */
    method RetryAll() returns (ghost turns: seq<Sys>, ghost tr: seq<Done>)
      requires Valid() && m_pc.Idle?
      modifies this
      ensures Valid() && m_pc.Idle? && Does(u, old(View()), tr, View())
      ensures Where(tr, IsTry) == Tries(turns) && TriesEach(turns, old(m_retryQueue))
      ensures m_retryQueue == Refused(u, turns, old(m_retryQueue))
      ensures Where(tr, IsAction) == [] && RetryBacked(View().sched)
      ensures m_needsUpdate == old(m_needsUpdate) && old(m_actionsQueue) <= m_actionsQueue
    {
      turns, tr := [], [];
      ghost var start := View();
      NoneTurned(u, start);
      var retries := |m_retryQueue|;
      for retryIndex := 0 to retries
        invariant Valid() && m_pc.Idle? && Turned(u, start, View(), turns, tr, retryIndex)
        invariant retryIndex > 0 ==> m_algosInFlight > 0
        invariant m_needsUpdate == start.sched.needsUpdate && start.actions <= m_actionsQueue
      {
        ghost var s := View();
        ghost var at, rest := RetryOne();
        tr := OneTurned(u, start, s, turns, tr, retryIndex, at, rest, View());
        turns := turns + [at];
      }
      AllTurned(u, start, View(), turns, tr);
    }

    /** The loop over all slots. */
    method UpdateSlots()
      requires Valid() && m_pc.Idle? && RetryBacked(View().sched)
      modifies this
      ensures Valid() && m_pc.Idle? && Passes(u, old(View()), View())
      ensures AllSettled(m_eventSlots) && RetryBacked(View().sched)
      ensures old(m_retryQueue) <= m_retryQueue && old(m_actionsQueue) <= m_actionsQueue
    {
      ghost var start := View();
      PassesSelf(u, start);
      var n := |m_eventSlots|;
      for i := 0 to n
        invariant Valid() && m_pc.Idle? && Passes(u, start, View())
        invariant |m_eventSlots| == n && start.sched.retry <= m_retryQueue
        invariant forall j :: 0 <= j < i ==> Settled(m_eventSlots[j])
        invariant RetryBacked(View().sched) && start.actions <= m_actionsQueue
      {
        ghost var s := View();
        UpdateSlot(i);
        PassesTrans(u, start, s, View());
      }
    }

    /** The head of the retry queue gets its turn, in a state that the other threads have led to. */
    method RetryOne() returns (ghost at: Sys, ghost rest: seq<Done>)
      requires Valid() && m_pc.Idle? && m_retryQueue != []
      modifies this
      ensures Valid() && m_pc.Idle? && m_algosInFlight > 0
      ensures Does(u, old(View()), [Done(at, Label.Retry)] + rest, View()) && OfPass(rest)
      ensures at.sched.retry == old(m_retryQueue)
      ensures var ts := old(m_retryQueue)[0];
              m_retryQueue == old(m_retryQueue)[1..] + (if Served(u, at, ts) then [] else [ts])
      ensures m_needsUpdate == old(m_needsUpdate) && old(m_actionsQueue) <= m_actionsQueue
    {
      ghost var s0 := View();
      Interfere();
      at := View();
      var ts := m_retryQueue[0];
      m_retryQueue := m_retryQueue[1..];
      var acquired;
      acquired, rest := Schedule(ts, at);
      DoesTrans(u, s0, [], at, [Done(at, Label.Retry)] + rest, View());
    }

    /**
      The whole of `iterate`: every entry of the retry queue gets its turn, and afterwards no occupied slot
      has a DATAREADY algorithm, each has one scheduled or waiting for resources, and waiting ones are
      backed by a task in flight. It ends by noting that no update is due.
    */
    method Iterate() returns (ghost turns: seq<Sys>, ghost tr: seq<Done>)
      requires Valid() && m_pc.Idle?
      modifies this
      ensures Valid() && m_pc.Idle? && Does(u, old(View()), tr, View()) && Updates(tr)
      ensures Where(tr, IsTry) == Tries(turns) && TriesEach(turns, old(m_retryQueue))
      ensures Refused(u, turns, old(m_retryQueue)) <= m_retryQueue
      ensures AllSettled(m_eventSlots) && RetryBacked(View().sched) && !m_needsUpdate
      ensures old(m_actionsQueue) <= m_actionsQueue
    {
      ghost var start := View();
      turns, tr := RetryAll();
      ghost var s := View();
      UpdateSlots();
      tr := PassAfter(u, start, tr, s, View());
      ghost var t := View();
      UpdateStepped(u, t);
      m_needsUpdate := false;
      tr := DoneAfter(u, start, tr, t, View());
    }

    // ----- actions --------------------------------------------------------------------

    /** `IPrecedenceSvc::iterate` by its contract: it may promote, and decide, as it likes. */
    method PrecIterate(i: nat)
      requires i < |m_eventSlots|
      modifies this`m_eventSlots
      ensures OtherSlotsSame(old(m_eventSlots), m_eventSlots, i)
      ensures Promoted(old(m_eventSlots)[i], m_eventSlots[i])
    {
      var sl := m_eventSlots[i];
      var states := Promote(sl.states);
      var subs: seq<seq<State>> := [];
      for j := 0 to |sl.subs|
        invariant m_eventSlots == old(m_eventSlots)
        invariant |subs| == j && forall k :: 0 <= k < j ==> PromotedVector(sl.subs[k], subs[k])
      {
        var sub := Promote(sl.subs[j]);
        subs := subs + [sub];
      }
      var root: int := *;
      if sl.root != -1 {
        root := sl.root;
      }
      m_eventSlots := m_eventSlots[i := sl.(states := states, subs := subs, root := root)];
      PromotedSlot(sl, m_eventSlots[i]);
    }

    /** Any algorithms of a vector go forward, up to DATAREADY. */
    method Promote(states: seq<State>) returns (after: seq<State>)
      ensures PromotedVector(states, after)
    {
      after := [];
      for a := 0 to |states|
        invariant |after| == a && forall k :: 0 <= k < a ==> PromotedState(states[k], after[k])
      {
        var next: State := *;
        after := after + [if PromotedState(states[a], next) then next else states[a]];
      }
    }

    /**
      The push action without its call of `iterate`: the slot holds the event, whose algorithms start over
      and whose root decision and views are what the visitor makes of a slot without any.
    */
    method OccupySlot() returns (ghost l: Label)
      requires Valid() && m_pc.Idle? && m_actionsQueue != [] && m_actionsQueue[0].PushAction?
      modifies this`m_actionsQueue, this`m_eventSlots
      ensures Valid() && m_pc.Idle? && l.ExecPush? && Does(u, old(View()), [Done(old(View()), l)], View())
      ensures m_actionsQueue == old(m_actionsQueue)[1..]
      ensures var c := old(m_actionsQueue)[0].ctx;
              && OtherSlotsSame(old(m_eventSlots), m_eventSlots, c.slot) && c.slot < |m_eventSlots|
              && Begun(m_eventSlots[c.slot], c, u.algs)
    {
      ghost var s := View();
      HeadAction(u, View());
      var c := m_actionsQueue[0].ctx;
      m_actionsQueue := m_actionsQueue[1..];
      if !m_eventSlots[c.slot].complete {
        assert false;
      }
      ghost var slots := m_eventSlots;
      m_eventSlots := m_eventSlots[c.slot := ResetSlot(u.algs, c)];
      PrecIterate(c.slot);
      l := ExecPush(m_eventSlots[c.slot]);
      assert m_eventSlots == slots[c.slot := m_eventSlots[c.slot]];
      BegunAfterReset(u.algs, c, m_eventSlots[c.slot]);
      assert SchedEnabled(u, s, l) && View() == SchedApply(u, s, l);
      Stepped(u, s, l);
    }

    /** `signoff`: the verdict is what the execution state service says of the algorithm. */
    method Signoff(execution: Execution) returns (outcome: State)
      requires m_actionsQueue != [] && m_actionsQueue[0].SignoffAction?
      requires StateOf(m_eventSlots, m_actionsQueue[0].ts) == Some(SCHEDULED)
      modifies this`m_actionsQueue, this`m_eventSlots, this`m_algosInFlight, this`m_needsUpdate
      ensures m_actionsQueue == old(m_actionsQueue)[1..] && m_needsUpdate && m_algosInFlight == old(m_algosInFlight) - 1
      ensures var ts := old(m_actionsQueue)[0].ts;
              && Verdict(outcome, execution(ts)) && |m_eventSlots| == old(|m_eventSlots|)
              && m_eventSlots == old(m_eventSlots)[ts.ctx.slot := m_eventSlots[ts.ctx.slot]]
              && Promoted(Revised(old(m_eventSlots), ts, outcome)[ts.ctx.slot], m_eventSlots[ts.ctx.slot])
    {
      var ts := m_actionsQueue[0].ts;
      var i := ts.ctx.slot;
      m_actionsQueue := m_actionsQueue[1..];
      m_algosInFlight := m_algosInFlight - 1;
      var algstate := execution(ts);
      outcome := if algstate.success then (if algstate.filterPassed then EVTACCEPTED else EVTREJECTED) else ERROR;
      ghost var slots := m_eventSlots;
      m_eventSlots := Revised(m_eventSlots, ts, outcome);
      PrecIterate(i);
      assert m_eventSlots == slots[i := m_eventSlots[i]];
      m_needsUpdate := true;
    }

    /** A sign-off at the head of the queue is a step of the protocol. */
    method RunSignoff(execution: Execution) returns (ghost l: Label)
      requires Valid() && m_pc.Idle? && m_actionsQueue != [] && m_actionsQueue[0].SignoffAction?
      modifies this`m_actionsQueue, this`m_eventSlots, this`m_algosInFlight, this`m_needsUpdate
      ensures Valid() && m_pc.Idle? && m_needsUpdate
      ensures l.ExecSignoff? && Verdict(l.outcome, execution(old(m_actionsQueue)[0].ts))
      ensures StateOf(m_eventSlots, old(m_actionsQueue)[0].ts) == Some(l.outcome)
      ensures Does(u, old(View()), [Done(old(View()), l)], View())
    {
      ghost var s := View();
      SignoffHead(u, s);
      var outcome := Signoff(execution);
      l := ExecSignoff(outcome, m_eventSlots[s.actions[0].ts.ctx.slot]);
      OutcomeStays(s.sched.slots, s.actions[0].ts, outcome, m_eventSlots[s.actions[0].ts.ctx.slot]);
      SignoffReaches(u, s, View(), outcome, m_eventSlots[s.actions[0].ts.ctx.slot]);
    }

    /** The view action: attach a sub-slot to the slot of the event that issued it, or do nothing. */
    method AttachView()
      requires Valid() && m_pc.Idle? && m_actionsQueue != [] && m_actionsQueue[0].ViewAction?
      modifies this`m_actionsQueue, this`m_eventSlots
      ensures Valid() && m_pc.Idle? && Does(u, old(View()), [Done(old(View()), ExecView)], View())
      ensures m_actionsQueue == old(m_actionsQueue)[1..] && m_needsUpdate == old(m_needsUpdate)
      ensures var a := old(m_actionsQueue)[0];
              var i := a.creator.ctx.slot;
              && OtherSlotsSame(old(m_eventSlots), m_eventSlots, i) && i < |m_eventSlots|
              && var sl := old(m_eventSlots)[i];
                 m_eventSlots[i] == if a.attach then sl.(subs := sl.subs + [seq(u.algs, k => INITIAL)]) else sl
      ensures !m_needsUpdate && Awake(old(View())) ==> Awake(View())
    {
      ghost var s := View();
      HeadAction(u, s);
      var a := m_actionsQueue[0];
      var i := a.creator.ctx.slot;
      m_actionsQueue := m_actionsQueue[1..];
      if AllSettled(m_eventSlots) {
        ViewedAllSettled(u.algs, m_eventSlots, i, a.attach);
      }
      m_eventSlots := m_eventSlots[i := Viewed(u.algs, m_eventSlots[i], a.attach)];
      assert View() == SchedApply(u, s, ExecView);
      Stepped(u, s, ExecView);
    }

    /** Run the action at the head of the queue, once; a push ends with an `iterate`. */
    method RunAction(execution: Execution) returns (ghost tr: seq<Done>)
      requires Valid() && m_pc.Idle? && m_actionsQueue != [] && Awake(View())
      modifies this
      ensures Valid() && m_pc.Idle? && Does(u, old(View()), tr, View())
      ensures tr != [] && Where(tr, IsAction) == [tr[0]] && tr[0].at == old(View()) && Judges(tr[0], execution)
      ensures if old(m_actionsQueue)[0].PushAction? then Updates(tr[1..]) else |tr| == 1
      ensures m_needsUpdate || Awake(View())
    {
      ghost var s := View();
      ghost var l := ExecView;
      match m_actionsQueue[0]
      case PushAction(_) =>
        l := OccupySlot();
        ghost var t := View();
        ghost var turns, more := Iterate();
        DoesTrans(u, s, [Done(s, l)], t, more, View());
        tr := [Done(s, l)] + more;
        assert tr[1..] == more;
      case SignoffAction(_) =>
        l := RunSignoff(execution);
        tr := [Done(s, l)];
        assert tr[1..] == [];
      case ViewAction(_, _) =>
        AttachView();
        tr := [Done(s, l)];
        assert tr[1..] == [];
    }

    /**
      One round of the loop of `activate`: the action at the head, and after it an update, if at that moment
      one is due and no action is waiting.
    */
    method Round(execution: Execution) returns (ghost acted: seq<Done>, ghost then_: Sys, ghost update: seq<Done>)
      requires Valid() && m_pc.Idle? && m_actionsQueue != [] && Awake(View())
      modifies this
      ensures Valid() && m_pc.Idle? && Awake(View())
      ensures Does(u, old(View()), acted, then_) && Does(u, then_, update, View())
      ensures acted != [] && Where(acted, IsAction) == [acted[0]] && acted[0].at == old(View())
      ensures Judges(acted[0], execution)
      ensures if old(m_actionsQueue)[0].PushAction? then Updates(acted[1..]) else |acted| == 1
      ensures if then_.sched.needsUpdate && then_.actions == [] then Updates(update) else update == []
    {
      ghost var s0 := View();
      acted := RunAction(execution);
      ghost var s1 := View();
      Interfere();
      then_ := View();
      DoesTrans(u, s0, acted, s1, [], then_);
      assert acted + [] == acted;
      update := [];
      DoesNothing(u, then_);
      if m_needsUpdate && m_actionsQueue == [] {
        ghost var turns;
        turns, update := Iterate();
      }
    }

    /**
      The loop of `activate`, for any number of rounds, each of which takes one action from the head of the
      queue. It stops early only where the thread would block on an empty action queue; there, an occupied
      slot or a waiting retry entry means that some worker can go on.
    */
    method Activate(rounds: nat, execution: Execution) returns (blocked: bool, ghost tr: seq<Done>)
      requires Valid() && m_pc.Idle? && Awake(View())
      modifies this
      ensures Valid() && m_pc.Idle? && Does(u, old(View()), tr, View())
      ensures if blocked then |Where(tr, IsAction)| < rounds else |Where(tr, IsAction)| == rounds
      ensures forall d :: d in Where(tr, IsAction) ==> Judges(d, execution)
      ensures Awake(View())
      ensures blocked ==> m_actionsQueue == []
      ensures blocked && (Occupied(m_eventSlots) != {} || m_retryQueue != []) ==>
                m_algosInFlight > 0 && exists l :: ProgressLabel(l) && WorkEnabled(u, View(), l)
    {
      ghost var start := View();
      DoesNothing(u, start);
      tr := [];
      for r := 0 to rounds
        invariant Valid() && m_pc.Idle? && Does(u, start, tr, View())
        invariant Awake(View()) && |Where(tr, IsAction)| == r
        invariant forall d :: d in Where(tr, IsAction) ==> Judges(d, execution)
      {
        ghost var s0 := View();
        Interfere();
        ghost var s1 := View();
        DoesTrans(u, start, tr, s0, [], s1);
        assert tr + [] == tr;
        if m_actionsQueue == [] {
          SleepWitness(u, s1);
          return true, tr;
        }
        ghost var acted, s2, update := Round(execution);
        DoesTrans(u, s1, acted, s2, update, View());
        DoesTrans(u, start, tr, s1, acted + update, View());
        OneAction(tr, acted, update);
        tr := tr + (acted + update);
      }
      return false, tr;
    }
  }

  lemma SleepWitness(u: Setup, s: Sys)
    requires GoodSetup(u) && Reachable(u, s) && s.sched.pc.Idle? && s.actions == [] && Awake(s)
    ensures Occupied(s.sched.slots) != {} || s.sched.retry != [] ==>
              s.sched.inFlight > 0 && exists l :: ProgressLabel(l) && WorkEnabled(u, s, l)
  {
    ReachableInv(u, s);
    if Occupied(s.sched.slots) != {} || s.sched.retry != [] {
      var l := SleepIsSafe(u, s);
      if i :| i in Occupied(s.sched.slots) {
        OccupiedInFlight(u, s, i);
      }
    }
  }
}
