/** How much work a whole run can hold: each algorithm of each event and view is started at most once. */
module WorkBound {
  import opened Common
  import opened AlgsExecutionStates
  import opened SchedulerState
  import opened TaskInvariants
  import opened TaskSteps
  import opened EventCounters
  import opened SchedulerTheorems
  import opened EventDelivery
  import opened ExecutionOnce
  import opened SlotCounts
  import opened WakeUp

  /** Not scheduled yet. */
  const WAITING: set<State> := {INITIAL, CONTROLREADY, DATAREADY, RESOURCELESS}

  // ----- the algorithms that still wait ------------------------------------------------------

  function SlotWaiting(sl: Slot): nat {
    if sl.ctx.None? then 0 else SlotCount(sl, WAITING)
  }

  function Waiting(slots: seq<Slot>): nat {
    if slots == [] then 0 else SlotWaiting(slots[0]) + Waiting(slots[1..])
  }

  lemma {:induction false} WaitingUpdate(slots: seq<Slot>, i: nat, sl: Slot)
    requires i < |slots|
    ensures Waiting(slots[i := sl]) == Waiting(slots) - SlotWaiting(slots[i]) + SlotWaiting(sl)
    decreases |slots|
  {
    if i > 0 {
      assert slots[i := sl][1..] == slots[1..][i - 1 := sl];
      WaitingUpdate(slots[1..], i - 1, sl);
    }
  }

  lemma {:induction false} WaitingWhere(slots: seq<Slot>, i: nat)
    requires i < |slots|
    ensures SlotWaiting(slots[i]) <= Waiting(slots)
    decreases |slots|
  {
    if i > 0 {
      WaitingWhere(slots[1..], i - 1);
    }
  }

  lemma StateWaits(slots: seq<Slot>, k: TaskSpec)
    requires StateOf(slots, k).Some? && StateOf(slots, k).value in WAITING
    ensures Waiting(slots) > 0
  {
    SlotCountWhere(slots[k.ctx.slot], k.sub, k.alg, WAITING);
    WaitingWhere(slots, k.ctx.slot);
  }

  // ----- changes of one slot --------------------------------------------------------------------

  lemma LeavingByStates(a: Slot, b: Slot, among: set<State>)
    requires |a.states| == |b.states| && |a.subs| == |b.subs|
    requires forall j :: 0 <= j < |a.subs| ==> |a.subs[j]| == |b.subs[j]|
    requires forall sub, alg :: SlotState(b, sub, alg).Some? && SlotState(b, sub, alg).value in among ==>
               SlotState(a, sub, alg).Some? && SlotState(a, sub, alg).value in among
    ensures SlotLeaving(a, b, among)
  {
    forall k | 0 <= k < |a.states| && b.states[k] in among
      ensures a.states[k] in among
    {
      assert SlotState(b, None, k).Some?;
    }
    forall j, k | 0 <= j < |a.subs| && 0 <= k < |a.subs[j]| && b.subs[j][k] in among
      ensures a.subs[j][k] in among
    {
      assert SlotState(b, Some(j), k).Some?;
    }
  }

  lemma PromotedWaits(s: State, t: State)
    requires PromotedState(s, t) && t in WAITING
    ensures s in WAITING
  {
  }

  lemma PromotedLeaves(a: Slot, b: Slot)
    requires Promoted(a, b)
    ensures SlotLeaving(a, b, WAITING)
  {
    forall sub, alg | SlotState(b, sub, alg).Some? && SlotState(b, sub, alg).value in WAITING
      ensures SlotState(a, sub, alg).Some? && SlotState(a, sub, alg).value in WAITING
    {
      PromotedWaits(SlotState(a, sub, alg).value, SlotState(b, sub, alg).value);
    }
    LeavingByStates(a, b, WAITING);
  }

  lemma WithStateLeaves(sl: Slot, sub: Option<nat>, alg: nat, st: State)
    requires SlotState(sl, sub, alg).Some? && (st in WAITING ==> SlotState(sl, sub, alg).value in WAITING)
    ensures SlotLeaving(sl, WithState(sl, sub, alg, st), WAITING)
  {
  }

  lemma RevisedWaiting(slots: seq<Slot>, k: TaskSpec, st: State)
    requires StateOf(slots, k).Some?
    requires Target(StateOf(slots, k).value, st) in WAITING ==> StateOf(slots, k).value in WAITING
    ensures SlotCount(Revised(slots, k, st)[k.ctx.slot], WAITING) <= SlotCount(slots[k.ctx.slot], WAITING)
    ensures Waiting(Revised(slots, k, st)) <= Waiting(slots)
  {
    var sl := slots[k.ctx.slot];
    var target := Target(SlotState(sl, k.sub, k.alg).value, st);
    WithStateLeaves(sl, k.sub, k.alg, target);
    SlotCountLess(sl, WithState(sl, k.sub, k.alg, target), WAITING);
    WaitingUpdate(slots, k.ctx.slot, WithState(sl, k.sub, k.alg, target));
  }

  lemma ScheduledWaiting(slots: seq<Slot>, k: TaskSpec)
    requires StateOf(slots, k) in {Some(DATAREADY), Some(RESOURCELESS)}
    ensures Waiting(Revised(slots, k, SCHEDULED)) < Waiting(slots)
  {
    var sl := slots[k.ctx.slot];
    WithStateLeaves(sl, k.sub, k.alg, SCHEDULED);
    OneLeft(sl, WithState(sl, k.sub, k.alg, SCHEDULED), k.sub, k.alg, WAITING);
    WaitingUpdate(slots, k.ctx.slot, WithState(sl, k.sub, k.alg, SCHEDULED));
  }

  // ----- steps of the scheduler thread --------------------------------------------------------------

  /** A specification in the queue that is not marked yet no longer waits. */
  function Marking(pc: Pc): nat {
    if pc.Queued? || pc.Spawned? then 1 else 0
  }

  /** What may still be queued. */
  function Unscheduled(s: Sys): int {
    Waiting(s.sched.slots) - Marking(s.sched.pc)
  }

  lemma UnscheduledNat(u: Setup, s: Sys)
    requires TaskInv(u, s)
    ensures Unscheduled(s) >= 0
  {
    if !s.sched.pc.Idle? {
      StateWaits(s.sched.slots, s.sched.pc.ts);
    }
  }

  /** An event or a view comes into a slot. */
  predicate Arrives(s: Sys, l: Label) {
    l.ExecPush? || (l.ExecView? && s.actions != [] && s.actions[0].ViewAction? && s.actions[0].attach)
  }

  /** What a step may do to the number of algorithms that wait. */
  ghost predicate Within(u: Setup, s: Sys, l: Label, t: Sys) {
    Unscheduled(t) + (if l.QueueSpec? then 1 else 0) <= Unscheduled(s) + (if Arrives(s, l) then u.algs else 0)
  }

  lemma TryWaiting(u: Setup, s: Sys, ts: TaskSpec)
    requires Schedulable(u, s, ts) && StateOf(s.sched.slots, ts) in {Some(DATAREADY), Some(RESOURCELESS)}
    requires s.sched.pc.Idle?
    ensures Unscheduled(TrySchedule(u, s, ts)) <= Unscheduled(s)
  {
    RevisedWaiting(s.sched.slots, ts, RESOURCELESS);
  }

  lemma SchedulingWithin(u: Setup, s: Sys, l: Label)
    requires TaskInv(u, s) && SchedLabel(l) && SchedulingLabel(l) && SchedEnabled(u, s, l)
    ensures Within(u, s, l, SchedApply(u, s, l))
  {
    if l.Retry? {
      RetryResourceless(s);
      TryWaiting(u, s.(sched := s.sched.(retry := s.sched.retry[1..])), s.sched.retry[0]);
    } else if l.TakeReady? {
      TryWaiting(u, s, l.ready);
    } else if l.MarkScheduled? {
      ScheduledWaiting(s.sched.slots, s.sched.pc.ts);
    }
  }

  lemma PushWithin(u: Setup, s: Sys, after: Slot)
    requires SlotsGood(u, s.sched.slots) && SchedEnabled(u, s, ExecPush(after))
    ensures Within(u, s, ExecPush(after), SchedApply(u, s, ExecPush(after)))
  {
    var c := s.actions[0].ctx;
    PromotedLeaves(ResetSlot(u.algs, c), after);
    SlotCountLess(ResetSlot(u.algs, c), after, WAITING);
    CountBound(Blank(u.algs), WAITING);
    WaitingUpdate(s.sched.slots, c.slot, after);
  }

  lemma SignoffWithin(u: Setup, s: Sys, outcome: State, after: Slot)
    requires TaskInv(u, s) && SchedEnabled(u, s, ExecSignoff(outcome, after))
    ensures Within(u, s, ExecSignoff(outcome, after), SchedApply(u, s, ExecSignoff(outcome, after)))
  {
    SignoffFindsScheduled(u, s);
    SignoffWaiting(s.sched.slots, s.actions[0].ts, outcome, after);
  }

  lemma SignoffWaiting(slots: seq<Slot>, ts: TaskSpec, outcome: State, after: Slot)
    requires StateOf(slots, ts) == Some(SCHEDULED) && outcome in {EVTACCEPTED, EVTREJECTED, ERROR}
    requires Promoted(Revised(slots, ts, outcome)[ts.ctx.slot], after)
    ensures Waiting(slots[ts.ctx.slot := after]) <= Waiting(slots)
  {
    var marked := Revised(slots, ts, outcome)[ts.ctx.slot];
    RevisedWaiting(slots, ts, outcome);
    PromotedLeaves(marked, after);
    SlotCountLess(marked, after, WAITING);
    WaitingUpdate(slots, ts.ctx.slot, after);
  }

  lemma ViewWithin(u: Setup, s: Sys)
    requires SchedEnabled(u, s, ExecView)
    ensures Within(u, s, ExecView, SchedApply(u, s, ExecView))
  {
    var i := s.actions[0].creator.ctx.slot;
    ViewedCount(u.algs, s.sched.slots[i], s.actions[0].attach, WAITING);
    WaitingUpdate(s.sched.slots, i, Viewed(u.algs, s.sched.slots[i], s.actions[0].attach));
  }

  lemma RetirementWithin(u: Setup, s: Sys, l: Label)
    requires (l.Finish? || l.Stall?) && Enabled(u, s, l)
    ensures Within(u, s, l, Apply(u, s, l))
  {
    RetireEffect(u, s, l);
    WaitingUpdate(s.sched.slots, l.i, Retired(s.sched.slots[l.i]));
  }

  lemma SchedulerWithin(u: Setup, s: Sys, l: Label)
    requires TaskInv(u, s) && SchedLabel(l) && SchedEnabled(u, s, l)
    ensures Within(u, s, l, SchedApply(u, s, l))
  {
    if l.Finish? || l.Stall? {
      RetirementWithin(u, s, l);
    } else if SchedulingLabel(l) {
      SchedulingWithin(u, s, l);
    } else if l.ExecPush? {
      PushWithin(u, s, l.after);
    } else if l.ExecSignoff? {
      SignoffWithin(u, s, l.outcome, l.after);
    } else if l.ExecView? {
      ViewWithin(u, s);
    }
  }

  // ----- steps of the workers ------------------------------------------------------------------------

  lemma SchedulerAddsWork(u: Setup, s: Sys, l: Label)
    requires SchedLabel(l) && SchedEnabled(u, s, l)
    ensures StepsLeft(SchedApply(u, s, l).work) == StepsLeft(s.work) + (if l.QueueSpec? then 5 else 0)
  {
    SchedulerLeavesTasks(u, s, l);
    QueueAfter(u, s, l);
  }

  lemma QueueAfter(u: Setup, s: Sys, l: Label)
    requires SchedLabel(l) && SchedEnabled(u, s, l)
    ensures |SchedApply(u, s, l).work.queue| == |s.work.queue| + (if l.QueueSpec? then 1 else 0)
  {
  }

  /** The work that is left, with all that may still be queued. */
  ghost function WorkLeft(s: Sys): int {
    StepsLeft(s.work) + 5 * Unscheduled(s)
  }

  /** A step of a worker uses some of it up; only an event or a view brings more. */
  ghost predicate Uses(u: Setup, s: Sys, l: Label, t: Sys) {
    WorkLeft(t) + (if ProgressLabel(l) then 1 else 0) <= WorkLeft(s) + (if Arrives(s, l) then 5 * u.algs else 0)
  }

  lemma OthersUse(u: Setup, s: Sys, l: Label)
    requires Enabled(u, s, l) && !SchedLabel(l)
    ensures Uses(u, s, l, Apply(u, s, l))
  {
    if ProgressLabel(l) {
      WorkersProgress(u, s, l);
    } else if !l.StartEmpty? {
      OthersLeaveTasks(u, s, l);
    }
  }

  lemma StepUses(u: Setup, s: Sys, l: Label)
    requires TaskInv(u, s) && Enabled(u, s, l)
    ensures Uses(u, s, l, Apply(u, s, l))
  {
    if SchedLabel(l) {
      SchedulerUses(u, s, l);
    } else {
      OthersUse(u, s, l);
    }
  }

  lemma SchedulerUses(u: Setup, s: Sys, l: Label)
    requires TaskInv(u, s) && SchedLabel(l) && SchedEnabled(u, s, l)
    ensures Uses(u, s, l, SchedApply(u, s, l))
  {
    SchedulerWithin(u, s, l);
    SchedulerAddsWork(u, s, l);
    WithinWork(u, s, l, SchedApply(u, s, l));
  }

  lemma WithinWork(u: Setup, s: Sys, l: Label, t: Sys)
    requires Within(u, s, l, t) && StepsLeft(t.work) == StepsLeft(s.work) + (if l.QueueSpec? then 5 else 0)
    requires SchedLabel(l)
    ensures Uses(u, s, l, t)
  {
  }

  // ----- whole runs -----------------------------------------------------------------------------------

  /** The events and views that came into slots along a run. */
  ghost function Arrivals(u: Setup, s: Sys, run: seq<Label>): nat
    decreases |run|
  {
    if run == [] || !Enabled(u, s, run[0]) then 0
    else (if Arrives(s, run[0]) then 1 else 0) + Arrivals(u, Apply(u, s, run[0]), run[1..])
  }

  /** The steps that they bring. */
  ghost function Brought(u: Setup, s: Sys, run: seq<Label>): nat
    decreases |run|
  {
    if run == [] || !Enabled(u, s, run[0]) then 0
    else (if Arrives(s, run[0]) then 5 * u.algs else 0) + Brought(u, Apply(u, s, run[0]), run[1..])
  }

  lemma {:induction false} BroughtByArrivals(u: Setup, s: Sys, run: seq<Label>)
    ensures Brought(u, s, run) == 5 * u.algs * Arrivals(u, s, run)
    decreases |run|
  {
    if run != [] && Enabled(u, s, run[0]) {
      var r := Apply(u, s, run[0]);
      BroughtByArrivals(u, r, run[1..]);
      Distribute(5 * u.algs, Arrives(s, run[0]), Arrivals(u, r, run[1..]));
    }
  }

  lemma FirstStepUses(u: Setup, s: Sys, run: seq<Label>, t: Sys) returns (r: Sys, steps: nat, brought: nat)
    requires GoodSetup(u) && SystemInv(u, s) && Run(u, s, run, t) && run != []
    ensures SystemInv(u, r) && Run(u, r, run[1..], t)
    ensures ProgressSteps(run) == steps + ProgressSteps(run[1..])
    ensures Brought(u, s, run) == brought + Brought(u, r, run[1..])
    ensures WorkLeft(r) + steps <= WorkLeft(s) + brought
  {
    r := Apply(u, s, run[0]);
    steps, brought := if ProgressLabel(run[0]) then 1 else 0, if Arrives(s, run[0]) then 5 * u.algs else 0;
    StepKeeps(u, s, run[0]);
    StepUses(u, s, run[0]);
  }

  lemma {:induction false} RunUses(u: Setup, s: Sys, run: seq<Label>, t: Sys)
    requires GoodSetup(u) && SystemInv(u, s) && Run(u, s, run, t)
    ensures SystemInv(u, t) && ProgressSteps(run) + WorkLeft(t) <= WorkLeft(s) + Brought(u, s, run)
    decreases |run|
  {
    if run != [] {
      var r, steps, brought := FirstStepUses(u, s, run, t);
      RunUses(u, r, run[1..], t);
    }
  }

  lemma {:induction false} NoneWaiting(slots: seq<Slot>)
    requires forall i :: 0 <= i < |slots| ==> slots[i].ctx.None?
    ensures Waiting(slots) == 0
  {
    if slots != [] {
      NoneWaiting(slots[1..]);
    }
  }

  /**
    A whole run, whatever its interleaving: the steps the workers made, those left to the tasks and those
    of algorithms not scheduled yet are at most five for each algorithm of each event and view that came
    into a slot.
  */
  lemma {:induction false} WorkBounded(u: Setup, s: Sys, run: seq<Label>, t: Sys)
    requires GoodSetup(u) && Init(u, s) && Run(u, s, run, t)
    ensures Unscheduled(t) >= 0
    ensures ProgressSteps(run) + StepsLeft(t.work) + 5 * Unscheduled(t) <= 5 * u.algs * Arrivals(u, s, run)
  {
    InitInv(u, s);
    NoneWaiting(s.sched.slots);
    RunUses(u, s, run, t);
    BroughtByArrivals(u, s, run);
    UnscheduledNat(u, t);
  }

  /**
    When all these steps have been made and the slots are settled, as `iterate` leaves them, each slot
    still occupied has a sign-off in the action queue; with the queue empty no slot is occupied.
  */
  lemma {:induction false} UsedUp(u: Setup, s: Sys, run: seq<Label>, t: Sys, i: nat)
    requires GoodSetup(u) && Init(u, s) && Run(u, s, run, t)
    requires ProgressSteps(run) >= 5 * u.algs * Arrivals(u, s, run)
    requires t.sched.pc.Idle? && AllSettled(t.sched.slots) && i in Occupied(t.sched.slots)
    ensures exists j :: 0 <= j < |t.actions| && t.actions[j].SignoffAction?
                        && Some(t.actions[j].ts.ctx) == t.sched.slots[i].ctx
  {
    WorkBounded(u, s, run, t);
    InitInv(u, s);
    RunUses(u, s, run, t);
    SignoffPending(u, t, i);
  }

  /** With no task left and nothing waiting, a settled slot is occupied by sign-offs only. */
  lemma SignoffPending(u: Setup, t: Sys, i: nat)
    requires TaskInv(u, t) && t.sched.pc.Idle? && StepsLeft(t.work) == 0 && Waiting(t.sched.slots) == 0
    requires i < |t.sched.slots| && t.sched.slots[i].ctx.Some? && Settled(t.sched.slots[i])
    ensures exists j :: 0 <= j < |t.actions| && t.actions[j].SignoffAction?
                        && Some(t.actions[j].ts.ctx) == t.sched.slots[i].ctx
  {
    ScheduledOnly(t.sched.slots, i);
    var k := FoundState(t.sched.slots[i], {SCHEDULED, RESOURCELESS});
    assert Live(t)[k] == 1;
    assert k in Signoffs(t.actions);
    var j := SignoffAt(t.actions, k);
  }

  lemma ScheduledOnly(slots: seq<Slot>, i: nat)
    requires i < |slots| && Waiting(slots) == 0
    ensures forall k :: StateOf(slots, k) != Some(RESOURCELESS)
  {
    forall k
      ensures StateOf(slots, k) != Some(RESOURCELESS)
    {
      if StateOf(slots, k) == Some(RESOURCELESS) {
        StateWaits(slots, k);
      }
    }
  }

  lemma {:induction false} SignoffAt(actions: seq<Action>, k: TaskSpec) returns (j: nat)
    requires k in Signoffs(actions)
    ensures j < |actions| && actions[j] == SignoffAction(k)
    decreases |actions|
  {
    if actions[0] == SignoffAction(k) {
      j := 0;
    } else {
      j := SignoffAt(actions[1..], k);
      j := j + 1;
    }
  }

  // ----- where arrivals come from ------------------------------------------------------------------------

  /** The event loop creates an event, or a task asks for a view. */
  predicate Source(l: Label) {
    l.Create? || (l.IssueView? && l.attach)
  }

  function Sources(run: seq<Label>): nat {
    if run == [] then 0 else (if Source(run[0]) then 1 else 0) + Sources(run[1..])
  }

  predicate Brings(a: Action) {
    a.PushAction? || (a.ViewAction? && a.attach)
  }

  function Pending(actions: seq<Action>): nat {
    if actions == [] then 0 else (if Brings(actions[0]) then 1 else 0) + Pending(actions[1..])
  }

  lemma {:induction false} PendingAppend(actions: seq<Action>, a: Action)
    ensures Pending(actions + [a]) == Pending(actions) + (if Brings(a) then 1 else 0)
  {
    if actions == [] {
      assert actions + [a] == [a] && [a][1..] == [];
    } else {
      assert (actions + [a])[1..] == actions[1..] + [a];
      PendingAppend(actions[1..], a);
    }
  }

  /** The events and views on their way to a slot. */
  function Coming(s: Sys): nat {
    (if s.loop.created.Some? then 1 else 0) + (if s.loop.reserved.Some? then 1 else 0) + Pending(s.actions)
  }

  lemma SchedulerComing(u: Setup, s: Sys, l: Label)
    requires SchedLabel(l) && SchedEnabled(u, s, l)
    ensures (if Arrives(s, l) then 1 else 0) + Coming(SchedApply(u, s, l)) <= Coming(s)
  {
  }

  lemma OthersComing(u: Setup, s: Sys, l: Label)
    requires !SchedLabel(l) && Enabled(u, s, l)
    ensures !Arrives(s, l) && Coming(Apply(u, s, l)) <= Coming(s) + (if Source(l) then 1 else 0)
  {
    if l.PushSignoff? {
      PendingAppend(s.actions, SignoffAction(l.ts));
    } else if l.IssueView? {
      PendingAppend(s.actions, ViewAction(l.ts, l.attach));
    } else if l.PushEvent? {
      PendingAppend(s.actions, PushAction(s.loop.reserved.value));
    }
  }

  lemma StepComing(u: Setup, s: Sys, l: Label)
    requires Enabled(u, s, l)
    ensures (if Arrives(s, l) then 1 else 0) + Coming(Apply(u, s, l)) <= Coming(s) + (if Source(l) then 1 else 0)
  {
    if SchedLabel(l) {
      SchedulerComing(u, s, l);
    } else {
      OthersComing(u, s, l);
    }
  }

  lemma {:induction false} ArrivalsHaveSources(u: Setup, s: Sys, run: seq<Label>, t: Sys)
    requires Run(u, s, run, t)
    ensures Arrivals(u, s, run) + Coming(t) <= Coming(s) + Sources(run)
    decreases |run|
  {
    if run != [] {
      StepComing(u, s, run[0]);
      ArrivalsHaveSources(u, Apply(u, s, run[0]), run[1..], t);
    }
  }

  lemma Monotone(n: nat, a: nat, b: nat)
    requires a <= b
    ensures n * a <= n * b
  {
  }

  /**
    So a run in which the event loop creates e events and tasks ask for v views holds at most
    5 * algs * (e + v) steps of workers.
  */
  lemma {:induction false} WorkOfRun(u: Setup, s: Sys, run: seq<Label>, t: Sys)
    requires GoodSetup(u) && Init(u, s) && Run(u, s, run, t)
    ensures ProgressSteps(run) <= 5 * u.algs * Sources(run)
  {
    WorkBounded(u, s, run, t);
    ArrivalsHaveSources(u, s, run, t);
    Monotone(5 * u.algs, Arrivals(u, s, run), Sources(run));
  }
}
