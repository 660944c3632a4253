/**
  The scheduler protocol as a transition system over values: the scheduler thread, the worker
  tasks, the event-loop thread, and the queues, pool and whiteboard they share. Every label is
  one access to shared state; all interleavings of labels are allowed.
*/
module SchedulerState {
  import opened Common
  import opened AlgsExecutionStates
  import opened ResourcePool

  // ----- entities -------------------------------------------------------------

  /** A whole-event context; `evt` identifies it, as the event loop never repeats a number. */
  datatype Context = Context(evt: nat, slot: nat)

  /**
    A task specification: context pointer (of the event, or of one of its views) and algorithm.
    The instance pointer it carries is recorded by the pool under the specification.
  */
  datatype TaskSpec = TaskSpec(ctx: Context, sub: Option<nat>, alg: nat)

  /** An event slot; `root` is the decision of the control flow head node, -1 while undecided. */
  datatype Slot = Slot(ctx: Option<Context>, complete: bool, states: seq<State>, root: int, subs: seq<seq<State>>)

  /** The closures in the action queue. A view action remembers the task that issued it. */
  datatype Action =
    | PushAction(ctx: Context)
    | SignoffAction(ts: TaskSpec)
    | ViewAction(creator: TaskSpec, attach: bool)

  /** How far `schedule` has got with a specification whose instance is acquired. */
  datatype Pc = Idle | Got(ts: TaskSpec) | Queued(ts: TaskSpec) | Spawned(ts: TaskSpec)

  datatype Status = Invalid | Success | AlgFail | AlgStall

  /** Fixed at initialization: slots, algorithms, priorities and the resource pool. */
  datatype Setup = Setup(slots: nat, algs: nat, rank: seq<nat>, pool: Config)

  ghost predicate GoodSetup(u: Setup) {
    WellFormed(u.pool) && |u.pool.req| == |u.rank| == u.algs
  }

  /** Private to the scheduler thread. */
  datatype Sched = Sched(slots: seq<Slot>, retry: seq<TaskSpec>, inFlight: int, needsUpdate: bool, pc: Pc)

  /**
    The task queue, tasks not yet started, and running tasks by progress: executing, status
    updated, resources returned, instance returned.
  */
  datatype Work = Work(queue: multiset<TaskSpec>, tasks: nat,
                       executing: multiset<TaskSpec>, executed: multiset<TaskSpec>,
                       unlocked: multiset<TaskSpec>, returned: multiset<TaskSpec>,
                       pool: Pool<TaskSpec>)

  /** The event loop: next event number and the contexts it has in hand. */
  datatype Loop = Loop(nevt: nat, created: Option<Context>, reserved: Option<Context>,
                       popped: Option<Context>, drained: seq<Context>)

  /** The whiteboard: event of each partition, and the queue of free partitions. */
  datatype Board = Board(partitions: seq<Option<nat>>, free: seq<nat>)

  /** `dropped` and `leaked` only record slots lost at a failed event or at the end of input. */
  datatype Sys = Sys(sched: Sched, work: Work, loop: Loop, board: Board,
                     actions: seq<Action>, finished: seq<Context>, freeSlots: int, status: seq<Status>,
                     dropped: multiset<nat>, leaked: multiset<nat>)

  // ----- slots ----------------------------------------------------------------

  function SlotState(sl: Slot, sub: Option<nat>, alg: nat): Option<State> {
    match sub
    case None => if alg < |sl.states| then Some(sl.states[alg]) else None
    case Some(j) => if j < |sl.subs| && alg < |sl.subs[j]| then Some(sl.subs[j][alg]) else None
  }

  function WithState(sl: Slot, sub: Option<nat>, alg: nat, st: State): Slot
    requires SlotState(sl, sub, alg).Some?
  {
    match sub
    case None => sl.(states := sl.states[alg := st])
    case Some(j) => sl.(subs := sl.subs[j := sl.subs[j][alg := st]])
  }

  /** The state of the algorithm of a specification, while its event occupies its slot. */
  function StateOf(slots: seq<Slot>, k: TaskSpec): Option<State> {
    if k.ctx.slot < |slots| && slots[k.ctx.slot].ctx == Some(k.ctx) then
      SlotState(slots[k.ctx.slot], k.sub, k.alg)
    else None
  }

  /** `revise` addresses the slot by number only. */
  predicate Addressable(slots: seq<Slot>, k: TaskSpec) {
    k.ctx.slot < |slots| && SlotState(slots[k.ctx.slot], k.sub, k.alg).Some?
  }

  function Revised(slots: seq<Slot>, k: TaskSpec, st: State): seq<Slot>
    requires Addressable(slots, k)
  {
    var sl := slots[k.ctx.slot];
    slots[k.ctx.slot := WithState(sl, k.sub, k.alg, Target(SlotState(sl, k.sub, k.alg).value, st))]
  }

  function Blank(algs: nat): seq<State> {
    seq(algs, i => INITIAL)
  }

  /** `EventSlot::reset`. */
  function ResetSlot(algs: nat, c: Context): Slot {
    Slot(Some(c), false, Blank(algs), -1, [])
  }

  predicate PromotedState(s: State, t: State) {
    s == t || (s == INITIAL && t in {CONTROLREADY, DATAREADY}) || (s == CONTROLREADY && t == DATAREADY)
  }

  /** The contract of `IPrecedenceSvc::iterate`: promotions up to DATAREADY, decisions once. */
  ghost predicate Promoted(a: Slot, b: Slot) {
    && b.ctx == a.ctx && b.complete == a.complete
    && (a.root != -1 ==> b.root == a.root)
    && (forall sub, alg :: SlotState(a, sub, alg).Some? <==> SlotState(b, sub, alg).Some?)
    && (forall sub, alg :: SlotState(a, sub, alg).Some? ==>
          PromotedState(SlotState(a, sub, alg).value, SlotState(b, sub, alg).value))
    && |b.states| == |a.states| && |b.subs| == |a.subs|
    && (forall j :: 0 <= j < |a.subs| ==> |b.subs[j]| == |a.subs[j]|)
  }

  predicate Contains(states: seq<State>, wanted: set<State>) {
    exists a :: 0 <= a < |states| && states[a] in wanted
  }

  /** `containsAny` on the slot or on one of its sub-slots. */
  predicate HasAny(sl: Slot, wanted: set<State>) {
    Contains(sl.states, wanted) || exists j :: 0 <= j < |sl.subs| && Contains(sl.subs[j], wanted)
  }

  /** The test by which `iterate` declares an occupied slot finished. */
  predicate IsFinished(sl: Slot) {
    sl.root != -1 && !HasAny(sl, {CONTROLREADY, DATAREADY, SCHEDULED, RESOURCELESS}) && !sl.complete
  }

  predicate IsStalled(sl: Slot) {
    !HasAny(sl, {DATAREADY, SCHEDULED, RESOURCELESS})
  }

  /** What a view action does to the slot it addresses: a sub-slot with fresh states, or nothing. */
  function Viewed(algs: nat, sl: Slot, attach: bool): Slot {
    if attach then sl.(subs := sl.subs + [Blank(algs)]) else sl
  }

  // ----- labels ----------------------------------------------------------------

  datatype Label =
    // scheduler thread
    | ExecPush(after: Slot)
    | ExecPushFatal
    | ExecSignoff(outcome: State, after: Slot)
    | ExecView
    | Retry
    | TakeReady(ready: TaskSpec)
    | QueueSpec
    | SpawnTask
    | MarkScheduled
    | Finish(i: nat)
    | Stall(i: nat)
    | IterateDone
    // worker tasks
    | StartTask(ts: TaskSpec)
    | StartEmpty
    | IssueView(ts: TaskSpec, attach: bool)
    | EndExecution(ts: TaskSpec, failed: bool)
    | GiveResources(ts: TaskSpec)
    | GiveInstance(ts: TaskSpec)
    | PushSignoff(ts: TaskSpec)
    // event-loop thread
    | Create
    | Skip
    | EndInput
    | Reserve
    | PushRefused
    | PushEvent
    | PopFinished
    | CountPopped
    | Flush

  predicate SchedLabel(l: Label) {
    || l.ExecPush? || l.ExecPushFatal? || l.ExecSignoff? || l.ExecView? || l.Retry? || l.TakeReady?
    || l.QueueSpec? || l.SpawnTask? || l.MarkScheduled? || l.Finish? || l.Stall? || l.IterateDone?
  }

  predicate WorkLabel(l: Label) {
    || l.StartTask? || l.StartEmpty? || l.IssueView? || l.EndExecution? || l.GiveResources?
    || l.GiveInstance? || l.PushSignoff?
  }

  // ----- scheduler thread ------------------------------------------------------

  /** The beginning of `schedule`: acquire, or park as RESOURCELESS in the retry queue. */
  function TrySchedule(u: Setup, s: Sys, ts: TaskSpec): Sys
    requires Addressable(s.sched.slots, ts)
    requires ts.alg < |s.work.pool.queues| == |u.pool.req| == |u.pool.reentrant|
  {
    var pool := Acquire(u.pool, s.work.pool, ts, ts.alg);
    if CanAcquire(u.pool, s.work.pool, ts.alg) then
      s.(work := s.work.(pool := pool), sched := s.sched.(pc := Got(ts)))
    else
      s.(work := s.work.(pool := pool),
         sched := s.sched.(slots := Revised(s.sched.slots, ts, RESOURCELESS), retry := s.sched.retry + [ts]))
  }

  predicate Schedulable(u: Setup, s: Sys, ts: TaskSpec) {
    Addressable(s.sched.slots, ts) && ts.alg < |s.work.pool.queues| == |u.pool.req| == |u.pool.reentrant|
  }

  ghost predicate SchedEnabled(u: Setup, s: Sys, l: Label)
    requires SchedLabel(l)
  {
    var q := s.sched;
    match l
    case ExecPush(after) =>
      && q.pc.Idle? && s.actions != [] && s.actions[0].PushAction?
      && s.actions[0].ctx.slot < |q.slots| && q.slots[s.actions[0].ctx.slot].complete
      && Promoted(ResetSlot(u.algs, s.actions[0].ctx), after)
    case ExecPushFatal =>
      && q.pc.Idle? && s.actions != [] && s.actions[0].PushAction?
      && s.actions[0].ctx.slot < |q.slots| && !q.slots[s.actions[0].ctx.slot].complete
    case ExecSignoff(outcome, after) =>
      && q.pc.Idle? && s.actions != [] && s.actions[0].SignoffAction?
      && outcome in {EVTACCEPTED, EVTREJECTED, ERROR}
      && Addressable(q.slots, s.actions[0].ts)
      && var ts := s.actions[0].ts;
      && var old_ := SlotState(q.slots[ts.ctx.slot], ts.sub, ts.alg).value;
      && var marked := Revised(q.slots, ts, outcome)[ts.ctx.slot];
      && (if Accepted(old_, outcome) then Promoted(marked, after) else after == marked)
    case ExecView =>
      && q.pc.Idle? && s.actions != [] && s.actions[0].ViewAction?
      && s.actions[0].creator.ctx.slot < |q.slots|
    case Retry => q.pc.Idle? && q.retry != [] && Schedulable(u, s, q.retry[0])
    case TakeReady(ts) => q.pc.Idle? && StateOf(q.slots, ts) == Some(DATAREADY) && Schedulable(u, s, ts)
    case QueueSpec => q.pc.Got?
    case SpawnTask => q.pc.Queued?
    case MarkScheduled => q.pc.Spawned? && Addressable(q.slots, q.pc.ts)
    case Finish(i) =>
      q.pc.Idle? && i < |q.slots| && i < |s.status| && q.slots[i].ctx.Some? && IsFinished(q.slots[i])
    case Stall(i) =>
      && q.pc.Idle? && i < |q.slots| && i < |s.status|
      && q.slots[i].ctx.Some? && !IsFinished(q.slots[i]) && IsStalled(q.slots[i])
    case IterateDone => q.pc.Idle?
  }

  function Retired(sl: Slot): Slot {
    sl.(ctx := None, complete := true)
  }

  ghost function SchedApply(u: Setup, s: Sys, l: Label): Sys
    requires SchedLabel(l) && SchedEnabled(u, s, l)
  {
    var q := s.sched;
    match l
    case ExecPush(after) =>
      s.(actions := s.actions[1..], sched := q.(slots := q.slots[s.actions[0].ctx.slot := after]))
    case ExecPushFatal =>
      s.(actions := s.actions[1..])
    case ExecSignoff(outcome, after) =>
      s.(actions := s.actions[1..],
         sched := q.(slots := q.slots[s.actions[0].ts.ctx.slot := after],
                     inFlight := q.inFlight - 1, needsUpdate := true))
    case ExecView =>
      var i := s.actions[0].creator.ctx.slot;
      s.(actions := s.actions[1..],
         sched := q.(slots := q.slots[i := Viewed(u.algs, q.slots[i], s.actions[0].attach)]))
    case Retry => TrySchedule(u, s.(sched := q.(retry := q.retry[1..])), q.retry[0])
    case TakeReady(ts) => TrySchedule(u, s, ts)
    case QueueSpec =>
      s.(sched := q.(pc := Queued(q.pc.ts)), work := s.work.(queue := s.work.queue + multiset{q.pc.ts}))
    case SpawnTask =>
      s.(sched := q.(pc := Spawned(q.pc.ts)), work := s.work.(tasks := s.work.tasks + 1))
    case MarkScheduled =>
      s.(sched := q.(slots := Revised(q.slots, q.pc.ts, SCHEDULED), inFlight := q.inFlight + 1, pc := Idle))
    case Finish(i) =>
      var c := q.slots[i].ctx.value;
      var t := s.(sched := q.(slots := q.slots[i := Retired(q.slots[i])]));
      if s.status[i] == Success then t.(finished := s.finished + [c])
      else t.(dropped := s.dropped + multiset{i})
    case Stall(i) =>
      s.(sched := q.(slots := q.slots[i := Retired(q.slots[i])]),
         finished := s.finished + [q.slots[i].ctx.value], status := s.status[i := AlgStall])
    case IterateDone => s.(sched := q.(needsUpdate := false))
  }

  // ----- worker tasks ----------------------------------------------------------

  predicate WorkEnabled(u: Setup, s: Sys, l: Label)
    requires WorkLabel(l)
  {
    var w := s.work;
    match l
    case StartTask(ts) =>
      && w.tasks > 0 && ts in w.queue
      && forall k :: k in w.queue && k.alg < |u.rank| && ts.alg < |u.rank| ==> u.rank[k.alg] <= u.rank[ts.alg]
    case StartEmpty => w.tasks > 0 && w.queue == multiset{}
    case IssueView(ts, attach) => ts in w.executing && ts.sub.None?
    case EndExecution(ts, failed) => ts in w.executing && ts.ctx.slot < |s.status|
    case GiveResources(ts) =>
      ts in w.executed && ts in w.pool.holds && w.pool.holds[ts] < |u.pool.req|
    case GiveInstance(ts) =>
      ts in w.unlocked && ts in w.pool.busy && w.pool.busy[ts].alg < |w.pool.queues| == |u.pool.reentrant|
    case PushSignoff(ts) => ts in w.returned
  }

  /** `updateEventStatus`. */
  function Updated(st: Status, failed: bool): Status {
    match st
    case Success => if failed then AlgFail else Success
    case Invalid => if failed then AlgFail else Success
    case _ => st
  }

  ghost function WorkApply(u: Setup, s: Sys, l: Label): Sys
    requires WorkLabel(l) && WorkEnabled(u, s, l)
  {
    var w := s.work;
    match l
    case StartTask(ts) =>
      s.(work := w.(tasks := w.tasks - 1, queue := w.queue - multiset{ts}, executing := w.executing + multiset{ts}))
    case StartEmpty =>
      s.(work := w.(tasks := w.tasks - 1))
    case IssueView(ts, attach) =>
      s.(actions := s.actions + [ViewAction(ts, attach)])
    case EndExecution(ts, failed) =>
      s.(work := w.(executing := w.executing - multiset{ts}, executed := w.executed + multiset{ts}),
         status := s.status[ts.ctx.slot := Updated(s.status[ts.ctx.slot], failed)])
    case GiveResources(ts) =>
      s.(work := w.(executed := w.executed - multiset{ts}, unlocked := w.unlocked + multiset{ts},
                    pool := ReleaseResources(u.pool, w.pool, ts)))
    case GiveInstance(ts) =>
      s.(work := w.(unlocked := w.unlocked - multiset{ts}, returned := w.returned + multiset{ts},
                    pool := ReleaseInstance(u.pool, w.pool, ts)))
    case PushSignoff(ts) =>
      s.(work := w.(returned := w.returned - multiset{ts}), actions := s.actions + [SignoffAction(ts)])
  }

  // ----- event-loop thread -----------------------------------------------------

  predicate LoopEnabled(s: Sys, l: Label)
    requires !SchedLabel(l) && !WorkLabel(l)
  {
    var p, b := s.loop, s.board;
    match l
    case Create =>
      p.created.None? && p.reserved.None? && b.free != [] && b.free[0] < |b.partitions|
    case Skip => p.created.Some? && p.created.value.slot < |b.partitions| && p.created.value.slot < |s.status|
    case EndInput => p.created.Some?
    case Reserve => p.created.Some? && p.reserved.None? && p.created.value.slot < |s.status| && s.freeSlots != 0
    case PushRefused => p.created.Some? && p.created.value.slot < |s.status| && s.freeSlots == 0
    case PushEvent => p.reserved.Some?
    case PopFinished => p.popped.None? && s.finished != []
    case CountPopped => p.popped.Some?
    case Flush => p.drained != [] && p.drained[0].slot < |b.partitions|
    case _ => false
  }

  /** `freeStore`: a double free is refused. */
  function Freed(b: Board, i: nat): Board
    requires i < |b.partitions|
  {
    if b.partitions[i].None? then b else Board(b.partitions[i := None], b.free + [i])
  }

  function LoopApply(s: Sys, l: Label): Sys
    requires !SchedLabel(l) && !WorkLabel(l) && LoopEnabled(s, l)
  {
    var p, b := s.loop, s.board;
    match l
    case Create =>
      var i := b.free[0];
      s.(loop := p.(nevt := p.nevt + 1, created := Some(Context(p.nevt, i))),
         board := Board(b.partitions[i := Some(p.nevt)], b.free[1..]))
    case Skip =>
      s.(loop := p.(created := None), board := Freed(b, p.created.value.slot),
         status := s.status[p.created.value.slot := Invalid])
    case EndInput =>
      s.(loop := p.(created := None), leaked := s.leaked + multiset{p.created.value.slot})
    case Reserve =>
      s.(loop := p.(created := None, reserved := p.created), freeSlots := s.freeSlots - 1,
         status := s.status[p.created.value.slot := Invalid])
    case PushRefused =>
      s.(loop := p.(created := None), status := s.status[p.created.value.slot := Invalid])
    case PushEvent =>
      s.(loop := p.(reserved := None), actions := s.actions + [PushAction(p.reserved.value)])
    case PopFinished =>
      s.(loop := p.(popped := Some(s.finished[0])), finished := s.finished[1..])
    case CountPopped =>
      s.(loop := p.(popped := None, drained := p.drained + [p.popped.value]), freeSlots := s.freeSlots + 1)
    case Flush =>
      s.(loop := p.(drained := p.drained[1..]), board := Freed(b, p.drained[0].slot))
  }

  // ----- the transition relation -----------------------------------------------

  ghost predicate Enabled(u: Setup, s: Sys, l: Label) {
    if SchedLabel(l) then SchedEnabled(u, s, l)
    else if WorkLabel(l) then WorkEnabled(u, s, l)
    else LoopEnabled(s, l)
  }

  ghost function Apply(u: Setup, s: Sys, l: Label): Sys
    requires Enabled(u, s, l)
  {
    if SchedLabel(l) then SchedApply(u, s, l)
    else if WorkLabel(l) then WorkApply(u, s, l)
    else LoopApply(s, l)
  }

  /** After `initialize`: all slots complete, everything free, nothing queued. */
  ghost predicate Init(u: Setup, s: Sys) {
    && s.sched == Sched(seq(u.slots, i => Slot(None, true, Blank(u.algs), -1, [])), [], 0, true, Idle)
    && s.work == Work(multiset{}, 0, multiset{}, multiset{}, multiset{}, multiset{}, s.work.pool)
    && Initial(u.pool, s.work.pool)
    && s.loop == Loop(s.loop.nevt, None, None, None, [])
    && s.board == Board(seq(u.slots, i => None), seq(u.slots, i => i))
    && s.actions == [] && s.finished == [] && s.freeSlots == u.slots && |s.status| == u.slots
    && s.dropped == multiset{} && s.leaked == multiset{}
  }

  /** A run: from a state, through enabled labels, to a state. */
  ghost predicate Run(u: Setup, s: Sys, run: seq<Label>, t: Sys)
    decreases |run|
  {
    if run == [] then s == t
    else Enabled(u, s, run[0]) && Run(u, Apply(u, s, run[0]), run[1..], t)
  }
}
