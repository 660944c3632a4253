/** Over a whole run no algorithm is started twice for one context, and none has a verdict without a start. */
module ExecutionOnce {
  import opened Common
  import opened AlgsExecutionStates
  import opened ResourcePool
  import opened SchedulerState
  import opened TaskInvariants
  import opened TaskSteps
  import opened SlotCustody
  import opened SchedulerTheorems
  import opened EventDelivery

  /** How often a run starts the algorithm of k for the context of k. */
  function Starts(run: seq<Label>, k: TaskSpec): nat {
    if run == [] then 0 else (if run[0] == StartTask(k) then 1 else 0) + Starts(run[1..], k)
  }

  /** The algorithm has its verdict, in the slot that its event still occupies. */
  ghost predicate Judged(slots: seq<Slot>, k: TaskSpec) {
    StateOf(slots, k) in {Some(EVTACCEPTED), Some(EVTREJECTED), Some(ERROR)}
  }

  /** The one execution is under way or over: k is live beyond the queue, or judged, or its event is behind. */
  ghost predicate Spent(s: Sys, k: TaskSpec) {
    k !in s.work.queue && (k in Live(s) || Judged(s.sched.slots, k) || !Ahead(s, k.ctx.evt))
  }

  // ----- the queue -------------------------------------------------------------------

  /** Only `schedule` brings a specification into the queue. */
  lemma QueueKept(u: Setup, s: Sys, l: Label, k: TaskSpec)
    requires Enabled(u, s, l) && k !in s.work.queue && !(l.QueueSpec? && s.sched.pc.ts == k)
    ensures k !in Apply(u, s, l).work.queue
  {
  }

  /** And it does so only for a specification that is not spent. */
  lemma QueuedUnspent(u: Setup, s: Sys, k: TaskSpec)
    requires TaskInv(u, s) && s.sched.pc == Got(k)
    ensures !Spent(s, k)
  {
    assert StateOf(s.sched.slots, k) in {Some(DATAREADY), Some(RESOURCELESS)};
    assert Live(s)[k] == InState(s.sched.slots, k, SCHEDULED) + Unmarked(s.sched.pc, k);
    assert Upstream(s, k.ctx);
  }

  // ----- live specifications -----------------------------------------------------------

  /** How often k occurs among the places of a task. */
  ghost function Places(w: Work, k: TaskSpec): nat {
    w.queue[k] + w.executing[k] + w.executed[k] + w.unlocked[k] + w.returned[k]
  }

  lemma LivePlaces(s: Sys, k: TaskSpec)
    ensures Live(s)[k] == Places(s.work, k) + Signoffs(s.actions)[k]
  {
  }

  /** A worker moves its specification from place to place and finally to the action queue. */
  lemma WorkerMoves(u: Setup, s: Sys, l: Label, k: TaskSpec)
    requires WorkLabel(l) && WorkEnabled(u, s, l)
    ensures Places(WorkApply(u, s, l).work, k) + (if l == PushSignoff(k) then 1 else 0) == Places(s.work, k)
  {
  }

  lemma WorkerSigns(u: Setup, s: Sys, l: Label, k: TaskSpec)
    requires WorkLabel(l) && WorkEnabled(u, s, l)
    ensures Signoffs(WorkApply(u, s, l).actions)[k] == Signoffs(s.actions)[k] + (if l == PushSignoff(k) then 1 else 0)
  {
    if l.PushSignoff? {
      SignoffsAppend(s.actions, SignoffAction(l.ts));
    } else if l.IssueView? {
      SignoffsAppend(s.actions, ViewAction(l.ts, l.attach));
    }
  }

  lemma LiveKeptByWorkers(u: Setup, s: Sys, l: Label, k: TaskSpec)
    requires WorkLabel(l) && WorkEnabled(u, s, l) && k in Live(s)
    ensures k in Live(WorkApply(u, s, l))
  {
    LivePlaces(s, k);
    LivePlaces(WorkApply(u, s, l), k);
    WorkerMoves(u, s, l, k);
    WorkerSigns(u, s, l, k);
  }

  lemma LiveKeptByLoop(u: Setup, s: Sys, l: Label)
    requires !SchedLabel(l) && !WorkLabel(l) && LoopEnabled(s, l)
    ensures Live(LoopApply(s, l)) == Live(s)
  {
    if l.PushEvent? {
      SignoffsAppend(s.actions, PushAction(s.loop.reserved.value));
    }
  }

  /** The scheduler moves nothing among the tasks that run. */
  lemma SchedulerLeavesTasks(u: Setup, s: Sys, l: Label)
    requires SchedLabel(l) && SchedEnabled(u, s, l)
    ensures var w := SchedApply(u, s, l).work;
            && w.executing == s.work.executing && w.executed == s.work.executed
            && w.unlocked == s.work.unlocked && w.returned == s.work.returned
  {
  }

  /** It takes actions from the head only. */
  lemma SchedulerTakesHead(u: Setup, s: Sys, l: Label, k: TaskSpec)
    requires SchedLabel(l) && SchedEnabled(u, s, l)
    ensures Signoffs(s.actions)[k] == Signoffs(SchedApply(u, s, l).actions)[k]
                                      + (if l.ExecSignoff? && s.actions[0].ts == k then 1 else 0)
  {
  }

  lemma QueueGrows(u: Setup, s: Sys, l: Label)
    requires SchedLabel(l) && SchedEnabled(u, s, l)
    ensures s.work.queue <= SchedApply(u, s, l).work.queue
  {
  }

  lemma LiveKeptByScheduler(u: Setup, s: Sys, l: Label, k: TaskSpec)
    requires SchedLabel(l) && SchedEnabled(u, s, l) && k in Live(s)
    requires !(l.ExecSignoff? && s.actions[0].ts == k)
    ensures k in Live(SchedApply(u, s, l))
  {
    var t := SchedApply(u, s, l);
    LivePlaces(s, k);
    LivePlaces(t, k);
    QueueGrows(u, s, l);
    SchedulerLeavesTasks(u, s, l);
    SchedulerTakesHead(u, s, l, k);
  }

  // ----- verdicts --------------------------------------------------------------------------

  lemma SignedOffJudged(u: Setup, s: Sys, outcome: State, after: Slot)
    requires TaskInv(u, s) && SchedEnabled(u, s, ExecSignoff(outcome, after))
    ensures Judged(SchedApply(u, s, ExecSignoff(outcome, after)).sched.slots, s.actions[0].ts)
  {
    SignoffFindsScheduled(u, s);
    JudgedAfterSignoff(s.sched.slots, s.actions[0].ts, outcome, after, s.actions[0].ts);
  }

  lemma JudgedAfterSignoff(slots: seq<Slot>, ts: TaskSpec, outcome: State, after: Slot, k: TaskSpec)
    requires StateOf(slots, ts) == Some(SCHEDULED) && outcome in {EVTACCEPTED, EVTREJECTED, ERROR}
    requires Promoted(Revised(slots, ts, outcome)[ts.ctx.slot], after)
    requires k == ts || Judged(slots, k)
    ensures Judged(slots[ts.ctx.slot := after], k)
  {
    var marked := Revised(slots, ts, outcome);
    StateOfRevised(slots, ts, outcome, k);
    StateOfPromoted(marked, ts.ctx.slot, after, k);
    assert marked[ts.ctx.slot := after] == slots[ts.ctx.slot := after];
  }

  lemma JudgedAfterRevision(slots: seq<Slot>, ts: TaskSpec, st: State, k: TaskSpec)
    requires StateOf(slots, ts) in {Some(DATAREADY), Some(RESOURCELESS)} && Judged(slots, k)
    ensures Judged(Revised(slots, ts, st), k)
  {
    StateOfRevised(slots, ts, st, k);
  }

  lemma JudgedAfterPush(slots: seq<Slot>, i: nat, after: Slot, k: TaskSpec)
    requires i < |slots| && slots[i].ctx.None? && Judged(slots, k)
    ensures Judged(slots[i := after], k)
  {
  }

  lemma JudgedAfterView(slots: seq<Slot>, i: nat, algs: nat, attach: bool, k: TaskSpec)
    requires i < |slots| && Judged(slots, k)
    ensures Judged(slots[i := Viewed(algs, slots[i], attach)], k)
  {
  }

  lemma JudgedAfterExec(u: Setup, s: Sys, l: Label, k: TaskSpec)
    requires TaskInv(u, s) && SchedLabel(l) && SchedEnabled(u, s, l) && Judged(s.sched.slots, k)
    requires l.ExecPush? || l.ExecPushFatal? || l.ExecSignoff? || l.ExecView?
    ensures Judged(SchedApply(u, s, l).sched.slots, k)
  {
    var slots := s.sched.slots;
    match l
    case ExecPush(after) => JudgedAfterPush(slots, s.actions[0].ctx.slot, after, k);
    case ExecPushFatal =>
    case ExecSignoff(outcome, after) =>
      SignoffFindsScheduled(u, s);
      JudgedAfterSignoff(slots, s.actions[0].ts, outcome, after, k);
    case ExecView => JudgedAfterView(slots, s.actions[0].creator.ctx.slot, u.algs, s.actions[0].attach, k);
  }

  lemma RetryResourceless(s: Sys)
    requires RetryMatch(s) && s.sched.pc.Idle? && s.sched.retry != []
    ensures StateOf(s.sched.slots, s.sched.retry[0]) == Some(RESOURCELESS)
  {
    assert multiset(s.sched.retry)[s.sched.retry[0]] > 0;
  }

  lemma JudgedAfterTry(u: Setup, s: Sys, ts: TaskSpec, k: TaskSpec)
    requires Schedulable(u, s, ts) && StateOf(s.sched.slots, ts) in {Some(DATAREADY), Some(RESOURCELESS)}
    requires Judged(s.sched.slots, k)
    ensures Judged(TrySchedule(u, s, ts).sched.slots, k)
  {
    JudgedAfterRevision(s.sched.slots, ts, RESOURCELESS, k);
  }

  lemma JudgedAfterScheduling(u: Setup, s: Sys, l: Label, k: TaskSpec)
    requires TaskInv(u, s) && SchedLabel(l) && SchedulingLabel(l) && SchedEnabled(u, s, l) && Judged(s.sched.slots, k)
    ensures Judged(SchedApply(u, s, l).sched.slots, k)
  {
    if l.Retry? {
      RetryResourceless(s);
      JudgedAfterTry(u, s.(sched := s.sched.(retry := s.sched.retry[1..])), s.sched.retry[0], k);
    } else if l.TakeReady? {
      JudgedAfterTry(u, s, l.ready, k);
    } else if l.MarkScheduled? {
      JudgedAfterRevision(s.sched.slots, s.sched.pc.ts, SCHEDULED, k);
    }
  }

  /** Retiring a slot puts the events of its algorithms behind, and leaves other slots alone. */
  lemma JudgedAfterRetirement(u: Setup, s: Sys, l: Label, k: TaskSpec)
    requires CustodyInv(u, s) && (l.Finish? || l.Stall?) && Enabled(u, s, l) && Judged(s.sched.slots, k)
    ensures Judged(Apply(u, s, l).sched.slots, k) || !Ahead(Apply(u, s, l), k.ctx.evt)
  {
    RetireEffect(u, s, l);
    RetiredOrJudged(u, s, Apply(u, s, l), l.i, k);
  }

  lemma RetiredOrJudged(u: Setup, s: Sys, t: Sys, i: nat, k: TaskSpec)
    requires CustodyInv(u, s) && i < |s.sched.slots| && Judged(s.sched.slots, k)
    requires t.sched.slots == s.sched.slots[i := Retired(s.sched.slots[i])]
    requires t.loop == s.loop && t.actions == s.actions
    ensures Judged(t.sched.slots, k) || !Ahead(t, k.ctx.evt)
  {
    if k.ctx.slot == i {
      RetiredBehind(u, s, t, i, k.ctx.evt);
    }
  }

  lemma JudgedKept(u: Setup, s: Sys, l: Label, k: TaskSpec)
    requires SystemInv(u, s) && Enabled(u, s, l) && Judged(s.sched.slots, k)
    ensures Judged(Apply(u, s, l).sched.slots, k) || !Ahead(Apply(u, s, l), k.ctx.evt)
  {
    if !SchedLabel(l) {
      SlotsByScheduler(u, s, l);
    } else if l.Finish? || l.Stall? {
      JudgedAfterRetirement(u, s, l, k);
    } else if SchedulingLabel(l) {
      JudgedAfterScheduling(u, s, l, k);
    } else {
      JudgedAfterExec(u, s, l, k);
    }
  }

  /** The scheduler thread alone changes its slots. */
  lemma SlotsByScheduler(u: Setup, s: Sys, l: Label)
    requires !SchedLabel(l) && Enabled(u, s, l)
    ensures Apply(u, s, l).sched == s.sched
  {
  }

  // ----- at most one start ---------------------------------------------------------------------

  lemma LiveOrJudged(u: Setup, s: Sys, l: Label, k: TaskSpec)
    requires SystemInv(u, s) && Enabled(u, s, l) && k in Live(s)
    ensures k in Live(Apply(u, s, l)) || Judged(Apply(u, s, l).sched.slots, k)
  {
    if SchedLabel(l) {
      if l.ExecSignoff? && s.actions[0].ts == k {
        SignedOffJudged(u, s, l.outcome, l.after);
      } else {
        LiveKeptByScheduler(u, s, l, k);
      }
    } else if WorkLabel(l) {
      LiveKeptByWorkers(u, s, l, k);
    } else {
      LiveKeptByLoop(u, s, l);
    }
  }

  /** What is spent stays spent and is not started. */
  lemma SpentStays(u: Setup, s: Sys, l: Label, k: TaskSpec)
    requires SystemInv(u, s) && Enabled(u, s, l) && Spent(s, k)
    ensures Spent(Apply(u, s, l), k) && l != StartTask(k)
  {
    if l.QueueSpec? && s.sched.pc.ts == k {
      QueuedUnspent(u, s, k);
    } else {
      QueueKept(u, s, l, k);
      if k in Live(s) {
        LiveOrJudged(u, s, l, k);
      } else if Judged(s.sched.slots, k) {
        JudgedKept(u, s, l, k);
      } else {
        BehindStays(u, s, l, k.ctx.evt);
      }
    }
  }

  /** Starting spends. */
  lemma StartSpends(u: Setup, s: Sys, k: TaskSpec)
    requires SystemInv(u, s) && WorkEnabled(u, s, StartTask(k))
    ensures Spent(WorkApply(u, s, StartTask(k)), k)
  {
    var t := WorkApply(u, s, StartTask(k));
    LiveOnce(s, k);
    assert Live(s)[k] >= s.work.queue[k] >= 1;
    assert k in t.work.executing;
    assert k in Running(t.work);
  }

  lemma {:induction false} StartsBounded(u: Setup, s: Sys, run: seq<Label>, t: Sys, k: TaskSpec)
    requires GoodSetup(u) && SystemInv(u, s) && Run(u, s, run, t)
    ensures Starts(run, k) <= if Spent(s, k) then 0 else 1
    decreases |run|
  {
    if run != [] {
      StepKeeps(u, s, run[0]);
      if Spent(s, k) {
        SpentStays(u, s, run[0], k);
      } else if run[0] == StartTask(k) {
        StartSpends(u, s, k);
      }
      StartsBounded(u, Apply(u, s, run[0]), run[1..], t, k);
    }
  }

  /** In no run is an algorithm started twice for one context. */
  lemma StartedAtMostOnce(u: Setup, s: Sys, run: seq<Label>, t: Sys, k: TaskSpec)
    requires GoodSetup(u) && Init(u, s) && Run(u, s, run, t)
    ensures Starts(run, k) <= 1
  {
    InitInv(u, s);
    StartsBounded(u, s, run, t, k);
  }

  // ----- no verdict without a start --------------------------------------------------------------

  /** k was taken from the queue: it executes, waits for its sign-off, or is judged. */
  ghost predicate Begun(s: Sys, k: TaskSpec) {
    Places(s.work, k) > s.work.queue[k] || Signoffs(s.actions)[k] > 0 || Judged(s.sched.slots, k)
  }

  lemma BegunByWorkers(u: Setup, s: Sys, l: Label, k: TaskSpec)
    requires WorkLabel(l) && WorkEnabled(u, s, l) && Begun(WorkApply(u, s, l), k)
    ensures Begun(s, k) || l == StartTask(k)
  {
    WorkerMoves(u, s, l, k);
    WorkerSigns(u, s, l, k);
  }

  lemma BegunByLoop(s: Sys, l: Label, k: TaskSpec)
    requires !SchedLabel(l) && !WorkLabel(l) && LoopEnabled(s, l) && Begun(LoopApply(s, l), k)
    ensures Begun(s, k)
  {
    if l.PushEvent? {
      SignoffsAppend(s.actions, PushAction(s.loop.reserved.value));
    }
  }

  lemma UnjudgedRevision(slots: seq<Slot>, ts: TaskSpec, st: State, k: TaskSpec)
    requires StateOf(slots, ts) in {Some(DATAREADY), Some(RESOURCELESS)} && st in {SCHEDULED, RESOURCELESS}
    requires Judged(Revised(slots, ts, st), k)
    ensures Judged(slots, k)
  {
    StateOfRevised(slots, ts, st, k);
  }

  lemma UnjudgedSignoff(slots: seq<Slot>, ts: TaskSpec, outcome: State, after: Slot, k: TaskSpec)
    requires StateOf(slots, ts) == Some(SCHEDULED) && k != ts
    requires Promoted(Revised(slots, ts, outcome)[ts.ctx.slot], after)
    requires Judged(slots[ts.ctx.slot := after], k)
    ensures Judged(slots, k)
  {
    var marked := Revised(slots, ts, outcome);
    StateOfRevised(slots, ts, outcome, k);
    StateOfPromoted(marked, ts.ctx.slot, after, k);
    assert marked[ts.ctx.slot := after] == slots[ts.ctx.slot := after];
  }

  lemma PushedUnjudged(u: Setup, slots: seq<Slot>, c: Context, after: Slot, k: TaskSpec)
    requires c.slot < |slots| && Promoted(ResetSlot(u.algs, c), after) && k.ctx.slot == c.slot
    ensures !Judged(slots[c.slot := after], k)
  {
    StateOfPromoted(slots[c.slot := ResetSlot(u.algs, c)], c.slot, after, k);
    assert slots[c.slot := ResetSlot(u.algs, c)][c.slot := after] == slots[c.slot := after];
  }

  lemma UnjudgedPush(u: Setup, slots: seq<Slot>, c: Context, after: Slot, k: TaskSpec)
    requires c.slot < |slots| && Promoted(ResetSlot(u.algs, c), after)
    requires Judged(slots[c.slot := after], k)
    ensures Judged(slots, k)
  {
    if k.ctx.slot == c.slot {
      PushedUnjudged(u, slots, c, after, k);
    }
  }

  lemma UnjudgedView(slots: seq<Slot>, i: nat, algs: nat, attach: bool, k: TaskSpec)
    requires i < |slots| && Judged(slots[i := Viewed(algs, slots[i], attach)], k)
    ensures Judged(slots, k)
  {
  }

  lemma UnjudgedExec(u: Setup, s: Sys, l: Label, k: TaskSpec)
    requires TaskInv(u, s) && SchedLabel(l) && SchedEnabled(u, s, l) && Judged(SchedApply(u, s, l).sched.slots, k)
    requires l.ExecPush? || l.ExecPushFatal? || l.ExecSignoff? || l.ExecView?
    ensures Judged(s.sched.slots, k) || (l.ExecSignoff? && s.actions[0].ts == k)
  {
    var slots := s.sched.slots;
    match l
    case ExecPush(after) => UnjudgedPush(u, slots, s.actions[0].ctx, after, k);
    case ExecPushFatal =>
    case ExecSignoff(outcome, after) =>
      SignoffFindsScheduled(u, s);
      if s.actions[0].ts != k {
        UnjudgedSignoff(slots, s.actions[0].ts, outcome, after, k);
      }
    case ExecView => UnjudgedView(slots, s.actions[0].creator.ctx.slot, u.algs, s.actions[0].attach, k);
  }

  lemma UnjudgedTry(u: Setup, s: Sys, ts: TaskSpec, k: TaskSpec)
    requires Schedulable(u, s, ts) && StateOf(s.sched.slots, ts) in {Some(DATAREADY), Some(RESOURCELESS)}
    requires Judged(TrySchedule(u, s, ts).sched.slots, k)
    ensures Judged(s.sched.slots, k)
  {
    if !CanAcquire(u.pool, s.work.pool, ts.alg) {
      UnjudgedRevision(s.sched.slots, ts, RESOURCELESS, k);
    }
  }

  lemma UnjudgedScheduling(u: Setup, s: Sys, l: Label, k: TaskSpec)
    requires TaskInv(u, s) && SchedLabel(l) && SchedulingLabel(l) && SchedEnabled(u, s, l)
    requires Judged(SchedApply(u, s, l).sched.slots, k)
    ensures Judged(s.sched.slots, k)
  {
    if l.Retry? {
      RetryResourceless(s);
      UnjudgedTry(u, s.(sched := s.sched.(retry := s.sched.retry[1..])), s.sched.retry[0], k);
    } else if l.TakeReady? {
      UnjudgedTry(u, s, l.ready, k);
    } else if l.MarkScheduled? {
      UnjudgedRevision(s.sched.slots, s.sched.pc.ts, SCHEDULED, k);
    }
  }

  lemma UnjudgedRetirement(slots: seq<Slot>, i: nat, k: TaskSpec)
    requires i < |slots| && Judged(slots[i := Retired(slots[i])], k)
    ensures Judged(slots, k)
  {
  }

  lemma UnjudgedByScheduler(u: Setup, s: Sys, l: Label, k: TaskSpec)
    requires TaskInv(u, s) && SchedLabel(l) && SchedEnabled(u, s, l) && Judged(SchedApply(u, s, l).sched.slots, k)
    ensures Judged(s.sched.slots, k) || (l.ExecSignoff? && s.actions[0].ts == k)
  {
    if l.Finish? || l.Stall? {
      UnjudgedRetirement(s.sched.slots, l.i, k);
    } else if SchedulingLabel(l) {
      UnjudgedScheduling(u, s, l, k);
    } else {
      UnjudgedExec(u, s, l, k);
    }
  }

  lemma BegunByScheduler(u: Setup, s: Sys, l: Label, k: TaskSpec)
    requires TaskInv(u, s) && SchedLabel(l) && SchedEnabled(u, s, l) && Begun(SchedApply(u, s, l), k)
    ensures Begun(s, k)
  {
    var t := SchedApply(u, s, l);
    if Judged(t.sched.slots, k) {
      UnjudgedByScheduler(u, s, l, k);
    } else if Signoffs(t.actions)[k] > 0 {
      SchedulerTakesHead(u, s, l, k);
    } else {
      SchedulerLeavesTasks(u, s, l);
    }
  }

  lemma BegunStep(u: Setup, s: Sys, l: Label, k: TaskSpec)
    requires TaskInv(u, s) && Enabled(u, s, l) && Begun(Apply(u, s, l), k)
    ensures Begun(s, k) || l == StartTask(k)
  {
    if SchedLabel(l) {
      BegunByScheduler(u, s, l, k);
    } else if WorkLabel(l) {
      BegunByWorkers(u, s, l, k);
    } else {
      BegunByLoop(s, l, k);
    }
  }

  lemma {:induction false} BegunStarted(u: Setup, s: Sys, run: seq<Label>, t: Sys, k: TaskSpec)
    requires GoodSetup(u) && SystemInv(u, s) && Run(u, s, run, t) && Begun(t, k)
    ensures Begun(s, k) || Starts(run, k) > 0
    decreases |run|
  {
    if run != [] {
      var r := Apply(u, s, run[0]);
      StepKeeps(u, s, run[0]);
      BegunStarted(u, r, run[1..], t, k);
      assert Begun(r, k) ==> Begun(s, k) || run[0] == StartTask(k) by {
        if Begun(r, k) {
          BegunStep(u, s, run[0], k);
        }
      }
    }
  }

  /** An algorithm that executes, waits for its sign-off or has a verdict was started exactly once. */
  lemma {:induction false} BegunStartedOnce(u: Setup, s: Sys, run: seq<Label>, t: Sys, k: TaskSpec)
    requires GoodSetup(u) && Init(u, s) && Run(u, s, run, t) && Begun(t, k)
    ensures Starts(run, k) == 1
  {
    InitInv(u, s);
    StartedAtMostOnce(u, s, run, t, k);
    BegunStarted(u, s, run, t, k);
    assert Signoffs(s.actions) == multiset{};
  }

  // ----- priorities --------------------------------------------------------------------------------

  /** No specification in the queue has a higher rank than the one that is started. */
  lemma StartsHighest(u: Setup, s: Sys, ts: TaskSpec, k: TaskSpec)
    requires GoodSetup(u) && SystemInv(u, s) && WorkEnabled(u, s, StartTask(ts)) && k in s.work.queue
    ensures k.alg < |u.rank| && ts.alg < |u.rank| && u.rank[k.alg] <= u.rank[ts.alg]
  {
    assert k in Live(s) && ts in Live(s);
    ReferenceOccupies(u, s, k);
    ReferenceOccupies(u, s, ts);
  }

  /** What is queued stays until it is started. */
  lemma QueuedUntilStarted(u: Setup, s: Sys, l: Label, k: TaskSpec)
    requires Enabled(u, s, l) && k in s.work.queue && l != StartTask(k)
    ensures k in Apply(u, s, l).work.queue
  {
    if SchedLabel(l) {
      QueueGrows(u, s, l);
    }
  }

  /** Of two queued specifications the one of higher rank is started first, in every run. */
  lemma {:induction false} HigherFirst(u: Setup, s: Sys, run: seq<Label>, t: Sys, k: TaskSpec, low: TaskSpec)
    requires GoodSetup(u) && SystemInv(u, s) && Run(u, s, run, t) && k in s.work.queue && low in s.work.queue
    requires k.alg < |u.rank| && low.alg < |u.rank| && u.rank[low.alg] < u.rank[k.alg]
    requires Starts(run, low) > 0
    ensures Starts(run, k) > 0
    decreases |run|
  {
    if run[0] == StartTask(low) {
      StartsHighest(u, s, low, k);
    } else if run[0] != StartTask(k) {
      QueuedUntilStarted(u, s, run[0], k);
      QueuedUntilStarted(u, s, run[0], low);
      StepKeeps(u, s, run[0]);
      HigherFirst(u, Apply(u, s, run[0]), run[1..], t, k, low);
    }
  }
}
