/** Every label of the scheduler thread keeps the task invariants. */
module TaskSteps {
  import opened Common
  import opened AlgsExecutionStates
  import opened ResourcePool
  import opened SchedulerState
  import opened TaskInvariants

  // ----- executing an action ---------------------------------------------------

  /** Between actions, only the SCHEDULED and RESOURCELESS entries of the slots matter. */
  lemma MatchedBetween(u: Setup, s: Sys, t: Sys)
    requires Matched(u, s) && SlotsGood(u, t.sched.slots)
    requires s.sched.pc.Idle? && t.sched.pc.Idle?
    requires Live(t) == Live(s) && t.sched.retry == s.sched.retry && t.sched.inFlight == s.sched.inFlight
    requires t.work.queue == s.work.queue && t.work.tasks == s.work.tasks
    requires forall k :: InState(t.sched.slots, k, SCHEDULED) == InState(s.sched.slots, k, SCHEDULED)
    requires forall k :: InState(t.sched.slots, k, RESOURCELESS) == InState(s.sched.slots, k, RESOURCELESS)
    ensures Matched(u, t)
  {
  }

  /** Popping an action that is not a sign-off loses no pending creator. */
  lemma PoppedViews(s: Sys, t: Sys)
    requires ViewsGood(s) && s.actions != [] && t.actions == s.actions[1..] && t.work == s.work
    requires s.actions[0].SignoffAction? ==>
      s.actions[0].ts !in Running(s.work) && s.actions[0].ts !in Signoffs(s.actions[1..])
    ensures ViewsGood(t)
  {
    forall i | 0 <= i < |t.actions| && t.actions[i].ViewAction?
      ensures t.actions[i].creator.sub.None? && CreatorPending(t, i)
    {
      assert t.actions[i] == s.actions[i + 1] && CreatorPending(s, i + 1);
      var c := t.actions[i].creator;
      if c !in Running(s.work) {
        var j :| i + 1 < j < |s.actions| && s.actions[j] == SignoffAction(c);
        assert t.actions[j - 1] == SignoffAction(c);
      }
    }
  }

  /** Occupying an empty slot with a reset event, promoted arbitrarily, marks nothing. */
  lemma OccupiedStates(slots: seq<Slot>, algs: nat, c: Context, after: Slot, k: TaskSpec, st: State)
    requires c.slot < |slots| && slots[c.slot].ctx.None? && Promoted(ResetSlot(algs, c), after)
    requires st in {SCHEDULED, RESOURCELESS}
    ensures InState(slots[c.slot := after], k, st) == InState(slots, k, st)
  {
    if k.ctx == c {
      var blank := ResetSlot(algs, c);
      if SlotState(after, k.sub, k.alg).Some? {
        assert PromotedState(SlotState(blank, k.sub, k.alg).value, SlotState(after, k.sub, k.alg).value);
        assert SlotState(blank, k.sub, k.alg) == Some(INITIAL);
      }
    }
  }

  lemma ExecPushKeeps(u: Setup, s: Sys, after: Slot)
    requires TaskInv(u, s) && SchedEnabled(u, s, ExecPush(after))
    ensures TaskInv(u, SchedApply(u, s, ExecPush(after)))
  {
    var t := SchedApply(u, s, ExecPush(after));
    var c := s.actions[0].ctx;
    forall k ensures InState(t.sched.slots, k, SCHEDULED) == InState(s.sched.slots, k, SCHEDULED)
                  && InState(t.sched.slots, k, RESOURCELESS) == InState(s.sched.slots, k, RESOURCELESS) {
      OccupiedStates(s.sched.slots, u.algs, c, after, k, SCHEDULED);
      OccupiedStates(s.sched.slots, u.algs, c, after, k, RESOURCELESS);
    }
    assert Live(t) == Live(s);
    MatchedBetween(u, s, t);
    HoldsKept(s, t);
    PoppedViews(s, t);
  }

  lemma ExecPushFatalKeeps(u: Setup, s: Sys)
    requires TaskInv(u, s) && SchedEnabled(u, s, ExecPushFatal)
    ensures TaskInv(u, SchedApply(u, s, ExecPushFatal))
  {
    var t := SchedApply(u, s, ExecPushFatal);
    assert Live(t) == Live(s);
    MatchedBetween(u, s, t);
    HoldsKept(s, t);
    PoppedViews(s, t);
  }

  /** A sign-off at the head of the queue finds its algorithm SCHEDULED, and is the only one. */
  lemma SignoffFindsScheduled(u: Setup, s: Sys)
    requires TaskInv(u, s) && s.sched.pc.Idle? && s.actions != [] && s.actions[0].SignoffAction?
    ensures StateOf(s.sched.slots, s.actions[0].ts) == Some(SCHEDULED)
    ensures Live(s)[s.actions[0].ts] == 1
    ensures s.actions[0].ts !in Running(s.work) && s.actions[0].ts !in Signoffs(s.actions[1..])
    ensures s.actions[0].ts !in s.work.queue
  {
    var ts := s.actions[0].ts;
    assert ts in Signoffs(s.actions);
    assert Live(s)[ts] >= 1;
    assert Live(s)[ts]
        == s.work.queue[ts] + Running(s.work)[ts] + 1 + Signoffs(s.actions[1..])[ts];
  }

  lemma SignedOffStates(slots: seq<Slot>, ts: TaskSpec, outcome: State, after: Slot, k: TaskSpec, st: State)
    requires StateOf(slots, ts) == Some(SCHEDULED) && outcome in {EVTACCEPTED, EVTREJECTED, ERROR}
    requires Promoted(Revised(slots, ts, outcome)[ts.ctx.slot], after)
    requires st in {SCHEDULED, RESOURCELESS}
    ensures InState(slots[ts.ctx.slot := after], k, st) == if k == ts then 0 else InState(slots, k, st)
  {
    var marked := Revised(slots, ts, outcome);
    StateOfRevised(slots, ts, outcome, k);
    StateOfPromoted(marked, ts.ctx.slot, after, k);
    assert marked[ts.ctx.slot := after] == slots[ts.ctx.slot := after];
  }

  lemma ExecSignoffMatched(u: Setup, s: Sys, outcome: State, after: Slot)
    requires Matched(u, s) && SchedEnabled(u, s, ExecSignoff(outcome, after))
    requires StateOf(s.sched.slots, s.actions[0].ts) == Some(SCHEDULED) && Live(s)[s.actions[0].ts] == 1
    ensures Matched(u, SchedApply(u, s, ExecSignoff(outcome, after)))
  {
    var t := SchedApply(u, s, ExecSignoff(outcome, after));
    var ts := s.actions[0].ts;
    var marked := Revised(s.sched.slots, ts, outcome);
    RevisedGood(u, s.sched.slots, ts, outcome);
    PromotedGood(u, marked, ts.ctx.slot, after);
    assert marked[ts.ctx.slot := after] == t.sched.slots;
    assert Live(t) == Live(s) - multiset{ts};
    forall k
      ensures InState(t.sched.slots, k, SCHEDULED) == (if k == ts then 0 else InState(s.sched.slots, k, SCHEDULED))
      ensures InState(t.sched.slots, k, RESOURCELESS)
           == (if k == ts then 0 else InState(s.sched.slots, k, RESOURCELESS)) {
      SignedOffStates(s.sched.slots, ts, outcome, after, k, SCHEDULED);
      SignedOffStates(s.sched.slots, ts, outcome, after, k, RESOURCELESS);
    }
  }

  lemma ExecSignoffKeeps(u: Setup, s: Sys, outcome: State, after: Slot)
    requires TaskInv(u, s) && SchedEnabled(u, s, ExecSignoff(outcome, after))
    ensures TaskInv(u, SchedApply(u, s, ExecSignoff(outcome, after)))
  {
    var t := SchedApply(u, s, ExecSignoff(outcome, after));
    SignoffFindsScheduled(u, s);
    ExecSignoffMatched(u, s, outcome, after);
    HoldsKept(s, t);
    PoppedViews(s, t);
  }

  lemma ViewedStates(slots: seq<Slot>, i: nat, algs: nat, attach: bool, k: TaskSpec, st: State)
    requires i < |slots| && st in {SCHEDULED, RESOURCELESS}
    ensures InState(slots[i := Viewed(algs, slots[i], attach)], k, st) == InState(slots, k, st)
  {
  }

  lemma ExecViewKeeps(u: Setup, s: Sys)
    requires TaskInv(u, s) && SchedEnabled(u, s, ExecView)
    ensures TaskInv(u, SchedApply(u, s, ExecView))
  {
    var t := SchedApply(u, s, ExecView);
    var i := s.actions[0].creator.ctx.slot;
    forall k ensures InState(t.sched.slots, k, SCHEDULED) == InState(s.sched.slots, k, SCHEDULED)
                  && InState(t.sched.slots, k, RESOURCELESS) == InState(s.sched.slots, k, RESOURCELESS) {
      ViewedStates(s.sched.slots, i, u.algs, s.actions[0].attach, k, SCHEDULED);
      ViewedStates(s.sched.slots, i, u.algs, s.actions[0].attach, k, RESOURCELESS);
    }
    assert Live(t) == Live(s);
    MatchedBetween(u, s, t);
    HoldsKept(s, t);
    PoppedViews(s, t);
  }

  // ----- retiring a slot ---------------------------------------------------------

  lemma RetiredStates(slots: seq<Slot>, i: nat, k: TaskSpec, st: State)
    requires i < |slots| && (IsFinished(slots[i]) || IsStalled(slots[i])) && st in {SCHEDULED, RESOURCELESS}
    ensures InState(slots[i := Retired(slots[i])], k, st) == InState(slots, k, st)
  {
    if k.ctx.slot == i && SlotState(slots[i], k.sub, k.alg).Some? {
      if IsFinished(slots[i]) {
        NoneHas(slots[i], {CONTROLREADY, DATAREADY, SCHEDULED, RESOURCELESS}, k.sub, k.alg);
      } else {
        NoneHas(slots[i], {DATAREADY, SCHEDULED, RESOURCELESS}, k.sub, k.alg);
      }
    }
  }

  lemma RetiredMatched(u: Setup, s: Sys, t: Sys, i: nat)
    requires Matched(u, s) && s.sched.pc.Idle? && i < |s.sched.slots|
    requires IsFinished(s.sched.slots[i]) || IsStalled(s.sched.slots[i])
    requires t.sched == s.sched.(slots := s.sched.slots[i := Retired(s.sched.slots[i])])
    requires t.work == s.work && t.actions == s.actions
    ensures Matched(u, t)
  {
    forall k ensures InState(t.sched.slots, k, SCHEDULED) == InState(s.sched.slots, k, SCHEDULED)
                  && InState(t.sched.slots, k, RESOURCELESS) == InState(s.sched.slots, k, RESOURCELESS) {
      RetiredStates(s.sched.slots, i, k, SCHEDULED);
      RetiredStates(s.sched.slots, i, k, RESOURCELESS);
    }
    MatchedBetween(u, s, t);
  }

  lemma RetireKeeps(u: Setup, s: Sys, l: Label)
    requires TaskInv(u, s) && (l.Finish? || l.Stall?) && SchedEnabled(u, s, l)
    ensures TaskInv(u, SchedApply(u, s, l))
  {
    var t := SchedApply(u, s, l);
    RetiredMatched(u, s, t, l.i);
    HoldsKept(s, t);
    ViewsKept(s, t);
  }

  // ----- scheduling an algorithm -------------------------------------------------

  /** A ready or resourceless specification is not live between actions, and owns no loan. */
  lemma UnlivedHasNoLoan(u: Setup, s: Sys, ts: TaskSpec)
    requires TaskInv(u, s) && s.sched.pc.Idle?
    requires StateOf(s.sched.slots, ts) in {Some(DATAREADY), Some(RESOURCELESS)}
    ensures ts !in s.work.pool.holds && ts !in s.work.pool.busy
  {
    assert Live(s)[ts] == 0;
    assert Live(s)[ts] >= Borrowing(s.work)[ts] >= Unreleased(s.work)[ts];
  }

  lemma ReadyAlg(u: Setup, s: Sys, ts: TaskSpec)
    requires SlotsGood(u, s.sched.slots) && StateOf(s.sched.slots, ts).Some?
    ensures ts.alg < u.algs && Addressable(s.sched.slots, ts)
  {
  }

  lemma AcquiredMatched(u: Setup, s: Sys, t: Sys, ts: TaskSpec)
    requires Matched(u, s) && s.sched.pc.Idle?
    requires StateOf(s.sched.slots, ts) in {Some(DATAREADY), Some(RESOURCELESS)}
    requires t.sched.slots == s.sched.slots && t.sched.pc == Got(ts) && t.sched.inFlight == s.sched.inFlight
    requires Live(t) == Live(s) && t.work.queue == s.work.queue && t.work.tasks == s.work.tasks
    requires forall k :: multiset(t.sched.retry)[k]
                      == multiset(s.sched.retry)[k] - (if k == ts then InState(s.sched.slots, ts, RESOURCELESS) else 0)
    ensures Matched(u, t)
  {
  }

  lemma ParkedMatched(u: Setup, s: Sys, t: Sys, ts: TaskSpec)
    requires Matched(u, s) && s.sched.pc.Idle?
    requires StateOf(s.sched.slots, ts) in {Some(DATAREADY), Some(RESOURCELESS)}
    requires t.sched.slots == Revised(s.sched.slots, ts, RESOURCELESS)
    requires t.sched.pc.Idle? && t.sched.inFlight == s.sched.inFlight
    requires Live(t) == Live(s) && t.work.queue == s.work.queue && t.work.tasks == s.work.tasks
    requires forall k :: multiset(t.sched.retry)[k]
                      == (if k == ts then 1 else multiset(s.sched.retry)[k])
    ensures Matched(u, t)
  {
    RevisedGood(u, s.sched.slots, ts, RESOURCELESS);
    forall k ensures StateOf(t.sched.slots, k) == if k == ts then Some(RESOURCELESS) else StateOf(s.sched.slots, k) {
      StateOfRevised(s.sched.slots, ts, RESOURCELESS, k);
    }
    forall k ensures multiset(t.sched.retry)[k] == InState(t.sched.slots, k, RESOURCELESS) {
    }
  }

  lemma AcquiredHolds(u: Setup, s: Sys, t: Sys, ts: TaskSpec)
    requires HoldsGood(s) && s.sched.pc.Idle? && ts.alg < |s.work.pool.queues| == |u.pool.req| == |u.pool.reentrant|
    requires t.work == s.work.(pool := Acquire(u.pool, s.work.pool, ts, ts.alg))
    requires t.sched.pc == if CanAcquire(u.pool, s.work.pool, ts.alg) then Got(ts) else Idle
    ensures HoldsGood(t)
  {
    AcquiredLoans(u.pool, s.work.pool, ts, ts.alg);
    var loan := if CanAcquire(u.pool, s.work.pool, ts.alg) then Some(s.work.pool.queues[ts.alg][0]) else None;
    HoldsAfterLoan(s, t, ts, loan);
  }

  lemma HoldsAfterLoan(s: Sys, t: Sys, ts: TaskSpec, inst: Option<nat>)
    requires HoldsGood(s) && s.sched.pc.Idle? && t.sched.pc == if inst.Some? then Got(ts) else Idle
    requires t.work == s.work.(pool := t.work.pool)
    requires t.work.pool.holds == if inst.Some? then s.work.pool.holds[ts := ts.alg] else s.work.pool.holds
    requires t.work.pool.busy
          == if inst.Some? then s.work.pool.busy[ts := Loan(ts.alg, inst.value)] else s.work.pool.busy
    ensures HoldsGood(t)
  {
    assert Unreleased(t.work) == Unreleased(s.work) && Borrowing(t.work) == Borrowing(s.work);
  }

  /** The specification comes from a DATAREADY entry, or is popped from the retry queue. */
  predicate RetryTaken(s: Sys, r: Sys, ts: TaskSpec) {
    || (r == s && StateOf(s.sched.slots, ts) == Some(DATAREADY))
    || (s.sched.retry != [] && ts == s.sched.retry[0] && r == s.(sched := s.sched.(retry := s.sched.retry[1..])))
  }

  lemma RetryHead(s: Sys, r: Sys, ts: TaskSpec)
    requires RetryMatch(s) && RetryTaken(s, r, ts)
    ensures StateOf(s.sched.slots, ts) in {Some(DATAREADY), Some(RESOURCELESS)}
  {
    if r != s {
      assert multiset(s.sched.retry)[ts] >= 1;
    }
  }

  /** Popping the retry entry first, or finding the algorithm DATAREADY: `schedule` keeps the invariants. */
  lemma TryScheduleKeeps(u: Setup, s: Sys, r: Sys, ts: TaskSpec)
    requires GoodSetup(u) && TaskInv(u, s) && s.sched.pc.Idle? && Schedulable(u, s, ts)
    requires RetryTaken(s, r, ts)
    ensures TaskInv(u, TrySchedule(u, r, ts))
  {
    RetryHead(s, r, ts);
    UnlivedHasNoLoan(u, s, ts);
    AcquireInv(u.pool, s.work.pool, ts, ts.alg);
    AcquiredHolds(u, s, TrySchedule(u, r, ts), ts);
    ViewsKept(s, TrySchedule(u, r, ts));
    TriedMatched(u, s, r, ts);
  }

  lemma TriedMatched(u: Setup, s: Sys, r: Sys, ts: TaskSpec)
    requires Matched(u, s) && s.sched.pc.Idle? && Schedulable(u, s, ts)
    requires StateOf(s.sched.slots, ts) in {Some(DATAREADY), Some(RESOURCELESS)}
    requires RetryTaken(s, r, ts)
    ensures Matched(u, TrySchedule(u, r, ts))
  {
    RetryBag(s, r, ts);
    if CanAcquire(u.pool, s.work.pool, ts.alg) {
      AcquiredMatched(u, s, TrySchedule(u, r, ts), ts);
    } else {
      ParkedMatched(u, s, TrySchedule(u, r, ts), ts);
    }
  }

  /** Taking the specification out of the retry queue removes its only entry, if it had one. */
  lemma RetryBag(s: Sys, r: Sys, ts: TaskSpec)
    requires RetryMatch(s) && s.sched.pc.Idle? && RetryTaken(s, r, ts)
    ensures forall k :: multiset(r.sched.retry)[k]
                     == multiset(s.sched.retry)[k] - (if k == ts then InState(s.sched.slots, ts, RESOURCELESS) else 0)
    ensures multiset(s.sched.retry)[ts] == InState(s.sched.slots, ts, RESOURCELESS)
  {
    if s.sched.retry != [] && ts == s.sched.retry[0] {
      assert s.sched.retry == [ts] + s.sched.retry[1..];
    }
  }

  lemma QueuedLive(u: Setup, s: Sys)
    requires SchedEnabled(u, s, QueueSpec)
    ensures Live(SchedApply(u, s, QueueSpec)) == Live(s) + multiset{s.sched.pc.ts}
  {
  }

  lemma QueuedMatched(u: Setup, s: Sys)
    requires Matched(u, s) && SchedEnabled(u, s, QueueSpec)
    ensures Matched(u, SchedApply(u, s, QueueSpec))
  {
    var t := SchedApply(u, s, QueueSpec);
    var ts := s.sched.pc.ts;
    QueuedLive(u, s);
    forall k ensures Live(t)[k] == InState(t.sched.slots, k, SCHEDULED) + Unmarked(t.sched.pc, k) {
      assert Live(t)[k] == Live(s)[k] + if k == ts then 1 else 0;
    }
    forall k ensures multiset(t.sched.retry)[k] + RetryInHand(t.sched, k) == InState(t.sched.slots, k, RESOURCELESS) {
      assert RetryInHand(t.sched, k) == RetryInHand(s.sched, k);
    }
  }

  lemma QueuedHolds(u: Setup, s: Sys)
    requires HoldsGood(s) && SchedEnabled(u, s, QueueSpec)
    ensures HoldsGood(SchedApply(u, s, QueueSpec))
  {
    var t := SchedApply(u, s, QueueSpec);
    assert Unreleased(t.work) == Unreleased(s.work) + multiset{s.sched.pc.ts};
    assert Borrowing(t.work) == Borrowing(s.work) + multiset{s.sched.pc.ts};
  }

  lemma QueueSpecKeeps(u: Setup, s: Sys)
    requires TaskInv(u, s) && SchedEnabled(u, s, QueueSpec)
    ensures TaskInv(u, SchedApply(u, s, QueueSpec))
  {
    QueuedMatched(u, s);
    QueuedHolds(u, s);
    ViewsKept(s, SchedApply(u, s, QueueSpec));
  }

  lemma SpawnedMatched(u: Setup, s: Sys)
    requires Matched(u, s) && SchedEnabled(u, s, SpawnTask)
    ensures Matched(u, SchedApply(u, s, SpawnTask))
  {
    assert Live(SchedApply(u, s, SpawnTask)) == Live(s);
  }

  lemma SpawnTaskKeeps(u: Setup, s: Sys)
    requires TaskInv(u, s) && SchedEnabled(u, s, SpawnTask)
    ensures TaskInv(u, SchedApply(u, s, SpawnTask))
  {
    var t := SchedApply(u, s, SpawnTask);
    SpawnedMatched(u, s);
    assert Unreleased(t.work) == Unreleased(s.work) && Borrowing(t.work) == Borrowing(s.work);
    ViewsKept(s, t);
  }

  lemma MarkedMatched(u: Setup, s: Sys)
    requires Matched(u, s) && SchedEnabled(u, s, MarkScheduled)
    ensures Matched(u, SchedApply(u, s, MarkScheduled))
  {
    var t := SchedApply(u, s, MarkScheduled);
    var ts := s.sched.pc.ts;
    RevisedGood(u, s.sched.slots, ts, SCHEDULED);
    assert Live(t) == Live(s);
    forall k ensures StateOf(t.sched.slots, k) == if k == ts then Some(SCHEDULED) else StateOf(s.sched.slots, k) {
      StateOfRevised(s.sched.slots, ts, SCHEDULED, k);
    }
  }

  lemma MarkScheduledKeeps(u: Setup, s: Sys)
    requires TaskInv(u, s) && SchedEnabled(u, s, MarkScheduled)
    ensures TaskInv(u, SchedApply(u, s, MarkScheduled))
  {
    var t := SchedApply(u, s, MarkScheduled);
    MarkedMatched(u, s);
    assert Unreleased(t.work) == Unreleased(s.work) && Borrowing(t.work) == Borrowing(s.work);
    ViewsKept(s, t);
  }

  /** Every step of the scheduler thread keeps the task invariants. */
  lemma SchedKeeps(u: Setup, s: Sys, l: Label)
    requires GoodSetup(u) && TaskInv(u, s) && SchedLabel(l) && SchedEnabled(u, s, l)
    ensures TaskInv(u, SchedApply(u, s, l))
  {
    match l
    case ExecPush(after) => ExecPushKeeps(u, s, after);
    case ExecPushFatal => ExecPushFatalKeeps(u, s);
    case ExecSignoff(outcome, after) => ExecSignoffKeeps(u, s, outcome, after);
    case ExecView => ExecViewKeeps(u, s);
    case Retry => TryScheduleKeeps(u, s, s.(sched := s.sched.(retry := s.sched.retry[1..])), s.sched.retry[0]);
    case TakeReady(ts) => TryScheduleKeeps(u, s, s, ts);
    case QueueSpec => QueueSpecKeeps(u, s);
    case SpawnTask => SpawnTaskKeeps(u, s);
    case MarkScheduled => MarkScheduledKeeps(u, s);
    case Finish(i) => RetireKeeps(u, s, l);
    case Stall(i) => RetireKeeps(u, s, l);
    case IterateDone =>
      MatchedBetween(u, s, SchedApply(u, s, l));
      HoldsKept(s, SchedApply(u, s, l));
      ViewsKept(s, SchedApply(u, s, l));
  }

  /** Every label whatsoever keeps the task invariants. */
  lemma StepKeepsTasks(u: Setup, s: Sys, l: Label)
    requires GoodSetup(u) && TaskInv(u, s) && Enabled(u, s, l)
    ensures TaskInv(u, Apply(u, s, l))
  {
    if SchedLabel(l) {
      SchedKeeps(u, s, l);
    } else if WorkLabel(l) {
      WorkKeeps(u, s, l);
    } else {
      LoopKeeps(u, s, l);
    }
  }

  lemma InitTasks(u: Setup, s: Sys)
    requires GoodSetup(u) && Init(u, s)
    ensures TaskInv(u, s)
  {
    InitialInv(u.pool, s.work.pool);
    assert Live(s) == multiset{};
    forall k ensures StateOf(s.sched.slots, k) == None {
    }
  }
}
