/**
  The invariants that tie algorithm states to live specifications, retry entries, loans and view
  actions, and the proof that every label keeps them.
*/
module TaskInvariants {
  import opened Common
  import opened AlgsExecutionStates
  import opened ResourcePool
  import opened SchedulerState

  // ----- what the queues hold -------------------------------------------------

  /** Specifications whose sign-off waits in the action queue. */
  ghost function Signoffs(actions: seq<Action>): multiset<TaskSpec> {
    if actions == [] then multiset{}
    else (if actions[0].SignoffAction? then multiset{actions[0].ts} else multiset{}) + Signoffs(actions[1..])
  }

  lemma {:induction false} SignoffsAppend(actions: seq<Action>, a: Action)
    ensures Signoffs(actions + [a])
         == Signoffs(actions) + if a.SignoffAction? then multiset{a.ts} else multiset{}
  {
    if actions == [] {
      assert actions + [a] == [a] && [a][1..] == [];
    } else {
      assert (actions + [a])[1..] == actions[1..] + [a];
      SignoffsAppend(actions[1..], a);
    }
  }

  lemma {:induction false} SignoffsContain(actions: seq<Action>, j: nat)
    requires j < |actions| && actions[j].SignoffAction?
    ensures actions[j].ts in Signoffs(actions)
  {
    if j > 0 {
      SignoffsContain(actions[1..], j - 1);
    }
  }

  /** Running tasks that have not pushed their sign-off yet. */
  ghost function Running(w: Work): multiset<TaskSpec> {
    w.executing + w.executed + w.unlocked + w.returned
  }

  /** Queued, running or awaiting sign-off. */
  ghost function Live(s: Sys): multiset<TaskSpec> {
    s.work.queue + Running(s.work) + Signoffs(s.actions)
  }

  /** Specifications whose task still owns its resources, respectively its instance. */
  ghost function Unreleased(w: Work): multiset<TaskSpec> {
    w.queue + w.executing + w.executed
  }

  ghost function Borrowing(w: Work): multiset<TaskSpec> {
    w.queue + w.executing + w.executed + w.unlocked
  }

  ghost function InState(slots: seq<Slot>, k: TaskSpec, st: State): nat {
    if StateOf(slots, k) == Some(st) then 1 else 0
  }

  /** In the queue, but not yet marked SCHEDULED: `schedule` is at work on it. */
  ghost function Unmarked(pc: Pc, k: TaskSpec): nat {
    if (pc.Queued? || pc.Spawned?) && pc.ts == k then 1 else 0
  }

  ghost function RetryInHand(q: Sched, k: TaskSpec): nat {
    if !q.pc.Idle? && q.pc.ts == k then InState(q.slots, k, RESOURCELESS) else 0
  }

  // ----- the invariants -------------------------------------------------------

  ghost predicate SlotsGood(u: Setup, slots: seq<Slot>) {
    && |slots| == u.slots
    && (forall i :: 0 <= i < |slots| ==> |slots[i].states| == u.algs)
    && (forall i, j :: 0 <= i < |slots| && 0 <= j < |slots[i].subs| ==> |slots[i].subs[j]| == u.algs)
    && (forall i :: 0 <= i < |slots| ==> (slots[i].complete <==> slots[i].ctx.None?))
    && (forall i :: 0 <= i < |slots| && slots[i].ctx.Some? ==> slots[i].ctx.value.slot == i)
  }

  /** SCHEDULED entries and live specifications correspond one to one. */
  ghost predicate LiveMatch(s: Sys) {
    forall k :: Live(s)[k] == InState(s.sched.slots, k, SCHEDULED) + Unmarked(s.sched.pc, k)
  }

  /** RESOURCELESS entries and retry-queue entries correspond one to one. */
  ghost predicate RetryMatch(s: Sys) {
    forall k :: multiset(s.sched.retry)[k] + RetryInHand(s.sched, k) == InState(s.sched.slots, k, RESOURCELESS)
  }

  /** The specification inside `schedule` is ready or waiting for resources. */
  ghost predicate HandGood(s: Sys) {
    !s.sched.pc.Idle? ==> StateOf(s.sched.slots, s.sched.pc.ts) in {Some(DATAREADY), Some(RESOURCELESS)}
  }

  /** The in-flight counter and the number of unstarted tasks are exact. */
  ghost predicate CountsGood(s: Sys) {
    && s.sched.inFlight + (if s.sched.pc.Queued? || s.sched.pc.Spawned? then 1 else 0) == |Live(s)|
    && s.work.tasks + (if s.sched.pc.Queued? then 1 else 0) == |s.work.queue|
  }

  /** Loans are out exactly to the given specifications and to the one just acquired for. */
  ghost predicate LentTo<V>(loans: map<TaskSpec, V>, bag: multiset<TaskSpec>, pc: Pc) {
    forall k :: k in loans <==> k in bag || pc == Got(k)
  }

  ghost predicate HoldsGood(s: Sys) {
    && (forall k :: k in s.work.pool.holds ==> s.work.pool.holds[k] == k.alg)
    && (forall k :: k in s.work.pool.busy ==> s.work.pool.busy[k].alg == k.alg)
    && LentTo(s.work.pool.holds, Unreleased(s.work), s.sched.pc)
    && LentTo(s.work.pool.busy, Borrowing(s.work), s.sched.pc)
  }

  /** The task that issued the view action at position i is running, or signs off later. */
  ghost predicate CreatorPending(s: Sys, i: nat)
    requires i < |s.actions| && s.actions[i].ViewAction?
  {
    || s.actions[i].creator in Running(s.work)
    || exists j :: i < j < |s.actions| && s.actions[j] == SignoffAction(s.actions[i].creator)
  }

  ghost predicate ViewsGood(s: Sys) {
    forall i :: 0 <= i < |s.actions| && s.actions[i].ViewAction? ==>
      s.actions[i].creator.sub.None? && CreatorPending(s, i)
  }

  /** The part of the invariants that looks at the scheduler's own state and at Live. */
  ghost predicate Matched(u: Setup, s: Sys) {
    SlotsGood(u, s.sched.slots) && LiveMatch(s) && RetryMatch(s) && HandGood(s) && CountsGood(s)
  }

  ghost predicate TaskInv(u: Setup, s: Sys) {
    && Matched(u, s)
    && PoolInv(u.pool, s.work.pool) && HoldsGood(s) && ViewsGood(s)
  }

  // ----- state updates --------------------------------------------------------

  lemma StateOfRevised(slots: seq<Slot>, k: TaskSpec, st: State, k': TaskSpec)
    requires StateOf(slots, k).Some?
    ensures StateOf(Revised(slots, k, st), k')
         == if k' == k then Some(Target(StateOf(slots, k).value, st)) else StateOf(slots, k')
  {
    var sl := slots[k.ctx.slot];
    var sl' := WithState(sl, k.sub, k.alg, Target(SlotState(sl, k.sub, k.alg).value, st));
    forall sub, alg ensures SlotState(sl', sub, alg)
                         == if sub == k.sub && alg == k.alg then Some(Target(SlotState(sl, k.sub, k.alg).value, st))
                            else SlotState(sl, sub, alg) {
    }
  }

  lemma RevisedGood(u: Setup, slots: seq<Slot>, k: TaskSpec, st: State)
    requires SlotsGood(u, slots) && Addressable(slots, k)
    ensures SlotsGood(u, Revised(slots, k, st))
  {
  }

  lemma StateOfPromoted(slots: seq<Slot>, i: nat, after: Slot, k: TaskSpec)
    requires i < |slots| && Promoted(slots[i], after)
    ensures StateOf(slots, k).Some? <==> StateOf(slots[i := after], k).Some?
    ensures StateOf(slots, k).Some? ==>
              PromotedState(StateOf(slots, k).value, StateOf(slots[i := after], k).value)
  {
  }

  lemma PromotedGood(u: Setup, slots: seq<Slot>, i: nat, after: Slot)
    requires SlotsGood(u, slots) && i < |slots| && Promoted(slots[i], after)
    ensures SlotsGood(u, slots[i := after])
  {
  }

  lemma NotContained(states: seq<State>, wanted: set<State>, a: nat)
    requires !Contains(states, wanted) && a < |states|
    ensures states[a] !in wanted
  {
  }

  /** A slot found without certain states has none of them in any of its algorithms. */
  lemma NoneHas(sl: Slot, wanted: set<State>, sub: Option<nat>, alg: nat)
    requires !HasAny(sl, wanted) && SlotState(sl, sub, alg).Some?
    ensures SlotState(sl, sub, alg).value !in wanted
  {
    match sub
    case None => NotContained(sl.states, wanted, alg);
    case Some(j) => NotContained(sl.subs[j], wanted, alg);
  }

  /** No live specification occurs twice. */
  lemma LiveOnce(s: Sys, k: TaskSpec)
    requires LiveMatch(s) && HandGood(s)
    ensures Live(s)[k] <= 1
  {
  }

  // ----- worker tasks ----------------------------------------------------------

  lemma MatchedKept(u: Setup, s: Sys, t: Sys)
    requires Matched(u, s) && t.sched == s.sched && Live(t) == Live(s)
    requires |t.work.queue| - t.work.tasks == |s.work.queue| - s.work.tasks
    ensures Matched(u, t)
  {
  }

  /** The loans are exactly those of the unreleased specifications, each for its own algorithm. */
  lemma HoldsKept(s: Sys, t: Sys)
    requires HoldsGood(s) && t.sched.pc == s.sched.pc && t.work.pool == s.work.pool
    requires Unreleased(t.work) == Unreleased(s.work) && Borrowing(t.work) == Borrowing(s.work)
    ensures HoldsGood(t)
  {
  }

  /** A starting task moves its specification from the queue to the executing ones. */
  lemma StartMoves(w: Work, v: Work, ts: TaskSpec)
    requires ts in w.queue && v.queue == w.queue - multiset{ts} && v.executing == w.executing + multiset{ts}
    requires v.executed == w.executed && v.unlocked == w.unlocked && v.returned == w.returned
    ensures Running(v) == Running(w) + multiset{ts} && v.queue + Running(v) == w.queue + Running(w)
    ensures Unreleased(v) == Unreleased(w) && Borrowing(v) == Borrowing(w)
  {
    assert v.queue + v.executing == w.queue + w.executing;
    assert Unreleased(v) == v.queue + v.executing + v.executed;
  }

  lemma StartTaskKeeps(u: Setup, s: Sys, ts: TaskSpec)
    requires TaskInv(u, s) && WorkEnabled(u, s, StartTask(ts))
    ensures TaskInv(u, WorkApply(u, s, StartTask(ts)))
  {
    var t := WorkApply(u, s, StartTask(ts));
    StartMoves(s.work, t.work, ts);
    MatchedKept(u, s, t);
    HoldsKept(s, t);
    ViewsKept(s, t);
  }

  /** Views stay good when no running creator vanishes and the action queue is the same. */
  lemma ViewsKept(s: Sys, t: Sys)
    requires ViewsGood(s) && t.actions == s.actions
    requires forall k :: k in Running(s.work) ==> k in Running(t.work)
    ensures ViewsGood(t)
  {
    forall i | 0 <= i < |t.actions| && t.actions[i].ViewAction? ensures CreatorPending(t, i) {
      assert CreatorPending(s, i);
    }
  }

  lemma StartEmptyNever(u: Setup, s: Sys)
    requires TaskInv(u, s)
    ensures !WorkEnabled(u, s, StartEmpty)
  {
  }

  lemma EndExecutionKeeps(u: Setup, s: Sys, ts: TaskSpec, failed: bool)
    requires TaskInv(u, s) && WorkEnabled(u, s, EndExecution(ts, failed))
    ensures TaskInv(u, WorkApply(u, s, EndExecution(ts, failed)))
  {
    var t := WorkApply(u, s, EndExecution(ts, failed));
    assert Running(t.work) == Running(s.work);
    MatchedKept(u, s, t);
    HoldsKept(s, t);
    ViewsKept(s, t);
  }

  lemma LoansOnce(s: Sys, k: TaskSpec)
    requires LiveMatch(s) && HandGood(s) && k in Live(s)
    ensures Unreleased(s.work)[k] <= 1 && Borrowing(s.work)[k] <= 1 && s.sched.pc != Got(k)
  {
    LiveOnce(s, k);
    assert Live(s)[k] >= Borrowing(s.work)[k] >= Unreleased(s.work)[k];
  }

  lemma LoanReturned<V>(loans: map<TaskSpec, V>, bag: multiset<TaskSpec>, pc: Pc, ts: TaskSpec)
    requires LentTo(loans, bag, pc) && bag[ts] <= 1 && pc != Got(ts)
    ensures LentTo(loans - {ts}, bag - multiset{ts}, pc)
  {
  }

  lemma ResourcesGiven(u: Setup, s: Sys, ts: TaskSpec)
    requires HoldsGood(s) && Unreleased(s.work)[ts] <= 1 && s.sched.pc != Got(ts)
    requires WorkEnabled(u, s, GiveResources(ts))
    ensures HoldsGood(WorkApply(u, s, GiveResources(ts)))
  {
    var w, w' := s.work, WorkApply(u, s, GiveResources(ts)).work;
    LoanReturned(w.pool.holds, Unreleased(w), s.sched.pc, ts);
    assert Unreleased(w') == Unreleased(w) - multiset{ts};
    assert Borrowing(w') == Borrowing(w);
  }

  lemma GiveResourcesKeeps(u: Setup, s: Sys, ts: TaskSpec)
    requires GoodSetup(u) && TaskInv(u, s) && WorkEnabled(u, s, GiveResources(ts))
    ensures TaskInv(u, WorkApply(u, s, GiveResources(ts)))
  {
    var t := WorkApply(u, s, GiveResources(ts));
    assert Running(t.work) == Running(s.work);
    ReleaseResourcesInv(u.pool, s.work.pool, ts);
    MatchedKept(u, s, t);
    LoansOnce(s, ts);
    ResourcesGiven(u, s, ts);
    ViewsKept(s, t);
  }

  lemma InstanceGiven(u: Setup, s: Sys, ts: TaskSpec)
    requires HoldsGood(s) && Borrowing(s.work)[ts] <= 1 && s.sched.pc != Got(ts)
    requires WorkEnabled(u, s, GiveInstance(ts))
    ensures HoldsGood(WorkApply(u, s, GiveInstance(ts)))
  {
    var w, w' := s.work, WorkApply(u, s, GiveInstance(ts)).work;
    LoanReturned(w.pool.busy, Borrowing(w), s.sched.pc, ts);
    assert Borrowing(w') == Borrowing(w) - multiset{ts};
    assert Unreleased(w') == Unreleased(w);
  }

  lemma GiveInstanceKeeps(u: Setup, s: Sys, ts: TaskSpec)
    requires GoodSetup(u) && TaskInv(u, s) && WorkEnabled(u, s, GiveInstance(ts))
    ensures TaskInv(u, WorkApply(u, s, GiveInstance(ts)))
  {
    var t := WorkApply(u, s, GiveInstance(ts));
    assert Running(t.work) == Running(s.work);
    ReleaseInstanceInv(u.pool, s.work.pool, ts);
    MatchedKept(u, s, t);
    LoansOnce(s, ts);
    InstanceGiven(u, s, ts);
    ViewsKept(s, t);
  }

  lemma PushedViews(u: Setup, s: Sys, ts: TaskSpec)
    requires ViewsGood(s) && WorkEnabled(u, s, PushSignoff(ts))
    ensures ViewsGood(WorkApply(u, s, PushSignoff(ts)))
  {
    var t := WorkApply(u, s, PushSignoff(ts));
    forall i | 0 <= i < |t.actions| && t.actions[i].ViewAction?
      ensures t.actions[i].creator.sub.None? && CreatorPending(t, i)
    {
      assert CreatorPending(s, i);
      var c := s.actions[i].creator;
      if c == ts {
        assert t.actions[|s.actions|] == SignoffAction(c);
      } else if c in Running(s.work) {
        assert c in Running(t.work);
      } else {
        var j :| i < j < |s.actions| && s.actions[j] == SignoffAction(c);
        assert t.actions[j] == SignoffAction(c);
      }
    }
  }

  lemma PushSignoffKeeps(u: Setup, s: Sys, ts: TaskSpec)
    requires TaskInv(u, s) && WorkEnabled(u, s, PushSignoff(ts))
    ensures TaskInv(u, WorkApply(u, s, PushSignoff(ts)))
  {
    var t := WorkApply(u, s, PushSignoff(ts));
    SignoffsAppend(s.actions, SignoffAction(ts));
    assert Live(t) == Live(s);
    MatchedKept(u, s, t);
    HoldsKept(s, t);
    PushedViews(u, s, ts);
  }

  lemma IssueViewKeeps(u: Setup, s: Sys, ts: TaskSpec, attach: bool)
    requires TaskInv(u, s) && WorkEnabled(u, s, IssueView(ts, attach))
    ensures TaskInv(u, WorkApply(u, s, IssueView(ts, attach)))
  {
    var t := WorkApply(u, s, IssueView(ts, attach));
    SignoffsAppend(s.actions, ViewAction(ts, attach));
    MatchedKept(u, s, t);
    AppendedViews(s, t, ViewAction(ts, attach));
  }

  lemma AppendedViews(s: Sys, t: Sys, a: Action)
    requires ViewsGood(s) && t.actions == s.actions + [a] && t.work == s.work
    requires a.ViewAction? ==> a.creator.sub.None? && a.creator in Running(s.work)
    ensures ViewsGood(t)
  {
    forall i | 0 <= i < |t.actions| && t.actions[i].ViewAction?
      ensures t.actions[i].creator.sub.None? && CreatorPending(t, i)
    {
      if i < |s.actions| {
        assert CreatorPending(s, i);
        var c := s.actions[i].creator;
        if c !in Running(s.work) {
          var j :| i < j < |s.actions| && s.actions[j] == SignoffAction(c);
          assert t.actions[j] == SignoffAction(c);
        }
      }
    }
  }

  /** Every step of a worker keeps the task invariants. */
  lemma WorkKeeps(u: Setup, s: Sys, l: Label)
    requires GoodSetup(u) && TaskInv(u, s) && WorkLabel(l) && WorkEnabled(u, s, l)
    ensures TaskInv(u, WorkApply(u, s, l))
  {
    match l
    case StartTask(ts) => StartTaskKeeps(u, s, ts);
    case StartEmpty => StartEmptyNever(u, s);
    case IssueView(ts, attach) => IssueViewKeeps(u, s, ts, attach);
    case EndExecution(ts, failed) => EndExecutionKeeps(u, s, ts, failed);
    case GiveResources(ts) => GiveResourcesKeeps(u, s, ts);
    case GiveInstance(ts) => GiveInstanceKeeps(u, s, ts);
    case PushSignoff(ts) => PushSignoffKeeps(u, s, ts);
  }

  /** So does every step of the event loop: it only ever adds push actions. */
  lemma LoopKeeps(u: Setup, s: Sys, l: Label)
    requires TaskInv(u, s) && !SchedLabel(l) && !WorkLabel(l) && LoopEnabled(s, l)
    ensures TaskInv(u, LoopApply(s, l))
  {
    var t := LoopApply(s, l);
    if l.PushEvent? {
      var a := PushAction(s.loop.reserved.value);
      SignoffsAppend(s.actions, a);
      MatchedKept(u, s, t);
      AppendedViews(s, t, a);
    } else {
      MatchedKept(u, s, t);
      ViewsKept(s, t);
    }
    HoldsKept(s, t);
  }

  // ----- scheduling leaves the rest alone ----------------------------------------

  /** Which contexts are where, and all counters outside the task machinery, stay as they are. */
  ghost predicate SchedulingFrame(s: Sys, t: Sys) {
    && t.actions == s.actions && t.loop == s.loop && t.board == s.board && t.finished == s.finished
    && t.freeSlots == s.freeSlots && t.status == s.status && t.dropped == s.dropped && t.leaked == s.leaked
    && |t.sched.slots| == |s.sched.slots|
    && forall i :: 0 <= i < |s.sched.slots| ==> t.sched.slots[i].ctx == s.sched.slots[i].ctx
  }

  predicate SchedulingLabel(l: Label) {
    l.Retry? || l.TakeReady? || l.QueueSpec? || l.SpawnTask? || l.MarkScheduled? || l.IterateDone?
  }

  lemma SchedulingKeeps(u: Setup, s: Sys, l: Label)
    requires SchedulingLabel(l) && SchedLabel(l) && SchedEnabled(u, s, l)
    ensures SchedulingFrame(s, SchedApply(u, s, l))
  {
  }
}
