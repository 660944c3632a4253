/** Why the scheduler thread never sleeps on an occupied slot unless some worker can still step. */
module WakeUp {
  import opened Common
  import opened AlgsExecutionStates
  import opened ResourcePool
  import opened SchedulerState
  import opened TaskInvariants
  import opened TaskSteps
  import opened EventCounters
  import opened SchedulerTheorems
  import opened Traces

  /** Nothing left to do for the slot: nothing DATAREADY, and something scheduled or waiting. */
  predicate Settled(sl: Slot) {
    sl.ctx.Some? ==> !HasAny(sl, {DATAREADY}) && HasAny(sl, {SCHEDULED, RESOURCELESS})
  }

  predicate AllSettled(slots: seq<Slot>) {
    forall i :: 0 <= i < |slots| ==> Settled(slots[i])
  }

  /** A waiting retry entry is backed by a task in flight. */
  predicate RetryBacked(q: Sched) {
    q.retry != [] ==> q.inFlight > 0
  }

  // ----- in flight ---------------------------------------------------------------------

  /** With no task in flight, the first algorithm considered gets its instance and resources. */
  lemma {:induction false} NothingInFlightServes(u: Setup, s: Sys, a: nat)
    requires GoodSetup(u) && TaskInv(u, s) && s.sched.pc.Idle? && s.sched.inFlight == 0
    requires a < u.algs
    ensures a < |s.work.pool.queues| == |u.pool.req| && CanAcquire(u.pool, s.work.pool, a)
  {
    assert |Live(s)| == 0;
    assert forall k :: Live(s)[k] >= Borrowing(s.work)[k] >= Unreleased(s.work)[k];
    assert s.work.pool.holds == map[];
    assert s.work.pool.busy == map[];
    IdlePoolServes(u.pool, s.work.pool, a);
  }

  /** A settled occupied slot means work in flight. */
  lemma OccupiedInFlight(u: Setup, s: Sys, i: nat)
    requires TaskInv(u, s) && s.sched.pc.Idle? && RetryBacked(s.sched)
    requires i < |s.sched.slots| && s.sched.slots[i].ctx.Some? && Settled(s.sched.slots[i])
    ensures s.sched.inFlight > 0
  {
    var k := FoundState(s.sched.slots[i], {SCHEDULED, RESOURCELESS});
    assert k.ctx.slot == i;
    if StateOf(s.sched.slots, k) == Some(SCHEDULED) {
      assert Live(s)[k] == 1;
    } else {
      assert multiset(s.sched.retry)[k] == 1;
      assert k in s.sched.retry;
    }
  }

  /** A specification for some algorithm of the slot in one of the wanted states. */
  lemma FoundState(sl: Slot, wanted: set<State>) returns (k: TaskSpec)
    requires sl.ctx.Some? && HasAny(sl, wanted)
    ensures k.ctx == sl.ctx.value && SlotState(sl, k.sub, k.alg).Some? && SlotState(sl, k.sub, k.alg).value in wanted
  {
    if Contains(sl.states, wanted) {
      var a: nat :| a < |sl.states| && sl.states[a] in wanted;
      k := TaskSpec(sl.ctx.value, None, a);
    } else {
      var j: nat :| j < |sl.subs| && Contains(sl.subs[j], wanted);
      var a: nat :| a < |sl.subs[j]| && sl.subs[j][a] in wanted;
      k := TaskSpec(sl.ctx.value, Some(j), a);
    }
  }

  // ----- workers can go on -----------------------------------------------------------------

  function RankOf(u: Setup, k: TaskSpec): nat {
    if k.alg < |u.rank| then u.rank[k.alg] else 0
  }

  /** A non-empty priority queue has an element to pop. */
  lemma {:induction false} TopOfQueue(u: Setup, queue: multiset<TaskSpec>) returns (ts: TaskSpec)
    requires queue != multiset{}
    ensures ts in queue && forall k :: k in queue ==> RankOf(u, k) <= RankOf(u, ts)
    decreases |queue|
  {
    var k :| k in queue;
    var rest := queue - multiset{k};
    assert queue == rest + multiset{k};
    if rest == multiset{} {
      ts := k;
    } else {
      ts := TopOfQueue(u, rest);
      if RankOf(u, k) > RankOf(u, ts) {
        ts := k;
      }
    }
  }

  predicate ProgressLabel(l: Label) {
    WorkLabel(l) && !l.IssueView? && !l.StartEmpty?
  }

  /**
    When the scheduler thread finds the action queue empty after a round that left all slots
    settled, an occupied slot implies that some worker can start or go on.
  */
  lemma SleepIsSafe(u: Setup, s: Sys) returns (l: Label)
    requires GoodSetup(u) && SystemInv(u, s) && s.sched.pc.Idle?
    requires s.actions == [] && AllSettled(s.sched.slots) && RetryBacked(s.sched)
    requires Occupied(s.sched.slots) != {} || s.sched.retry != []
    ensures ProgressLabel(l) && WorkEnabled(u, s, l)
  {
    if i :| i in Occupied(s.sched.slots) {
      OccupiedInFlight(u, s, i);
    }
    assert Signoffs(s.actions) == multiset{};
    l := WorkerCanStep(u, s);
  }

  lemma CanStart(u: Setup, s: Sys) returns (l: Label)
    requires TaskInv(u, s) && s.sched.pc.Idle? && s.work.queue != multiset{}
    ensures ProgressLabel(l) && WorkEnabled(u, s, l)
  {
    var ts := TopOfQueue(u, s.work.queue);
    assert |s.work.queue| > 0;
    l := StartTask(ts);
  }

  lemma CanEnd(u: Setup, s: Sys, ts: TaskSpec)
    requires SystemInv(u, s) && ts in s.work.executing
    ensures WorkEnabled(u, s, EndExecution(ts, false))
  {
    assert ts in Live(s);
    ReferenceOccupies(u, s, ts);
  }

  lemma CanGive(u: Setup, s: Sys, ts: TaskSpec)
    requires GoodSetup(u) && TaskInv(u, s)
    ensures ts in s.work.executed ==> WorkEnabled(u, s, GiveResources(ts))
    ensures ts in s.work.unlocked ==> WorkEnabled(u, s, GiveInstance(ts))
  {
    if ts in s.work.executed {
      assert ts in Unreleased(s.work) && ts in Live(s);
      LiveAlg(u, s, ts);
    }
    if ts in s.work.unlocked {
      assert ts in Borrowing(s.work) && ts in Live(s);
      LiveAlg(u, s, ts);
    }
  }

  lemma WorkerCanStep(u: Setup, s: Sys) returns (l: Label)
    requires GoodSetup(u) && SystemInv(u, s) && s.sched.pc.Idle?
    requires s.sched.inFlight > 0
    ensures (ProgressLabel(l) && WorkEnabled(u, s, l)) || Signoffs(s.actions) != multiset{}
  {
    l := StartEmpty;
    var w := s.work;
    assert |Live(s)| > 0;
    if w.queue != multiset{} {
      l := CanStart(u, s);
    } else if ts :| ts in w.executing {
      l := EndExecution(ts, false);
      CanEnd(u, s, ts);
    } else if ts :| ts in w.executed {
      l := GiveResources(ts);
      CanGive(u, s, ts);
    } else if ts :| ts in w.unlocked {
      l := GiveInstance(ts);
      CanGive(u, s, ts);
    } else if ts :| ts in w.returned {
      l := PushSignoff(ts);
    } else {
      assert Live(s) == Signoffs(s.actions);
    }
  }

  lemma LiveAlg(u: Setup, s: Sys, ts: TaskSpec)
    requires TaskInv(u, s) && ts in Live(s)
    ensures ts.alg < u.algs
  {
    ReferenceOccupies(u, s, ts);
  }

  /** How many worker steps are left before every task has pushed its sign-off. */
  ghost function StepsLeft(w: Work): nat {
    5 * |w.queue| + 4 * |w.executing| + 3 * |w.executed| + 2 * |w.unlocked| + |w.returned|
  }

  lemma MovedOne(from_: multiset<TaskSpec>, to_: multiset<TaskSpec>, ts: TaskSpec)
    requires ts in from_
    ensures |from_ - multiset{ts}| == |from_| - 1 && |to_ + multiset{ts}| == |to_| + 1
  {
  }

  /** Each worker step brings the sign-offs nearer and leaves the scheduler thread alone. */
  lemma WorkersProgress(u: Setup, s: Sys, l: Label)
    requires ProgressLabel(l) && WorkEnabled(u, s, l)
    ensures StepsLeft(WorkApply(u, s, l).work) < StepsLeft(s.work)
    ensures WorkApply(u, s, l).sched == s.sched
  {
    var w := s.work;
    match l
    case StartTask(ts) => MovedOne(w.queue, w.executing, ts);
    case EndExecution(ts, _) => MovedOne(w.executing, w.executed, ts);
    case GiveResources(ts) => MovedOne(w.executed, w.unlocked, ts);
    case GiveInstance(ts) => MovedOne(w.unlocked, w.returned, ts);
    case PushSignoff(ts) => MovedOne(w.returned, multiset{}, ts);
  }

  /** How many steps of a run bring the workers on. */
  function ProgressSteps(run: seq<Label>): nat {
    if run == [] then 0 else (if ProgressLabel(run[0]) then 1 else 0) + ProgressSteps(run[1..])
  }

  /** The event loop and the issuing of views leave the tasks and the scheduler thread alone. */
  lemma OthersLeaveTasks(u: Setup, s: Sys, l: Label)
    requires Enabled(u, s, l) && !SchedLabel(l) && !ProgressLabel(l) && !l.StartEmpty?
    ensures Apply(u, s, l).work == s.work && Apply(u, s, l).sched == s.sched
  {
  }

  lemma OtherThreadsStep(u: Setup, s: Sys, l: Label)
    requires GoodSetup(u) && SystemInv(u, s) && Enabled(u, s, l) && !SchedLabel(l)
    ensures SystemInv(u, Apply(u, s, l)) && Apply(u, s, l).sched == s.sched
    ensures StepsLeft(Apply(u, s, l).work) + (if ProgressLabel(l) then 1 else 0) <= StepsLeft(s.work)
  {
    StepKeeps(u, s, l);
    FatalBranchesDead(u, s);
    if ProgressLabel(l) {
      WorkersProgress(u, s, l);
    } else {
      OthersLeaveTasks(u, s, l);
    }
  }

  lemma {:induction false} WorkersBounded(u: Setup, s: Sys, run: seq<Label>, t: Sys)
    requires GoodSetup(u) && SystemInv(u, s) && Run(u, s, run, t)
    requires forall l :: l in run ==> !SchedLabel(l)
    ensures ProgressSteps(run) + StepsLeft(t.work) <= StepsLeft(s.work)
    ensures t.sched == s.sched && SystemInv(u, t)
    decreases |run|
  {
    if run != [] {
      assert run[0] in run;
      OtherThreadsStep(u, s, run[0]);
      WorkersBounded(u, Apply(u, s, run[0]), run[1..], t);
    }
  }

  /**
    While anything is in flight and the scheduler thread waits, the other threads interleave as they
    like, views and the event loop included: the workers make a bounded number of steps, and as long
    as no action has arrived some worker can make one. So an action arrives unless workers stop.
  */
  lemma {:induction false} WakeUpInevitable(u: Setup, s: Sys, run: seq<Label>, t: Sys)
    requires GoodSetup(u) && Reachable(u, s) && s.sched.pc.Idle? && s.sched.inFlight > 0
    requires Run(u, s, run, t) && forall l :: l in run ==> !SchedLabel(l)
    ensures ProgressSteps(run) <= StepsLeft(s.work)
    ensures t.actions == [] ==> exists l :: ProgressLabel(l) && WorkEnabled(u, t, l)
  {
    ReachableInv(u, s);
    WorkersBounded(u, s, run, t);
    var l := WorkerCanStep(u, t);
    assert t.actions == [] ==> Signoffs(t.actions) == multiset{};
  }

  // ----- steps of the imperative scheduler ---------------------------------------------------

  lemma Stepped(u: Setup, s: Sys, l: Label)
    requires Reachable(u, s) && Enabled(u, s, l)
    ensures Reachable(u, Apply(u, s, l)) && Does(u, s, First(s, l), Apply(u, s, l))
  {
    DoesStep(u, s, l);
    DoesReachable(u, s, First(s, l), Apply(u, s, l));
  }

  lemma QueueStepped(u: Setup, s: Sys)
    requires Reachable(u, s) && s.sched.pc.Got?
    ensures var t := s.(sched := s.sched.(pc := Queued(s.sched.pc.ts)),
                        work := s.work.(queue := s.work.queue + multiset{s.sched.pc.ts}));
            Reachable(u, t) && Does(u, s, [Done(s, QueueSpec)], t)
  {
    Stepped(u, s, QueueSpec);
  }

  lemma SpawnStepped(u: Setup, s: Sys)
    requires Reachable(u, s) && s.sched.pc.Queued?
    ensures var t := s.(sched := s.sched.(pc := Spawned(s.sched.pc.ts)), work := s.work.(tasks := s.work.tasks + 1));
            Reachable(u, t) && Does(u, s, [Done(s, SpawnTask)], t)
  {
    Stepped(u, s, SpawnTask);
  }

  lemma UpdateStepped(u: Setup, s: Sys)
    requires Reachable(u, s) && s.sched.pc.Idle?
    ensures var t := s.(sched := s.sched.(needsUpdate := false));
            Reachable(u, t) && Does(u, s, [Done(s, IterateDone)], t)
  {
    Stepped(u, s, IterateDone);
  }

  /** The step that begins `schedule`: an entry of the retry queue, or a DATAREADY algorithm. */
  function Beginning(s: Sys, r: Sys, ts: TaskSpec): Label {
    if r == s then TakeReady(ts) else Label.Retry
  }

  /** The beginning of `schedule` is one step, whether the specification is retried or ready. */
  lemma TryStepped(u: Setup, s: Sys, r: Sys, ts: TaskSpec)
    requires GoodSetup(u) && Reachable(u, s) && s.sched.pc.Idle? && RetryTaken(s, r, ts)
    ensures Schedulable(u, r, ts) && r.sched.slots == s.sched.slots && r.work == s.work
    ensures StateOf(s.sched.slots, ts).Some?
    ensures Reachable(u, TrySchedule(u, r, ts))
    ensures Does(u, s, [Done(s, Beginning(s, r, ts))], TrySchedule(u, r, ts))
  {
    ReachableInv(u, s);
    RetryHead(s, r, ts);
    ReadyAlg(u, s, ts);
    if r == s {
      Stepped(u, s, TakeReady(ts));
    } else {
      Stepped(u, s, Label.Retry);
    }
  }

  /** An acquisition that fails finds something in flight; one that succeeds adds to it. */
  lemma FailureFindsFlight(u: Setup, s: Sys, r: Sys, ts: TaskSpec)
    requires GoodSetup(u) && Reachable(u, s) && s.sched.pc.Idle? && RetryTaken(s, r, ts) && Schedulable(u, r, ts)
    requires r.work == s.work
    ensures s.sched.inFlight >= 0
    ensures !CanAcquire(u.pool, r.work.pool, ts.alg) ==> s.sched.inFlight > 0
  {
    ReachableInv(u, s);
    RetryHead(s, r, ts);
    ReadyAlg(u, s, ts);
    if s.sched.inFlight == 0 {
      NothingInFlightServes(u, s, ts.alg);
    }
  }

  lemma HandAddressable(u: Setup, s: Sys)
    requires GoodSetup(u) && Reachable(u, s) && !s.sched.pc.Idle?
    ensures Addressable(s.sched.slots, s.sched.pc.ts)
  {
    ReachableInv(u, s);
  }

  /** A slot that is neither ready, finished nor stalled is settled. */
  lemma NotStalledSettled(sl: Slot)
    requires !HasAny(sl, {DATAREADY}) && !IsStalled(sl)
    ensures Settled(sl)
  {
    if Contains(sl.states, {DATAREADY, SCHEDULED, RESOURCELESS}) {
      var a :| 0 <= a < |sl.states| && sl.states[a] in {DATAREADY, SCHEDULED, RESOURCELESS};
      assert sl.states[a] in {SCHEDULED, RESOURCELESS};
    } else {
      var j :| 0 <= j < |sl.subs| && Contains(sl.subs[j], {DATAREADY, SCHEDULED, RESOURCELESS});
      var a :| 0 <= a < |sl.subs[j]| && sl.subs[j][a] in {DATAREADY, SCHEDULED, RESOURCELESS};
      assert !Contains(sl.subs[j], {DATAREADY});
      assert sl.subs[j][a] in {SCHEDULED, RESOURCELESS};
    }
  }

  /** Attaching a view, with all its algorithms INITIAL, leaves a settled slot settled. */
  lemma ViewedSettled(algs: nat, sl: Slot, attach: bool)
    requires Settled(sl)
    ensures Settled(Viewed(algs, sl, attach))
  {
    var v := Viewed(algs, sl, attach);
    if sl.ctx.Some? && attach {
      forall j | 0 <= j < |v.subs| ensures !Contains(v.subs[j], {DATAREADY}) {
        assert j < |sl.subs| ==> v.subs[j] == sl.subs[j];
      }
      if Contains(sl.states, {SCHEDULED, RESOURCELESS}) {
      } else {
        var j :| 0 <= j < |sl.subs| && Contains(sl.subs[j], {SCHEDULED, RESOURCELESS});
        assert v.subs[j] == sl.subs[j];
      }
    }
  }

  // ----- one pass over the ready algorithms of a slot ------------------------------------------

  /** b is a with the listed algorithms of one state vector moved on from DATAREADY. */
  ghost predicate Advanced(a: Slot, b: Slot, sub: Option<nat>, done: seq<nat>) {
    && b.ctx == a.ctx && b.root == a.root && b.complete == a.complete && |b.subs| == |a.subs|
    && forall sub', alg ::
         if sub' == sub && alg in done then SlotState(b, sub', alg) in {Some(SCHEDULED), Some(RESOURCELESS)}
         else SlotState(b, sub', alg) == SlotState(a, sub', alg)
  }

  lemma AdvancedStep(a: Slot, b: Slot, sub: Option<nat>, done: seq<nat>, alg: nat, st: State)
    requires Advanced(a, b, sub, done) && SlotState(b, sub, alg) == Some(DATAREADY) && st in {SCHEDULED, RESOURCELESS}
    ensures Advanced(a, WithState(b, sub, alg, Target(DATAREADY, st)), sub, done + [alg])
  {
    var c := WithState(b, sub, alg, Target(DATAREADY, st));
    forall sub', alg'
      ensures SlotState(c, sub', alg') == if sub' == sub && alg' == alg then Some(st) else SlotState(b, sub', alg')
    {
    }
    assert forall x :: x in done + [alg] <==> x in done || x == alg;
  }

  /** No algorithm of this state vector is DATAREADY. */
  ghost predicate NoneReady(sl: Slot, sub: Option<nat>) {
    forall alg :: SlotState(sl, sub, alg) != Some(DATAREADY)
  }

  lemma AdvancedReady(a: Slot, b: Slot, sub: Option<nat>, done: seq<nat>)
    requires Advanced(a, b, sub, done)
    requires forall alg :: SlotState(a, sub, alg) == Some(DATAREADY) ==> alg in done
    ensures NoneReady(b, sub)
    ensures forall other :: NoneReady(a, other) ==> NoneReady(b, other)
  {
  }

  lemma OccupiedContext(u: Setup, s: Sys, i: nat)
    requires GoodSetup(u) && Reachable(u, s) && i < |s.sched.slots| && s.sched.slots[i].ctx.Some?
    ensures s.sched.slots[i].ctx.value.slot == i && i < |s.status| && !s.sched.slots[i].complete
  {
    ReachableInv(u, s);
  }

  /**
    The way from s to t in one pass over slot i: other slots as they were, the listed algorithms
    of one state vector moved on, retry entries backed, no action taken from the queue.
  */
  ghost predicate SlotProgress(u: Setup, s: Sys, t: Sys, i: nat, sub: Option<nat>, done: seq<nat>)
  {
    && Passes(u, s, t) && t.sched.needsUpdate == s.sched.needsUpdate && s.actions <= t.actions
    && s.sched.retry <= t.sched.retry
    && i < |s.sched.slots| && OtherSlotsSame(s.sched.slots, t.sched.slots, i)
    && Advanced(s.sched.slots[i], t.sched.slots[i], sub, done)
    && (RetryBacked(s.sched) ==> RetryBacked(t.sched))
  }

  predicate OtherSlotsSame(a: seq<Slot>, b: seq<Slot>, i: nat) {
    |b| == |a| && forall j :: 0 <= j < |a| && j != i ==> b[j] == a[j]
  }

  lemma SlotProgressSelf(u: Setup, s: Sys, i: nat, sub: Option<nat>)
    requires i < |s.sched.slots|
    ensures SlotProgress(u, s, s, i, sub, [])
  {
    PassesSelf(u, s);
  }

  lemma SlotProgressTrans(u: Setup, s: Sys, t: Sys, v: Sys, i: nat, sub: Option<nat>, done: seq<nat>, alg: nat,
                          st: State)
    requires SlotProgress(u, s, t, i, sub, done) && Passes(u, t, v)
    requires v.sched.needsUpdate == t.sched.needsUpdate && t.actions <= v.actions && v.sched.inFlight > 0
    requires t.sched.retry <= v.sched.retry
    requires SlotState(t.sched.slots[i], sub, alg) == Some(DATAREADY) && st in {SCHEDULED, RESOURCELESS}
    requires v.sched.slots == t.sched.slots[i := WithState(t.sched.slots[i], sub, alg, Target(DATAREADY, st))]
    ensures SlotProgress(u, s, v, i, sub, done + [alg])
  {
    PassesTrans(u, s, t, v);
    AdvancedStep(s.sched.slots[i], t.sched.slots[i], sub, done, alg, st);
  }

  /** The way from s to t over the whole of slot i. */
  ghost predicate PassProgress(u: Setup, s: Sys, t: Sys, i: nat) {
    && Passes(u, s, t) && t.sched.needsUpdate == s.sched.needsUpdate && s.actions <= t.actions
    && s.sched.retry <= t.sched.retry && OtherSlotsSame(s.sched.slots, t.sched.slots, i)
    && (RetryBacked(s.sched) ==> RetryBacked(t.sched))
  }

  lemma PassSelf(u: Setup, s: Sys, i: nat)
    ensures PassProgress(u, s, s, i)
  {
    PassesSelf(u, s);
  }

  lemma PassTrans(u: Setup, s: Sys, t: Sys, v: Sys, i: nat)
    requires PassProgress(u, s, t, i) && PassProgress(u, t, v, i)
    ensures PassProgress(u, s, v, i)
  {
    PassesTrans(u, s, t, v);
  }

  /** A pass over one state vector: which vectors are free of DATAREADY afterwards. */
  lemma VectorDone(u: Setup, s: Sys, t: Sys, i: nat, sub: Option<nat>, done: seq<nat>)
    requires SlotProgress(u, s, t, i, sub, done) && NoneReady(t.sched.slots[i], sub)
    ensures PassProgress(u, s, t, i)
    ensures t.sched.slots[i].ctx == s.sched.slots[i].ctx && |t.sched.slots[i].subs| == |s.sched.slots[i].subs|
    ensures forall other :: NoneReady(s.sched.slots[i], other) ==> NoneReady(t.sched.slots[i], other)
  {
  }

  /** The slot itself and its first n sub-slots have nothing DATAREADY. */
  ghost predicate CleanUpTo(sl: Slot, n: nat) {
    NoneReady(sl, None) && forall j :: 0 <= j < n ==> NoneReady(sl, Some(j))
  }

  lemma AllVectorsDone(sl: Slot)
    requires CleanUpTo(sl, |sl.subs|)
    ensures !HasAny(sl, {DATAREADY})
  {
    forall sub, alg ensures SlotState(sl, sub, alg) != Some(DATAREADY) {
      match sub
      case None =>
      case Some(j) => if j < |sl.subs| { assert NoneReady(sl, Some(j)); }
    }
    HasMeans(sl, {DATAREADY});
  }

  /** What retiring a slot leaves to the scheduler thread. */
  lemma RetireApplied(u: Setup, s: Sys, l: Label)
    requires (l.Finish? || l.Stall?) && Enabled(u, s, l)
    ensures l.i < |s.sched.slots| && s.sched.pc.Idle?
    ensures Apply(u, s, l).sched == s.sched.(slots := s.sched.slots[l.i := Retired(s.sched.slots[l.i])])
    ensures Apply(u, s, l).actions == s.actions
  {
  }

  lemma RetirePasses(u: Setup, s: Sys, l: Label)
    requires (l.Finish? || l.Stall?) && Reachable(u, s) && Enabled(u, s, l)
    ensures PassProgress(u, s, Apply(u, s, l), l.i) && Reachable(u, Apply(u, s, l))
    ensures Apply(u, s, l).sched.slots[l.i].ctx.None? && Apply(u, s, l).sched.pc.Idle?
  {
    RetireApplied(u, s, l);
    var t := Apply(u, s, l);
    assert Passes(u, s, t) && Reachable(u, t) by { Stepped(u, s, l); }
    RetirePassesTo(u, s, t, l.i);
  }

  lemma RetirePassesTo(u: Setup, s: Sys, t: Sys, i: nat)
    requires Passes(u, s, t) && i < |s.sched.slots| && t.actions == s.actions
    requires t.sched == s.sched.(slots := s.sched.slots[i := Retired(s.sched.slots[i])])
    ensures PassProgress(u, s, t, i)
  {
  }

  // ----- actions ----------------------------------------------------------------------------

  /** What the head of the action queue finds in its slot. */
  lemma HeadAction(u: Setup, s: Sys)
    requires GoodSetup(u) && Reachable(u, s) && s.sched.pc.Idle? && s.actions != []
    ensures var a := s.actions[0];
            match a
            case PushAction(c) => c.slot < |s.sched.slots| && s.sched.slots[c.slot].complete
            case SignoffAction(ts) => StateOf(s.sched.slots, ts) == Some(SCHEDULED)
            case ViewAction(ts, _) => StateOf(s.sched.slots, ts) == Some(SCHEDULED)
  {
    ReachableInv(u, s);
    match s.actions[0]
    case PushAction(c) =>
      assert s.actions[0] in s.actions;
      SlotCustody.PushFindsSlotComplete(u, s, c);
    case SignoffAction(ts) => SignoffFindsScheduled(u, s);
    case ViewAction(ts, _) =>
      CreatorLive(u, s, 0);
      ReferenceOccupies(u, s, ts);
  }

  /**
    Between rounds of the scheduler thread: either an update is due and an action is there to
    trigger it, or there is nothing to do for any slot.
  */
  predicate Awake(s: Sys) {
    !s.sched.needsUpdate || s.actions == [] ==> AllSettled(s.sched.slots) && RetryBacked(s.sched)
  }

  lemma ViewedAllSettled(algs: nat, slots: seq<Slot>, i: nat, attach: bool)
    requires AllSettled(slots) && i < |slots|
    ensures AllSettled(slots[i := Viewed(algs, slots[i], attach)])
  {
    ViewedSettled(algs, slots[i], attach);
  }

  /** Nothing is occupied and nothing waits at the start. */
  lemma InitAwake(u: Setup, s: Sys)
    requires Init(u, s)
    ensures Awake(s)
  {
  }
}
