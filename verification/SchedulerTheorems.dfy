/** What holds in every state that any interleaving of scheduler, workers and event loop can reach. */
module SchedulerTheorems {
  import opened Common
  import opened AlgsExecutionStates
  import opened ResourcePool
  import opened SchedulerState
  import opened TaskInvariants
  import opened TaskSteps
  import opened SlotCustody
  import opened EventCounters

  ghost predicate SystemInv(u: Setup, s: Sys) {
    TaskInv(u, s) && CustodyInv(u, s) && CountersInv(u, s)
  }

  ghost predicate Reachable(u: Setup, t: Sys) {
    exists s, run :: Init(u, s) && Run(u, s, run, t)
  }

  // ----- every step and every run ----------------------------------------------------

  lemma PushNotFatal(u: Setup, s: Sys)
    requires CustodyInv(u, s)
    ensures !SchedEnabled(u, s, ExecPushFatal)
  {
    if s.actions != [] && s.actions[0].PushAction? {
      assert s.actions[0] in s.actions;
      PushFindsSlotComplete(u, s, s.actions[0].ctx);
    }
  }

  /** The refused push, the fatal push action and the task without work are never enabled. */
  lemma {:induction false} FatalBranchesDead(u: Setup, s: Sys)
    requires SystemInv(u, s)
    ensures !Enabled(u, s, ExecPushFatal) && !Enabled(u, s, PushRefused) && !Enabled(u, s, StartEmpty)
  {
    PushNeverRefused(s);
    StartEmptyNever(u, s);
    PushNotFatal(u, s);
  }

  lemma StepKeepsCounters(u: Setup, s: Sys, l: Label)
    requires SystemInv(u, s) && Enabled(u, s, l)
    ensures CountersInv(u, Apply(u, s, l))
  {
    FatalBranchesDead(u, s);
    if SchedLabel(l) {
      SchedCounters(u, s, l);
    } else if WorkLabel(l) {
      WorkCounters(u, s, l);
    } else {
      if l.Flush? {
        assert InHand(s, s.loop.drained[0]);
      }
      if l.Skip? {
        assert InHand(s, s.loop.created.value);
      }
      LoopCounters(u, s, l);
    }
  }

  lemma StepKeepsCustody(u: Setup, s: Sys, l: Label)
    requires SystemInv(u, s) && Enabled(u, s, l) && TaskInv(u, Apply(u, s, l))
    ensures CustodyInv(u, Apply(u, s, l))
  {
    FatalBranchesDead(u, s);
    if SchedLabel(l) {
      SchedCustody(u, s, l);
    } else if WorkLabel(l) {
      WorkCustody(u, s, l);
    } else {
      LoopCustody(u, s, l);
    }
  }

  lemma {:induction false} StepKeeps(u: Setup, s: Sys, l: Label)
    requires GoodSetup(u) && SystemInv(u, s) && Enabled(u, s, l)
    ensures SystemInv(u, Apply(u, s, l))
  {
    StepKeepsTasks(u, s, l);
    StepKeepsCustody(u, s, l);
    StepKeepsCounters(u, s, l);
  }

  lemma {:induction false} RunKeeps(u: Setup, s: Sys, run: seq<Label>, t: Sys)
    requires GoodSetup(u) && SystemInv(u, s) && Run(u, s, run, t)
    ensures SystemInv(u, t)
    decreases |run|
  {
    if run != [] {
      StepKeeps(u, s, run[0]);
      RunKeeps(u, Apply(u, s, run[0]), run[1..], t);
    }
  }

  lemma InitPlaces(u: Setup, s: Sys)
    requires Init(u, s)
    ensures PlacesGood(u, s)
  {
    forall i: nat ensures multiset(s.board.free)[i] + OutAt(s, i) == if i < u.slots then 1 else 0 {
      DistinctOnce(s.board.free, i);
      if i < u.slots {
        assert s.board.free[i] == i;
      }
    }
  }

  lemma InitInv(u: Setup, s: Sys)
    requires GoodSetup(u) && Init(u, s)
    ensures SystemInv(u, s)
  {
    InitTasks(u, s);
    InitPlaces(u, s);
    assert Occupied(s.sched.slots) == {};
  }

  /** Safety over whole runs. */
  lemma ReachableInv(u: Setup, t: Sys)
    requires GoodSetup(u) && Reachable(u, t)
    ensures SystemInv(u, t)
  {
    var s, run :| Init(u, s) && Run(u, s, run, t);
    InitInv(u, s);
    RunKeeps(u, s, run, t);
  }

  // ----- live specifications ------------------------------------------------------------

  /**
    Between the scheduler's actions: SCHEDULED entries are, one to one, the specifications queued,
    running or awaiting sign-off; RESOURCELESS entries are the retry queue; the counters agree.
  */
  lemma LiveSpecBijection(u: Setup, s: Sys)
    requires GoodSetup(u) && Reachable(u, s) && s.sched.pc.Idle?
    ensures forall k :: Live(s)[k] == if StateOf(s.sched.slots, k) == Some(SCHEDULED) then 1 else 0
    ensures forall k :: multiset(s.sched.retry)[k] == if StateOf(s.sched.slots, k) == Some(RESOURCELESS) then 1 else 0
    ensures s.sched.inFlight == |Live(s)| && s.work.tasks == |s.work.queue|
  {
    ReachableInv(u, s);
  }

  /** At any moment, even inside `schedule`, an algorithm is live at most once for a context. */
  lemma NeverTwice(u: Setup, s: Sys, k: TaskSpec)
    requires GoodSetup(u) && Reachable(u, s)
    ensures Live(s)[k] <= 1
    ensures s.work.executing[k] > 0 ==> k !in s.work.queue && k !in s.sched.retry && SignoffAction(k) !in s.actions
  {
    ReachableInv(u, s);
    LiveOnce(s, k);
    if s.work.executing[k] > 0 {
      assert Live(s)[k] >= s.work.queue[k] + s.work.executing[k] + Signoffs(s.actions)[k];
      ExecutingNotRetried(s, k);
      if SignoffAction(k) in s.actions {
        var j :| 0 <= j < |s.actions| && s.actions[j] == SignoffAction(k);
        SignoffsContain(s.actions, j);
      }
    }
  }

  lemma ExecutingNotRetried(s: Sys, k: TaskSpec)
    requires LiveMatch(s) && RetryMatch(s) && HandGood(s) && Live(s)[k] > 0
    ensures k !in s.sched.retry
  {
    assert multiset(s.sched.retry)[k] == 0;
  }

  /** Every sign-off finds its algorithm SCHEDULED, so the transition it asks for is allowed. */
  lemma SignoffAllowed(u: Setup, s: Sys, outcome: State)
    requires GoodSetup(u) && Reachable(u, s) && s.sched.pc.Idle?
    requires s.actions != [] && s.actions[0].SignoffAction? && outcome in {EVTACCEPTED, EVTREJECTED, ERROR}
    ensures StateOf(s.sched.slots, s.actions[0].ts) == Some(SCHEDULED)
    ensures Accepted(SCHEDULED, outcome)
  {
    ReachableInv(u, s);
    SignoffFindsScheduled(u, s);
  }

  /** A started task always finds a specification, and no push is fatal or refused. */
  lemma NoMissingSpecification(u: Setup, s: Sys)
    requires GoodSetup(u) && Reachable(u, s)
    ensures s.work.tasks <= |s.work.queue|
    ensures !Enabled(u, s, StartEmpty) && !Enabled(u, s, ExecPushFatal) && !Enabled(u, s, PushRefused)
  {
    ReachableInv(u, s);
    FatalBranchesDead(u, s);
  }

  // ----- retirement -----------------------------------------------------------------------

  /** Something still uses the context, or a view of it. */
  ghost predicate Refers(s: Sys, c: Context) {
    || (exists k: TaskSpec :: k.ctx == c && k in Live(s))
    || (exists k: TaskSpec :: k.ctx == c && k in s.sched.retry)
    || (!s.sched.pc.Idle? && s.sched.pc.ts.ctx == c)
    || (exists i :: 0 <= i < |s.actions| && s.actions[i].ViewAction? && s.actions[i].creator.ctx == c)
  }

  lemma ReferenceOccupies(u: Setup, s: Sys, k: TaskSpec)
    requires TaskInv(u, s)
    requires k in Live(s) || k in s.sched.retry || (!s.sched.pc.Idle? && s.sched.pc.ts == k)
    ensures StateOf(s.sched.slots, k).Some?
  {
    assert k in s.sched.retry ==> multiset(s.sched.retry)[k] > 0;
  }

  lemma CreatorLive(u: Setup, s: Sys, i: nat)
    requires TaskInv(u, s) && i < |s.actions| && s.actions[i].ViewAction?
    ensures s.actions[i].creator in Live(s)
  {
    var c := s.actions[i].creator;
    assert CreatorPending(s, i);
    if c !in Running(s.work) {
      var j :| i < j < |s.actions| && s.actions[j] == SignoffAction(c);
      SignoffsContain(s.actions, j);
    }
  }

  /** Whatever is referred to occupies its slot. */
  lemma ReferredOccupies(u: Setup, s: Sys, c: Context)
    requires TaskInv(u, s) && Refers(s, c)
    ensures c.slot < |s.sched.slots| && s.sched.slots[c.slot].ctx == Some(c)
  {
    if i :| 0 <= i < |s.actions| && s.actions[i].ViewAction? && s.actions[i].creator.ctx == c {
      CreatorLive(u, s, i);
      ReferenceOccupies(u, s, s.actions[i].creator);
    } else {
      var k: TaskSpec :| k.ctx == c
        && (k in Live(s) || k in s.sched.retry || (!s.sched.pc.Idle? && s.sched.pc.ts == k));
      ReferenceOccupies(u, s, k);
    }
  }

  lemma RetirableUnreferred(u: Setup, s: Sys, i: nat, k: TaskSpec)
    requires TaskInv(u, s) && s.sched.pc.Idle? && i < |s.sched.slots| && s.sched.slots[i].ctx == Some(k.ctx)
    requires IsFinished(s.sched.slots[i]) || IsStalled(s.sched.slots[i])
    ensures k !in Live(s) && k !in s.sched.retry
  {
    RetiredStates(s.sched.slots, i, k, SCHEDULED);
    RetiredStates(s.sched.slots, i, k, RESOURCELESS);
    assert k.ctx.slot == i;
    assert multiset(s.sched.retry)[k] == 0;
  }

  lemma NotReferred(s: Sys, c: Context)
    requires s.sched.pc.Idle?
    requires forall k: TaskSpec :: k.ctx == c ==> k !in Live(s) && k !in s.sched.retry
    requires forall j :: 0 <= j < |s.actions| && s.actions[j].ViewAction? ==> s.actions[j].creator in Live(s)
    ensures !Refers(s, c)
  {
  }

  lemma UnreferredSlot(u: Setup, s: Sys, i: nat)
    requires TaskInv(u, s) && s.sched.pc.Idle? && i < |s.sched.slots| && s.sched.slots[i].ctx.Some?
    requires IsFinished(s.sched.slots[i]) || IsStalled(s.sched.slots[i])
    ensures !Refers(s, s.sched.slots[i].ctx.value)
  {
    forall k: TaskSpec | k.ctx == s.sched.slots[i].ctx.value ensures k !in Live(s) && k !in s.sched.retry {
      RetirableUnreferred(u, s, i, k);
    }
    forall j | 0 <= j < |s.actions| && s.actions[j].ViewAction? ensures s.actions[j].creator in Live(s) {
      CreatorLive(u, s, j);
    }
    NotReferred(s, s.sched.slots[i].ctx.value);
  }

  /** A slot is declared finished or stalled only when nothing refers to its event any more. */
  lemma SafeRetirement(u: Setup, s: Sys, i: nat)
    requires GoodSetup(u) && Reachable(u, s)
    requires s.sched.pc.Idle? && i < |s.sched.slots| && s.sched.slots[i].ctx.Some?
    requires IsFinished(s.sched.slots[i]) || IsStalled(s.sched.slots[i])
    ensures !Refers(s, s.sched.slots[i].ctx.value)
  {
    ReachableInv(u, s);
    UnreferredSlot(u, s, i);
  }

  /**
    A context handed over as finished, popped or drained is referred to by nothing, so the event
    loop may delete it.
  */
  lemma SafeDeletion(u: Setup, s: Sys, c: Context)
    requires GoodSetup(u) && Reachable(u, s)
    requires c in s.finished || s.loop.popped == Some(c) || c in s.loop.drained
    ensures !Refers(s, c)
    ensures forall d: Context :: d.evt == c.evt ==> !Refers(s, d)
  {
    ReachableInv(u, s);
    assert InHand(s, c);
    forall d: Context | d.evt == c.evt ensures !Refers(s, d) {
      if Refers(s, d) {
        ReferredOccupies(u, s, d);
        assert InHand(s, d);
        assert d.slot == c.slot;
        RetiredNotOccupied(u, s, c);
      }
    }
  }

  lemma RetiredNotOccupied(u: Setup, s: Sys, c: Context)
    requires CustodyInv(u, s) && (c in s.finished || s.loop.popped == Some(c) || c in s.loop.drained)
    ensures OccupiedAt(s.sched.slots, c.slot) == 0
  {
    if c in s.finished {
      ContextsContain(s.finished, c);
    } else if c in s.loop.drained {
      ContextsContain(s.loop.drained, c);
    }
    assert OutAt(s, c.slot) <= 1;
  }

  // ----- slots ------------------------------------------------------------------------------

  /** All live contexts have distinct slots, and a pending push finds its slot complete. */
  lemma SlotOwnership(u: Setup, s: Sys, c: Context, d: Context)
    requires GoodSetup(u) && Reachable(u, s) && InHand(s, c) && InHand(s, d)
    ensures c.slot == d.slot <==> c == d
    ensures c.evt == d.evt <==> c == d
    ensures PushAction(c) in s.actions ==> c.slot < |s.sched.slots| && s.sched.slots[c.slot].complete
  {
    ReachableInv(u, s);
    if PushAction(c) in s.actions {
      PushFindsSlotComplete(u, s, c);
    }
  }

  /** A slot is complete exactly when it has no context. */
  lemma CompleteIffEmpty(u: Setup, s: Sys, i: nat)
    requires GoodSetup(u) && Reachable(u, s) && i < u.slots
    ensures |s.sched.slots| == u.slots
    ensures s.sched.slots[i].complete <==> s.sched.slots[i].ctx.None?
  {
    ReachableInv(u, s);
  }

  /** Accepted events are never lost from the books. */
  lemma EventConservation(u: Setup, s: Sys)
    requires GoodSetup(u) && Reachable(u, s)
    ensures s.freeSlots + Some01(s.loop.reserved) + PendingPushes(s.actions) + |Occupied(s.sched.slots)|
            + |s.finished| + Some01(s.loop.popped) + |s.dropped| == u.slots
    ensures 0 <= s.freeSlots <= u.slots
  {
    ReachableInv(u, s);
  }

  /** With nothing in the loop's hands, scheduler and whiteboard agree on the free slots but for leaks. */
  lemma FreeSlotsAgree(u: Setup, s: Sys)
    requires GoodSetup(u) && Reachable(u, s) && s.loop.created.None? && s.loop.drained == []
    ensures s.freeSlots == |s.board.free| + |s.leaked|
  {
    ReachableInv(u, s);
  }

  // ----- resources ----------------------------------------------------------------------------

  /** Two tasks that have not released yet never share a resource, nor a non-reentrant instance. */
  lemma RunningExclusive(u: Setup, s: Sys, k: TaskSpec, j: TaskSpec)
    requires GoodSetup(u) && Reachable(u, s) && k != j
    requires k in Unreleased(s.work) && j in Unreleased(s.work)
    ensures k.alg < u.algs && j.alg < u.algs && u.pool.req[k.alg] !! u.pool.req[j.alg]
    ensures k in s.work.pool.busy && j in s.work.pool.busy
    ensures k.alg == j.alg && !u.pool.reentrant[k.alg] ==>
              s.work.pool.busy[k].inst != s.work.pool.busy[j].inst
  {
    ReachableInv(u, s);
    var p := s.work.pool;
    assert k in p.holds && j in p.holds;
    forall r | r in u.pool.req[k.alg] ensures r !in u.pool.req[j.alg] {
      assert Owns(u.pool, p, k, r);
      assert r in u.pool.req[j.alg] ==> Owns(u.pool, p, j, r);
    }
    assert k in Borrowing(s.work) && j in Borrowing(s.work);
    if k.alg == j.alg && !u.pool.reentrant[k.alg] {
      assert InstancesExclusive(u.pool, p, k.alg);
      assert Runs(p, k, k.alg, p.busy[k].inst) && Runs(p, j, k.alg, p.busy[j].inst);
    }
  }

  // ----- views --------------------------------------------------------------------------------

  /** A view action is applied to the slot of the event that issued it, while its creator is SCHEDULED. */
  lemma ViewReachesItsSlot(u: Setup, s: Sys)
    requires GoodSetup(u) && Reachable(u, s) && Enabled(u, s, ExecView)
    ensures var c := s.actions[0].creator;
            s.sched.slots[c.ctx.slot].ctx == Some(c.ctx) && c.sub.None?
            && StateOf(s.sched.slots, c) == Some(SCHEDULED)
  {
    ReachableInv(u, s);
    CreatorLive(u, s, 0);
    ReferenceOccupies(u, s, s.actions[0].creator);
  }

  // ----- finished and stalled ------------------------------------------------------------

  /** `containsAny` on the slot and on its sub-slots sees every algorithm, and nothing else. */
  lemma HasMeans(sl: Slot, wanted: set<State>)
    ensures HasAny(sl, wanted) <==>
            exists sub, alg :: SlotState(sl, sub, alg).Some? && SlotState(sl, sub, alg).value in wanted
  {
    if Contains(sl.states, wanted) {
      var a: nat :| a < |sl.states| && sl.states[a] in wanted;
      assert SlotState(sl, None, a).Some?;
    }
    if j: nat :| j < |sl.subs| && Contains(sl.subs[j], wanted) {
      var a: nat :| a < |sl.subs[j]| && sl.subs[j][a] in wanted;
      assert SlotState(sl, Some(j), a).Some?;
    }
    if sub, alg :| SlotState(sl, sub, alg).Some? && SlotState(sl, sub, alg).value in wanted {
      match sub
      case None => assert sl.states[alg] in wanted;
      case Some(j) => assert Contains(sl.subs[j], wanted);
    }
  }

  /** No algorithm of the slot or of a sub-slot is DATAREADY, SCHEDULED or RESOURCELESS. */
  ghost predicate Resting(sl: Slot) {
    forall sub, alg :: SlotState(sl, sub, alg) !in {Some(DATAREADY), Some(SCHEDULED), Some(RESOURCELESS)}
  }

  /** No algorithm of the slot or of a sub-slot has begun without being judged. */
  ghost predicate Over(sl: Slot) {
    forall sub, alg :: SlotState(sl, sub, alg).Some? ==>
      SlotState(sl, sub, alg).value in {INITIAL, EVTACCEPTED, EVTREJECTED, ERROR}
  }

  lemma FinishedMeans(sl: Slot)
    ensures IsFinished(sl) <==> sl.root != -1 && !sl.complete && Over(sl)
  {
    HasMeans(sl, {CONTROLREADY, DATAREADY, SCHEDULED, RESOURCELESS});
    if Over(sl) {
      forall sub, alg | SlotState(sl, sub, alg).Some?
        ensures SlotState(sl, sub, alg).value !in {CONTROLREADY, DATAREADY, SCHEDULED, RESOURCELESS}
      {
      }
    } else {
      var sub, alg :| SlotState(sl, sub, alg).Some?
                      && SlotState(sl, sub, alg).value !in {INITIAL, EVTACCEPTED, EVTREJECTED, ERROR};
      EachState(SlotState(sl, sub, alg).value);
    }
  }

  lemma EachState(st: State)
    ensures st in {INITIAL, EVTACCEPTED, EVTREJECTED, ERROR}
         || st in {CONTROLREADY, DATAREADY, SCHEDULED, RESOURCELESS}
  {
  }

  lemma StalledMeans(sl: Slot)
    ensures IsStalled(sl) <==> Resting(sl)
  {
    HasMeans(sl, {DATAREADY, SCHEDULED, RESOURCELESS});
    if !Resting(sl) {
      var sub, alg :| SlotState(sl, sub, alg) in {Some(DATAREADY), Some(SCHEDULED), Some(RESOURCELESS)};
      assert SlotState(sl, sub, alg).value in {DATAREADY, SCHEDULED, RESOURCELESS};
    }
  }

  lemma RetirementEnabled(u: Setup, s: Sys, i: nat)
    requires s.sched.pc.Idle? && i < |s.sched.slots| && i < |s.status| && s.sched.slots[i].ctx.Some?
    ensures SchedEnabled(u, s, Finish(i)) <==> IsFinished(s.sched.slots[i])
    ensures SchedEnabled(u, s, Stall(i)) <==> !IsFinished(s.sched.slots[i]) && IsStalled(s.sched.slots[i])
  {
  }

  /**
    In every reachable state an occupied slot is found finished exactly if its root decision is made and
    each of its algorithms has not begun or is judged; and it is found stalled exactly if it is not
    finished, and nothing is ready, scheduled or waiting for resources.
  */
  lemma RetirementMeans(u: Setup, s: Sys, i: nat)
    requires GoodSetup(u) && Reachable(u, s) && s.sched.pc.Idle? && i in Occupied(s.sched.slots)
    ensures SchedEnabled(u, s, Finish(i)) <==> s.sched.slots[i].root != -1 && Over(s.sched.slots[i])
    ensures SchedEnabled(u, s, Stall(i)) <==>
            Resting(s.sched.slots[i])
            && (s.sched.slots[i].root == -1
                || exists sub, alg :: SlotState(s.sched.slots[i], sub, alg) == Some(CONTROLREADY))
  {
    ReachableInv(u, s);
    var sl := s.sched.slots[i];
    RetirementEnabled(u, s, i);
    FinishedMeans(sl);
    StalledMeans(sl);
    RestingOrOver(sl);
  }

  lemma RestingOrOver(sl: Slot)
    ensures Resting(sl) ==> (Over(sl) <==> forall sub, alg :: SlotState(sl, sub, alg) != Some(CONTROLREADY))
    ensures Over(sl) ==> Resting(sl)
  {
    if Resting(sl) && !Over(sl) {
      var sub, alg :| SlotState(sl, sub, alg).Some?
                      && SlotState(sl, sub, alg).value !in {INITIAL, EVTACCEPTED, EVTREJECTED, ERROR};
      EachState(SlotState(sl, sub, alg).value);
      assert SlotState(sl, sub, alg) !in {Some(DATAREADY), Some(SCHEDULED), Some(RESOURCELESS)};
      assert SlotState(sl, sub, alg) == Some(CONTROLREADY);
    }
  }
}
