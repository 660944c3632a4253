/** An occupied slot is retired after a bounded number of sign-offs of its own algorithms. */
module EventProgress {
  import opened Common
  import opened AlgsExecutionStates
  import opened SchedulerState
  import opened TaskInvariants
  import opened TaskSteps
  import opened SchedulerTheorems
  import opened EventDelivery
  import opened ExecutionOnce
  import opened SlotCounts
  import WakeUp

  // ----- what is left to do for a slot ------------------------------------------------

  /** No verdict yet. */
  const OPEN: set<State> := {INITIAL, CONTROLREADY, DATAREADY, SCHEDULED, RESOURCELESS}

  lemma OpenOrJudged(st: State)
    ensures st in OPEN <==> st !in {EVTACCEPTED, EVTREJECTED, ERROR}
  {
  }

  /** The algorithms of a slot without a verdict. */
  function Open(sl: Slot): nat {
    SlotCount(sl, OPEN)
  }

  /** Settled slots have something left to do. */
  lemma SettledOpen(sl: Slot)
    requires sl.ctx.Some? && WakeUp.Settled(sl)
    ensures Open(sl) > 0
  {
    var k := WakeUp.FoundState(sl, {SCHEDULED, RESOURCELESS});
    SlotCountWhere(sl, k.sub, k.alg, OPEN);
  }

  // ----- one step --------------------------------------------------------------------------

  ghost predicate InSlot(s: Sys, c: Context) {
    c.slot < |s.sched.slots| && s.sched.slots[c.slot].ctx == Some(c)
  }

  /** The label is a sign-off of one of c's algorithms, or attaches a view to c. */
  predicate SignsOff(s: Sys, l: Label, c: Context) {
    l.ExecSignoff? && s.actions != [] && s.actions[0].SignoffAction? && s.actions[0].ts.ctx == c
  }

  predicate Attaches(s: Sys, l: Label, c: Context) {
    l.ExecView? && s.actions != [] && s.actions[0].ViewAction? && s.actions[0].attach && s.actions[0].creator.ctx == c
  }

  lemma SlotStaysScheduling(u: Setup, s: Sys, l: Label, c: Context)
    requires SchedLabel(l) && SchedulingLabel(l) && SchedEnabled(u, s, l) && InSlot(s, c)
    ensures InSlot(SchedApply(u, s, l), c)
  {
    SchedulingKeeps(u, s, l);
  }

  lemma SlotStays(u: Setup, s: Sys, l: Label, c: Context)
    requires SlotsGood(u, s.sched.slots) && Enabled(u, s, l) && InSlot(s, c) && !RetiresContext(s, l, c)
    ensures InSlot(Apply(u, s, l), c)
  {
    if !SchedLabel(l) {
      SlotsByScheduler(u, s, l);
    } else if SchedulingLabel(l) {
      SlotStaysScheduling(u, s, l, c);
    }
  }

  lemma RevisedSubs(slots: seq<Slot>, k: TaskSpec, st: State, i: nat)
    requires Addressable(slots, k) && i < |slots|
    ensures |Revised(slots, k, st)| == |slots| && |Revised(slots, k, st)[i].subs| == |slots[i].subs|
  {
  }

  lemma SubsAfterScheduling(u: Setup, s: Sys, l: Label, i: nat)
    requires SchedLabel(l) && SchedulingLabel(l) && SchedEnabled(u, s, l) && i < |s.sched.slots|
    ensures i < |SchedApply(u, s, l).sched.slots|
    ensures |SchedApply(u, s, l).sched.slots[i].subs| == |s.sched.slots[i].subs|
  {
    if l.Retry? {
      RevisedSubs(s.sched.slots, s.sched.retry[0], RESOURCELESS, i);
    } else if l.TakeReady? {
      RevisedSubs(s.sched.slots, l.ready, RESOURCELESS, i);
    } else if l.MarkScheduled? {
      RevisedSubs(s.sched.slots, s.sched.pc.ts, SCHEDULED, i);
    }
  }

  lemma SubsAfterSignoff(u: Setup, s: Sys, outcome: State, after: Slot, i: nat)
    requires TaskInv(u, s) && SchedEnabled(u, s, ExecSignoff(outcome, after)) && i < |s.sched.slots|
    ensures i < |SchedApply(u, s, ExecSignoff(outcome, after)).sched.slots|
    ensures |SchedApply(u, s, ExecSignoff(outcome, after)).sched.slots[i].subs| == |s.sched.slots[i].subs|
  {
    SignoffFindsScheduled(u, s);
    RevisedSubs(s.sched.slots, s.actions[0].ts, outcome, s.actions[0].ts.ctx.slot);
  }

  lemma SubsAfterPush(u: Setup, s: Sys, l: Label, c: Context)
    requires SlotsGood(u, s.sched.slots) && (l.ExecPush? || l.ExecPushFatal?) && SchedEnabled(u, s, l) && InSlot(s, c)
    ensures InSlot(SchedApply(u, s, l), c)
    ensures SchedApply(u, s, l).sched.slots[c.slot] == s.sched.slots[c.slot]
  {
  }

  lemma SubsAfterRetirement(u: Setup, s: Sys, l: Label, i: nat)
    requires (l.Finish? || l.Stall?) && Enabled(u, s, l) && i < |s.sched.slots|
    ensures i < |Apply(u, s, l).sched.slots| && |Apply(u, s, l).sched.slots[i].subs| == |s.sched.slots[i].subs|
  {
    RetireEffect(u, s, l);
  }

  lemma SubsAfterView(u: Setup, s: Sys, c: Context)
    requires TaskInv(u, s) && SchedEnabled(u, s, ExecView) && InSlot(s, c) && !Attaches(s, ExecView, c)
    ensures c.slot < |SchedApply(u, s, ExecView).sched.slots|
    ensures SchedApply(u, s, ExecView).sched.slots[c.slot] == s.sched.slots[c.slot]
  {
    CreatorLive(u, s, 0);
    ReferenceOccupies(u, s, s.actions[0].creator);
  }

  /** Sub-slots are only added by views. */
  lemma SubsStay(u: Setup, s: Sys, l: Label, c: Context)
    requires TaskInv(u, s) && Enabled(u, s, l) && InSlot(s, c) && !Attaches(s, l, c)
    ensures c.slot < |Apply(u, s, l).sched.slots|
    ensures |Apply(u, s, l).sched.slots[c.slot].subs| == |s.sched.slots[c.slot].subs|
  {
    if !SchedLabel(l) {
      SlotsByScheduler(u, s, l);
    } else if SchedulingLabel(l) {
      SubsAfterScheduling(u, s, l, c.slot);
    } else if l.Finish? || l.Stall? {
      SubsAfterRetirement(u, s, l, c.slot);
    } else if l.ExecSignoff? {
      SubsAfterSignoff(u, s, l.outcome, l.after, c.slot);
    } else if l.ExecView? {
      SubsAfterView(u, s, c);
    } else {
      SubsAfterPush(u, s, l, c);
    }
  }

  /** A verdict of an event that stays in its slot stays. */
  lemma VerdictStays(u: Setup, s: Sys, l: Label, k: TaskSpec)
    requires SystemInv(u, s) && Enabled(u, s, l) && InSlot(Apply(u, s, l), k.ctx) && Judged(s.sched.slots, k)
    ensures Judged(Apply(u, s, l).sched.slots, k)
  {
    JudgedKept(u, s, l, k);
    assert Upstream(Apply(u, s, l), k.ctx);
  }

  lemma KeepsByJudgement(u: Setup, a: seq<Slot>, b: seq<Slot>, c: Context)
    requires SlotsGood(u, a) && SlotsGood(u, b) && c.slot < u.slots
    requires a[c.slot].ctx == b[c.slot].ctx == Some(c) && |a[c.slot].subs| == |b[c.slot].subs|
    requires forall k: TaskSpec :: k.ctx == c && Judged(a, k) ==> Judged(b, k)
    ensures SlotLeaving(a[c.slot], b[c.slot], OPEN)
  {
    var x, y := a[c.slot], b[c.slot];
    forall i | 0 <= i < |x.states| && y.states[i] in OPEN
      ensures x.states[i] in OPEN
    {
      assert !Judged(a, TaskSpec(c, None, i));
      OpenOrJudged(x.states[i]);
      OpenOrJudged(y.states[i]);
    }
    forall j | 0 <= j < |x.subs|
      ensures Leaving(x.subs[j], y.subs[j], OPEN)
    {
      forall i | 0 <= i < |x.subs[j]| && y.subs[j][i] in OPEN
        ensures x.subs[j][i] in OPEN
      {
        assert !Judged(a, TaskSpec(c, Some(j), i));
        OpenOrJudged(x.subs[j][i]);
        OpenOrJudged(y.subs[j][i]);
      }
    }
  }

  lemma StepKeepsVerdicts(u: Setup, s: Sys, l: Label, c: Context)
    requires SystemInv(u, s) && Enabled(u, s, l) && SystemInv(u, Apply(u, s, l))
    requires InSlot(s, c) && InSlot(Apply(u, s, l), c) && !Attaches(s, l, c)
    ensures SlotLeaving(s.sched.slots[c.slot], Apply(u, s, l).sched.slots[c.slot], OPEN)
  {
    SubsStay(u, s, l, c);
    forall k: TaskSpec | k.ctx == c && Judged(s.sched.slots, k)
      ensures Judged(Apply(u, s, l).sched.slots, k)
    {
      VerdictStays(u, s, l, k);
    }
    KeepsByJudgement(u, s.sched.slots, Apply(u, s, l).sched.slots, c);
  }

  /** The algorithm that signs off had no verdict, and has one afterwards. */
  lemma SignoffJudges(u: Setup, s: Sys, l: Label, c: Context)
    requires SystemInv(u, s) && Enabled(u, s, l) && SignsOff(s, l, c)
    ensures !Judged(s.sched.slots, s.actions[0].ts) && StateOf(s.sched.slots, s.actions[0].ts).Some?
    ensures Judged(Apply(u, s, l).sched.slots, s.actions[0].ts)
  {
    SignoffFindsScheduled(u, s);
    SignedOffJudged(u, s, l.outcome, l.after);
  }

  lemma SignoffCloses(u: Setup, s: Sys, l: Label, c: Context)
    requires SystemInv(u, s) && Enabled(u, s, l) && SystemInv(u, Apply(u, s, l))
    requires InSlot(s, c) && InSlot(Apply(u, s, l), c) && SignsOff(s, l, c)
    ensures Open(Apply(u, s, l).sched.slots[c.slot]) < Open(s.sched.slots[c.slot])
  {
    StepKeepsVerdicts(u, s, l, c);
    SignoffJudges(u, s, l, c);
    JudgedCloses(s.sched.slots, Apply(u, s, l).sched.slots, s.actions[0].ts);
  }

  lemma JudgedCloses(a: seq<Slot>, b: seq<Slot>, k: TaskSpec)
    requires StateOf(a, k).Some? && !Judged(a, k) && Judged(b, k) && SlotLeaving(a[k.ctx.slot], b[k.ctx.slot], OPEN)
    ensures Open(b[k.ctx.slot]) < Open(a[k.ctx.slot])
  {
    OpenOrJudged(StateOf(a, k).value);
    OpenOrJudged(StateOf(b, k).value);
    OneLeft(a[k.ctx.slot], b[k.ctx.slot], k.sub, k.alg, OPEN);
  }

  lemma ViewOpens(u: Setup, s: Sys, l: Label, c: Context)
    requires TaskInv(u, s) && Enabled(u, s, l) && InSlot(s, c) && Attaches(s, l, c)
    ensures Open(Apply(u, s, l).sched.slots[c.slot]) <= Open(s.sched.slots[c.slot]) + u.algs
  {
    ViewedCount(u.algs, s.sched.slots[c.slot], true, OPEN);
  }

  /** A sign-off closes one algorithm of its event; only a view opens new ones. */
  lemma StepOpen(u: Setup, s: Sys, l: Label, c: Context)
    requires SystemInv(u, s) && Enabled(u, s, l) && SystemInv(u, Apply(u, s, l))
    requires InSlot(s, c) && InSlot(Apply(u, s, l), c)
    ensures Open(Apply(u, s, l).sched.slots[c.slot]) + (if SignsOff(s, l, c) then 1 else 0)
         <= Open(s.sched.slots[c.slot]) + (if Attaches(s, l, c) then u.algs else 0)
  {
    if Attaches(s, l, c) {
      ViewOpens(u, s, l, c);
    } else if SignsOff(s, l, c) {
      SignoffCloses(u, s, l, c);
    } else {
      StepKeepsVerdicts(u, s, l, c);
      SlotCountLess(s.sched.slots[c.slot], Apply(u, s, l).sched.slots[c.slot], OPEN);
    }
  }

  // ----- whole runs ---------------------------------------------------------------------------

  /** The sign-offs of c's algorithms along a run, and the views attached to c. */
  ghost function SignoffsOf(u: Setup, s: Sys, run: seq<Label>, c: Context): nat
    decreases |run|
  {
    if run == [] || !Enabled(u, s, run[0]) then 0
    else (if SignsOff(s, run[0], c) then 1 else 0) + SignoffsOf(u, Apply(u, s, run[0]), run[1..], c)
  }

  ghost function ViewsOf(u: Setup, s: Sys, run: seq<Label>, c: Context): nat
    decreases |run|
  {
    if run == [] || !Enabled(u, s, run[0]) then 0
    else (if Attaches(s, run[0], c) then 1 else 0) + ViewsOf(u, Apply(u, s, run[0]), run[1..], c)
  }

  /** What the views attached to c have opened. */
  ghost function Opened(u: Setup, s: Sys, run: seq<Label>, c: Context): nat
    decreases |run|
  {
    if run == [] || !Enabled(u, s, run[0]) then 0
    else (if Attaches(s, run[0], c) then u.algs else 0) + Opened(u, Apply(u, s, run[0]), run[1..], c)
  }

  lemma {:induction false} OpenedByViews(u: Setup, s: Sys, run: seq<Label>, c: Context)
    ensures Opened(u, s, run, c) == u.algs * ViewsOf(u, s, run, c)
    decreases |run|
  {
    if run != [] && Enabled(u, s, run[0]) {
      var r := Apply(u, s, run[0]);
      OpenedByViews(u, r, run[1..], c);
      Distribute(u.algs, Attaches(s, run[0], c), ViewsOf(u, r, run[1..], c));
    }
  }

  /** The first step of a run at whose end c is still in its slot, and what it adds to the two sums. */
  lemma FirstStepOpen(u: Setup, s: Sys, run: seq<Label>, t: Sys, c: Context)
    returns (r: Sys, signs: nat, opens: nat)
    requires GoodSetup(u) && SystemInv(u, s) && Run(u, s, run, t) && run != [] && InSlot(s, c) && InSlot(t, c)
    ensures SystemInv(u, r) && Run(u, r, run[1..], t) && InSlot(r, c)
    ensures SignoffsOf(u, s, run, c) == signs + SignoffsOf(u, r, run[1..], c)
    ensures Opened(u, s, run, c) == opens + Opened(u, r, run[1..], c)
    ensures Open(r.sched.slots[c.slot]) + signs <= Open(s.sched.slots[c.slot]) + opens
  {
    r := Apply(u, s, run[0]);
    signs, opens := if SignsOff(s, run[0], c) then 1 else 0, if Attaches(s, run[0], c) then u.algs else 0;
    NotRetiredFirst(u, s, run, t, c);
    SlotStays(u, s, run[0], c);
    StepKeeps(u, s, run[0]);
    StepOpen(u, s, run[0], c);
  }

  lemma {:induction false} SignoffsOpened(u: Setup, s: Sys, run: seq<Label>, t: Sys, c: Context)
    requires GoodSetup(u) && SystemInv(u, s) && Run(u, s, run, t) && InSlot(s, c) && InSlot(t, c)
    ensures SignoffsOf(u, s, run, c) + Open(t.sched.slots[c.slot])
         <= Open(s.sched.slots[c.slot]) + Opened(u, s, run, c)
    decreases |run|
  {
    if run != [] {
      var r, signs, opens := FirstStepOpen(u, s, run, t, c);
      SignoffsOpened(u, r, run[1..], t, c);
    }
  }

  /** While c stays in its slot, its sign-offs are paid for by open algorithms and attached views. */
  lemma {:induction false} SignoffsBounded(u: Setup, s: Sys, run: seq<Label>, t: Sys, c: Context)
    requires GoodSetup(u) && SystemInv(u, s) && Run(u, s, run, t) && InSlot(s, c) && InSlot(t, c)
    ensures SignoffsOf(u, s, run, c) + Open(t.sched.slots[c.slot])
         <= Open(s.sched.slots[c.slot]) + u.algs * ViewsOf(u, s, run, c)
  {
    SignoffsOpened(u, s, run, t, c);
    OpenedByViews(u, s, run, c);
  }

  /**
    An event in its slot is retired after a bounded number of its own sign-offs: once they have used up
    the open algorithms it had, and those of the views attached since, the slot cannot be found
    settled, as `iterate` leaves all slots, with the event still in it.
  */
  lemma {:induction false} RetiredAfterItsSignoffs(u: Setup, s: Sys, run: seq<Label>, t: Sys, c: Context)
    requires GoodSetup(u) && Reachable(u, s) && Run(u, s, run, t) && InSlot(s, c)
    requires SignoffsOf(u, s, run, c) >= Open(s.sched.slots[c.slot]) + u.algs * ViewsOf(u, s, run, c)
    requires c.slot < |t.sched.slots| && WakeUp.Settled(t.sched.slots[c.slot])
    ensures t.sched.slots[c.slot].ctx != Some(c)
  {
    ReachableInv(u, s);
    if InSlot(t, c) {
      SignoffsBounded(u, s, run, t, c);
      SettledOpen(t.sched.slots[c.slot]);
    }
  }
}
