/**
  What becomes of an accepted event: it is retired at most once, and a slot declared finished by
  the control flow hands its context over only if the event status is Success.
*/
module EventDelivery {
  import opened Common
  import opened AlgsExecutionStates
  import opened ResourcePool
  import opened SchedulerState
  import opened TaskInvariants
  import opened SlotCustody
  import opened EventCounters
  import opened SchedulerTheorems

  // ----- at most once ----------------------------------------------------------------

  /** The event has not been retired: it is still to be created, or on its way, or in a slot. */
  ghost predicate Ahead(s: Sys, e: nat) {
    || e >= s.loop.nevt
    || exists c: Context :: c.evt == e && Upstream(s, c)
  }

  ghost predicate Upstream(s: Sys, c: Context) {
    || s.loop.created == Some(c) || s.loop.reserved == Some(c) || PushAction(c) in s.actions
    || (c.slot < |s.sched.slots| && s.sched.slots[c.slot].ctx == Some(c))
  }

  /** The label takes event e out of its slot: as finished, stalled or dropped. */
  predicate Retires(s: Sys, l: Label, e: nat) {
    && (l.Finish? || l.Stall?) && l.i < |s.sched.slots|
    && s.sched.slots[l.i].ctx.Some? && s.sched.slots[l.i].ctx.value.evt == e
  }

  ghost function Retirements(u: Setup, s: Sys, run: seq<Label>, e: nat): nat
    decreases |run|
  {
    if run == [] || !Enabled(u, s, run[0]) then 0
    else (if Retires(s, run[0], e) then 1 else 0) + Retirements(u, Apply(u, s, run[0]), run[1..], e)
  }

  lemma UpstreamSched(u: Setup, s: Sys, l: Label, c: Context)
    requires SlotsGood(u, s.sched.slots) && SchedLabel(l) && SchedEnabled(u, s, l)
    requires Upstream(SchedApply(u, s, l), c)
    ensures Upstream(s, c)
  {
    if SchedulingLabel(l) {
      SchedulingKeeps(u, s, l);
    }
  }

  lemma UpstreamOther(u: Setup, s: Sys, l: Label, c: Context)
    requires !SchedLabel(l) && Enabled(u, s, l) && Upstream(Apply(u, s, l), c)
    ensures Upstream(s, c) || (l.Create? && c.evt == s.loop.nevt)
  {
  }

  /** What lies behind stays behind. */
  lemma BehindStays(u: Setup, s: Sys, l: Label, e: nat)
    requires SystemInv(u, s) && Enabled(u, s, l) && !Ahead(s, e)
    ensures !Ahead(Apply(u, s, l), e) && !Retires(s, l, e)
  {
    forall c: Context | c.evt == e ensures !Upstream(Apply(u, s, l), c) {
      if Upstream(Apply(u, s, l), c) {
        if SchedLabel(l) {
          UpstreamSched(u, s, l, c);
        } else {
          UpstreamOther(u, s, l, c);
        }
      }
    }
    NumberGrows(u, s, l);
    if Retires(s, l, e) {
      assert Upstream(s, s.sched.slots[l.i].ctx.value);
    }
  }

  lemma NumberGrows(u: Setup, s: Sys, l: Label)
    requires Enabled(u, s, l)
    ensures Apply(u, s, l).loop.nevt >= s.loop.nevt
  {
  }

  /** Retiring an event puts it behind. */
  lemma RetiredBehind(u: Setup, s: Sys, t: Sys, i: nat, e: nat)
    requires CustodyInv(u, s) && i < |s.sched.slots| && s.sched.slots[i].ctx.Some?
    requires s.sched.slots[i].ctx.value.evt == e
    requires t.sched.slots == s.sched.slots[i := Retired(s.sched.slots[i])]
    requires t.loop == s.loop && t.actions == s.actions
    ensures !Ahead(t, e)
  {
    var c := s.sched.slots[i].ctx.value;
    AloneInSlot(u, s, c);
    forall d: Context | d.evt == e ensures !Upstream(t, d) {
      if d != c && Upstream(s, d) {
        SameEventSameContext(u, s, c, d);
      }
    }
    assert InHand(s, c);
  }

  lemma SameEventSameContext(u: Setup, s: Sys, c: Context, d: Context)
    requires BoardGood(u, s) && Upstream(s, c) && Upstream(s, d) && c.evt == d.evt
    ensures c == d
  {
    assert InHand(s, c) && InHand(s, d);
  }

  lemma AloneInSlot(u: Setup, s: Sys, c: Context)
    requires PlacesGood(u, s) && c.slot < |s.sched.slots| && s.sched.slots[c.slot].ctx == Some(c)
    ensures s.loop.created != Some(c) && s.loop.reserved != Some(c) && PushAction(c) !in s.actions
  {
    assert OutAt(s, c.slot) <= 1;
    if PushAction(c) in s.actions {
      PushesContain(s.actions, c);
    }
  }

  lemma RetireEffect(u: Setup, s: Sys, l: Label)
    requires (l.Finish? || l.Stall?) && Enabled(u, s, l)
    ensures Apply(u, s, l).sched.slots == s.sched.slots[l.i := Retired(s.sched.slots[l.i])]
    ensures Apply(u, s, l).loop == s.loop && Apply(u, s, l).actions == s.actions
  {
  }

  lemma StepAhead(u: Setup, s: Sys, l: Label, e: nat)
    requires SystemInv(u, s) && Enabled(u, s, l)
    ensures (if Retires(s, l, e) then 1 else 0) + (if Ahead(Apply(u, s, l), e) then 1 else 0)
         <= if Ahead(s, e) then 1 else 0
  {
    if Retires(s, l, e) {
      assert Upstream(s, s.sched.slots[l.i].ctx.value);
      RetireEffect(u, s, l);
      RetiredBehind(u, s, Apply(u, s, l), l.i, e);
    } else if !Ahead(s, e) {
      BehindStays(u, s, l, e);
    }
  }

  lemma {:induction false} RetirementsBounded(u: Setup, s: Sys, run: seq<Label>, t: Sys, e: nat)
    requires GoodSetup(u) && SystemInv(u, s) && Run(u, s, run, t)
    ensures Retirements(u, s, run, e) <= if Ahead(s, e) then 1 else 0
    decreases |run|
  {
    if run != [] {
      StepKeeps(u, s, run[0]);
      StepAhead(u, s, run[0], e);
      RetirementsBounded(u, Apply(u, s, run[0]), run[1..], t, e);
    }
  }

  /** No event is finished, stalled or dropped twice in any run. */
  lemma RetiredAtMostOnce(u: Setup, s: Sys, run: seq<Label>, t: Sys, e: nat)
    requires GoodSetup(u) && Init(u, s) && Run(u, s, run, t)
    ensures Retirements(u, s, run, e) <= 1
  {
    InitInv(u, s);
    RetirementsBounded(u, s, run, t, e);
  }

  // ----- delivered or dropped -------------------------------------------------------------

  /** The failure flags of the tasks of c that ended during a run. */
  function Flags(run: seq<Label>, c: Context): seq<bool> {
    if run == [] then []
    else (if run[0].EndExecution? && run[0].ts.ctx == c then [run[0].failed] else []) + Flags(run[1..], c)
  }

  function Fold(st: Status, flags: seq<bool>): Status
    decreases |flags|
  {
    if flags == [] then st else Fold(Updated(st, flags[0]), flags[1..])
  }

  lemma {:induction false} FoldVerdict(st: Status, flags: seq<bool>)
    requires st in {Invalid, Success, AlgFail}
    decreases |flags|
    ensures Fold(st, flags) == Success
       <==> st != AlgFail && true !in flags && (st == Success || flags != [])
  {
    if flags != [] {
      FoldVerdict(Updated(st, flags[0]), flags[1..]);
      assert flags == [flags[0]] + flags[1..];
    }
  }

  /** From its acceptance to its retirement: about to be pushed, pushed, or in its slot. */
  ghost predicate InPipe(s: Sys, c: Context) {
    || s.loop.reserved == Some(c) || PushAction(c) in s.actions
    || (c.slot < |s.sched.slots| && s.sched.slots[c.slot].ctx == Some(c))
  }

  /** The label retires c itself. */
  predicate RetiresContext(s: Sys, l: Label, c: Context) {
    && (l.Finish? || l.Stall?) && l.i == c.slot && l.i < |s.sched.slots| && s.sched.slots[l.i].ctx == Some(c)
  }

  lemma PipeKeptByScheduler(u: Setup, s: Sys, l: Label, c: Context)
    requires SlotsGood(u, s.sched.slots) && SchedLabel(l) && SchedEnabled(u, s, l)
    requires InPipe(s, c) && !RetiresContext(s, l, c) && !l.ExecPushFatal?
    ensures InPipe(SchedApply(u, s, l), c)
  {
    if SchedulingLabel(l) {
      SchedulingKeeps(u, s, l);
    }
  }

  lemma PipeKept(u: Setup, s: Sys, l: Label, c: Context)
    requires SystemInv(u, s) && Enabled(u, s, l) && InPipe(s, c) && !RetiresContext(s, l, c)
    ensures InPipe(Apply(u, s, l), c)
  {
    FatalBranchesDead(u, s);
    if SchedLabel(l) {
      PipeKeptByScheduler(u, s, l, c);
    } else {
      PipeKeptByOthers(u, s, l, c);
    }
  }

  lemma PipeKeptByOthers(u: Setup, s: Sys, l: Label, c: Context)
    requires !SchedLabel(l) && Enabled(u, s, l) && InPipe(s, c)
    ensures InPipe(Apply(u, s, l), c)
  {
    if PushAction(c) in s.actions {
      var j :| 0 <= j < |s.actions| && s.actions[j] == PushAction(c);
      assert |Apply(u, s, l).actions| >= |s.actions| && Apply(u, s, l).actions[j] == s.actions[j];
    } else if l.PushEvent? && s.loop.reserved == Some(c) {
      assert Apply(u, s, l).actions[|s.actions|] == PushAction(c);
    }
  }

  /** While c is on its way, its slot number belongs to nobody else. */
  lemma PipeOwnsSlot(u: Setup, s: Sys, c: Context)
    requires PlacesGood(u, s) && InPipe(s, c)
    ensures s.loop.created.Some? ==> s.loop.created.value.slot != c.slot
    ensures c.slot < |s.sched.slots| && s.sched.slots[c.slot].ctx.Some? ==> s.sched.slots[c.slot].ctx == Some(c)
  {
    assert OutAt(s, c.slot) <= 1;
    if PushAction(c) in s.actions {
      PushesContain(s.actions, c);
    }
  }

  /** A task that ends in c's slot is one of c's own. */
  lemma EndsOwn(u: Setup, s: Sys, ts: TaskSpec, c: Context)
    requires SystemInv(u, s) && ts in s.work.executing && InPipe(s, c) && ts.ctx.slot == c.slot
    ensures ts.ctx == c
  {
    assert ts in Live(s);
    ReferenceOccupies(u, s, ts);
    PipeOwnsSlot(u, s, c);
  }

  /** The event loop and the stall of another event do not write there. */
  lemma NotStalled(u: Setup, s: Sys, l: Label, c: Context)
    requires PlacesGood(u, s) && Enabled(u, s, l) && InPipe(s, c) && !RetiresContext(s, l, c)
    ensures l != Stall(c.slot) && (s.loop.created.Some? ==> s.loop.created.value.slot != c.slot)
  {
    PipeOwnsSlot(u, s, c);
  }

  /** So only the ends of c's own tasks change its status. */
  lemma StatusStep(u: Setup, s: Sys, l: Label, c: Context)
    requires SystemInv(u, s) && Enabled(u, s, l) && InPipe(s, c) && !RetiresContext(s, l, c) && c.slot < |s.status|
    ensures |Apply(u, s, l).status| == |s.status|
    ensures Apply(u, s, l).status[c.slot]
         == if l.EndExecution? && l.ts.ctx == c then Updated(s.status[c.slot], l.failed) else s.status[c.slot]
  {
    NotStalled(u, s, l, c);
    if l.EndExecution? && l.ts.ctx.slot == c.slot {
      EndsOwn(u, s, l.ts, c);
    }
    StatusWriters(u, s, l, c.slot);
  }

  lemma StatusWriters(u: Setup, s: Sys, l: Label, i: nat)
    requires Enabled(u, s, l) && i < |s.status| && l != Stall(i)
    requires (l.Reserve? || l.Skip? || l.PushRefused?) && s.loop.created.Some? ==> s.loop.created.value.slot != i
    ensures |Apply(u, s, l).status| == |s.status|
    ensures Apply(u, s, l).status[i]
         == if l.EndExecution? && l.ts.ctx.slot == i then Updated(s.status[i], l.failed) else s.status[i]
  {
    if SchedLabel(l) && SchedulingLabel(l) {
      SchedulingKeeps(u, s, l);
    }
  }

  lemma {:induction false} BehindForGood(u: Setup, s: Sys, run: seq<Label>, t: Sys, e: nat)
    requires GoodSetup(u) && SystemInv(u, s) && Run(u, s, run, t) && !Ahead(s, e)
    ensures !Ahead(t, e)
    decreases |run|
  {
    if run != [] {
      BehindStays(u, s, run[0], e);
      StepKeeps(u, s, run[0]);
      BehindForGood(u, Apply(u, s, run[0]), run[1..], t, e);
    }
  }

  /** A context that is in its slot at the end of a run was not retired by its first step. */
  lemma NotRetiredFirst(u: Setup, s: Sys, run: seq<Label>, t: Sys, c: Context)
    requires GoodSetup(u) && SystemInv(u, s) && Run(u, s, run, t) && run != []
    requires c.slot < |t.sched.slots| && t.sched.slots[c.slot].ctx == Some(c)
    ensures !RetiresContext(s, run[0], c)
  {
    if RetiresContext(s, run[0], c) {
      StepKeeps(u, s, run[0]);
      RetireEffect(u, s, run[0]);
      RetiredBehind(u, s, Apply(u, s, run[0]), c.slot, c.evt);
      BehindForGood(u, Apply(u, s, run[0]), run[1..], t, c.evt);
      assert Upstream(t, c);
    }
  }

  /** One step of the way. */
  lemma OnItsWay(u: Setup, s: Sys, run: seq<Label>, t: Sys, c: Context)
    requires GoodSetup(u) && SystemInv(u, s) && Run(u, s, run, t) && run != [] && InPipe(s, c) && c.slot < |s.status|
    requires c.slot < |t.sched.slots| && t.sched.slots[c.slot].ctx == Some(c)
    ensures var r := Apply(u, s, run[0]);
            && SystemInv(u, r) && InPipe(r, c) && c.slot < |r.status|
            && r.status[c.slot]
               == if run[0].EndExecution? && run[0].ts.ctx == c then Updated(s.status[c.slot], run[0].failed)
                  else s.status[c.slot]
  {
    NotRetiredFirst(u, s, run, t, c);
    StatusStep(u, s, run[0], c);
    PipeKept(u, s, run[0], c);
    StepKeeps(u, s, run[0]);
  }

  lemma FoldFirst(run: seq<Label>, c: Context, st: Status)
    requires run != []
    ensures Fold(st, Flags(run, c))
         == Fold(if run[0].EndExecution? && run[0].ts.ctx == c then Updated(st, run[0].failed) else st,
                 Flags(run[1..], c))
  {
    var rest := Flags(run[1..], c);
    if run[0].EndExecution? && run[0].ts.ctx == c {
      assert ([run[0].failed] + rest)[1..] == rest;
    } else {
      assert [] + rest == rest;
    }
  }

  /** Along a run on which c is on its way, its status is the verdict on its own ended tasks. */
  lemma {:induction false} StatusAlongRun(u: Setup, s: Sys, run: seq<Label>, t: Sys, c: Context)
    requires GoodSetup(u) && SystemInv(u, s) && Run(u, s, run, t) && InPipe(s, c) && c.slot < |s.status|
    requires c.slot < |t.sched.slots| && t.sched.slots[c.slot].ctx == Some(c)
    ensures c.slot < |t.status| && t.status[c.slot] == Fold(s.status[c.slot], Flags(run, c))
    decreases |run|
  {
    if run != [] {
      OnItsWay(u, s, run, t, c);
      FoldFirst(run, c, s.status[c.slot]);
      StatusAlongRun(u, Apply(u, s, run[0]), run[1..], t, c);
    }
  }

  /** Some task of c ended in the run, and none of them failed. */
  predicate EndedWell(run: seq<Label>, c: Context) {
    && (exists j :: 0 <= j < |run| && run[j].EndExecution? && run[j].ts.ctx == c)
    && (forall j :: 0 <= j < |run| && run[j].EndExecution? && run[j].ts.ctx == c ==> !run[j].failed)
  }

  lemma {:induction false} FlagsOf(run: seq<Label>, c: Context)
    ensures true in Flags(run, c) <==>
            exists j :: 0 <= j < |run| && run[j].EndExecution? && run[j].ts.ctx == c && run[j].failed
    ensures Flags(run, c) != [] <==> exists j :: 0 <= j < |run| && run[j].EndExecution? && run[j].ts.ctx == c
  {
    if run != [] {
      FlagsOf(run[1..], c);
      forall j | 0 <= j < |run|
        ensures j > 0 ==> run[1..][j - 1] == run[j]
      {
      }
      assert forall j :: 0 <= j < |run| - 1 ==> run[1..][j] == run[j + 1];
    }
  }

  lemma AcceptedInPipe(u: Setup, s: Sys, c: Context)
    requires s.loop.created == Some(c) && Enabled(u, s, Reserve)
    ensures var r := Apply(u, s, Reserve);
            InPipe(r, c) && c.slot < |r.status| && r.status[c.slot] == Invalid
  {
  }

  lemma VerdictAlongRun(u: Setup, s: Sys, run: seq<Label>, t: Sys, c: Context)
    requires GoodSetup(u) && SystemInv(u, s) && Run(u, s, run, t) && InPipe(s, c)
    requires c.slot < |s.status| && s.status[c.slot] == Invalid
    requires c.slot < |t.sched.slots| && t.sched.slots[c.slot].ctx == Some(c)
    ensures c.slot < |t.status| && (t.status[c.slot] == Success <==> EndedWell(run, c))
  {
    StatusAlongRun(u, s, run, t, c);
    FoldVerdict(Invalid, Flags(run, c));
    FlagsOf(run, c);
  }

  lemma FinishEffect(u: Setup, t: Sys, c: Context)
    requires SchedEnabled(u, t, Finish(c.slot)) && t.sched.slots[c.slot].ctx == Some(c)
    ensures c.slot < |t.status|
    ensures var delivered := t.status[c.slot] == Success;
            && SchedApply(u, t, Finish(c.slot)).finished == (if delivered then t.finished + [c] else t.finished)
            && SchedApply(u, t, Finish(c.slot)).dropped
               == (if delivered then t.dropped else t.dropped + multiset{c.slot})
  {
  }

  /**
    From the acceptance of event c to the moment its slot is found finished, whatever happens in
    between: the context is handed over if and only if some task of c ended and none of them failed.
    Otherwise it is dropped, and its slot with it.
  */
  lemma {:induction false} DeliveredIff(u: Setup, s: Sys, c: Context, run: seq<Label>, t: Sys)
    requires GoodSetup(u) && Reachable(u, s) && s.loop.created == Some(c) && Enabled(u, s, Reserve)
    requires Run(u, Apply(u, s, Reserve), run, t)
    requires SchedEnabled(u, t, Finish(c.slot)) && t.sched.slots[c.slot].ctx == Some(c)
    ensures SchedApply(u, t, Finish(c.slot)).finished == (if EndedWell(run, c) then t.finished + [c] else t.finished)
    ensures SchedApply(u, t, Finish(c.slot)).dropped
         == (if EndedWell(run, c) then t.dropped else t.dropped + multiset{c.slot})
  {
    assert EndedWell(run, c) <==> t.status[c.slot] == Success by {
      ReachableInv(u, s);
      StepKeeps(u, s, Reserve);
      AcceptedInPipe(u, s, c);
      VerdictAlongRun(u, Apply(u, s, Reserve), run, t, c);
    }
    FinishEffect(u, t, c);
  }

  lemma DroppedStepGrows(u: Setup, s: Sys, l: Label)
    requires Enabled(u, s, l)
    ensures s.dropped <= Apply(u, s, l).dropped
  {
    if SchedLabel(l) && SchedulingLabel(l) {
      SchedulingKeeps(u, s, l);
    }
  }

  lemma {:induction false} DroppedGrows(u: Setup, s: Sys, run: seq<Label>, t: Sys)
    requires Run(u, s, run, t)
    ensures s.dropped <= t.dropped
    decreases |run|
  {
    if run != [] {
      DroppedStepGrows(u, s, run[0]);
      DroppedGrows(u, Apply(u, s, run[0]), run[1..], t);
    }
  }

  /**
    After one drop the free-slot counter never again reaches its maximum, which is the only
    condition under which an active scheduler answers a pop without blocking for an event.
  */
  lemma DropIsForever(u: Setup, s: Sys, run: seq<Label>, t: Sys)
    requires GoodSetup(u) && Reachable(u, s) && Run(u, s, run, t) && s.dropped != multiset{}
    ensures t.freeSlots < u.slots
  {
    ReachableInv(u, s);
    RunKeeps(u, s, run, t);
    DroppedGrows(u, s, run, t);
    var i :| i in s.dropped;
    assert i in t.dropped;
    assert |t.dropped| > 0;
  }

  /** Nothing pushed, occupied, finished or being popped. */
  ghost predicate Quiescent(s: Sys) {
    && s.loop.reserved.None? && PendingPushes(s.actions) == 0 && Occupied(s.sched.slots) == {}
    && s.finished == [] && s.loop.popped.None?
  }

  /** At rest, all slots are free again exactly if no event was dropped. */
  lemma AllReturnedIff(u: Setup, s: Sys)
    requires GoodSetup(u) && Reachable(u, s) && Quiescent(s)
    ensures s.freeSlots == u.slots <==> s.dropped == multiset{}
  {
    ReachableInv(u, s);
    if s.dropped != multiset{} {
      assert |s.dropped| > 0;
    }
  }

  // ----- a run that loses an event -----------------------------------------------------------

  const OneSlot := Setup(1, 1, [0], Config({}, [{}], [false], [{0}]))

  function Fresh(): Sys {
    Sys(Sched([Slot(None, true, [INITIAL], -1, [])], [], 0, true, Idle),
        Work(multiset{}, 0, multiset{}, multiset{}, multiset{}, multiset{}, Pool({}, [[0]], map[], map[])),
        Loop(0, None, None, None, []), Board([None], [0]), [], [], 1, [Invalid], multiset{}, multiset{})
  }

  lemma FreshInit()
    ensures GoodSetup(OneSlot) && Init(OneSlot, Fresh())
  {
    assert Blank(1) == [INITIAL];
    assert Fresh().sched.slots == seq(1, i => Slot(None, true, Blank(1), -1, []));
    assert Fresh().board.partitions == seq(1, i => None) && Fresh().board.free == seq(1, i => i);
    assert multiset([0]) == multiset({0});
  }

  lemma {:induction false} RunExtended(u: Setup, s: Sys, run: seq<Label>, t: Sys, l: Label)
    requires Run(u, s, run, t) && Enabled(u, t, l)
    ensures Run(u, s, run + [l], Apply(u, t, l))
    decreases |run|
  {
    if run == [] {
      assert run + [l] == [l] && [l][1..] == [];
    } else {
      RunExtended(u, Apply(u, s, run[0]), run[1..], t, l);
      assert (run + [l])[0] == run[0] && (run + [l])[1..] == run[1..] + [l];
    }
  }

  lemma CreateThenReserve() returns (run: seq<Label>, t: Sys)
    ensures Run(OneSlot, Fresh(), run, t)
    ensures t == Fresh().(loop := Loop(1, None, Some(Context(0, 0)), None, []),
                          board := Board([Some(0)], []), freeSlots := 0)
  {
    var s := LoopApply(Fresh(), Create);
    assert s == Fresh().(loop := Loop(1, Some(Context(0, 0)), None, None, []), board := Board([Some(0)], []));
    t := LoopApply(s, Reserve);
    run := [Create, Reserve];
    assert Run(OneSlot, t, run[1..][1..], t);
    assert Run(OneSlot, s, run[1..], t);
  }

  /** The event loop creates event 0 and pushes it. */
  lemma AcceptedRun() returns (run: seq<Label>, t: Sys)
    ensures Run(OneSlot, Fresh(), run, t)
    ensures t == Fresh().(loop := Loop(1, None, None, None, []), board := Board([Some(0)], []),
                          freeSlots := 0, actions := [PushAction(Context(0, 0))])
  {
    var before, s := CreateThenReserve();
    t := LoopApply(s, PushEvent);
    run := before + [PushEvent];
    RunExtended(OneSlot, Fresh(), before, s, PushEvent);
  }

  lemma PushExecuted(s: Sys, after: Slot) returns (t: Sys)
    requires after == Slot(Some(Context(0, 0)), false, [INITIAL], 1, [])
    requires s == Fresh().(loop := Loop(1, None, None, None, []), board := Board([Some(0)], []),
                           freeSlots := 0, actions := [PushAction(Context(0, 0))])
    ensures SchedEnabled(OneSlot, s, ExecPush(after)) && t == SchedApply(OneSlot, s, ExecPush(after))
    ensures t == Fresh().(sched := Fresh().sched.(slots := [after]), loop := Loop(1, None, None, None, []),
                          board := Board([Some(0)], []), freeSlots := 0)
  {
    assert Blank(1) == [INITIAL];
    assert Promoted(ResetSlot(1, Context(0, 0)), after);
    assert SchedEnabled(OneSlot, s, ExecPush(after));
    t := SchedApply(OneSlot, s, ExecPush(after));
  }

  /** Its root decision resolves in the push action itself, before any task has run. */
  lemma PushedRun(after: Slot) returns (run: seq<Label>, t: Sys)
    requires after == Slot(Some(Context(0, 0)), false, [INITIAL], 1, [])
    ensures Run(OneSlot, Fresh(), run, t)
    ensures t == Fresh().(sched := Fresh().sched.(slots := [after]), loop := Loop(1, None, None, None, []),
                          board := Board([Some(0)], []), freeSlots := 0)
  {
    var before, s := AcceptedRun();
    t := PushExecuted(s, after);
    run := before + [ExecPush(after)];
    RunExtended(OneSlot, Fresh(), before, s, ExecPush(after));
  }

  /** Not every accepted event comes back: here one is dropped and the only slot never freed. */
  lemma DropOccurs()
    ensures exists t: Sys :: Reachable(OneSlot, t) && Quiescent(t) && t.freeSlots == 0 && t.dropped == multiset{0}
  {
    var after := Slot(Some(Context(0, 0)), false, [INITIAL], 1, []);
    var run, s := PushedRun(after);
    assert !HasAny(after, {CONTROLREADY, DATAREADY, SCHEDULED, RESOURCELESS});
    assert SchedEnabled(OneSlot, s, Finish(0));
    var t := Apply(OneSlot, s, Finish(0));
    RunExtended(OneSlot, Fresh(), run, s, Finish(0));
    FreshInit();
    assert Reachable(OneSlot, t);
    assert Occupied(t.sched.slots) == {};
    assert Quiescent(t);
  }
}
