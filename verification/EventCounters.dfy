/** The counters of the scheduler and of the event loop: nothing is lost without being recorded. */
module EventCounters {
  import opened Common
  import opened SchedulerState
  import opened TaskInvariants

  ghost function Some01(o: Option<Context>): nat {
    if o.Some? then 1 else 0
  }

  ghost function PendingPushes(actions: seq<Action>): nat {
    if actions == [] then 0 else (if actions[0].PushAction? then 1 else 0) + PendingPushes(actions[1..])
  }

  ghost function Occupied(slots: seq<Slot>): set<nat> {
    set i: nat | i < |slots| && slots[i].ctx.Some?
  }

  /** `m_freeSlots` counts what is free, in the loop's hands before a push or after a pop, or leaked. */
  ghost predicate FreeCountGood(s: Sys) {
    s.freeSlots == |s.board.free| + Some01(s.loop.created) + |s.loop.drained| + |s.leaked|
  }

  /** Every slot is free or accounted for by one accepted event. */
  ghost predicate ConservationGood(u: Setup, s: Sys) {
    s.freeSlots + Some01(s.loop.reserved) + PendingPushes(s.actions) + |Occupied(s.sched.slots)|
    + |s.finished| + Some01(s.loop.popped) + |s.dropped| == u.slots
  }

  ghost predicate CountersInv(u: Setup, s: Sys) {
    FreeCountGood(s) && ConservationGood(u, s)
  }

  lemma {:induction false} PendingAppend(actions: seq<Action>, a: Action)
    ensures PendingPushes(actions + [a]) == PendingPushes(actions) + if a.PushAction? then 1 else 0
  {
    if actions == [] {
      assert actions + [a] == [a] && [a][1..] == [];
    } else {
      assert (actions + [a])[1..] == actions[1..] + [a];
      PendingAppend(actions[1..], a);
    }
  }

  lemma OccupiedUpdate(slots: seq<Slot>, i: nat, sl: Slot)
    requires i < |slots|
    ensures |Occupied(slots[i := sl])|
         == |Occupied(slots)| - Some01(slots[i].ctx) + Some01(sl.ctx)
  {
    var before, after := Occupied(slots), Occupied(slots[i := sl]);
    if slots[i].ctx.Some? == sl.ctx.Some? {
      assert before == after;
    } else if sl.ctx.Some? {
      assert after == before + {i};
    } else {
      assert before == after + {i};
    }
  }

  /** An event in the loop's hands always finds a free slot: a push is never refused. */
  lemma PushNeverRefused(s: Sys)
    requires FreeCountGood(s)
    ensures !LoopEnabled(s, PushRefused)
  {
  }

  lemma LoopCounters(u: Setup, s: Sys, l: Label)
    requires CountersInv(u, s) && !SchedLabel(l) && !WorkLabel(l) && LoopEnabled(s, l)
    requires l.Flush? ==> s.board.partitions[s.loop.drained[0].slot].Some?
    requires l.Skip? ==> s.board.partitions[s.loop.created.value.slot].Some?
    ensures CountersInv(u, LoopApply(s, l))
  {
    if l.PushEvent? {
      PendingAppend(s.actions, PushAction(s.loop.reserved.value));
    }
    if l.PushRefused? {
      PushNeverRefused(s);
    }
  }

  lemma WorkCounters(u: Setup, s: Sys, l: Label)
    requires CountersInv(u, s) && WorkLabel(l) && WorkEnabled(u, s, l)
    ensures CountersInv(u, WorkApply(u, s, l))
  {
    var t := WorkApply(u, s, l);
    if t.actions != s.actions {
      PendingAppend(s.actions, t.actions[|s.actions|]);
    }
  }

  lemma ExecCounters(u: Setup, s: Sys, l: Label)
    requires SlotsGood(u, s.sched.slots) && CountersInv(u, s)
    requires (l.ExecPush? || l.ExecSignoff? || l.ExecView?) && SchedEnabled(u, s, l)
    ensures CountersInv(u, SchedApply(u, s, l))
  {
    var t := SchedApply(u, s, l);
    match s.actions[0]
    case PushAction(c) => OccupiedUpdate(s.sched.slots, c.slot, t.sched.slots[c.slot]);
    case SignoffAction(ts) => OccupiedUpdate(s.sched.slots, ts.ctx.slot, t.sched.slots[ts.ctx.slot]);
    case ViewAction(ts, _) => OccupiedUpdate(s.sched.slots, ts.ctx.slot, t.sched.slots[ts.ctx.slot]);
  }

  lemma RetireCounters(u: Setup, s: Sys, l: Label)
    requires CountersInv(u, s) && (l.Finish? || l.Stall?) && SchedEnabled(u, s, l)
    ensures CountersInv(u, SchedApply(u, s, l))
  {
    OccupiedUpdate(s.sched.slots, l.i, Retired(s.sched.slots[l.i]));
  }

  lemma CountersFrame(u: Setup, s: Sys, t: Sys)
    requires CountersInv(u, s) && SchedulingFrame(s, t)
    ensures CountersInv(u, t)
  {
    assert Occupied(t.sched.slots) == Occupied(s.sched.slots);
  }

  lemma SchedCounters(u: Setup, s: Sys, l: Label)
    requires SlotsGood(u, s.sched.slots) && CountersInv(u, s)
    requires SchedLabel(l) && l != ExecPushFatal && SchedEnabled(u, s, l)
    ensures CountersInv(u, SchedApply(u, s, l))
  {
    if l.ExecPush? || l.ExecSignoff? || l.ExecView? {
      ExecCounters(u, s, l);
    } else if l.Finish? || l.Stall? {
      RetireCounters(u, s, l);
    } else {
      SchedulingKeeps(u, s, l);
      CountersFrame(u, s, SchedApply(u, s, l));
    }
  }
}
