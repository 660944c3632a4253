/**
  Who has a slot number: the whiteboard's free queue, the event loop, a pending push action, the
  scheduler, the queue of finished events, or nobody any more. For every number the places that
  have it add up to one, and the totals give the conservation laws of the event counters.
*/
module SlotCustody {
  import opened Common
  import opened SchedulerState
  import opened TaskInvariants

  // ----- how often a slot number occurs -------------------------------------------

  ghost function At(o: Option<Context>, i: nat): nat {
    if o.Some? && o.value.slot == i then 1 else 0
  }

  ghost function ContextsAt(q: seq<Context>, i: nat): nat {
    if q == [] then 0 else (if q[0].slot == i then 1 else 0) + ContextsAt(q[1..], i)
  }

  ghost function PushesAt(actions: seq<Action>, i: nat): nat {
    if actions == [] then 0
    else (if actions[0].PushAction? && actions[0].ctx.slot == i then 1 else 0) + PushesAt(actions[1..], i)
  }

  ghost function OccupiedAt(slots: seq<Slot>, i: nat): nat {
    if i < |slots| && slots[i].ctx.Some? then 1 else 0
  }

  /** In the hands of the event loop, and of nobody: dropped by the scheduler or never freed. */
  ghost function LoopAt(s: Sys, i: nat): nat {
    At(s.loop.created, i) + At(s.loop.reserved, i) + At(s.loop.popped, i) + ContextsAt(s.loop.drained, i)
  }

  ghost function LostAt(s: Sys, i: nat): nat {
    s.dropped[i] + s.leaked[i]
  }

  /** Occurrences away from the whiteboard's free queue. */
  ghost function OutAt(s: Sys, i: nat): nat {
    LoopAt(s, i) + PushesAt(s.actions, i) + OccupiedAt(s.sched.slots, i) + ContextsAt(s.finished, i) + LostAt(s, i)
  }

  // ----- the invariants -----------------------------------------------------------

  /** Every slot number is in exactly one place. */
  ghost predicate PlacesGood(u: Setup, s: Sys) {
    forall i: nat :: multiset(s.board.free)[i] + OutAt(s, i) == if i < u.slots then 1 else 0
  }

  /** The context is live somewhere between its creation and its deletion. */
  ghost predicate InHand(s: Sys, c: Context) {
    || s.loop.created == Some(c) || s.loop.reserved == Some(c) || s.loop.popped == Some(c)
    || PushAction(c) in s.actions || c in s.finished || c in s.loop.drained
    || (c.slot < |s.sched.slots| && s.sched.slots[c.slot].ctx == Some(c))
  }

  /** The whiteboard knows each live context under its own slot, and no event twice. */
  ghost predicate BoardGood(u: Setup, s: Sys) {
    && |s.board.partitions| == u.slots && |s.status| == u.slots
    && (forall c :: InHand(s, c) ==> c.slot < u.slots && s.board.partitions[c.slot] == Some(c.evt))
    && (forall i :: i in s.board.free ==> i < u.slots && s.board.partitions[i].None?)
    && (forall i :: 0 <= i < u.slots && s.board.partitions[i].Some? ==> s.board.partitions[i].value < s.loop.nevt)
    && (forall i, j :: 0 <= i < j < u.slots && s.board.partitions[i].Some? ==>
          s.board.partitions[i] != s.board.partitions[j])
  }

  ghost predicate CustodyInv(u: Setup, s: Sys) {
    SlotsGood(u, s.sched.slots) && PlacesGood(u, s) && BoardGood(u, s)
  }

  // ----- sequences ------------------------------------------------------------------

  lemma {:induction false} PushesAppend(actions: seq<Action>, a: Action, i: nat)
    ensures PushesAt(actions + [a], i)
         == PushesAt(actions, i) + if a.PushAction? && a.ctx.slot == i then 1 else 0
  {
    if actions == [] {
      assert actions + [a] == [a] && [a][1..] == [];
    } else {
      assert (actions + [a])[1..] == actions[1..] + [a];
      PushesAppend(actions[1..], a, i);
    }
  }

  lemma {:induction false} ContextsAppend(q: seq<Context>, c: Context, i: nat)
    ensures ContextsAt(q + [c], i) == ContextsAt(q, i) + if c.slot == i then 1 else 0
  {
    if q == [] {
      assert q + [c] == [c] && [c][1..] == [];
    } else {
      assert (q + [c])[1..] == q[1..] + [c];
      ContextsAppend(q[1..], c, i);
    }
  }

  lemma {:induction false} ContextsContain(q: seq<Context>, c: Context)
    requires c in q
    ensures ContextsAt(q, c.slot) >= 1
  {
    if q[0] != c {
      ContextsContain(q[1..], c);
    }
  }

  lemma {:induction false} PushesContain(actions: seq<Action>, c: Context)
    requires PushAction(c) in actions
    ensures PushesAt(actions, c.slot) >= 1
  {
    if actions[0] != PushAction(c) {
      PushesContain(actions[1..], c);
    }
  }

  lemma InHandOut(s: Sys, c: Context)
    requires InHand(s, c)
    ensures OutAt(s, c.slot) >= 1
  {
    if PushAction(c) in s.actions {
      PushesContain(s.actions, c);
    }
    if c in s.finished {
      ContextsContain(s.finished, c);
    }
    if c in s.loop.drained {
      ContextsContain(s.loop.drained, c);
    }
  }

  lemma HeadTail<T>(q: seq<T>)
    requires q != []
    ensures forall x :: x in q <==> x == q[0] || x in q[1..]
    ensures multiset(q) == multiset{q[0]} + multiset(q[1..])
  {
    assert q == [q[0]] + q[1..];
  }

  // ----- keeping the whiteboard ----------------------------------------------------

  /** Steps that neither touch the whiteboard nor bring contexts in keep it good. */
  lemma BoardKept(u: Setup, s: Sys, t: Sys)
    requires BoardGood(u, s) && t.board == s.board && t.loop.nevt == s.loop.nevt && |t.status| == |s.status|
    requires forall c :: InHand(t, c) ==> InHand(s, c)
    ensures BoardGood(u, t)
  {
  }

  lemma CreateBoard(u: Setup, s: Sys)
    requires PlacesGood(u, s) && BoardGood(u, s) && LoopEnabled(s, Create)
    ensures BoardGood(u, LoopApply(s, Create))
  {
    var t := LoopApply(s, Create);
    var i := s.board.free[0];
    HeadTail(s.board.free);
    forall c | InHand(t, c) ensures c.slot < u.slots && t.board.partitions[c.slot] == Some(c.evt) {
      if t.loop.created != Some(c) {
        assert InHand(s, c);
        InHandOut(s, c);
        assert multiset(s.board.free)[i] >= 1;
      }
    }
    assert multiset(s.board.free)[i] + OutAt(s, i) <= 1;
  }

  lemma CreateCustody(u: Setup, s: Sys)
    requires CustodyInv(u, s) && LoopEnabled(s, Create)
    ensures CustodyInv(u, LoopApply(s, Create))
  {
    var t := LoopApply(s, Create);
    HeadTail(s.board.free);
    forall i: nat ensures OutAt(t, i) == OutAt(s, i) + if i == s.board.free[0] then 1 else 0 {
    }
    forall i: nat
      ensures multiset(s.board.free)[i] == multiset(t.board.free)[i] + if i == s.board.free[0] then 1 else 0 {
    }
    CreateBoard(u, s);
  }

  /** Freeing the slot of a context that leaves every hand. */
  lemma FreedBoard(u: Setup, s: Sys, t: Sys, c: Context)
    requires PlacesGood(u, s) && BoardGood(u, s) && InHand(s, c)
    requires t.board == Freed(s.board, c.slot) && t.loop.nevt == s.loop.nevt && |t.status| == |s.status|
    requires forall i: nat :: OutAt(s, i) == OutAt(t, i) + if i == c.slot then 1 else 0
    requires forall d :: InHand(t, d) ==> InHand(s, d)
    ensures BoardGood(u, t) && PlacesGood(u, t)
  {
    assert OutAt(t, c.slot) == 0 && multiset(s.board.free)[c.slot] == 0;
    forall d | InHand(t, d) ensures d.slot != c.slot {
      InHandOut(t, d);
    }
    assert multiset(t.board.free) == multiset(s.board.free) + multiset{c.slot};
  }

  lemma SkipCustody(u: Setup, s: Sys)
    requires CustodyInv(u, s) && LoopEnabled(s, Skip)
    ensures CustodyInv(u, LoopApply(s, Skip))
  {
    assert InHand(s, s.loop.created.value);
    FreedBoard(u, s, LoopApply(s, Skip), s.loop.created.value);
  }

  lemma FlushCustody(u: Setup, s: Sys)
    requires CustodyInv(u, s) && LoopEnabled(s, Flush)
    ensures CustodyInv(u, LoopApply(s, Flush))
  {
    HeadTail(s.loop.drained);
    assert InHand(s, s.loop.drained[0]);
    FreedBoard(u, s, LoopApply(s, Flush), s.loop.drained[0]);
  }

  /** Steps of the event loop that only hand a number on. */
  lemma MovedCustody(u: Setup, s: Sys, t: Sys)
    requires CustodyInv(u, s) && t.sched == s.sched && t.board == s.board && t.loop.nevt == s.loop.nevt
    requires |t.status| == |s.status|
    requires forall i: nat :: LoopAt(t, i) + PushesAt(t.actions, i) + ContextsAt(t.finished, i) + LostAt(t, i)
                           == LoopAt(s, i) + PushesAt(s.actions, i) + ContextsAt(s.finished, i) + LostAt(s, i)
    requires forall c :: InHand(t, c) ==> InHand(s, c)
    ensures CustodyInv(u, t)
  {
    forall i: nat ensures OutAt(t, i) == OutAt(s, i) {
    }
    BoardKept(u, s, t);
  }

  lemma PushEventCustody(u: Setup, s: Sys)
    requires CustodyInv(u, s) && LoopEnabled(s, PushEvent)
    ensures CustodyInv(u, LoopApply(s, PushEvent))
  {
    forall i: nat { PushesAppend(s.actions, PushAction(s.loop.reserved.value), i); }
    MovedCustody(u, s, LoopApply(s, PushEvent));
  }

  lemma PopFinishedCustody(u: Setup, s: Sys)
    requires CustodyInv(u, s) && LoopEnabled(s, PopFinished)
    ensures CustodyInv(u, LoopApply(s, PopFinished))
  {
    HeadTail(s.finished);
    MovedCustody(u, s, LoopApply(s, PopFinished));
  }

  lemma CountPoppedCustody(u: Setup, s: Sys)
    requires CustodyInv(u, s) && LoopEnabled(s, CountPopped)
    ensures CustodyInv(u, LoopApply(s, CountPopped))
  {
    forall i: nat { ContextsAppend(s.loop.drained, s.loop.popped.value, i); }
    MovedCustody(u, s, LoopApply(s, CountPopped));
  }

  /** The event loop moves numbers along one way: created, reserved, pushed; popped, drained. */
  lemma LoopCustody(u: Setup, s: Sys, l: Label)
    requires CustodyInv(u, s) && !SchedLabel(l) && !WorkLabel(l) && LoopEnabled(s, l)
    requires l != PushRefused
    ensures CustodyInv(u, LoopApply(s, l))
  {
    match l
    case Create => CreateCustody(u, s);
    case Skip => SkipCustody(u, s);
    case EndInput => MovedCustody(u, s, LoopApply(s, l));
    case Reserve => MovedCustody(u, s, LoopApply(s, l));
    case PushEvent => PushEventCustody(u, s);
    case PopFinished => PopFinishedCustody(u, s);
    case CountPopped => CountPoppedCustody(u, s);
    case Flush => FlushCustody(u, s);
  }

  // ----- scheduler thread and workers -------------------------------------------------

  lemma FrameCustody(u: Setup, s: Sys, t: Sys)
    requires CustodyInv(u, s) && SlotsGood(u, t.sched.slots)
    requires forall i :: 0 <= i < |s.sched.slots| ==> t.sched.slots[i].ctx == s.sched.slots[i].ctx
    requires forall i: nat :: PushesAt(t.actions, i) == PushesAt(s.actions, i)
    requires forall c :: PushAction(c) in t.actions ==> PushAction(c) in s.actions
    requires t.board == s.board && t.loop == s.loop && t.finished == s.finished
    requires t.dropped == s.dropped && t.leaked == s.leaked && |t.status| == |s.status|
    ensures CustodyInv(u, t)
  {
    forall i: nat ensures OutAt(t, i) == OutAt(s, i) {
    }
    BoardKept(u, s, t);
  }

  lemma WorkCustody(u: Setup, s: Sys, l: Label)
    requires CustodyInv(u, s) && WorkLabel(l) && WorkEnabled(u, s, l)
    ensures CustodyInv(u, WorkApply(u, s, l))
  {
    var t := WorkApply(u, s, l);
    if t.actions != s.actions {
      var a := t.actions[|s.actions|];
      forall i: nat { PushesAppend(s.actions, a, i); }
    }
    FrameCustody(u, s, t);
  }

  lemma ExecPushCustody(u: Setup, s: Sys, after: Slot)
    requires CustodyInv(u, s) && SchedEnabled(u, s, ExecPush(after))
    requires SlotsGood(u, SchedApply(u, s, ExecPush(after)).sched.slots)
    ensures CustodyInv(u, SchedApply(u, s, ExecPush(after)))
  {
    var t := SchedApply(u, s, ExecPush(after));
    var c := s.actions[0].ctx;
    HeadTail(s.actions);
    forall i: nat ensures OutAt(t, i) == OutAt(s, i) {
    }
    BoardKept(u, s, t);
  }

  /** The number of a retired slot moves on: to the finished events, or to the lost ones. */
  lemma RetirePlaces(u: Setup, s: Sys, t: Sys, i: nat)
    requires SlotsGood(u, s.sched.slots) && PlacesGood(u, s) && i < |s.sched.slots| && s.sched.slots[i].ctx.Some?
    requires t.sched.slots == s.sched.slots[i := Retired(s.sched.slots[i])]
    requires t.board == s.board && t.loop == s.loop && t.actions == s.actions && t.leaked == s.leaked
    requires || (t.finished == s.finished + [s.sched.slots[i].ctx.value] && t.dropped == s.dropped)
             || (t.finished == s.finished && t.dropped == s.dropped + multiset{i})
    ensures PlacesGood(u, t)
  {
    forall k: nat ensures OutAt(t, k) == OutAt(s, k) {
      ContextsAppend(s.finished, s.sched.slots[i].ctx.value, k);
      assert LoopAt(t, k) == LoopAt(s, k);
      assert OccupiedAt(t.sched.slots, k) == OccupiedAt(s.sched.slots, k) - if k == i then 1 else 0;
    }
  }

  lemma RetireCustody(u: Setup, s: Sys, l: Label)
    requires CustodyInv(u, s) && (l.Finish? || l.Stall?) && SchedEnabled(u, s, l)
    ensures CustodyInv(u, SchedApply(u, s, l))
  {
    var t := SchedApply(u, s, l);
    RetirePlaces(u, s, t, l.i);
    BoardKept(u, s, t);
  }

  /** A pending push addresses an empty slot, so the fatal branch of the push action is dead. */
  lemma PushFindsSlotComplete(u: Setup, s: Sys, c: Context)
    requires CustodyInv(u, s) && PushAction(c) in s.actions
    ensures c.slot < |s.sched.slots| && s.sched.slots[c.slot].complete && s.sched.slots[c.slot].ctx.None?
  {
    PushesContain(s.actions, c);
    assert InHand(s, c);
    assert OutAt(s, c.slot) <= 1;
  }

  lemma SchedCustody(u: Setup, s: Sys, l: Label)
    requires CustodyInv(u, s) && SchedLabel(l) && SchedEnabled(u, s, l)
    requires SlotsGood(u, SchedApply(u, s, l).sched.slots)
    ensures CustodyInv(u, SchedApply(u, s, l))
  {
    if l.ExecPush? {
      ExecPushCustody(u, s, l.after);
    } else if l.ExecPushFatal? {
      PushNotFatal(u, s);
    } else if l.Finish? || l.Stall? {
      RetireCustody(u, s, l);
    } else if l.ExecSignoff? || l.ExecView? {
      ExecOtherCustody(u, s, l);
    } else {
      ScheduleCustody(u, s, l);
    }
  }

  lemma PushNotFatal(u: Setup, s: Sys)
    requires CustodyInv(u, s)
    ensures !SchedEnabled(u, s, ExecPushFatal)
  {
    if s.actions != [] && s.actions[0].PushAction? {
      assert s.actions[0] in s.actions;
      PushFindsSlotComplete(u, s, s.actions[0].ctx);
    }
  }

  lemma ExecOtherCustody(u: Setup, s: Sys, l: Label)
    requires CustodyInv(u, s) && (l.ExecSignoff? || l.ExecView?) && SchedEnabled(u, s, l)
    requires SlotsGood(u, SchedApply(u, s, l).sched.slots)
    ensures CustodyInv(u, SchedApply(u, s, l))
  {
    FrameCustody(u, s, SchedApply(u, s, l));
  }

  lemma ScheduleCustody(u: Setup, s: Sys, l: Label)
    requires CustodyInv(u, s) && SchedulingLabel(l) && SchedLabel(l) && SchedEnabled(u, s, l)
    requires SlotsGood(u, SchedApply(u, s, l).sched.slots)
    ensures CustodyInv(u, SchedApply(u, s, l))
  {
    SchedulingKeeps(u, s, l);
    FrameCustody(u, s, SchedApply(u, s, l));
  }
}
