/** How many algorithms of a slot and its sub-slots are in given states. */
module SlotCounts {
  import opened Common
  import opened AlgsExecutionStates
  import opened SchedulerState

  function CountIn(states: seq<State>, among: set<State>): nat {
    if states == [] then 0 else (if states[0] in among then 1 else 0) + CountIn(states[1..], among)
  }

  function CountSubs(subs: seq<seq<State>>, among: set<State>): nat {
    if subs == [] then 0 else CountIn(subs[0], among) + CountSubs(subs[1..], among)
  }

  function SlotCount(sl: Slot, among: set<State>): nat {
    CountIn(sl.states, among) + CountSubs(sl.subs, among)
  }

  /** From a to b no algorithm comes into these states. */
  ghost predicate Leaving(a: seq<State>, b: seq<State>, among: set<State>) {
    |a| == |b| && forall k :: 0 <= k < |a| && b[k] in among ==> a[k] in among
  }

  ghost predicate SlotLeaving(a: Slot, b: Slot, among: set<State>) {
    && Leaving(a.states, b.states, among) && |a.subs| == |b.subs|
    && forall j :: 0 <= j < |a.subs| ==> Leaving(a.subs[j], b.subs[j], among)
  }

  lemma {:induction false} CountLess(a: seq<State>, b: seq<State>, among: set<State>)
    requires Leaving(a, b, among)
    ensures CountIn(b, among) <= CountIn(a, among)
    ensures (exists k :: 0 <= k < |a| && a[k] in among && b[k] !in among) ==> CountIn(b, among) < CountIn(a, among)
    decreases |a|
  {
    if a != [] {
      assert a == [a[0]] + a[1..] && b == [b[0]] + b[1..];
      CountLess(a[1..], b[1..], among);
      if k :| 0 < k < |a| && a[k] in among && b[k] !in among {
        assert a[1..][k - 1] == a[k] && b[1..][k - 1] == b[k];
      }
    }
  }

  lemma {:induction false} CountSubsLess(a: seq<seq<State>>, b: seq<seq<State>>, among: set<State>)
    requires |a| == |b| && forall j :: 0 <= j < |a| ==> Leaving(a[j], b[j], among)
    ensures CountSubs(b, among) <= CountSubs(a, among)
    ensures (exists j :: 0 <= j < |a| && CountIn(b[j], among) < CountIn(a[j], among)) ==>
              CountSubs(b, among) < CountSubs(a, among)
    decreases |a|
  {
    if a != [] {
      assert a == [a[0]] + a[1..] && b == [b[0]] + b[1..];
      CountLess(a[0], b[0], among);
      CountSubsLess(a[1..], b[1..], among);
      if j :| 0 < j < |a| && CountIn(b[j], among) < CountIn(a[j], among) {
        assert a[1..][j - 1] == a[j] && b[1..][j - 1] == b[j];
      }
    }
  }

  lemma SlotCountLess(a: Slot, b: Slot, among: set<State>)
    requires SlotLeaving(a, b, among)
    ensures SlotCount(b, among) <= SlotCount(a, among)
  {
    CountLess(a.states, b.states, among);
    CountSubsLess(a.subs, b.subs, among);
  }

  /** One that leaves lowers the count. */
  lemma OneLeft(a: Slot, b: Slot, sub: Option<nat>, alg: nat, among: set<State>)
    requires SlotLeaving(a, b, among) && SlotState(a, sub, alg).Some? && SlotState(b, sub, alg).Some?
    requires SlotState(a, sub, alg).value in among && SlotState(b, sub, alg).value !in among
    ensures SlotCount(b, among) < SlotCount(a, among)
  {
    CountLess(a.states, b.states, among);
    CountSubsLess(a.subs, b.subs, among);
    if sub.Some? {
      CountLess(a.subs[sub.value], b.subs[sub.value], among);
    }
  }

  lemma {:induction false} CountSubsAppend(subs: seq<seq<State>>, v: seq<State>, among: set<State>)
    ensures CountSubs(subs + [v], among) == CountSubs(subs, among) + CountIn(v, among)
  {
    if subs == [] {
      assert subs + [v] == [v] && [v][1..] == [];
    } else {
      assert (subs + [v])[1..] == subs[1..] + [v];
      CountSubsAppend(subs[1..], v, among);
    }
  }

  lemma {:induction false} CountBound(states: seq<State>, among: set<State>)
    ensures CountIn(states, among) <= |states|
  {
    if states != [] {
      CountBound(states[1..], among);
    }
  }

  /** A view adds at most one algorithm of each kind. */
  lemma ViewedCount(algs: nat, sl: Slot, attach: bool, among: set<State>)
    ensures SlotCount(Viewed(algs, sl, attach), among) <= SlotCount(sl, among) + (if attach then algs else 0)
  {
    CountSubsAppend(sl.subs, Blank(algs), among);
    CountBound(Blank(algs), among);
  }

  lemma {:induction false} CountWhere(states: seq<State>, k: nat, among: set<State>)
    requires k < |states| && states[k] in among
    ensures CountIn(states, among) > 0
  {
    if k > 0 {
      CountWhere(states[1..], k - 1, among);
    }
  }

  lemma {:induction false} CountSubsWhere(subs: seq<seq<State>>, j: nat, among: set<State>)
    requires j < |subs| && CountIn(subs[j], among) > 0
    ensures CountSubs(subs, among) > 0
  {
    if j > 0 {
      CountSubsWhere(subs[1..], j - 1, among);
    }
  }

  lemma SlotCountWhere(sl: Slot, sub: Option<nat>, alg: nat, among: set<State>)
    requires SlotState(sl, sub, alg).Some? && SlotState(sl, sub, alg).value in among
    ensures SlotCount(sl, among) > 0
  {
    match sub
    case None => CountWhere(sl.states, alg, among);
    case Some(j) =>
      CountWhere(sl.subs[j], alg, among);
      CountSubsWhere(sl.subs, j, among);
  }
}
