/**
  An event slot: the context of its event, the algorithm and control flow states, and the sub-slots
  that event views attach to control flow nodes.
*/
module EventSlots {
  import opened Common
  import opened AlgsExecutionStates

  // --- the bookkeeping of views as a value

  /** `entries` names the node of each sub-slot; `byNode` lists the sub-slots of each registered node. */
  datatype Views = Views(byNode: map<string, seq<nat>>, entries: seq<string>)

  datatype ViewOp = Add(node: string) | Disable(node: string) | Clear

  function ApplyView(v: Views, op: ViewOp): Views {
    match op
    case Add(node) =>
      var before := if node in v.byNode then v.byNode[node] else [];
      Views(v.byNode[node := before + [|v.entries|]], v.entries + [node])
    case Disable(node) =>
      // emplace: a node that is registered already keeps its list
      if node in v.byNode then v else v.(byNode := v.byNode[node := []])
    case Clear => Views(map[], [])
  }

  function ApplyViews(v: Views, ops: seq<ViewOp>): Views
    decreases |ops|
  {
    if ops == [] then v else ApplyView(ApplyViews(v, ops[..|ops| - 1]), ops[|ops| - 1])
  }

  ghost predicate Increasing(l: seq<nat>) {
    forall i, j :: 0 <= i < j < |l| ==> l[i] < l[j]
  }

  /** The list holds sub-slots entered at the node only. */
  ghost predicate ListsOnly(l: seq<nat>, entries: seq<string>, node: string) {
    forall i :: 0 <= i < |l| ==> l[i] < |entries| && entries[l[i]] == node
  }

  /** Each list is strictly increasing and holds exactly the sub-slots entered at its node; none is unlisted. */
  ghost predicate ViewsGood(v: Views) {
    && (forall n :: n in v.byNode ==> Increasing(v.byNode[n]) && ListsOnly(v.byNode[n], v.entries, n))
    && (forall k :: 0 <= k < |v.entries| ==> v.entries[k] in v.byNode && k in v.byNode[v.entries[k]])
  }

  lemma ApplyViewGood(v: Views, op: ViewOp)
    requires ViewsGood(v)
    ensures ViewsGood(ApplyView(v, op))
  {
    if op.Add? {
      AddGood(v, op.node);
    }
  }

  lemma AddGood(v: Views, node: string)
    requires ViewsGood(v)
    ensures ViewsGood(ApplyView(v, Add(node)))
  {
    var w := ApplyView(v, Add(node));
    var before: seq<nat> := if node in v.byNode then v.byNode[node] else [];
    assert w.byNode[node] == before + [|v.entries|];
    forall n | n in w.byNode
      ensures Increasing(w.byNode[n]) && ListsOnly(w.byNode[n], w.entries, n)
    {
      assert n != node ==> ListsOnly(v.byNode[n], v.entries, n);
    }
    forall k | 0 <= k < |w.entries|
      ensures w.entries[k] in w.byNode && k in w.byNode[w.entries[k]]
    {
      if k < |v.entries| {
        KeepsListed(before, |v.entries|, k);
      } else {
        assert w.byNode[node][|before|] == k;
      }
    }
  }

  lemma KeepsListed(l: seq<nat>, x: nat, k: nat)
    ensures k in l ==> k in l + [x]
  {
  }

  lemma {:induction false} HistoryGood(ops: seq<ViewOp>)
    ensures ViewsGood(ApplyViews(Views(map[], []), ops))
    decreases |ops|
  {
    if ops != [] {
      HistoryGood(ops[..|ops| - 1]);
      ApplyViewGood(ApplyViews(Views(map[], []), ops[..|ops| - 1]), ops[|ops| - 1]);
    }
  }

  lemma IncreasingInjective(l: seq<nat>, i: nat, j: nat)
    requires Increasing(l) && i < |l| && j < |l| && l[i] == l[j]
    ensures i == j
  {
  }

  /** After any history the lists partition the sub-slots: each is at one place of one list. */
  lemma {:induction false} HistoryPartition(ops: seq<ViewOp>, k: nat, n: string, i: nat, m: string, j: nat)
    requires var v := ApplyViews(Views(map[], []), ops);
             && n in v.byNode && i < |v.byNode[n]| && v.byNode[n][i] == k
             && m in v.byNode && j < |v.byNode[m]| && v.byNode[m][j] == k
    ensures n == m && i == j
    ensures var v := ApplyViews(Views(map[], []), ops); k < |v.entries| && v.entries[k] == n
  {
    HistoryGood(ops);
    var v := ApplyViews(Views(map[], []), ops);
    assert v.entries[v.byNode[n][i]] == n && v.entries[v.byNode[m][j]] == m;
    assert Increasing(v.byNode[n]);
    IncreasingInjective(v.byNode[n], i, j);
  }

  /** The node was named by an operation of this kind since the last clearing. */
  predicate Since(ops: seq<ViewOp>, op: ViewOp)
    decreases |ops|
  {
    ops != [] && ops[|ops| - 1] != Clear && (ops[|ops| - 1] == op || Since(ops[..|ops| - 1], op))
  }

  /**
    A node counts as having no views (registered with an empty list) exactly when it was disabled and
    no view was ever attached to it: disabling an attached node does nothing, attaching overrides.
  */
  lemma {:induction false} DisabledIff(ops: seq<ViewOp>, node: string)
    ensures var v := ApplyViews(Views(map[], []), ops);
            && (node in v.byNode <==> Since(ops, Add(node)) || Since(ops, Disable(node)))
            && (node in v.byNode && v.byNode[node] == [] <==> Since(ops, Disable(node)) && !Since(ops, Add(node)))
    decreases |ops|
  {
    if ops != [] {
      DisabledIff(ops[..|ops| - 1], node);
    }
  }

  // --- the slot object

  class EventContext {
    const evt: nat
    var slot: nat
    var subSlot: Option<nat>

    constructor (evt: nat, slot: nat)
      ensures this.evt == evt && this.slot == slot && subSlot == None
    {
      this.evt := evt;
      this.slot := slot;
      subSlot := None;
    }
  }

  class EventSlot {
    var eventContext: EventContext?
    var algsStates: AlgsStates
    var controlFlowState: seq<int>
    var complete: bool
    var entryPoint: string
    var parentSlot: EventSlot?
    var subSlotsByNode: map<string, seq<nat>>
    var allSubSlots: seq<EventSlot>
    ghost var entries: seq<string>

    ghost function ViewsOf(): Views
      reads this
    {
      Views(subSlotsByNode, entries)
    }

    ghost function Contexts(): set<EventContext?>
      reads this, allSubSlots
    {
      set s | s in allSubSlots :: s.eventContext
    }

    /** Sub-slot i is a child of this slot, entered at its node, and its context records i. */
    ghost predicate Valid()
      reads this, allSubSlots, Contexts()
    {
      ViewsGood(ViewsOf()) && ChildrenGood()
    }

    ghost predicate ChildrenGood()
      reads this, allSubSlots, Contexts()
    {
      && |entries| == |allSubSlots|
      && (forall i, j :: 0 <= i < j < |allSubSlots| ==> allSubSlots[i] != allSubSlots[j])
      && (forall i :: 0 <= i < |allSubSlots| ==> allSubSlots[i] != this && allSubSlots[i].ChildAt(this, i, entries[i]))
    }

    ghost predicate ChildAt(parent: EventSlot, i: nat, node: string)
      reads this, eventContext
    {
      && parentSlot == parent && entryPoint == node
      && eventContext != null && eventContext.subSlot == Some(i)
    }

    ghost predicate StatesValid()
      reads this, algsStates, algsStates.m_states, algsStates.m_algsInState
    {
      algsStates.Valid()
    }

    constructor (numberOfAlgorithms: nat, numberOfControlFlowNodes: nat)
      ensures Valid() && StatesValid() && ViewsOf() == Views(map[], [])
      ensures fresh(algsStates) && fresh(algsStates.m_states) && fresh(algsStates.m_algsInState)
      ensures algsStates.m_states[..] == seq(numberOfAlgorithms, i => INITIAL)
      ensures controlFlowState == seq(numberOfControlFlowNodes, i => -1)
      ensures eventContext == null && parentSlot == null && !complete && entryPoint == ""
    {
      eventContext, parentSlot, entryPoint, complete := null, null, "", false;
      algsStates := new AlgsStates(numberOfAlgorithms);
      controlFlowState := seq(numberOfControlFlowNodes, i => -1);
      subSlotsByNode, allSubSlots, entries := map[], [], [];
    }

    /** A sub-slot of `original`: its control flow states are copied, its algorithm states start over. */
    constructor Sub(original: EventSlot, theeventContext: EventContext, nodeName: string)
      requires original.StatesValid()
      ensures Valid() && StatesValid() && ViewsOf() == Views(map[], [])
      ensures fresh(algsStates) && fresh(algsStates.m_states) && fresh(algsStates.m_algsInState)
      ensures algsStates.m_states[..] == seq(original.algsStates.m_states.Length, i => INITIAL)
      ensures controlFlowState == original.controlFlowState
      ensures eventContext == theeventContext && parentSlot == original && !complete && entryPoint == nodeName
    {
      eventContext, parentSlot, entryPoint, complete := theeventContext, original, nodeName, false;
      algsStates := new AlgsStates(original.algsStates.m_states.Length);
      controlFlowState := original.controlFlowState;
      subSlotsByNode, allSubSlots, entries := map[], [], [];
    }

    method Reset(theeventContext: EventContext)
      requires Valid() && StatesValid()
      modifies this, algsStates.m_states, algsStates.m_algsInState
      ensures Valid() && StatesValid() && algsStates == old(algsStates)
      ensures ViewsOf() == ApplyView(old(ViewsOf()), Clear)
      ensures eventContext == theeventContext && parentSlot == null && !complete && entryPoint == ""
      ensures algsStates.m_states[..] == seq(algsStates.m_states.Length, i => INITIAL)
      ensures controlFlowState == seq(old(|controlFlowState|), i => -1)
    {
      eventContext := theeventContext;
      algsStates.Reset();
      controlFlowState := seq(|controlFlowState|, i => -1);
      complete, entryPoint, parentSlot := false, "", null;
      subSlotsByNode, allSubSlots, entries := map[], [], [];
    }

    /** Make the new slot and nest it into this one. */
    method Nest(viewContext: EventContext, nodeName: string)
      requires ChildrenGood() && StatesValid()
      requires viewContext !in Contexts()
      modifies this`allSubSlots, this`entries, viewContext`subSlot
      ensures ChildrenGood() && StatesValid()
      ensures entries == old(entries) + [nodeName]
      ensures allSubSlots == old(allSubSlots) + [allSubSlots[old(|allSubSlots|)]]
      ensures viewContext.subSlot == Some(old(|allSubSlots|))
      ensures var s := allSubSlots[old(|allSubSlots|)];
              && fresh(s) && s.eventContext == viewContext && s.entryPoint == nodeName
              && s.controlFlowState == controlFlowState
              && s.algsStates.m_states[..] == seq(algsStates.m_states.Length, i => INITIAL)
    {
      var lastIndex := |allSubSlots|;
      viewContext.subSlot := Some(lastIndex);
      var s := new EventSlot.Sub(this, viewContext, nodeName);
      allSubSlots := allSubSlots + [s];
      entries := entries + [nodeName];
      assert s.ChildAt(this, lastIndex, nodeName);
      forall i | 0 <= i < lastIndex
        ensures allSubSlots[i] != this && allSubSlots[i].ChildAt(this, i, entries[i])
      {
        assert old(allSubSlots[i].ChildAt(this, i, entries[i]));
        assert allSubSlots[i].eventContext in old(Contexts());
      }
    }

    /** The view's context is owned by the caller until now, so no sub-slot has it yet. */
    method AddSubSlot(viewContext: EventContext, nodeName: string)
      requires Valid() && StatesValid()
      requires viewContext !in Contexts()
      modifies this`subSlotsByNode, this`allSubSlots, this`entries, viewContext`subSlot
      ensures Valid() && StatesValid()
      ensures ViewsOf() == ApplyView(old(ViewsOf()), Add(nodeName))
      ensures allSubSlots == old(allSubSlots) + [allSubSlots[old(|allSubSlots|)]]
      ensures viewContext.subSlot == Some(old(|allSubSlots|))
      ensures var s := allSubSlots[old(|allSubSlots|)];
              && fresh(s) && s.eventContext == viewContext && s.entryPoint == nodeName
              && s.controlFlowState == controlFlowState
              && s.algsStates.m_states[..] == seq(algsStates.m_states.Length, i => INITIAL)
    {
      ApplyViewGood(ViewsOf(), Add(nodeName));
      var lastIndex := |allSubSlots|;
      if nodeName in subSlotsByNode {
        subSlotsByNode := subSlotsByNode[nodeName := subSlotsByNode[nodeName] + [lastIndex]];
      } else {
        subSlotsByNode := subSlotsByNode[nodeName := [lastIndex]];
        assert [] + [lastIndex] == [lastIndex];
      }
      Nest(viewContext, nodeName);
    }

    method DisableSubSlots(nodeName: string)
      requires Valid()
      modifies this`subSlotsByNode
      ensures Valid() && ViewsOf() == ApplyView(old(ViewsOf()), Disable(nodeName))
    {
      ApplyViewGood(ViewsOf(), Disable(nodeName));
      if nodeName !in subSlotsByNode {
        subSlotsByNode := subSlotsByNode[nodeName := []];
      }
    }
  }
}
