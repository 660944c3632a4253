/**
  The precedence service: assembling the control flow rules graph from the tree of sequences, and the
  simulation that promotes decisions until the head is decided.
*/
module Precedence {
  import opened Common
  import opened AlgsExecutionStates
  import opened EventSlots
  import opened SequenceTree

  /** Algorithms and decision hubs are kept by name, in two maps. */
  datatype Node = AlgorithmNode(name: string) | DecisionNode(name: string)

  datatype Edge = Edge(parent: string, child: Node)

  datatype Flags = Flags(concurrent: bool, prompt: bool, modeOr: bool, allPass: bool, inverted: bool)

  datatype AlgInfo = AlgInfo(nodeIndex: nat, algoIndex: nat, parents: seq<string>)

  datatype HubInfo = HubInfo(nodeIndex: nat, flags: Flags, parents: seq<string>, children: seq<Node>)

  datatype Outcome = Success | Failure | Thrown

  predicate IsTrue(props: map<string, string>, name: string) {
    name in props && props[name] == "True"
  }

  /** The properties of a decision hub; reading a property that does not exist throws. */
  function HubFlags(props: map<string, string>): Option<Flags> {
    var sequential := IsTrue(props, "Sequential");
    var modeOr, allPass := IsTrue(props, "ModeOR"), IsTrue(props, "IgnoreFilterPassed");
    if "ShortCircuit" in props then
      if "ModeOR" !in props || "IgnoreFilterPassed" !in props || "Invert" !in props then None
      else Some(Flags(!sequential, IsTrue(props, "ShortCircuit") && !allPass, modeOr, allPass, IsTrue(props, "Invert")))
    else if "StopOverride" in props then
      if "ModeOR" !in props || "IgnoreFilterPassed" !in props then None
      else Some(Flags(!sequential, props["StopOverride"] == "False", modeOr, allPass, false))
    else Some(Flags(true, false, false, false, false))
  }

  ghost predicate Configured(alg: Alg)
    decreases alg
  {
    alg.Sequence? ==> HubFlags(alg.props).Some? && forall i :: 0 <= i < |alg.subs| ==> Configured(alg.subs[i])
  }

  const ROOT := "RootDecisionHub"

  // --- the graph as a value

  datatype Rules = Rules(algs: map<string, AlgInfo>, hubs: map<string, HubInfo>, nodeCounter: nat, algoCounter: nat)

  datatype Op = AddAlg(name: string, parent: string) | AddHub(name: string, parent: string, flags: Flags)

  function AddOnce<T(==)>(s: seq<T>, x: T): seq<T> {
    if x in s then s else s + [x]
  }

  function WithAlg(r: Rules, name: string): Rules {
    if name in r.algs then r
    else Rules(r.algs[name := AlgInfo(r.nodeCounter, r.algoCounter, [])], r.hubs, r.nodeCounter + 1, r.algoCounter + 1)
  }

  /** An existing hub keeps its properties. */
  function WithHub(r: Rules, name: string, flags: Flags): Rules {
    if name in r.hubs then r
    else r.(hubs := r.hubs[name := HubInfo(r.nodeCounter, flags, [], [])], nodeCounter := r.nodeCounter + 1)
  }

  function WithDaughter(r: Rules, parent: string, n: Node): Rules
    requires parent in r.hubs
  {
    var hub := r.hubs[parent];
    r.(hubs := r.hubs[parent := hub.(children := AddOnce(hub.children, n))])
  }

  function WithParent(r: Rules, n: Node, parent: string): Rules {
    match n
    case AlgorithmNode(a) =>
      if a !in r.algs then r
      else r.(algs := r.algs[a := r.algs[a].(parents := AddOnce(r.algs[a].parents, parent))])
    case DecisionNode(h) =>
      if h !in r.hubs then r
      else r.(hubs := r.hubs[h := r.hubs[h].(parents := AddOnce(r.hubs[h].parents, parent))])
  }

  /** A parent that does not exist is an error, and the node stays unattached. */
  function Attached(r: Rules, n: Node, parent: string): Rules {
    if parent !in r.hubs then r else WithParent(WithDaughter(r, parent, n), n, parent)
  }

  function ApplyOp(r: Rules, op: Op): Rules {
    match op
    case AddAlg(name, parent) => Attached(WithAlg(r, name), AlgorithmNode(name), parent)
    case AddHub(name, parent, flags) => Attached(WithHub(r, name, flags), DecisionNode(name), parent)
  }

  function ApplyOps(r: Rules, ops: seq<Op>): Rules
    decreases |ops|
  {
    if ops == [] then r else ApplyOp(ApplyOps(r, ops[..|ops| - 1]), ops[|ops| - 1])
  }

  lemma {:induction false} ApplyOpsSplit(r: Rules, a: seq<Op>, b: seq<Op>)
    ensures ApplyOps(r, a + b) == ApplyOps(ApplyOps(r, a), b)
    decreases |b|
  {
    if b == [] {
      assert a + b == a;
    } else {
      ApplyOpsSplit(r, a, b[..|b| - 1]);
      assert (a + b)[..|a + b| - 1] == a + b[..|b| - 1];
    }
  }

  function EdgeOf(op: Op): Edge {
    Edge(op.parent, if op.AddAlg? then AlgorithmNode(op.name) else DecisionNode(op.name))
  }

  // --- what every operation keeps

  function Children(r: Rules, h: string): seq<Node> {
    if h in r.hubs then r.hubs[h].children else []
  }

  function Parents(r: Rules, n: Node): seq<string> {
    match n
    case AlgorithmNode(a) => if a in r.algs then r.algs[a].parents else []
    case DecisionNode(h) => if h in r.hubs then r.hubs[h].parents else []
  }

  ghost predicate HasEdge(r: Rules, e: Edge) {
    e.child in Children(r, e.parent)
  }

  ghost predicate Once<T>(s: seq<T>) {
    forall i, j :: 0 <= i < j < |s| ==> s[i] != s[j]
  }

  /** Algorithm i of the list has index i, and there are no others. */
  ghost predicate AlgsNumbered(r: Rules, algs: seq<string>) {
    && Once(algs) && |algs| == r.algoCounter
    && (forall a :: a in r.algs <==> a in algs)
    && (forall i :: 0 <= i < |algs| ==> r.algs[algs[i]].algoIndex == i)
  }

  predicate Known(r: Rules, n: Node) {
    match n
    case AlgorithmNode(a) => a in r.algs
    case DecisionNode(h) => h in r.hubs
  }

  function IndexOf(r: Rules, n: Node): nat
    requires Known(r, n)
  {
    match n
    case AlgorithmNode(a) => r.algs[a].nodeIndex
    case DecisionNode(h) => r.hubs[h].nodeIndex
  }

  /** Node i of the list has index i, its place in the control flow state of every slot. */
  ghost predicate NodesNumbered(r: Rules, nodes: seq<Node>) {
    && |nodes| == r.nodeCounter
    && (forall n :: Known(r, n) ==> IndexOf(r, n) < |nodes| && nodes[IndexOf(r, n)] == n)
    && (forall i :: 0 <= i < |nodes| ==> Known(r, nodes[i]) && IndexOf(r, nodes[i]) == i)
  }

  /** Children and parents mirror each other and list nobody twice. */
  ghost predicate Mirrored(r: Rules) {
    && (forall h, n :: n in Children(r, h) <==> h in Parents(r, n))
    && (forall h :: Once(Children(r, h)))
    && (forall n :: Once(Parents(r, n)))
  }

  lemma AddOnceKeeps<T>(s: seq<T>, x: T)
    requires Once(s)
    ensures Once(AddOnce(s, x))
    ensures forall y :: y in AddOnce(s, x) <==> y in s || y == x
  {
  }

  lemma AttachedNumbers(r: Rules, n: Node, parent: string, algs: seq<string>)
    requires AlgsNumbered(r, algs)
    ensures AlgsNumbered(Attached(r, n, parent), algs)
  {
  }

  function NewAlg(op: Op): seq<string> {
    if op.AddAlg? then [op.name] else []
  }

  lemma OpNumber(r: Rules, op: Op, algs: seq<string>)
    requires AlgsNumbered(r, algs)
    ensures AlgsNumbered(ApplyOp(r, op), ExtendAll(algs, NewAlg(op)))
  {
    if op.AddAlg? {
      assert [op.name][..0] == [];
      AddOnceKeeps(algs, op.name);
      assert AlgsNumbered(WithAlg(r, op.name), Extend(algs, op.name));
      AttachedNumbers(WithAlg(r, op.name), AlgorithmNode(op.name), op.parent, Extend(algs, op.name));
    } else {
      assert AlgsNumbered(WithHub(r, op.name, op.flags), algs);
      AttachedNumbers(WithHub(r, op.name, op.flags), DecisionNode(op.name), op.parent, algs);
    }
  }

  lemma {:induction false} OpsNumber(r: Rules, ops: seq<Op>, algs: seq<string>)
    requires AlgsNumbered(r, algs)
    ensures AlgsNumbered(ApplyOps(r, ops), ExtendAll(algs, AlgNames(ops)))
    decreases |ops|
  {
    if ops != [] {
      var init, op := ops[..|ops| - 1], ops[|ops| - 1];
      OpsNumber(r, init, algs);
      OpNumber(ApplyOps(r, init), op, ExtendAll(algs, AlgNames(init)));
      ExtendAllSplit(algs, AlgNames(init), NewAlg(op));
    }
  }

  /** The algorithms that operations add, in order. */
  function AlgNames(ops: seq<Op>): seq<string>
    decreases |ops|
  {
    if ops == [] then []
    else AlgNames(ops[..|ops| - 1]) + NewAlg(ops[|ops| - 1])
  }

  lemma {:induction false} AlgNamesSplit(a: seq<Op>, b: seq<Op>)
    ensures AlgNames(a + b) == AlgNames(a) + AlgNames(b)
    decreases |b|
  {
    if b == [] {
      assert a + b == a;
    } else {
      AlgNamesSplit(a, b[..|b| - 1]);
      assert (a + b)[..|a + b| - 1] == a + b[..|b| - 1] && (a + b)[|a + b| - 1] == b[|b| - 1];
    }
  }

  function NewNode(r: Rules, op: Op): seq<Node> {
    if Known(r, EdgeOf(op).child) then [] else [EdgeOf(op).child]
  }

  lemma AttachedNodes(r: Rules, n: Node, parent: string, nodes: seq<Node>)
    requires NodesNumbered(r, nodes)
    ensures NodesNumbered(Attached(r, n, parent), nodes)
  {
    var t := Attached(r, n, parent);
    assert forall m :: Known(t, m) <==> Known(r, m);
    assert forall m :: Known(t, m) ==> IndexOf(t, m) == IndexOf(r, m);
  }

  /** An operation numbers its node next unless it is known. */
  lemma OpNodes(r: Rules, op: Op, nodes: seq<Node>)
    requires NodesNumbered(r, nodes)
    ensures NodesNumbered(ApplyOp(r, op), nodes + NewNode(r, op))
  {
    var n := EdgeOf(op).child;
    var t := if op.AddAlg? then WithAlg(r, op.name) else WithHub(r, op.name, op.flags);
    assert forall m :: Known(t, m) <==> Known(r, m) || m == n;
    assert forall m :: Known(r, m) ==> IndexOf(t, m) == IndexOf(r, m);
    assert NodesNumbered(t, nodes + NewNode(r, op));
    AttachedNodes(t, n, op.parent, nodes + NewNode(r, op));
  }

  lemma AttachedMirrored(r: Rules, n: Node, parent: string)
    requires Mirrored(r) && Known(r, n)
    ensures Mirrored(Attached(r, n, parent))
    ensures forall e ::
              HasEdge(Attached(r, n, parent), e) <==> HasEdge(r, e) || (parent in r.hubs && e == Edge(parent, n))
  {
    if parent in r.hubs {
      var d := WithDaughter(r, parent, n);
      var t := WithParent(d, n, parent);
      AddOnceKeeps(Children(r, parent), n);
      AddOnceKeeps(Parents(r, n), parent);
      assert forall m :: Parents(d, m) == Parents(r, m);
      assert forall h :: Children(d, h) == if h == parent then AddOnce(Children(r, parent), n) else Children(r, h);
      assert forall h :: Children(t, h) == Children(d, h);
      assert forall m :: Parents(t, m) == if m == n then AddOnce(Parents(r, n), parent) else Parents(d, m);
    }
  }

  lemma OpMirrored(r: Rules, op: Op)
    requires Mirrored(r)
    ensures Mirrored(ApplyOp(r, op))
    ensures op.parent in r.hubs ==> forall e :: HasEdge(ApplyOp(r, op), e) <==> HasEdge(r, e) || e == EdgeOf(op)
  {
    var n := EdgeOf(op).child;
    var t := if op.AddAlg? then WithAlg(r, op.name) else WithHub(r, op.name, op.flags);
    assert forall h :: Children(t, h) == Children(r, h);
    assert forall m :: Parents(t, m) == Parents(r, m);
    AttachedMirrored(t, n, op.parent);
  }

  /** Each operation finds its parent among the hubs there and those added before. */
  predicate Parented(hubs: set<string>, ops: seq<Op>)
    decreases |ops|
  {
    ops == [] || (Parented(hubs, ops[..|ops| - 1]) && ops[|ops| - 1].parent in hubs + HubNames(ops[..|ops| - 1]))
  }

  function HubNames(ops: seq<Op>): set<string>
    decreases |ops|
  {
    if ops == [] then {}
    else HubNames(ops[..|ops| - 1]) + (if ops[|ops| - 1].AddHub? then {ops[|ops| - 1].name} else {})
  }

  lemma {:induction false} HubNamesSplit(a: seq<Op>, b: seq<Op>)
    ensures HubNames(a + b) == HubNames(a) + HubNames(b)
    decreases |b|
  {
    if b == [] {
      assert a + b == a;
    } else {
      HubNamesSplit(a, b[..|b| - 1]);
      assert (a + b)[..|a + b| - 1] == a + b[..|b| - 1] && (a + b)[|a + b| - 1] == b[|b| - 1];
    }
  }

  lemma {:induction false} OpsHubs(r: Rules, ops: seq<Op>)
    ensures ApplyOps(r, ops).hubs.Keys == r.hubs.Keys + HubNames(ops)
    decreases |ops|
  {
    if ops != [] {
      OpsHubs(r, ops[..|ops| - 1]);
    }
  }

  ghost predicate OpEdge(ops: seq<Op>, e: Edge) {
    exists i :: 0 <= i < |ops| && EdgeOf(ops[i]) == e
  }

  lemma OpEdgeLast(ops: seq<Op>, e: Edge)
    requires ops != []
    ensures OpEdge(ops, e) <==> OpEdge(ops[..|ops| - 1], e) || e == EdgeOf(ops[|ops| - 1])
  {
    if OpEdge(ops[..|ops| - 1], e) {
      var i :| 0 <= i < |ops| - 1 && EdgeOf(ops[..|ops| - 1][i]) == e;
      assert EdgeOf(ops[i]) == e;
    }
    if OpEdge(ops, e) {
      var i :| 0 <= i < |ops| && EdgeOf(ops[i]) == e;
      assert i < |ops| - 1 ==> ops[..|ops| - 1][i] == ops[i];
    }
  }

  /** After any operations that find their parents, the edges are the old ones and the operations'. */
  lemma {:induction false} OpsEdges(r: Rules, ops: seq<Op>)
    requires Mirrored(r) && Parented(r.hubs.Keys, ops)
    ensures Mirrored(ApplyOps(r, ops))
    ensures forall e :: HasEdge(ApplyOps(r, ops), e) <==> HasEdge(r, e) || OpEdge(ops, e)
    decreases |ops|
  {
    if ops != [] {
      var init, op := ops[..|ops| - 1], ops[|ops| - 1];
      OpsEdges(r, init);
      OpsHubs(r, init);
      OpMirrored(ApplyOps(r, init), op);
      forall e
        ensures HasEdge(ApplyOps(r, ops), e) <==> HasEdge(r, e) || OpEdge(ops, e)
      {
        OpEdgeLast(ops, e);
      }
    }
  }

  // --- the operations of a tree

  /** The tree can be assembled: no broken sequence, no missing property. */
  predicate Assemblable(alg: Alg)
    decreases alg, 1, 0
  {
    !alg.Broken? && (alg.Sequence? ==> HubFlags(alg.props).Some? && SubsAssemblable(alg, |alg.subs|))
  }

  predicate SubsAssemblable(alg: Alg, n: nat)
    requires alg.Sequence? && n <= |alg.subs|
    decreases alg, 0, n
  {
    n == 0 || (SubsAssemblable(alg, n - 1) && Assemblable(alg.subs[n - 1]))
  }

  lemma {:induction false} SubsStop(alg: Alg, n: nat, m: nat)
    requires alg.Sequence? && n <= m <= |alg.subs| && !SubsAssemblable(alg, n)
    ensures !SubsAssemblable(alg, m)
    decreases m
  {
    if n < m {
      SubsStop(alg, n, m - 1);
    }
  }

  /** Whatever can be assembled can be flattened, and more can be flattened only for a missing property. */
  lemma {:induction false} AssemblableWalks(alg: Alg)
    ensures Assemblable(alg) ==> Walk(alg).ok
    ensures Walk(alg).ok && Configured(alg) ==> Assemblable(alg)
    decreases alg, 1, 0
  {
    if alg.Sequence? {
      SubsAssemblableWalk(alg, |alg.subs|);
    }
  }

  lemma {:induction false} SubsAssemblableWalk(alg: Alg, n: nat)
    requires alg.Sequence? && n <= |alg.subs|
    ensures SubsAssemblable(alg, n) ==> WalkSubs(alg, n).ok
    ensures WalkSubs(alg, n).ok && (forall i :: 0 <= i < n ==> Configured(alg.subs[i])) ==> SubsAssemblable(alg, n)
    decreases alg, 0, n
  {
    if n > 0 {
      SubsAssemblableWalk(alg, n - 1);
      AssemblableWalks(alg.subs[n - 1]);
    }
  }

  predicate TopsAssemblable(tops: seq<Alg>)
    decreases |tops|
  {
    tops == [] || (TopsAssemblable(tops[..|tops| - 1]) && Assemblable(tops[|tops| - 1]))
  }

  lemma {:induction false} TopsStop(tops: seq<Alg>, n: nat)
    requires n <= |tops| && !TopsAssemblable(tops[..n])
    ensures !TopsAssemblable(tops)
    decreases |tops|
  {
    if n < |tops| {
      assert tops[..|tops| - 1][..n] == tops[..n];
      TopsStop(tops[..|tops| - 1], n);
    } else {
      assert tops[..n] == tops;
    }
  }

  /** The operations that register a tree below a parent. */
  function TreeOps(alg: Alg, parent: string): seq<Op>
    requires Assemblable(alg)
    decreases alg, 1, 0
  {
    match alg
    case Leaf(name) => [AddAlg(name, parent)]
    case Sequence(name, props, subs) => [AddHub(name, parent, HubFlags(props).value)] + SubOps(alg, |subs|)
  }

  function SubOps(alg: Alg, n: nat): seq<Op>
    requires alg.Sequence? && n <= |alg.subs| && SubsAssemblable(alg, n)
    decreases alg, 0, n
  {
    if n == 0 then [] else SubOps(alg, n - 1) + TreeOps(alg.subs[n - 1], alg.name)
  }

  /** The algorithms they add are the leaves of the walk. */
  lemma {:induction false} TreeOpsLeaves(alg: Alg, parent: string)
    requires Assemblable(alg)
    ensures AlgNames(TreeOps(alg, parent)) == Walk(alg).leaves
    decreases alg, 1, 0
  {
    if alg.Leaf? {
      assert [AddAlg(alg.name, parent)][..0] == [];
    } else {
      var hub := [AddHub(alg.name, parent, HubFlags(alg.props).value)];
      SubOpsLeaves(alg, |alg.subs|);
      AlgNamesSplit(hub, SubOps(alg, |alg.subs|));
      assert hub[..0] == [] && AlgNames(hub) == [];
    }
  }

  lemma {:induction false} SubOpsLeaves(alg: Alg, n: nat)
    requires alg.Sequence? && n <= |alg.subs| && SubsAssemblable(alg, n)
    ensures AlgNames(SubOps(alg, n)) == WalkSubs(alg, n).leaves
    decreases alg, 0, n
  {
    if n > 0 {
      SubOpsLeaves(alg, n - 1);
      TreeOpsLeaves(alg.subs[n - 1], alg.name);
      AlgNamesSplit(SubOps(alg, n - 1), TreeOps(alg.subs[n - 1], alg.name));
      SubsAssemblableWalk(alg, n - 1);
    }
  }

  lemma {:induction false} ParentedSplit(hubs: set<string>, a: seq<Op>, b: seq<Op>)
    requires Parented(hubs, a) && Parented(hubs + HubNames(a), b)
    ensures Parented(hubs, a + b)
    decreases |b|
  {
    if b == [] {
      assert a + b == a;
    } else {
      var init := b[..|b| - 1];
      ParentedSplit(hubs, a, init);
      assert (a + b)[..|a + b| - 1] == a + init;
      HubNamesSplit(a, init);
    }
  }

  /** The error of a missing parent does not occur. */
  lemma {:induction false} TreeOpsParented(alg: Alg, parent: string, hubs: set<string>)
    requires Assemblable(alg) && parent in hubs
    ensures Parented(hubs, TreeOps(alg, parent))
    decreases alg, 1, 0
  {
    if alg.Leaf? {
      assert [AddAlg(alg.name, parent)][..0] == [];
    } else {
      var hub := [AddHub(alg.name, parent, HubFlags(alg.props).value)];
      assert hub[..0] == [] && Parented(hubs, hub);
      assert HubNames(hub) == {alg.name};
      SubOpsParented(alg, |alg.subs|, hubs + HubNames(hub));
      ParentedSplit(hubs, hub, SubOps(alg, |alg.subs|));
    }
  }

  lemma {:induction false} SubOpsParented(alg: Alg, n: nat, hubs: set<string>)
    requires alg.Sequence? && n <= |alg.subs| && SubsAssemblable(alg, n) && alg.name in hubs
    ensures Parented(hubs, SubOps(alg, n))
    decreases alg, 0, n
  {
    if n > 0 {
      SubOpsParented(alg, n - 1, hubs);
      TreeOpsParented(alg.subs[n - 1], alg.name, hubs + HubNames(SubOps(alg, n - 1)));
      ParentedSplit(hubs, SubOps(alg, n - 1), TreeOps(alg.subs[n - 1], alg.name));
    }
  }

  function TopOps(tops: seq<Alg>): seq<Op>
    requires TopsAssemblable(tops)
    decreases |tops|
  {
    if tops == [] then [] else TopOps(tops[..|tops| - 1]) + TreeOps(tops[|tops| - 1], ROOT)
  }

  lemma {:induction false} TopOpsLeaves(tops: seq<Alg>)
    requires TopsAssemblable(tops)
    ensures AlgNames(TopOps(tops)) == WalkTops(tops) && Parented({ROOT}, TopOps(tops))
    decreases |tops|
  {
    if tops != [] {
      var init, alg := tops[..|tops| - 1], tops[|tops| - 1];
      TopOpsLeaves(init);
      TreeOpsLeaves(alg, ROOT);
      AlgNamesSplit(TopOps(init), TreeOps(alg, ROOT));
      TreeOpsParented(alg, ROOT, {ROOT} + HubNames(TopOps(init)));
      ParentedSplit({ROOT}, TopOps(init), TreeOps(alg, ROOT));
    }
  }

  /** The rules right after the head node was added. */
  const HEAD_ONLY := Rules(map[], map[ROOT := HubInfo(0, Flags(true, false, true, true, false), [], [])], 1, 0)

  lemma HeadOnlyGood()
    ensures AlgsNumbered(HEAD_ONLY, []) && NodesNumbered(HEAD_ONLY, [DecisionNode(ROOT)])
    ensures Mirrored(HEAD_ONLY) && HEAD_ONLY.hubs.Keys == {ROOT} && forall e :: !HasEdge(HEAD_ONLY, e)
  {
  }

  /**
    The two walks agree: the rules graph of the top algorithms numbers its algorithms as the pool's flat
    list without repetitions does.
  */
  lemma {:induction false} RulesMatchFlatList(tops: seq<Alg>)
    requires TopsAssemblable(tops)
    ensures AlgsNumbered(ApplyOps(HEAD_ONLY, TopOps(tops)), ExtendAll([], WalkTops(tops)))
  {
    TopOpsLeaves(tops);
    HeadOnlyGood();
    OpsNumber(HEAD_ONLY, TopOps(tops), []);
  }

  // --- the edges of the trees, without the registrations

  function NodeOf(alg: Alg): Node {
    if alg.Sequence? then DecisionNode(alg.name) else AlgorithmNode(alg.name)
  }

  /** A sequence somewhere in the tree has this child. */
  ghost predicate EdgeInTree(alg: Alg, e: Edge)
    decreases alg
  {
    alg.Sequence? && exists i :: 0 <= i < |alg.subs|
                                 && (e == Edge(alg.name, NodeOf(alg.subs[i])) || EdgeInTree(alg.subs[i], e))
  }

  /** The head has the top algorithms as children. */
  ghost predicate EdgeInTrees(tops: seq<Alg>, e: Edge) {
    exists i :: 0 <= i < |tops| && (e == Edge(ROOT, NodeOf(tops[i])) || EdgeInTree(tops[i], e))
  }

  lemma OpEdgeSplit(a: seq<Op>, b: seq<Op>, e: Edge)
    ensures OpEdge(a + b, e) <==> OpEdge(a, e) || OpEdge(b, e)
  {
    if OpEdge(a, e) {
      var i :| 0 <= i < |a| && EdgeOf(a[i]) == e;
      assert EdgeOf((a + b)[i]) == e;
    }
    if OpEdge(b, e) {
      var i :| 0 <= i < |b| && EdgeOf(b[i]) == e;
      assert EdgeOf((a + b)[|a| + i]) == e;
    }
    if OpEdge(a + b, e) {
      var i :| 0 <= i < |a + b| && EdgeOf((a + b)[i]) == e;
      if i < |a| {
        assert EdgeOf(a[i]) == e;
      } else {
        assert EdgeOf(b[i - |a|]) == e;
      }
    }
  }

  lemma OpEdgeOne(op: Op, e: Edge)
    ensures OpEdge([op], e) <==> e == EdgeOf(op)
  {
    assert [op][0] == op;
  }

  /** Registering a tree adds the edge to its parent and the edges inside it. */
  lemma {:induction false} TreeOpsEdges(alg: Alg, parent: string, e: Edge)
    requires Assemblable(alg)
    ensures OpEdge(TreeOps(alg, parent), e) <==> e == Edge(parent, NodeOf(alg)) || EdgeInTree(alg, e)
    decreases alg, 1, 0
  {
    if alg.Leaf? {
      OpEdgeOne(AddAlg(alg.name, parent), e);
    } else {
      var hub := AddHub(alg.name, parent, HubFlags(alg.props).value);
      OpEdgeOne(hub, e);
      OpEdgeSplit([hub], SubOps(alg, |alg.subs|), e);
      SubOpsEdges(alg, |alg.subs|, e);
    }
  }

  lemma {:induction false} SubOpsEdges(alg: Alg, n: nat, e: Edge)
    requires alg.Sequence? && n <= |alg.subs| && SubsAssemblable(alg, n)
    ensures OpEdge(SubOps(alg, n), e) <==>
              exists i :: 0 <= i < n && (e == Edge(alg.name, NodeOf(alg.subs[i])) || EdgeInTree(alg.subs[i], e))
    decreases alg, 0, n
  {
    if n > 0 {
      SubOpsEdges(alg, n - 1, e);
      TreeOpsEdges(alg.subs[n - 1], alg.name, e);
      OpEdgeSplit(SubOps(alg, n - 1), TreeOps(alg.subs[n - 1], alg.name), e);
    }
  }

  lemma {:induction false} TopOpsEdges(tops: seq<Alg>, e: Edge)
    requires TopsAssemblable(tops)
    ensures OpEdge(TopOps(tops), e) <==> EdgeInTrees(tops, e)
    decreases |tops|
  {
    if tops != [] {
      var n := |tops| - 1;
      TopOpsEdges(tops[..n], e);
      TreeOpsEdges(tops[n], ROOT, e);
      OpEdgeSplit(TopOps(tops[..n]), TreeOps(tops[n], ROOT), e);
      assert forall i :: 0 <= i < n ==> tops[..n][i] == tops[i];
    }
  }

  /** The edges of the rules graph are those of the trees, children and parents agree, nobody is listed twice. */
  lemma {:induction false} RulesMatchTrees(tops: seq<Alg>)
    requires TopsAssemblable(tops)
    ensures Mirrored(ApplyOps(HEAD_ONLY, TopOps(tops)))
    ensures forall e :: HasEdge(ApplyOps(HEAD_ONLY, TopOps(tops)), e) <==> EdgeInTrees(tops, e)
  {
    TopOpsLeaves(tops);
    HeadOnlyGood();
    OpsEdges(HEAD_ONLY, TopOps(tops));
    forall e
      ensures HasEdge(ApplyOps(HEAD_ONLY, TopOps(tops)), e) <==> EdgeInTrees(tops, e)
    {
      TopOpsEdges(tops, e);
    }
  }

  /** Whatever is registered, the nodes are numbered without gaps: node i of the list has index i. */
  lemma {:induction false} OpsNodes(ops: seq<Op>) returns (nodes: seq<Node>)
    ensures NodesNumbered(ApplyOps(HEAD_ONLY, ops), nodes) && nodes != [] && nodes[0] == DecisionNode(ROOT)
    decreases |ops|
  {
    if ops == [] {
      HeadOnlyGood();
      nodes := [DecisionNode(ROOT)];
    } else {
      nodes := OpsNodes(ops[..|ops| - 1]);
      OpNodes(ApplyOps(HEAD_ONLY, ops[..|ops| - 1]), ops[|ops| - 1], nodes);
      nodes := nodes + NewNode(ApplyOps(HEAD_ONLY, ops[..|ops| - 1]), ops[|ops| - 1]);
    }
  }

  // --- the flags of hubs

  /** The sequences of a tree in the order in which the assembly meets them. */
  function Sequences(alg: Alg): seq<Alg>
    decreases alg, 1, 0
  {
    if alg.Sequence? then [alg] + SubSequences(alg, |alg.subs|) else []
  }

  function SubSequences(alg: Alg, n: nat): seq<Alg>
    requires alg.Sequence? && n <= |alg.subs|
    decreases alg, 0, n
  {
    if n == 0 then [] else SubSequences(alg, n - 1) + Sequences(alg.subs[n - 1])
  }

  function TopSequences(tops: seq<Alg>): seq<Alg>
    decreases |tops|
  {
    if tops == [] then [] else TopSequences(tops[..|tops| - 1]) + Sequences(tops[|tops| - 1])
  }

  /** A GaudiSequencer has the property ShortCircuit; an AthSequencer has StopOverride and not that. */
  ghost predicate IsGaudi(props: map<string, string>) {
    "ShortCircuit" in props
  }

  ghost predicate IsAth(props: map<string, string>) {
    "ShortCircuit" !in props && "StopOverride" in props
  }

  /** A property that is read does not exist. */
  ghost predicate LacksProperty(props: map<string, string>) {
    || ((IsGaudi(props) || IsAth(props)) && !({"ModeOR", "IgnoreFilterPassed"} <= props.Keys))
    || (IsGaudi(props) && "Invert" !in props)
  }

  /** What each flag of a hub means in terms of the properties of its sequence. */
  ghost predicate FlagsMean(props: map<string, string>, f: Flags) {
    && (IsGaudi(props) || IsAth(props) ==>
          && (f.modeOr <==> ("ModeOR", "True") in props.Items)
          && (f.allPass <==> ("IgnoreFilterPassed", "True") in props.Items)
          && (f.concurrent <==> ("Sequential", "True") !in props.Items))
    && (IsGaudi(props) ==>
          && (f.inverted <==> ("Invert", "True") in props.Items)
          && (f.prompt <==>
                ("ShortCircuit", "True") in props.Items && ("IgnoreFilterPassed", "True") !in props.Items))
    && (IsAth(props) ==> !f.inverted && (f.prompt <==> ("StopOverride", "False") in props.Items))
    && (!IsGaudi(props) && !IsAth(props) ==> f.concurrent && !f.prompt && !f.modeOr && !f.allPass && !f.inverted)
  }

  lemma HubFlagsMean(props: map<string, string>)
    ensures HubFlags(props).None? <==> LacksProperty(props)
    ensures HubFlags(props).Some? ==> FlagsMean(props, HubFlags(props).value)
  {
  }

  function NewHub(op: Op): seq<Op> {
    if op.AddHub? then [op] else []
  }

  /** The hubs that operations register, in order. */
  function HubsOf(ops: seq<Op>): seq<Op>
    decreases |ops|
  {
    if ops == [] then [] else HubsOf(ops[..|ops| - 1]) + NewHub(ops[|ops| - 1])
  }

  lemma {:induction false} HubsOfSplit(a: seq<Op>, b: seq<Op>)
    ensures HubsOf(a + b) == HubsOf(a) + HubsOf(b)
    decreases |b|
  {
    if b == [] {
      assert a + b == a;
    } else {
      HubsOfSplit(a, b[..|b| - 1]);
      assert (a + b)[..|a + b| - 1] == a + b[..|b| - 1] && (a + b)[|a + b| - 1] == b[|b| - 1];
    }
  }

  lemma {:induction false} HubsOfNames(ops: seq<Op>)
    ensures forall i :: 0 <= i < |HubsOf(ops)| ==> HubsOf(ops)[i].AddHub? && HubsOf(ops)[i].name in HubNames(ops)
    decreases |ops|
  {
    if ops != [] {
      HubsOfNames(ops[..|ops| - 1]);
    }
  }

  /** Registration i is the first of this name. */
  ghost predicate FirstNamed(hubs: seq<Op>, i: int, name: string) {
    0 <= i < |hubs| && hubs[i].AddHub? && hubs[i].name == name && forall j :: 0 <= j < i ==> hubs[j].name != name
  }

  lemma FirstStays(hubs: seq<Op>, more: seq<Op>, i: int, name: string)
    requires FirstNamed(hubs, i, name)
    ensures FirstNamed(hubs + more, i, name) && (hubs + more)[i] == hubs[i]
  {
  }

  lemma FirstHere(hubs: seq<Op>, op: Op)
    requires op.AddHub? && forall j :: 0 <= j < |hubs| ==> hubs[j].name != op.name
    ensures FirstNamed(hubs + NewHub(op), |hubs|, op.name) && (hubs + NewHub(op))[|hubs|] == op
  {
  }

  lemma OpFlags(r: Rules, op: Op, h: string)
    requires h in ApplyOp(r, op).hubs
    ensures h in r.hubs ==> ApplyOp(r, op).hubs[h].flags == r.hubs[h].flags
    ensures h !in r.hubs ==> op.AddHub? && op.name == h && ApplyOp(r, op).hubs[h].flags == op.flags
  {
  }

  /** A hub keeps the flags of its first registration. */
  lemma {:induction false} OpsFlags(r: Rules, ops: seq<Op>, h: string)
    requires h in ApplyOps(r, ops).hubs
    ensures h in r.hubs ==> ApplyOps(r, ops).hubs[h].flags == r.hubs[h].flags
    ensures h !in r.hubs ==> exists i :: FirstNamed(HubsOf(ops), i, h)
                                         && HubsOf(ops)[i].flags == ApplyOps(r, ops).hubs[h].flags
    decreases |ops|
  {
    if ops != [] {
      var init, op := ops[..|ops| - 1], ops[|ops| - 1];
      OpFlags(ApplyOps(r, init), op, h);
      OpsHubs(r, init);
      assert HubsOf(ops) == HubsOf(init) + NewHub(op);
      if h in ApplyOps(r, init).hubs {
        OpsFlags(r, init, h);
        if h !in r.hubs {
          var i :| FirstNamed(HubsOf(init), i, h) && HubsOf(init)[i].flags == ApplyOps(r, init).hubs[h].flags;
          FirstStays(HubsOf(init), NewHub(op), i, h);
          assert FirstNamed(HubsOf(ops), i, h) && HubsOf(ops)[i].flags == ApplyOps(r, ops).hubs[h].flags;
        }
      } else {
        HubsOfNames(init);
        assert h !in HubNames(init);
        FirstHere(HubsOf(init), op);
      }
    }
  }

  /** The registrations are those of the sequences, with the flags that their properties say. */
  ghost predicate Registers(hubs: seq<Op>, sequences: seq<Alg>) {
    && |hubs| == |sequences|
    && forall i :: 0 <= i < |hubs| ==>
         && hubs[i].AddHub? && sequences[i].Sequence? && hubs[i].name == sequences[i].name
         && FlagsMean(sequences[i].props, hubs[i].flags)
  }

  lemma RegistersBoth(a: seq<Op>, x: seq<Alg>, b: seq<Op>, y: seq<Alg>)
    requires Registers(a, x) && Registers(b, y)
    ensures Registers(a + b, x + y)
  {
  }

  lemma HubRegisters(alg: Alg, parent: string)
    requires alg.Sequence? && HubFlags(alg.props).Some?
    ensures Registers(HubsOf([AddHub(alg.name, parent, HubFlags(alg.props).value)]), [alg])
  {
    var hub := [AddHub(alg.name, parent, HubFlags(alg.props).value)];
    HubFlagsMean(alg.props);
    assert hub[..0] == [] && HubsOf(hub) == hub;
  }

  lemma {:induction false} TreeRegisters(alg: Alg, parent: string)
    requires Assemblable(alg)
    ensures Registers(HubsOf(TreeOps(alg, parent)), Sequences(alg))
    decreases alg, 1, 0
  {
    if alg.Leaf? {
      assert [AddAlg(alg.name, parent)][..0] == [];
    } else {
      var hub := [AddHub(alg.name, parent, HubFlags(alg.props).value)];
      HubRegisters(alg, parent);
      SubsRegister(alg, |alg.subs|);
      HubsOfSplit(hub, SubOps(alg, |alg.subs|));
      RegistersBoth(HubsOf(hub), [alg], HubsOf(SubOps(alg, |alg.subs|)), SubSequences(alg, |alg.subs|));
    }
  }

  lemma {:induction false} SubsRegister(alg: Alg, n: nat)
    requires alg.Sequence? && n <= |alg.subs| && SubsAssemblable(alg, n)
    ensures Registers(HubsOf(SubOps(alg, n)), SubSequences(alg, n))
    decreases alg, 0, n
  {
    if n > 0 {
      var a, b := SubOps(alg, n - 1), TreeOps(alg.subs[n - 1], alg.name);
      assert Registers(HubsOf(a), SubSequences(alg, n - 1)) by {
        SubsRegister(alg, n - 1);
      }
      assert Registers(HubsOf(b), Sequences(alg.subs[n - 1])) by {
        TreeRegisters(alg.subs[n - 1], alg.name);
      }
      HubsOfSplit(a, b);
      RegistersBoth(HubsOf(a), SubSequences(alg, n - 1), HubsOf(b), Sequences(alg.subs[n - 1]));
    }
  }

  lemma {:induction false} TopsRegister(tops: seq<Alg>)
    requires TopsAssemblable(tops)
    ensures Registers(HubsOf(TopOps(tops)), TopSequences(tops))
    decreases |tops|
  {
    if tops != [] {
      TopsRegister(tops[..|tops| - 1]);
      TreeRegisters(tops[|tops| - 1], ROOT);
      HubsOfSplit(TopOps(tops[..|tops| - 1]), TreeOps(tops[|tops| - 1], ROOT));
    }
  }

  /** The first sequence of this name has properties that mean these flags. */
  ghost predicate FlagsOfFirst(sequences: seq<Alg>, name: string, f: Flags) {
    exists i :: 0 <= i < |sequences| && sequences[i].Sequence? && sequences[i].name == name
                && FlagsMean(sequences[i].props, f)
                && forall j :: 0 <= j < i ==> sequences[j].Sequence? && sequences[j].name != name
  }

  lemma FirstRegistered(hubs: seq<Op>, sequences: seq<Alg>, h: string, f: Flags)
    requires Registers(hubs, sequences) && exists i :: FirstNamed(hubs, i, h) && hubs[i].flags == f
    ensures FlagsOfFirst(sequences, h, f)
  {
    var i :| FirstNamed(hubs, i, h) && hubs[i].flags == f;
    assert sequences[i].Sequence? && sequences[i].name == h && FlagsMean(sequences[i].props, f);
    assert forall j :: 0 <= j < i ==> sequences[j].Sequence? && sequences[j].name == hubs[j].name;
  }

  /**
    Every hub but the head has the flags that the properties of the first sequence of its name mean, and the
    head has its own.
  */
  lemma {:induction false} HubsHaveFlags(tops: seq<Alg>)
    requires TopsAssemblable(tops)
    ensures var r := ApplyOps(HEAD_ONLY, TopOps(tops));
            && ROOT in r.hubs
            && (forall h :: h in r.hubs && h != ROOT ==> FlagsOfFirst(TopSequences(tops), h, r.hubs[h].flags))
            && var f := r.hubs[ROOT].flags;
               f.concurrent && !f.prompt && f.modeOr && f.allPass && !f.inverted
  {
    var ops := TopOps(tops);
    var r := ApplyOps(HEAD_ONLY, ops);
    OpsHubs(HEAD_ONLY, ops);
    OpsFlags(HEAD_ONLY, ops, ROOT);
    TopsRegister(tops);
    forall h | h in r.hubs && h != ROOT
      ensures FlagsOfFirst(TopSequences(tops), h, r.hubs[h].flags)
    {
      OpsFlags(HEAD_ONLY, ops, h);
      FirstRegistered(HubsOf(ops), TopSequences(tops), h, r.hubs[h].flags);
    }
  }

  // --- where the assembly of a tree stops

  /** The first thing in the walk that stops it: a broken sequence, or one that lacks a property. */
  ghost function Trouble(alg: Alg): Outcome
    decreases alg, 1, 0
  {
    match alg
    case Leaf(_) => Success
    case Broken(_) => Failure
    case Sequence(_, props, subs) => if LacksProperty(props) then Thrown else SubsTrouble(alg, |subs|)
  }

  ghost function SubsTrouble(alg: Alg, n: nat): Outcome
    requires alg.Sequence? && n <= |alg.subs|
    decreases alg, 0, n
  {
    if n == 0 then Success
    else if SubsTrouble(alg, n - 1) != Success then SubsTrouble(alg, n - 1)
    else Trouble(alg.subs[n - 1])
  }

  lemma {:induction false} SubsTroubleStays(alg: Alg, n: nat, m: nat)
    requires alg.Sequence? && n <= m <= |alg.subs| && SubsTrouble(alg, n) != Success
    ensures SubsTrouble(alg, m) == SubsTrouble(alg, n)
    decreases m
  {
    if n < m {
      SubsTroubleStays(alg, n, m - 1);
    }
  }

  // --- the graph object and the service

  class PrecedenceRulesGraph {
    var m_algoNameToAlgoNodeMap: map<string, AlgInfo>
    var m_decisionNameToDecisionHubMap: map<string, HubInfo>
    var m_headNode: string
    var m_nodeCounter: nat
    var m_algoCounter: nat

    function View(): Rules
      reads this
    {
      Rules(m_algoNameToAlgoNodeMap, m_decisionNameToDecisionHubMap, m_nodeCounter, m_algoCounter)
    }

    constructor ()
      ensures View() == Rules(map[], map[], 0, 0)
    {
      m_algoNameToAlgoNodeMap, m_decisionNameToDecisionHubMap, m_headNode := map[], map[], "";
      m_nodeCounter, m_algoCounter := 0, 0;
    }

    method AddHeadNode(name: string, flags: Flags)
      modifies this
      ensures m_headNode == name && View() == WithHub(old(View()), name, flags)
    {
      FetchDecisionHubNode(name, flags);
      m_headNode := name;
    }

    method FetchDecisionHubNode(name: string, flags: Flags)
      modifies this
      ensures View() == WithHub(old(View()), name, flags) && m_headNode == old(m_headNode)
    {
      if name !in m_decisionNameToDecisionHubMap {
        m_decisionNameToDecisionHubMap := m_decisionNameToDecisionHubMap[name := HubInfo(m_nodeCounter, flags, [], [])];
        m_nodeCounter := m_nodeCounter + 1;
      }
    }

    /** The node is there afterwards even if its parent is not found. */
    method AddAlgorithmNode(name: string, parentName: string) returns (success: bool)
      modifies this
      ensures View() == ApplyOp(old(View()), AddAlg(name, parentName)) && m_headNode == old(m_headNode)
      ensures success <==> parentName in old(m_decisionNameToDecisionHubMap)
    {
      if name !in m_algoNameToAlgoNodeMap {
        m_algoNameToAlgoNodeMap := m_algoNameToAlgoNodeMap[name := AlgInfo(m_nodeCounter, m_algoCounter, [])];
        m_nodeCounter, m_algoCounter := m_nodeCounter + 1, m_algoCounter + 1;
      }
      if parentName !in m_decisionNameToDecisionHubMap {
        return false;
      }
      AddDaughterNode(parentName, AlgorithmNode(name));
      var node := m_algoNameToAlgoNodeMap[name];
      if parentName !in node.parents {
        node := node.(parents := node.parents + [parentName]);
      }
      m_algoNameToAlgoNodeMap := m_algoNameToAlgoNodeMap[name := node];
      return true;
    }

    method AddDecisionHubNode(name: string, parentName: string, flags: Flags) returns (success: bool)
      modifies this
      ensures View() == ApplyOp(old(View()), AddHub(name, parentName, flags)) && m_headNode == old(m_headNode)
      ensures success <==> parentName in m_decisionNameToDecisionHubMap
    {
      FetchDecisionHubNode(name, flags);
      if parentName !in m_decisionNameToDecisionHubMap {
        return false;
      }
      AddDaughterNode(parentName, DecisionNode(name));
      var node := m_decisionNameToDecisionHubMap[name];
      if parentName !in node.parents {
        node := node.(parents := node.parents + [parentName]);
      }
      m_decisionNameToDecisionHubMap := m_decisionNameToDecisionHubMap[name := node];
      return true;
    }

    method AddDaughterNode(parent: string, n: Node)
      requires parent in m_decisionNameToDecisionHubMap
      modifies `m_decisionNameToDecisionHubMap
      ensures View() == WithDaughter(old(View()), parent, n)
    {
      var hub := m_decisionNameToDecisionHubMap[parent];
      if n !in hub.children {
        hub := hub.(children := hub.children + [n]);
      }
      m_decisionNameToDecisionHubMap := m_decisionNameToDecisionHubMap[parent := hub];
    }
  }

  class PrecedenceSvc {
    const m_PRGraph: PrecedenceRulesGraph

    constructor ()
      ensures fresh(m_PRGraph) && m_PRGraph.View() == Rules(map[], map[], 0, 0)
    {
      m_PRGraph := new PrecedenceRulesGraph();
    }

    /** Register the tree below a hub: on success by exactly the operations of the tree. */
    method AssembleCFRules(algo: Alg, parentName: string) returns (outcome: Outcome)
      requires parentName in m_PRGraph.View().hubs
      modifies m_PRGraph
      ensures m_PRGraph.m_headNode == old(m_PRGraph.m_headNode)
      ensures old(m_PRGraph.View().hubs.Keys) <= m_PRGraph.View().hubs.Keys
      ensures outcome == Trouble(algo) && (outcome.Success? <==> Assemblable(algo))
      ensures outcome.Success? ==> m_PRGraph.View() == ApplyOps(old(m_PRGraph.View()), TreeOps(algo, parentName))
      decreases algo, 1
    {
      if algo.Leaf? {
        var added := m_PRGraph.AddAlgorithmNode(algo.name, parentName);
        assert [AddAlg(algo.name, parentName)][..0] == [];
        return Success;
      }
      if algo.Broken? {
        return Failure;
      }
      var flags := HubFlags(algo.props);
      HubFlagsMean(algo.props);
      if flags.None? {
        return Thrown;
      }
      ghost var start, hub := m_PRGraph.View(), [AddHub(algo.name, parentName, flags.value)];
      var added := m_PRGraph.AddDecisionHubNode(algo.name, parentName, flags.value);
      if !added {
        return Failure;
      }
      assert hub[..0] == [] && m_PRGraph.View() == ApplyOps(start, hub);
      outcome := AssembleSubs(algo);
      if outcome == Success {
        ApplyOpsSplit(start, hub, SubOps(algo, |algo.subs|));
      }
    }

    /** The loop over the sub-algorithms of a sequence. */
    method AssembleSubs(algo: Alg) returns (outcome: Outcome)
      requires algo.Sequence? && algo.name in m_PRGraph.View().hubs
      modifies m_PRGraph
      ensures m_PRGraph.m_headNode == old(m_PRGraph.m_headNode)
      ensures old(m_PRGraph.View().hubs.Keys) <= m_PRGraph.View().hubs.Keys
      ensures outcome == SubsTrouble(algo, |algo.subs|) && (outcome.Success? <==> SubsAssemblable(algo, |algo.subs|))
      ensures outcome.Success? ==> m_PRGraph.View() == ApplyOps(old(m_PRGraph.View()), SubOps(algo, |algo.subs|))
      decreases algo, 0
    {
      ghost var start := m_PRGraph.View();
      for i := 0 to |algo.subs|
        invariant m_PRGraph.m_headNode == old(m_PRGraph.m_headNode)
        invariant start.hubs.Keys <= m_PRGraph.View().hubs.Keys
        invariant SubsAssemblable(algo, i) && SubsTrouble(algo, i) == Success
        invariant m_PRGraph.View() == ApplyOps(start, SubOps(algo, i))
      {
        outcome := AssembleCFRules(algo.subs[i], algo.name);
        if outcome != Success {
          SubsStop(algo, i + 1, |algo.subs|);
          SubsTroubleStays(algo, i + 1, |algo.subs|);
          return;
        }
        ApplyOpsSplit(start, SubOps(algo, i), TreeOps(algo.subs[i], algo.name));
      }
      return Success;
    }

    /** The part of initialisation that assembles the rules of all top algorithms below the head node. */
    method Initialize(tops: seq<Alg>) returns (outcome: Outcome)
      requires m_PRGraph.View() == Rules(map[], map[], 0, 0)
      modifies m_PRGraph
      ensures m_PRGraph.m_headNode == ROOT
      ensures outcome.Success? <==> TopsAssemblable(tops)
      ensures outcome.Success? ==> m_PRGraph.View() == ApplyOps(HEAD_ONLY, TopOps(tops))
      ensures outcome.Success? ==>
                var hubs := m_PRGraph.View().hubs;
                && (forall h :: h in hubs && h != ROOT ==> FlagsOfFirst(TopSequences(tops), h, hubs[h].flags))
                && ROOT in hubs && hubs[ROOT].flags == Flags(true, false, true, true, false)
    {
      m_PRGraph.AddHeadNode(ROOT, Flags(true, false, true, true, false));
      assert m_PRGraph.View() == HEAD_ONLY;
      for i := 0 to |tops|
        invariant m_PRGraph.m_headNode == ROOT && ROOT in m_PRGraph.View().hubs
        invariant TopsAssemblable(tops[..i])
        invariant m_PRGraph.View() == ApplyOps(HEAD_ONLY, TopOps(tops[..i]))
      {
        outcome := AssembleCFRules(tops[i], ROOT);
        assert tops[..i + 1][..i] == tops[..i];
        if outcome != Success {
          TopsStop(tops, i + 1);
          return;
        }
        ApplyOpsSplit(HEAD_ONLY, TopOps(tops[..i]), TreeOps(tops[i], ROOT));
      }
      assert tops[..|tops|] == tops;
      HubsHaveFlags(tops);
      return Success;
    }
  }

  // --- the simulation

  function Undecided(decisions: seq<int>): nat {
    if decisions == [] then 0 else (if decisions[0] == -1 then 1 else 0) + Undecided(decisions[1..])
  }

  /** Decisions are made once and kept. */
  ghost predicate Promoted(before: seq<int>, after: seq<int>) {
    && |before| == |after|
    && (forall i :: 0 <= i < |before| && before[i] != -1 ==> after[i] == before[i])
  }

  lemma {:induction false} PromotedLess(before: seq<int>, after: seq<int>)
    requires Promoted(before, after)
    ensures Undecided(after) <= Undecided(before)
    ensures before != after ==> Undecided(after) < Undecided(before)
    decreases |before|
  {
    if before != [] {
      assert before == [before[0]] + before[1..] && after == [after[0]] + after[1..];
      PromotedLess(before[1..], after[1..]);
    }
  }

  /** What the n-th visit makes of the decisions; a visitor is arbitrary but never takes one back. */
  type Visitor = (nat, seq<int>) -> seq<int>

  ghost predicate Decides(visitor: Visitor) {
    forall n, decisions :: Promoted(decisions, visitor(n, decisions))
  }

  /** The decisions after n visits. */
  function After(visitor: Visitor, decisions: seq<int>, n: nat): seq<int> {
    if n == 0 then decisions else visitor(n - 1, After(visitor, decisions, n - 1))
  }

  /** The first n visits all find the head undecided and change something. */
  ghost predicate GoesOn(visitor: Visitor, decisions: seq<int>, head: nat, n: nat) {
    forall k :: 0 <= k < n ==>
      && head < |After(visitor, decisions, k)| && After(visitor, decisions, k)[head] == -1
      && After(visitor, decisions, k + 1) != After(visitor, decisions, k)
  }

  /** How the visits end: with the one that decides the head, or with the first that changes nothing. */
  ghost predicate Simulated(visitor: Visitor, before: seq<int>, head: nat, success: bool, visits: nat) {
    var decided := After(visitor, before, visits);
    && head < |decided|
    && if success then GoesOn(visitor, before, head, visits) && decided[head] != -1
       else visits > 0 && GoesOn(visitor, before, head, visits - 1) && decided[head] == -1
            && decided == After(visitor, before, visits - 1)
  }

  /** The loop of visits. Every visit that goes on decides a node, so there are at most as many as undecided ones. */
  method VisitAll(slot: EventSlot, head: nat, visitor: Visitor) returns (success: bool, visits: nat)
    requires head < |slot.controlFlowState| && Decides(visitor)
    modifies slot`controlFlowState
    ensures Simulated(visitor, old(slot.controlFlowState), head, success, visits)
    ensures slot.controlFlowState == After(visitor, old(slot.controlFlowState), visits)
    ensures |slot.controlFlowState| == old(|slot.controlFlowState|)
    ensures visits <= old(Undecided(slot.controlFlowState)) + (if success then 0 else 1)
  {
    visits := 0;
    ghost var before := slot.controlFlowState;
    while slot.controlFlowState[head] == -1
      invariant |slot.controlFlowState| == |before|
      invariant slot.controlFlowState == After(visitor, before, visits) && GoesOn(visitor, before, head, visits)
      invariant visits + Undecided(slot.controlFlowState) <= Undecided(before)
      decreases Undecided(slot.controlFlowState)
    {
      var prevNodeDecisions := slot.controlFlowState;
      slot.controlFlowState := visitor(visits, slot.controlFlowState);
      visits := visits + 1;
      assert Promoted(prevNodeDecisions, slot.controlFlowState);
      PromotedLess(prevNodeDecisions, slot.controlFlowState);
      if prevNodeDecisions == slot.controlFlowState {
        return false, visits;
      }
    }
    return true, visits;
  }

  /** On success the slot is as new. */
  method Simulate(slot: EventSlot, head: nat, visitor: Visitor) returns (success: bool, visits: nat)
    requires slot.StatesValid() && head < |slot.controlFlowState| && Decides(visitor)
    modifies slot, slot.algsStates.m_states, slot.algsStates.m_algsInState
    ensures slot.StatesValid() && slot.algsStates == old(slot.algsStates)
    ensures Simulated(visitor, old(slot.controlFlowState), head, success, visits)
    ensures visits <= old(Undecided(slot.controlFlowState)) + (if success then 0 else 1)
    ensures success ==> slot.controlFlowState == seq(old(|slot.controlFlowState|), i => -1)
    ensures success ==> slot.algsStates.m_states[..] == seq(slot.algsStates.m_states.Length, i => INITIAL)
    ensures !success ==> slot.controlFlowState == After(visitor, old(slot.controlFlowState), visits)
  {
    success, visits := VisitAll(slot, head, visitor);
    if success {
      slot.algsStates.Reset();
      slot.controlFlowState := seq(|slot.controlFlowState|, i => -1);
    }
  }

  /** If the rules graph can be assembled, the pool's flattening reports success. */
  lemma {:induction false} AssembledFlattens(tops: seq<Alg>)
    requires TopsAssemblable(tops)
    ensures tops == [] || Sound(tops[|tops| - 1])
  {
    if tops != [] {
      AssemblableWalks(tops[|tops| - 1]);
      WalkOk(tops[|tops| - 1]);
    }
  }
}
