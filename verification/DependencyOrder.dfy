/**
  The worklist that orders data producers. A graph lists the direct dependencies of each node; nodes
  whose dependencies are not to be followed simply have none. The list being worked on is split at the
  iterator: `done` before it, `todo` from it on.
*/
module DependencyOrder {

  type Graph = seq<seq<nat>>

  datatype Work = Work(done: seq<nat>, todo: seq<nat>)

  ghost predicate GoodGraph(g: Graph) {
    forall a, i :: 0 <= a < |g| && 0 <= i < |g[a]| ==> g[a][i] < |g|
  }

  ghost predicate NoDup(s: seq<nat>) {
    forall i, j :: 0 <= i < j < |s| ==> s[i] != s[j]
  }

  // --- the steps

  /** The list without the first occurrence of e. */
  function Without(s: seq<nat>, e: nat): seq<nat> {
    if s == [] then [] else if s[0] == e then s[1..] else [s[0]] + Without(s[1..], e)
  }

  /**
    One dependency of the current element, which stands between `done` and `todo`: already downstream,
    or moved there from upstream, or new.
  */
  function Place(w: Work, e: nat): Work {
    if e in w.todo then w else Work(Without(w.done, e), [e] + w.todo)
  }

  function PlaceAll(w: Work, es: seq<nat>): Work
    decreases |es|
  {
    if es == [] then w else Place(PlaceAll(w, es[..|es| - 1]), es[|es| - 1])
  }

  /** One round of the outer loop. */
  function Round(g: Graph, w: Work): Work
    requires w.todo != [] && w.todo[0] < |g|
  {
    var placed := PlaceAll(Work(w.done, w.todo[1..]), g[w.todo[0]]);
    Work(placed.done + [w.todo[0]], placed.todo)
  }

  ghost predicate Finished(g: Graph, w: Work, k: nat, end: Work)
    decreases k
  {
    if w.todo == [] then end == w
    else k > 0 && w.todo[0] < |g| && Finished(g, Round(g, w), k - 1, end)
  }

  ghost predicate Terminates(g: Graph, w: Work) {
    exists k: nat, end :: Finished(g, w, k, end)
  }

  // --- reachability and cycles

  ghost predicate Path(g: Graph, p: seq<nat>) {
    && p != []
    && (forall i :: 0 <= i < |p| ==> p[i] < |g|)
    && (forall i :: 0 < i < |p| ==> p[i] in g[p[i - 1]])
  }

  ghost predicate PathTo(g: Graph, seeds: seq<nat>, p: seq<nat>, x: nat) {
    Path(g, p) && p[0] in seeds && p[|p| - 1] == x
  }

  ghost predicate Reach(g: Graph, seeds: seq<nat>, x: nat) {
    exists p :: PathTo(g, seeds, p, x)
  }

  ghost predicate ReachableCycle(g: Graph, seeds: seq<nat>, p: seq<nat>) {
    Path(g, p) && |p| > 1 && p[0] == p[|p| - 1] && Reach(g, seeds, p[0])
  }

  ghost predicate Acyclic(g: Graph, seeds: seq<nat>) {
    forall p :: !ReachableCycle(g, seeds, p)
  }

  lemma ReachSeed(g: Graph, seeds: seq<nat>, x: nat)
    requires x in seeds && x < |g|
    ensures Reach(g, seeds, x)
  {
    assert PathTo(g, seeds, [x], x);
  }

  lemma ReachNext(g: Graph, seeds: seq<nat>, x: nat, y: nat)
    requires GoodGraph(g) && Reach(g, seeds, x) && x < |g| && y in g[x]
    ensures Reach(g, seeds, y) && y < |g|
  {
    var p :| PathTo(g, seeds, p, x);
    assert PathTo(g, seeds, p + [y], y);
  }

  // --- what every round keeps

  function Elems(s: seq<nat>): set<nat> {
    set x | x in s
  }

  /** Each dependency of an element of `done` stands further down or in `rest`. */
  ghost predicate Ordered(g: Graph, done: seq<nat>, rest: set<nat>)
    decreases |done|
  {
    done == [] ||
    (done[0] < |g| && (forall b :: b in g[done[0]] ==> b in done[1..] || b in rest) && Ordered(g, done[1..], rest))
  }

  ghost predicate Inv(g: Graph, seeds: seq<nat>, w: Work) {
    && (forall x :: x in seeds ==> x in w.done || x in w.todo)
    && (forall x :: x in w.done || x in w.todo ==> x < |g| && Reach(g, seeds, x))
    && Ordered(g, w.done, Elems(w.todo))
  }

  lemma {:induction false} WithoutElems(s: seq<nat>, e: nat)
    ensures forall x :: x in Without(s, e) ==> x in s
    ensures forall x :: x in s && x != e ==> x in Without(s, e)
    ensures NoDup(s) ==> NoDup(Without(s, e)) && e !in Without(s, e)
  {
    if s != [] && s[0] != e {
      WithoutElems(s[1..], e);
      assert NoDup(s) ==> NoDup(s[1..]) && s[0] !in s[1..];
      assert s == [s[0]] + s[1..];
      var t := Without(s[1..], e);
      assert NoDup(t) && s[0] !in t ==> NoDup([s[0]] + t);
    }
  }

  lemma {:induction false} OrderedWithout(g: Graph, done: seq<nat>, rest: set<nat>, e: nat)
    requires Ordered(g, done, rest)
    ensures Ordered(g, Without(done, e), rest + {e})
  {
    if done != [] {
      OrderedWithout(g, done[1..], rest, e);
      if done[0] == e {
        OrderedMore(g, done[1..], rest, rest + {e});
      } else {
        WithoutElems(done[1..], e);
        assert Without(done, e)[1..] == Without(done[1..], e);
      }
    }
  }

  lemma {:induction false} OrderedMore(g: Graph, done: seq<nat>, rest: set<nat>, more: set<nat>)
    requires Ordered(g, done, rest) && rest <= more
    ensures Ordered(g, done, more)
  {
    if done != [] {
      OrderedMore(g, done[1..], rest, more);
    }
  }

  lemma {:induction false} OrderedSnoc(g: Graph, done: seq<nat>, c: nat, rest: set<nat>)
    requires Ordered(g, done, rest + {c}) && c < |g| && forall b :: b in g[c] ==> b in rest
    ensures Ordered(g, done + [c], rest)
  {
    if done == [] {
      assert ([] + [c])[1..] == [];
    } else {
      OrderedSnoc(g, done[1..], c, rest);
      assert (done + [c])[1..] == done[1..] + [c];
    }
  }

  /** What placing dependencies of the current element c does to the elements and their order. */
  lemma {:induction false} PlaceAllKeeps(g: Graph, w: Work, es: seq<nat>, c: nat)
    requires Ordered(g, w.done, Elems(w.todo) + {c})
    ensures var v := PlaceAll(w, es);
            && Ordered(g, v.done, Elems(v.todo) + {c})
            && (forall x :: x in v.done || x in v.todo <==> x in w.done || x in w.todo || x in es)
            && (forall x :: x in w.todo || x in es ==> x in v.todo)
    decreases |es|
  {
    if es != [] {
      var init, e := es[..|es| - 1], es[|es| - 1];
      PlaceAllKeeps(g, w, init, c);
      assert es == init + [e];
      var v := PlaceAll(w, init);
      if e !in v.todo {
        OrderedWithout(g, v.done, Elems(v.todo) + {c}, e);
        WithoutElems(v.done, e);
        assert Elems(v.todo) + {c} + {e} == Elems([e] + v.todo) + {c};
      }
    }
  }

  lemma RoundKeeps(g: Graph, seeds: seq<nat>, w: Work)
    requires GoodGraph(g) && Inv(g, seeds, w) && w.todo != []
    ensures w.todo[0] < |g| && Inv(g, seeds, Round(g, w))
  {
    var c := w.todo[0];
    assert w.todo == [c] + w.todo[1..];
    assert Elems(w.todo) == Elems(w.todo[1..]) + {c};
    PlaceAllKeeps(g, Work(w.done, w.todo[1..]), g[c], c);
    var v := PlaceAll(Work(w.done, w.todo[1..]), g[c]);
    OrderedSnoc(g, v.done, c, Elems(v.todo));
    forall x | x in v.done + [c] || x in v.todo
      ensures x < |g| && Reach(g, seeds, x)
    {
      if x in g[c] {
        ReachNext(g, seeds, c, x);
      }
    }
  }

  lemma {:induction false} FinishedKeeps(g: Graph, seeds: seq<nat>, w: Work, k: nat, end: Work)
    requires GoodGraph(g) && Inv(g, seeds, w) && Finished(g, w, k, end)
    ensures Inv(g, seeds, end) && end.todo == []
    decreases k
  {
    if w.todo != [] {
      RoundKeeps(g, seeds, w);
      FinishedKeeps(g, seeds, Round(g, w), k - 1, end);
    }
  }

  lemma InitialInv(g: Graph, seeds: seq<nat>)
    requires forall x :: x in seeds ==> x < |g|
    ensures Inv(g, seeds, Work([], seeds))
  {
    forall x | x in seeds
      ensures Reach(g, seeds, x)
    {
      ReachSeed(g, seeds, x);
    }
  }

  // --- no element twice, unless an element depends on itself

  ghost predicate NoSelfLoop(g: Graph, seeds: seq<nat>) {
    forall x: nat :: Reach(g, seeds, x) && x < |g| ==> x !in g[x]
  }

  lemma AcyclicNoSelfLoop(g: Graph, seeds: seq<nat>)
    requires Acyclic(g, seeds)
    ensures NoSelfLoop(g, seeds)
  {
    forall x: nat | Reach(g, seeds, x) && x < |g|
      ensures x !in g[x]
    {
      assert !ReachableCycle(g, seeds, [x, x]);
    }
  }

  ghost predicate Apart(w: Work, c: nat) {
    && NoDup(w.done) && NoDup(w.todo) && c !in w.done && c !in w.todo
    && (forall x :: x in w.done ==> x !in w.todo)
  }

  lemma {:induction false} PlaceAllApart(w: Work, es: seq<nat>, c: nat)
    requires Apart(w, c) && c !in es
    ensures Apart(PlaceAll(w, es), c)
    decreases |es|
  {
    if es != [] {
      PlaceAllApart(w, es[..|es| - 1], c);
      WithoutElems(PlaceAll(w, es[..|es| - 1]).done, es[|es| - 1]);
    }
  }

  ghost predicate Distinct(w: Work) {
    NoDup(w.done) && NoDup(w.todo) && forall x :: x in w.done ==> x !in w.todo
  }

  lemma RoundDistinct(g: Graph, w: Work)
    requires Distinct(w) && w.todo != [] && w.todo[0] < |g| && w.todo[0] !in g[w.todo[0]]
    ensures Distinct(Round(g, w))
    ensures w.todo[0] !in PlaceAll(Work(w.done, w.todo[1..]), g[w.todo[0]]).done
  {
    assert w.todo[0] !in w.todo[1..];
    PlaceAllApart(Work(w.done, w.todo[1..]), g[w.todo[0]], w.todo[0]);
  }

  lemma {:induction false} FinishedDistinct(g: Graph, seeds: seq<nat>, w: Work, k: nat, end: Work)
    requires GoodGraph(g) && Inv(g, seeds, w) && Finished(g, w, k, end)
    requires NoSelfLoop(g, seeds) && Distinct(w)
    ensures Distinct(end)
    decreases k
  {
    if w.todo != [] {
      RoundKeeps(g, seeds, w);
      RoundDistinct(g, w);
      FinishedDistinct(g, seeds, Round(g, w), k - 1, end);
    }
  }

  // --- what the finished list is

  /** The position of the last occurrence, counted from the end. */
  function Below(s: seq<nat>, x: nat): nat
    requires x in s
    ensures Below(s, x) < |s|
  {
    if x in s[1..] then Below(s[1..], x) else |s| - 1
  }

  lemma {:induction false} OrderedBelow(g: Graph, done: seq<nat>, a: nat, b: nat)
    requires Ordered(g, done, {}) && a in done && a < |g| && b in g[a]
    ensures b in done && Below(done, b) < Below(done, a)
  {
    assert done == [done[0]] + done[1..];
    if a in done[1..] {
      OrderedBelow(g, done[1..], a, b);
    } else {
      assert b in done[1..];
    }
  }

  /** Along a path through the finished list the elements come further and further down. */
  lemma {:induction false} PathGoesDown(g: Graph, done: seq<nat>, p: seq<nat>)
    requires Ordered(g, done, {}) && Path(g, p) && p[0] in done
    ensures p[|p| - 1] in done
    ensures |p| > 1 ==> Below(done, p[|p| - 1]) < Below(done, p[0])
    decreases |p|
  {
    if |p| > 1 {
      var q := p[..|p| - 1];
      PathGoesDown(g, done, q);
      OrderedBelow(g, done, q[|q| - 1], p[|p| - 1]);
    }
  }

  /** If the worklist finishes at all, no cycle can be reached. */
  lemma {:induction false} FinishedAcyclic(g: Graph, seeds: seq<nat>, k: nat, end: Work)
    requires GoodGraph(g) && (forall x :: x in seeds ==> x < |g|)
    requires Finished(g, Work([], seeds), k, end)
    ensures Acyclic(g, seeds)
  {
    InitialInv(g, seeds);
    FinishedKeeps(g, seeds, Work([], seeds), k, end);
    assert Elems(end.todo) == {};
    forall p
      ensures !ReachableCycle(g, seeds, p)
    {
      if ReachableCycle(g, seeds, p) {
        var q :| PathTo(g, seeds, q, p[0]);
        PathGoesDown(g, end.done, q);
        PathGoesDown(g, end.done, p);
      }
    }
  }

  /** The list holds exactly what the seeds need, each once, and every element before each of its dependencies. */
  ghost predicate Downwards(g: Graph, seeds: seq<nat>, done: seq<nat>) {
    && NoDup(done)
    && (forall x :: x in done <==> Reach(g, seeds, x))
    && (forall x :: x in done ==> x < |g|)
    && (forall i, b :: 0 <= i < |done| && done[i] < |g| && b in g[done[i]] ==> b in done[i + 1..])
  }

  lemma {:induction false} DoneDownwards(g: Graph, seeds: seq<nat>, end: Work)
    requires GoodGraph(g) && Inv(g, seeds, end) && Distinct(end) && end.todo == []
    ensures Downwards(g, seeds, end.done)
  {
    assert Elems(end.todo) == {};
    forall x | Reach(g, seeds, x)
      ensures x in end.done
    {
      var p :| PathTo(g, seeds, p, x);
      PathGoesDown(g, end.done, p);
    }
    forall i, b | 0 <= i < |end.done| && end.done[i] < |g| && b in g[end.done[i]]
      ensures b in end.done[i + 1..]
    {
      OrderedAt(g, end.done, i);
    }
  }

  /** Whenever the worklist finishes, its list is right. */
  lemma {:induction false} FinishedDownwards(g: Graph, seeds: seq<nat>, k: nat, end: Work)
    requires GoodGraph(g) && NoDup(seeds) && (forall x :: x in seeds ==> x < |g|)
    requires Finished(g, Work([], seeds), k, end)
    ensures Downwards(g, seeds, end.done)
  {
    InitialInv(g, seeds);
    FinishedKeeps(g, seeds, Work([], seeds), k, end);
    FinishedAcyclic(g, seeds, k, end);
    AcyclicNoSelfLoop(g, seeds);
    FinishedDistinct(g, seeds, Work([], seeds), k, end);
    DoneDownwards(g, seeds, end);
  }

  lemma {:induction false} OrderedAt(g: Graph, done: seq<nat>, i: nat)
    requires Ordered(g, done, {}) && i < |done|
    ensures done[i] < |g| && forall b :: b in g[done[i]] ==> b in done[i + 1..]
  {
    if i > 0 {
      OrderedAt(g, done[1..], i - 1);
      assert done[1..][i..] == done[i + 1..];
    }
  }

  // --- termination

  /** One more than the weights of the dependencies, following at most k of them in a row. */
  function Weight(g: Graph, a: nat, k: nat): nat
    decreases k, 0, 0
  {
    if k == 0 || a >= |g| then 0 else 1 + Weights(g, g[a], k - 1)
  }

  function Weights(g: Graph, es: seq<nat>, k: nat): nat
    decreases k, 1, |es|
  {
    if es == [] then 0 else Weights(g, es[..|es| - 1], k) + Weight(g, es[|es| - 1], k)
  }

  ghost predicate LongPath(g: Graph, a: nat, k: nat) {
    exists p :: Path(g, p) && |p| == k + 1 && p[0] == a
  }

  lemma LongerPath(g: Graph, a: nat, b: nat, k: nat)
    requires GoodGraph(g) && a < |g| && b in g[a] && LongPath(g, b, k)
    ensures LongPath(g, a, k + 1)
  {
    var p :| Path(g, p) && |p| == k + 1 && p[0] == b;
    assert Path(g, [a] + p);
  }

  /** Once k exceeds the longest path the weight no longer changes. */
  lemma {:induction false} WeightStable(g: Graph, a: nat, k: nat)
    requires GoodGraph(g) && a < |g| && !LongPath(g, a, k)
    ensures Weight(g, a, k) == Weight(g, a, k + 1)
    decreases k, 0, 0
  {
    if k == 0 {
      assert Path(g, [a]) && |[a]| == 1;
    } else {
      WeightsStable(g, a, g[a], k - 1);
    }
  }

  lemma {:induction false} WeightsStable(g: Graph, a: nat, es: seq<nat>, k: nat)
    requires GoodGraph(g) && a < |g| && !LongPath(g, a, k + 1) && forall e :: e in es ==> e in g[a]
    ensures Weights(g, es, k) == Weights(g, es, k + 1)
    decreases k, 1, |es|
  {
    if es != [] {
      var init, e := es[..|es| - 1], es[|es| - 1];
      assert es == init + [e];
      WeightsStable(g, a, init, k);
      assert e in g[a];
      if LongPath(g, e, k) {
        LongerPath(g, a, e, k);
      }
      WeightStable(g, e, k);
    }
  }

  /** More than n numbers below n repeat one. */
  lemma {:induction false} Repeats(p: seq<nat>, n: nat)
    requires |p| > n && forall i :: 0 <= i < |p| ==> p[i] < n
    ensures !NoDup(p)
  {
    if NoDup(p) {
      DistinctBounded(p, n);
    }
  }

  lemma {:induction false} DistinctBounded(p: seq<nat>, n: nat)
    requires NoDup(p) && forall i :: 0 <= i < |p| ==> p[i] < n
    ensures |p| <= n
    decreases n
  {
    if p != [] {
      assert p[0] < n;
      var q := Without(p, n - 1);
      assert |p| - 1 <= |q| by { WithoutLength(p, n - 1); }
      assert |q| <= n - 1 by {
        WithoutBounded(p, n - 1);
        DistinctBounded(q, n - 1);
      }
    }
  }

  lemma {:induction false} WithoutBounded(p: seq<nat>, n: nat)
    requires NoDup(p) && forall i :: 0 <= i < |p| ==> p[i] <= n
    ensures var q := Without(p, n); NoDup(q) && forall i :: 0 <= i < |q| ==> q[i] < n
  {
    WithoutElems(p, n);
    var q := Without(p, n);
    forall i | 0 <= i < |q|
      ensures q[i] < n
    {
      assert q[i] in q;
      assert q[i] in p;
    }
  }

  lemma {:induction false} WithoutLength(s: seq<nat>, e: nat)
    ensures |s| - 1 <= |Without(s, e)| <= |s|
  {
    if s != [] && s[0] != e {
      WithoutLength(s[1..], e);
    }
  }

  /** Without reachable cycles, no path from a reachable node visits more nodes than there are. */
  lemma {:induction false} AcyclicShort(g: Graph, seeds: seq<nat>, a: nat)
    requires GoodGraph(g) && Acyclic(g, seeds) && Reach(g, seeds, a)
    ensures !LongPath(g, a, |g|)
  {
    if LongPath(g, a, |g|) {
      var p :| Path(g, p) && |p| == |g| + 1 && p[0] == a;
      Repeats(p, |g|);
      var i, j :| 0 <= i < j < |p| && p[i] == p[j];
      PathReach(g, seeds, p, i);
      var c := p[i..j + 1];
      forall m | 0 < m < |c|
        ensures c[m] in g[c[m - 1]]
      {
        assert c[m] == p[i + m] && c[m - 1] == p[i + m - 1];
      }
      assert ReachableCycle(g, seeds, c);
    }
  }

  lemma {:induction false} PathReach(g: Graph, seeds: seq<nat>, p: seq<nat>, i: nat)
    requires GoodGraph(g) && Path(g, p) && Reach(g, seeds, p[0]) && i < |p|
    ensures Reach(g, seeds, p[i])
  {
    if i > 0 {
      PathReach(g, seeds, p, i - 1);
      ReachNext(g, seeds, p[i - 1], p[i]);
    }
  }

  /** The weight of a reachable node exceeds that of all its dependencies together. */
  lemma WeightExceeds(g: Graph, seeds: seq<nat>, a: nat)
    requires GoodGraph(g) && Acyclic(g, seeds) && Reach(g, seeds, a) && a < |g|
    ensures Weight(g, a, |g|) == 1 + Weights(g, g[a], |g|)
  {
    AcyclicShort(g, seeds, a);
    WeightsStable(g, a, g[a], |g| - 1);
  }

  /** The weight of the nodes below n that are not processed. */
  function Pending(g: Graph, done: seq<nat>, n: nat): nat
    decreases n
  {
    if n == 0 then 0 else Pending(g, done, n - 1) + (if n - 1 in done then 0 else Weight(g, n - 1, |g|))
  }

  /** Sending one node back adds at most its weight. */
  lemma {:induction false} PendingLess(g: Graph, done: seq<nat>, less: seq<nat>, e: nat, n: nat)
    requires forall x :: x in done && x != e ==> x in less
    ensures Pending(g, less, n) <= Pending(g, done, n) + (if e < n then Weight(g, e, |g|) else 0)
    decreases n
  {
    if n > 0 {
      PendingLess(g, done, less, e, n - 1);
    }
  }

  lemma {:induction false} PendingSnoc(g: Graph, done: seq<nat>, c: nat, n: nat)
    requires c !in done
    ensures Pending(g, done + [c], n) == Pending(g, done, n) - (if c < n then Weight(g, c, |g|) else 0)
    decreases n
  {
    if n > 0 {
      PendingSnoc(g, done, c, n - 1);
      assert n - 1 in done + [c] <==> n - 1 in done || n - 1 == c;
    }
  }

  lemma {:induction false} PendingPlaceAll(g: Graph, w: Work, es: seq<nat>)
    ensures Pending(g, PlaceAll(w, es).done, |g|) <= Pending(g, w.done, |g|) + Weights(g, es, |g|)
    decreases |es|
  {
    if es != [] {
      var v := PlaceAll(w, es[..|es| - 1]);
      PendingPlaceAll(g, w, es[..|es| - 1]);
      WithoutElems(v.done, es[|es| - 1]);
      PendingLess(g, v.done, Without(v.done, es[|es| - 1]), es[|es| - 1], |g|);
    }
  }

  /**
    Although elements go back to the unprocessed part, a round lowers the pending weight: the element
    processed outweighs everything it can send back.
  */
  lemma {:induction false} RoundDecreases(g: Graph, seeds: seq<nat>, w: Work)
    requires GoodGraph(g) && Acyclic(g, seeds) && Inv(g, seeds, w) && Distinct(w) && w.todo != []
    ensures w.todo[0] < |g| && Pending(g, Round(g, w).done, |g|) < Pending(g, w.done, |g|)
  {
    var c := w.todo[0];
    assert c in w.todo;
    var placed := PlaceAll(Work(w.done, w.todo[1..]), g[c]);
    AcyclicNoSelfLoop(g, seeds);
    RoundDistinct(g, w);
    WeightExceeds(g, seeds, c);
    PendingPlaceAll(g, Work(w.done, w.todo[1..]), g[c]);
    PendingSnoc(g, placed.done, c, |g|);
  }

  lemma {:induction false} AcyclicTerminates(g: Graph, seeds: seq<nat>, w: Work)
    requires GoodGraph(g) && Acyclic(g, seeds) && Inv(g, seeds, w) && Distinct(w)
    ensures Terminates(g, w)
    decreases Pending(g, w.done, |g|)
  {
    if w.todo == [] {
      assert Finished(g, w, 0, w);
    } else {
      RoundKeeps(g, seeds, w);
      RoundDecreases(g, seeds, w);
      AcyclicNoSelfLoop(g, seeds);
      RoundDistinct(g, w);
      AcyclicTerminates(g, seeds, Round(g, w));
      var k: nat, end :| Finished(g, Round(g, w), k, end);
      assert Finished(g, w, k + 1, end);
    }
  }

  /** The worklist finishes exactly when the part of the graph that the seeds need has no cycle. */
  lemma {:induction false} TerminatesIffAcyclic(g: Graph, seeds: seq<nat>)
    requires GoodGraph(g) && NoDup(seeds) && forall x :: x in seeds ==> x < |g|
    ensures Terminates(g, Work([], seeds)) <==> Acyclic(g, seeds)
  {
    if Terminates(g, Work([], seeds)) {
      var k: nat, end :| Finished(g, Work([], seeds), k, end);
      FinishedAcyclic(g, seeds, k, end);
    }
    if Acyclic(g, seeds) {
      InitialInv(g, seeds);
      AcyclicTerminates(g, seeds, Work([], seeds));
    }
  }
}
