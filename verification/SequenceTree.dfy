/**
  The tree of sequences given by the top algorithms, and the flat list that the resource pool makes of
  it: the leaves in order, each algorithm at its first occurrence only.
*/
module SequenceTree {

  /** `Broken` says it is a sequence but cannot be cast to one. Names identify algorithms. */
  datatype Alg =
    | Leaf(name: string)
    | Sequence(name: string, props: map<string, string>, subs: seq<Alg>)
    | Broken(name: string)

  datatype Walked = Walked(ok: bool, leaves: seq<string>)

  function Then(a: Walked, b: Walked): Walked {
    if a.ok then Walked(b.ok, a.leaves + b.leaves) else a
  }

  /** The leaves met from left to right until a broken sequence stops the walk. */
  function Walk(alg: Alg): Walked
    decreases alg, 1, 0
  {
    match alg
    case Leaf(name) => Walked(true, [name])
    case Broken(_) => Walked(false, [])
    case Sequence(_, _, subs) => WalkSubs(alg, |subs|)
  }

  function WalkSubs(alg: Alg, n: nat): Walked
    requires alg.Sequence? && n <= |alg.subs|
    decreases alg, 0, n
  {
    if n == 0 then Walked(true, []) else Then(WalkSubs(alg, n - 1), Walk(alg.subs[n - 1]))
  }

  ghost predicate Sound(alg: Alg)
    decreases alg
  {
    !alg.Broken? && (alg.Sequence? ==> forall i :: 0 <= i < |alg.subs| ==> Sound(alg.subs[i]))
  }

  /** The walk gets through exactly the trees without broken sequences. */
  lemma {:induction false} WalkOk(alg: Alg)
    ensures Walk(alg).ok <==> Sound(alg)
    decreases alg, 1, 0
  {
    if alg.Sequence? {
      WalkSubsOk(alg, |alg.subs|);
    }
  }

  lemma {:induction false} WalkSubsOk(alg: Alg, n: nat)
    requires alg.Sequence? && n <= |alg.subs|
    ensures WalkSubs(alg, n).ok <==> forall i :: 0 <= i < n ==> Sound(alg.subs[i])
    decreases alg, 0, n
  {
    if n > 0 {
      WalkSubsOk(alg, n - 1);
      WalkOk(alg.subs[n - 1]);
    }
  }

  /** flattenSequencer: what was found before a failure stays in the list. */
  method FlattenSequencer(algo: Alg, alglist: seq<string>) returns (success: bool, flat: seq<string>)
    ensures success == Walk(algo).ok && flat == alglist + Walk(algo).leaves
    decreases algo
  {
    flat := alglist;
    match algo {
      case Leaf(name) =>
        flat := flat + [name];
        return true, flat;
      case Broken(_) =>
        return false, flat;
      case Sequence(_, _, subs) =>
        for i := 0 to |subs|
          invariant WalkSubs(algo, i).ok && flat == alglist + WalkSubs(algo, i).leaves
        {
          success, flat := FlattenSequencer(subs[i], flat);
          if !success {
            WalkStops(algo, i + 1, |subs|);
            return;
          }
        }
        return true, flat;
    }
  }

  /** After a failure nothing is added. */
  lemma {:induction false} WalkStops(alg: Alg, n: nat, m: nat)
    requires alg.Sequence? && n <= m <= |alg.subs| && !WalkSubs(alg, n).ok
    ensures WalkSubs(alg, m) == WalkSubs(alg, n)
    decreases m
  {
    if n < m {
      WalkStops(alg, n, m - 1);
    }
  }

  // --- the list of the top algorithms

  function WalkTops(tops: seq<Alg>): (leaves: seq<string>)
    decreases |tops|
  {
    if tops == [] then [] else WalkTops(tops[..|tops| - 1]) + Walk(tops[|tops| - 1]).leaves
  }

  /** Each top algorithm's status overwrites that of the one before. */
  method FlattenTops(tops: seq<Alg>) returns (success: bool, flat: seq<string>)
    ensures flat == WalkTops(tops)
    ensures success <==> tops == [] || Sound(tops[|tops| - 1])
  {
    success, flat := true, [];
    for i := 0 to |tops|
      invariant flat == WalkTops(tops[..i])
      invariant success <==> i == 0 || Sound(tops[i - 1])
    {
      success, flat := FlattenSequencer(tops[i], flat);
      WalkOk(tops[i]);
      assert tops[..i + 1][..i] == tops[..i];
    }
    assert tops[..|tops|] == tops;
  }

  /** A broken sequence goes unreported when another top algorithm follows, and its leaves are missing. */
  lemma FailureMasked()
    ensures var tops := [Sequence("A", map[], [Broken("B"), Leaf("x")]), Leaf("y")];
            && !Sound(tops[0]) && Sound(tops[|tops| - 1])
            && WalkTops(tops) == ["y"]
  {
    var a := Sequence("A", map[], [Broken("B"), Leaf("x")]);
    var tops := [a, Leaf("y")];
    assert Walk(a.subs[0]) == Walked(false, []) && WalkSubs(a, 1) == Walked(false, []);
    assert WalkSubs(a, 2) == Walked(false, []);
    WalkOk(a);
    assert tops[..1] == [a] && tops[..1][..0] == [];
    assert WalkTops([a]) == [] by { assert [a][..0] == []; }
  }

  // --- each algorithm once

  function Extend(list: seq<string>, x: string): seq<string> {
    if x in list then list else list + [x]
  }

  /** Append what is new, from left to right. */
  function ExtendAll(list: seq<string>, xs: seq<string>): seq<string>
    decreases |xs|
  {
    if xs == [] then list else Extend(ExtendAll(list, xs[..|xs| - 1]), xs[|xs| - 1])
  }

  ghost predicate NoDup(s: seq<string>) {
    forall i, j :: 0 <= i < j < |s| ==> s[i] != s[j]
  }

  /** Where x stands first. */
  ghost predicate FirstAt(s: seq<string>, x: string, i: nat) {
    i < |s| && s[i] == x && x !in s[..i]
  }

  lemma {:induction false} ExtendAllSplit(list: seq<string>, xs: seq<string>, ys: seq<string>)
    ensures ExtendAll(list, xs + ys) == ExtendAll(ExtendAll(list, xs), ys)
    decreases |ys|
  {
    if ys == [] {
      assert xs + ys == xs;
    } else {
      ExtendAllSplit(list, xs, ys[..|ys| - 1]);
      assert (xs + ys)[..|xs + ys| - 1] == xs + ys[..|ys| - 1];
    }
  }

  /** Every element once, in the order of the first occurrences. */
  lemma {:induction false} ExtendAllOnce(xs: seq<string>)
    ensures NoDup(ExtendAll([], xs))
    ensures forall x :: x in ExtendAll([], xs) <==> x in xs
    decreases |xs|
  {
    if xs != [] {
      ExtendAllOnce(xs[..|xs| - 1]);
      assert xs == xs[..|xs| - 1] + [xs[|xs| - 1]];
    }
  }

  lemma {:induction false} ExtendAllOrder(xs: seq<string>, i: nat, j: nat, k: nat, l: nat)
    requires i < j < |ExtendAll([], xs)|
    requires FirstAt(xs, ExtendAll([], xs)[i], k) && FirstAt(xs, ExtendAll([], xs)[j], l)
    ensures k < l
    decreases |xs|
  {
    var n := |xs| - 1;
    var init, e, out := xs[..n], ExtendAll([], xs[..n]), ExtendAll([], xs);
    ExtendAllOnce(init);
    if j < |e| {
      StandsInInit(xs, e[i], k);
      StandsInInit(xs, e[j], l);
      ExtendAllOrder(init, i, j, k, l);
    } else {
      assert out == e + [xs[n]] && xs[n] !in init;
      assert e[i] in init;
      StandsInInit(xs, e[i], k);
      NotIn(xs, n, xs[n]);
    }
  }

  lemma NotIn(xs: seq<string>, n: nat, x: string)
    requires n <= |xs| && x !in xs[..n]
    ensures forall m :: 0 <= m < n ==> xs[m] != x
  {
    forall m | 0 <= m < n
      ensures xs[m] != x
    {
      assert xs[..n][m] == xs[m];
    }
  }

  /** The first place of an element that occurs before the last position. */
  lemma StandsInInit(xs: seq<string>, x: string, k: nat)
    requires xs != [] && x in xs[..|xs| - 1] && FirstAt(xs, x, k)
    ensures k < |xs| - 1 && FirstAt(xs[..|xs| - 1], x, k)
  {
    var init := xs[..|xs| - 1];
    var m :| 0 <= m < |init| && init[m] == x;
    NotIn(xs, k, x);
    assert init[..k] == xs[..k];
  }

  /** An element that is there already can be left out. */
  lemma {:induction false} LeaveOut(list: seq<string>, xs: seq<string>, n: nat)
    requires n < |xs| && xs[n] in list
    ensures ExtendAll(list, xs) == ExtendAll(list, xs[..n] + xs[n + 1..])
  {
    var a, x, b := xs[..n], xs[n], xs[n + 1..];
    assert xs == (a + [x]) + b;
    ExtendAllSplit(list, a + [x], b);
    ExtendAllSplit(list, a, b);
    assert (a + [x])[..n] == a;
    ExtendAllKeeps(list, a, x);
  }

  lemma {:induction false} ExtendAllKeeps(list: seq<string>, xs: seq<string>, x: string)
    requires x in list
    ensures x in ExtendAll(list, xs)
    decreases |xs|
  {
    if xs != [] {
      ExtendAllKeeps(list, xs[..|xs| - 1], x);
    }
  }

  lemma ExtendHead(list: seq<string>, xs: seq<string>)
    requires xs != [] && xs[0] !in list
    ensures ExtendAll(list, xs) == ExtendAll(list + [xs[0]], xs[1..])
  {
    assert xs == [xs[0]] + xs[1..];
    ExtendAllSplit(list, [xs[0]], xs[1..]);
    assert [xs[0]][..0] == [];
  }

  /** The outer loop over the list from which repetitions are erased in place. */
  method EraseRepetitions(list: seq<string>) returns (flat: seq<string>)
    ensures flat == ExtendAll([], list)
  {
    flat := list;
    var i := 0;
    assert flat[..0] == [] && flat[0..] == flat;
    while i < |flat|
      invariant i <= |flat|
      invariant ExtendAll(flat[..i], flat[i..]) == ExtendAll([], list)
      invariant forall k :: i <= k < |flat| ==> flat[k] !in flat[..i]
    {
      ExtendHead(flat[..i], flat[i..]);
      assert flat[i..][1..] == flat[i + 1..] && flat[..i + 1] == flat[..i] + [flat[i]];
      flat := EraseAfter(flat, i);
      i := i + 1;
    }
    assert flat[..i] == flat && flat[i..] == [];
  }

  /** The inner loop: erase what equals element i behind it. */
  method EraseAfter(list: seq<string>, i: nat) returns (flat: seq<string>)
    requires i < |list| && forall k :: i <= k < |list| ==> list[k] !in list[..i]
    ensures i < |flat| <= |list| && flat[..i + 1] == list[..i + 1]
    ensures ExtendAll(flat[..i + 1], flat[i + 1..]) == ExtendAll(list[..i + 1], list[i + 1..])
    ensures forall k :: i < k < |flat| ==> flat[k] !in flat[..i + 1]
  {
    flat := list;
    ghost var kept, rest := list[..i + 1], list[i + 1..];
    assert list == kept + rest && kept == list[..i] + [list[i]];
    var n := i + 1;
    while n < |flat|
      invariant i < n <= |flat| <= |list| && flat == kept + rest
      invariant ExtendAll(kept, rest) == ExtendAll(kept, list[i + 1..])
      invariant forall k :: 0 <= k < |rest| ==> rest[k] !in list[..i]
      invariant forall k :: 0 <= k < n - i - 1 ==> rest[k] != list[i]
    {
      if flat[n] == flat[i] {
        LeaveOut(kept, rest, n - i - 1);
        flat := flat[..n] + flat[n + 1..];
        rest := rest[..n - i - 1] + rest[n - i..];
      } else {
        n := n + 1;
      }
    }
  }
}
