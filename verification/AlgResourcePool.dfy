/**
  The algorithm resource pool: a queue of instances for each algorithm and one bitset of free
  resources. The protocol is stated on the value type `Pool`, where every holder of a loan has
  a name; the class `AlgResourcePool` performs it on bitsets and queues.
*/
module ResourcePool {

  /** What `decodeTopAlgs` fixes once: resources, needs, re-entrancy and created instances. */
  datatype Config = Config(resources: set<nat>, req: seq<set<nat>>, reentrant: seq<bool>, created: seq<set<nat>>)

  ghost predicate WellFormed(c: Config) {
    && |c.reentrant| == |c.req| == |c.created|
    && (forall a :: 0 <= a < |c.req| ==> c.req[a] <= c.resources)
    && (forall a :: 0 <= a < |c.created| ==> c.created[a] != {})
  }

  datatype Loan = Loan(alg: nat, inst: nat)

  /**
    `holds`: who owns the resources of which algorithm; `busy`: who runs which instance. Both are
    entered by an acquisition; the two halves of a release remove them one after the other.
  */
  datatype Pool<!H> = Pool(avail: set<nat>, queues: seq<seq<nat>>, holds: map<H, nat>, busy: map<H, Loan>)

  ghost predicate NoDuplicates<T>(s: seq<T>) {
    forall i, j :: 0 <= i < j < |s| ==> s[i] != s[j]
  }

  ghost predicate Owns<H(!new)>(c: Config, p: Pool<H>, h: H, r: nat) {
    h in p.holds && p.holds[h] < |c.req| && r in c.req[p.holds[h]]
  }

  /** Free resources are exactly those nobody owns, and nobody shares. */
  ghost predicate ResourcesExclusive<H(!new)>(c: Config, p: Pool<H>) {
    && p.avail <= c.resources
    && (forall h :: h in p.holds ==> p.holds[h] < |c.req|)
    && (forall h, r :: Owns(c, p, h, r) ==> r !in p.avail)
    && (forall r :: r in c.resources && r !in p.avail ==> exists h :: Owns(c, p, h, r))
    && (forall h, k, r :: Owns(c, p, h, r) && Owns(c, p, k, r) ==> h == k)
  }

  ghost predicate Runs<H(!new)>(p: Pool<H>, h: H, a: nat, x: nat) {
    h in p.busy && p.busy[h] == Loan(a, x)
  }

  /** The queue and the borrowers of a non-reentrant algorithm split its created instances. */
  ghost predicate InstancesExclusive<H(!new)>(c: Config, p: Pool<H>, a: nat)
    requires a < |p.queues| == |c.created|
  {
    && NoDuplicates(p.queues[a])
    && (forall x :: x in p.queues[a] ==> x in c.created[a])
    && (forall h, x :: Runs(p, h, a, x) ==> x in c.created[a] && x !in p.queues[a])
    && (forall x :: x in c.created[a] && x !in p.queues[a] ==> exists h :: Runs(p, h, a, x))
    && (forall h, k, x :: Runs(p, h, a, x) && Runs(p, k, a, x) ==> h == k)
  }

  ghost predicate PoolInv<H(!new)>(c: Config, p: Pool<H>) {
    && |p.queues| == |c.req| == |c.reentrant| == |c.created|
    && ResourcesExclusive(c, p)
    && (forall a :: 0 <= a < |p.queues| && c.reentrant[a] ==> multiset(p.queues[a]) == multiset(c.created[a]))
    && (forall a :: 0 <= a < |p.queues| && !c.reentrant[a] ==> InstancesExclusive(c, p, a))
  }

  /** `try_pop` on the instance queue. */
  function Popped<H>(p: Pool<H>, a: nat): Pool<H>
    requires a < |p.queues| && p.queues[a] != []
  {
    p.(queues := p.queues[a := p.queues[a][1..]])
  }

  /** The locked part of an acquisition: a refused instance that is not reentrant goes back. */
  function Locked<H>(c: Config, p: Pool<H>, h: H, a: nat, x: nat): Pool<H>
    requires a < |p.queues| == |c.req| == |c.reentrant|
  {
    if c.req[a] <= p.avail then
      Pool(p.avail - c.req[a], p.queues, p.holds[h := a], p.busy[h := Loan(a, x)])
    else if c.reentrant[a] then p
    else p.(queues := p.queues[a := p.queues[a] + [x]])
  }

  /** The last part: a reentrant instance goes back in any case. */
  function PushedBack<H>(c: Config, p: Pool<H>, a: nat, x: nat): Pool<H>
    requires a < |p.queues| == |c.reentrant|
  {
    if c.reentrant[a] then p.(queues := p.queues[a := p.queues[a] + [x]]) else p
  }

  /** All that follows the pop. */
  function Claimed<H>(c: Config, p: Pool<H>, h: H, a: nat, x: nat): Pool<H>
    requires a < |p.queues| == |c.req| == |c.reentrant|
  {
    PushedBack(c, Locked(c, p, h, a, x), a, x)
  }

  predicate CanAcquire<H>(c: Config, p: Pool<H>, a: nat)
    requires a < |p.queues| == |c.req|
  {
    p.queues[a] != [] && c.req[a] <= p.avail
  }

  /** A whole non-blocking acquisition: a failing claim still rotates the instance queue. */
  function Acquire<H>(c: Config, p: Pool<H>, h: H, a: nat): Pool<H>
    requires a < |p.queues| == |c.req| == |c.reentrant|
  {
    if p.queues[a] == [] then p else Claimed(c, Popped(p, a), h, a, p.queues[a][0])
  }

  /** First half of a release: give the resources back. */
  function ReleaseResources<H>(c: Config, p: Pool<H>, h: H): Pool<H>
    requires h in p.holds && p.holds[h] < |c.req|
  {
    p.(avail := p.avail + c.req[p.holds[h]], holds := p.holds - {h})
  }

  /** Second half: give a non-reentrant instance back. */
  function ReleaseInstance<H>(c: Config, p: Pool<H>, h: H): Pool<H>
    requires h in p.busy && p.busy[h].alg < |p.queues| == |c.reentrant|
  {
    var a := p.busy[h].alg;
    p.(queues := if c.reentrant[a] then p.queues else p.queues[a := p.queues[a] + [p.busy[h].inst]],
       busy := p.busy - {h})
  }

  /** The pool after `decodeTopAlgs`: everything free. */
  ghost predicate Initial<H(!new)>(c: Config, p: Pool<H>) {
    && p.avail == c.resources && p.holds == map[] && p.busy == map[]
    && |p.queues| == |c.created|
    && forall a :: 0 <= a < |p.queues| ==> multiset(p.queues[a]) == multiset(c.created[a])
  }

  lemma SameElements(q: seq<nat>, created: set<nat>)
    requires multiset(q) == multiset(created)
    ensures NoDuplicates(q)
    ensures forall x :: x in q <==> x in created
  {
    forall i, j | 0 <= i < j < |q| ensures q[i] != q[j] {
      assert q == q[..i] + [q[i]] + q[i + 1..];
      assert multiset(q)[q[i]] == multiset(q[..i])[q[i]] + 1 + multiset(q[i + 1..])[q[i]];
      assert q[i] !in multiset(q[i + 1..]);
      assert q[j] == q[i + 1..][j - i - 1];
    }
    forall x ensures x in q <==> x in created {
      assert x in q <==> x in multiset(q);
    }
  }

  lemma InitialInv<H(!new)>(c: Config, p: Pool<H>)
    requires WellFormed(c) && Initial(c, p)
    ensures PoolInv(c, p)
  {
    forall a | 0 <= a < |p.queues| && !c.reentrant[a] ensures InstancesExclusive(c, p, a) {
      SameElements(p.queues[a], c.created[a]);
    }
  }

  lemma ResourcesAfterAcquire<H(!new)>(c: Config, p: Pool<H>, h: H, a: nat)
    requires WellFormed(c) && PoolInv(c, p) && a < |p.queues| && h !in p.holds && h !in p.busy
    ensures ResourcesExclusive(c, Acquire(c, p, h, a))
  {
    var q := Acquire(c, p, h, a);
    if CanAcquire(c, p, a) {
      forall k, r ensures Owns(c, q, k, r) <==> Owns(c, p, k, r) || (k == h && r in c.req[a]) {
      }
      forall r | r in c.resources && r !in q.avail ensures exists k :: Owns(c, q, k, r) {
        if r in p.avail {
          assert Owns(c, q, h, r);
        } else {
          var k :| Owns(c, p, k, r);
          assert Owns(c, q, k, r);
        }
      }
    } else {
      forall k, r ensures Owns(c, q, k, r) <==> Owns(c, p, k, r) {
      }
    }
  }

  lemma RotatedQueue(q: seq<nat>)
    requires q != []
    ensures multiset(q[1..] + [q[0]]) == multiset(q)
    ensures NoDuplicates(q) ==> NoDuplicates(q[1..] + [q[0]]) && NoDuplicates(q[1..]) && q[0] !in q[1..]
    ensures forall x :: x in q[1..] + [q[0]] <==> x in q
  {
    assert q == [q[0]] + q[1..];
  }

  lemma InstancesAfterAcquire<H(!new)>(c: Config, p: Pool<H>, h: H, a: nat)
    requires WellFormed(c) && PoolInv(c, p) && a < |p.queues| && h !in p.holds && h !in p.busy
    requires !c.reentrant[a] && p.queues[a] != []
    ensures InstancesExclusive(c, Acquire(c, p, h, a), a)
  {
    var q := Acquire(c, p, h, a);
    var x := p.queues[a][0];
    assert InstancesExclusive(c, p, a);
    RotatedQueue(p.queues[a]);
    assert p.queues[a] == [x] + p.queues[a][1..];
    assert q.queues[a] == if CanAcquire(c, p, a) then p.queues[a][1..] else p.queues[a][1..] + [x];
    forall k, y ensures Runs(q, k, a, y) <==> Runs(p, k, a, y) || (CanAcquire(c, p, a) && k == h && y == x) {
    }
    forall y | y in c.created[a] && y !in q.queues[a] ensures exists k :: Runs(q, k, a, y) {
      if y != x {
        var k :| Runs(p, k, a, y);
        assert Runs(q, k, a, y);
      } else {
        assert Runs(q, h, a, y);
      }
    }
  }

  lemma OtherInstances<H(!new)>(c: Config, p: Pool<H>, q: Pool<H>, b: nat)
    requires b < |p.queues| == |q.queues| == |c.created|
    requires InstancesExclusive(c, p, b) && q.queues[b] == p.queues[b]
    requires forall k, y :: Runs(q, k, b, y) <==> Runs(p, k, b, y)
    ensures InstancesExclusive(c, q, b)
  {
    forall y | y in c.created[b] && y !in q.queues[b] ensures exists k :: Runs(q, k, b, y) {
      var k :| Runs(p, k, b, y);
      assert Runs(q, k, b, y);
    }
  }

  /** A granted acquisition adds one loan of each kind, a refused one none. */
  lemma AcquiredLoans<H>(c: Config, p: Pool<H>, h: H, a: nat)
    requires a < |p.queues| == |c.req| == |c.reentrant|
    ensures Acquire(c, p, h, a).holds == if CanAcquire(c, p, a) then p.holds[h := a] else p.holds
    ensures Acquire(c, p, h, a).busy
         == if CanAcquire(c, p, a) then p.busy[h := Loan(a, p.queues[a][0])] else p.busy
  {
  }

  /** An acquisition by a new holder keeps every exclusion property. */
  lemma {:induction false} AcquireInv<H(!new)>(c: Config, p: Pool<H>, h: H, a: nat)
    requires WellFormed(c) && PoolInv(c, p) && a < |p.queues| && h !in p.holds && h !in p.busy
    ensures PoolInv(c, Acquire(c, p, h, a))
  {
    ResourcesAfterAcquire(c, p, h, a);
    if p.queues[a] != [] {
      RotatedQueue(p.queues[a]);
      var q := Acquire(c, p, h, a);
      forall b | 0 <= b < |p.queues| && !c.reentrant[b] ensures InstancesExclusive(c, q, b) {
        if b == a {
          InstancesAfterAcquire(c, p, h, a);
        } else {
          OtherInstances(c, p, q, b);
        }
      }
      assert Popped(p, a).queues[a] == p.queues[a][1..];
    }
  }

  /** Returning resources keeps every exclusion property. */
  lemma ReleaseResourcesInv<H(!new)>(c: Config, p: Pool<H>, h: H)
    requires WellFormed(c) && PoolInv(c, p) && h in p.holds
    ensures PoolInv(c, ReleaseResources(c, p, h))
  {
    var q := ReleaseResources(c, p, h);
    forall k, r ensures Owns(c, q, k, r) <==> Owns(c, p, k, r) && k != h {
    }
    assert forall r :: r in c.req[p.holds[h]] ==> Owns(c, p, h, r);
    forall r | r in c.resources && r !in q.avail ensures exists k :: Owns(c, q, k, r) {
      var k :| Owns(c, p, k, r);
      assert Owns(c, q, k, r);
    }
    assert ResourcesExclusive(c, q);
    forall a | 0 <= a < |p.queues| && !c.reentrant[a] ensures InstancesExclusive(c, q, a) {
      OtherInstances(c, p, q, a);
    }
  }

  /** Returning an instance keeps every exclusion property. */
  lemma {:induction false} ReleaseInstanceInv<H(!new)>(c: Config, p: Pool<H>, h: H)
    requires WellFormed(c) && PoolInv(c, p) && h in p.busy && p.busy[h].alg < |p.queues|
    ensures PoolInv(c, ReleaseInstance(c, p, h))
  {
    var q := ReleaseInstance(c, p, h);
    forall k, r ensures Owns(c, q, k, r) <==> Owns(c, p, k, r) {
    }
    assert ResourcesExclusive(c, q);
    forall a | 0 <= a < |p.queues| && !c.reentrant[a] ensures InstancesExclusive(c, q, a) {
      ReleasedInstances(c, p, h, a);
    }
  }

  lemma ReleasedInstances<H(!new)>(c: Config, p: Pool<H>, h: H, a: nat)
    requires WellFormed(c) && PoolInv(c, p) && h in p.busy && p.busy[h].alg < |p.queues|
    requires a < |p.queues| && !c.reentrant[a]
    ensures InstancesExclusive(c, ReleaseInstance(c, p, h), a)
  {
    var q := ReleaseInstance(c, p, h);
    assert InstancesExclusive(c, p, a);
    forall k, x ensures Runs(q, k, a, x) <==> Runs(p, k, a, x) && k != h {
    }
    if p.busy[h].alg == a {
      assert Runs(p, h, a, p.busy[h].inst);
    }
    forall x | x in c.created[a] && x !in q.queues[a] ensures exists k :: Runs(q, k, a, x) {
      var k :| Runs(p, k, a, x);
      assert Runs(q, k, a, x);
    }
  }

  /** Nobody owns a resource that the algorithm needs and, unless it is reentrant, some instance of it is idle. */
  ghost predicate FreeFor<H(!new)>(c: Config, p: Pool<H>, a: nat)
    requires a < |c.req| == |c.reentrant| == |c.created|
  {
    && (forall k, r :: r in c.req[a] ==> !Owns(c, p, k, r))
    && (c.reentrant[a] || exists x :: x in c.created[a] && forall k :: !Runs(p, k, a, x))
  }

  /** An acquisition is granted exactly then, and one that is refused lends nothing. */
  lemma GrantedIffFree<H(!new)>(c: Config, p: Pool<H>, h: H, a: nat)
    requires WellFormed(c) && PoolInv(c, p) && a < |p.queues| && h !in p.holds && h !in p.busy
    ensures CanAcquire(c, p, a) <==> FreeFor(c, p, a)
    ensures var q := Acquire(c, p, h, a);
            if FreeFor(c, p, a) then
              && q.holds == p.holds[h := a] && q.avail == p.avail - c.req[a]
              && h in q.busy && q.busy == p.busy[h := q.busy[h]] && q.busy[h].alg == a
            else q.holds == p.holds && q.busy == p.busy && q.avail == p.avail
  {
    forall r | r in c.req[a]
      ensures r in p.avail <==> forall k :: !Owns(c, p, k, r)
    {
      assert r in c.resources;
    }
    assert c.created[a] != {};
    if c.reentrant[a] {
      var x :| x in c.created[a];
      assert x in multiset(p.queues[a]);
    } else if p.queues[a] != [] {
      assert p.queues[a][0] in p.queues[a];
    } else {
      assert forall x :: x in c.created[a] ==> exists k :: Runs(p, k, a, x);
    }
  }

  /** When nobody holds anything, any acquisition succeeds: the ground of every wake-up argument. */
  lemma IdlePoolServes<H(!new)>(c: Config, p: Pool<H>, a: nat)
    requires WellFormed(c) && PoolInv(c, p) && a < |p.queues|
    requires p.holds == map[] && p.busy == map[]
    ensures CanAcquire(c, p, a)
  {
    assert forall h, r :: !Owns(c, p, h, r);
    assert c.req[a] <= p.avail;
    var x :| x in c.created[a];
    if c.reentrant[a] {
      assert x in multiset(c.created[a]);
      assert x in p.queues[a];
    } else {
      assert InstancesExclusive(c, p, a);
      assert forall h, y :: !Runs(p, h, a, y);
      assert x in p.queues[a];
    }
  }

  /** Queue and loans together hold exactly the created instances, each once. */
  lemma InstanceConservation<H(!new)>(c: Config, p: Pool<H>, a: nat)
    requires PoolInv(c, p) && a < |p.queues| && !c.reentrant[a]
    ensures var lent := set h | h in p.busy && p.busy[h].alg == a :: p.busy[h].inst;
            && multiset(p.queues[a]) + multiset(lent) == multiset(c.created[a])
            && |lent| == |set h | h in p.busy && p.busy[h].alg == a|
  {
    var q := p.queues[a];
    var holders := set h | h in p.busy && p.busy[h].alg == a;
    var lent := set h | h in p.busy && p.busy[h].alg == a :: p.busy[h].inst;
    assert InstancesExclusive(c, p, a);
    forall x ensures (multiset(q) + multiset(lent))[x] == multiset(c.created[a])[x] {
      DistinctOnce(q, x);
      if x in c.created[a] && x !in q {
        var h :| Runs(p, h, a, x);
        assert x in lent;
      }
      if x in lent {
        var h :| h in p.busy && p.busy[h].alg == a && p.busy[h].inst == x;
        assert Runs(p, h, a, x);
      }
    }
    forall h, k | h in holders && k in holders && p.busy[h].inst == p.busy[k].inst ensures h == k {
      assert Runs(p, h, a, p.busy[h].inst) && Runs(p, k, a, p.busy[h].inst);
    }
    var f := map h | h in holders :: p.busy[h].inst;
    var image := set h | h in holders :: f[h];
    forall x ensures x in lent <==> x in image {
      if x in lent {
        var h :| h in p.busy && p.busy[h].alg == a && p.busy[h].inst == x;
        assert h in holders && f[h] == x;
      }
      if x in image {
        var h :| h in holders && f[h] == x;
        assert h in p.busy && p.busy[h].alg == a && p.busy[h].inst == x;
      }
    }
    assert lent == image;
    ImageSize(holders, f);
  }

  lemma DistinctOnce(q: seq<nat>, x: nat)
    requires NoDuplicates(q)
    ensures multiset(q)[x] == if x in q then 1 else 0
  {
    if x in q {
      var i :| 0 <= i < |q| && q[i] == x;
      assert q == q[..i] + [x] + q[i + 1..];
      assert x !in q[..i] && x !in q[i + 1..];
    }
  }

  lemma {:induction false} ImageSize<H>(s: set<H>, f: map<H, nat>)
    requires f.Keys == s
    requires forall h, k :: h in s && k in s && f[h] == f[k] ==> h == k
    ensures |set h | h in s :: f[h]| == |s|
    decreases s
  {
    var image := set h | h in s :: f[h];
    if s == {} {
      assert image == {};
    } else {
      var h :| h in s;
      var t, g := s - {h}, f - {h};
      ImageSize(t, g);
      var rest := set k | k in t :: g[k];
      forall x ensures x in image <==> x in rest || x == f[h] {
        if x in image && x != f[h] {
          var k :| k in s && f[k] == x;
          assert k in t && g[k] == x;
        }
        if x in rest {
          var k :| k in t && g[k] == x;
          assert k in s && f[k] == x;
        }
      }
      assert image == rest + {f[h]};
      assert f[h] !in rest;
    }
  }

  // ----- an acquisition is one step ------------------------------------------------------------

  /** The halves of the releases of other holders. */
  datatype Half<!H> = Resources(holder: H) | Instance(holder: H)

  predicate HalfEnabled<H>(c: Config, p: Pool<H>, half: Half<H>) {
    match half
    case Resources(k) => k in p.holds && p.holds[k] < |c.req|
    case Instance(k) => k in p.busy && p.busy[k].alg < |p.queues| == |c.reentrant|
  }

  function ApplyHalf<H>(c: Config, p: Pool<H>, half: Half<H>): Pool<H>
    requires HalfEnabled(c, p, half)
  {
    match half
    case Resources(k) => ReleaseResources(c, p, k)
    case Instance(k) => ReleaseInstance(c, p, k)
  }

  ghost predicate Releases<H>(c: Config, p: Pool<H>, halves: seq<Half<H>>, q: Pool<H>): (r: bool)
    ensures r ==> |q.queues| == |p.queues|
    decreases |halves|
  {
    if halves == [] then p == q
    else HalfEnabled(c, p, halves[0]) && Releases(c, ApplyHalf(c, p, halves[0]), halves[1..], q)
  }

  /** A release half and the pop commute, and the head of the queue stays the head. */
  lemma HalfCommutes<H>(c: Config, p: Pool<H>, a: nat, half: Half<H>)
    requires a < |p.queues| && p.queues[a] != [] && HalfEnabled(c, Popped(p, a), half)
    ensures HalfEnabled(c, p, half) && |ApplyHalf(c, p, half).queues| == |p.queues|
    ensures ApplyHalf(c, p, half).queues[a] != [] && ApplyHalf(c, p, half).queues[a][0] == p.queues[a][0]
    ensures ApplyHalf(c, Popped(p, a), half) == Popped(ApplyHalf(c, p, half), a)
  {
    if half.Instance? {
      var b, x := p.busy[half.holder].alg, p.busy[half.holder].inst;
      assert (p.queues[a] + [x])[1..] == p.queues[a][1..] + [x];
      assert ApplyHalf(c, Popped(p, a), half).queues == Popped(ApplyHalf(c, p, half), a).queues;
    }
  }

  /** Halves that follow the pop may come first, with the pop after them. */
  lemma {:induction false} ReleasesBeforePop<H>(c: Config, p: Pool<H>, a: nat, halves: seq<Half<H>>, m: Pool<H>)
    returns (q: Pool<H>)
    requires a < |p.queues| && p.queues[a] != [] && Releases(c, Popped(p, a), halves, m)
    ensures Releases(c, p, halves, q) && q.queues[a] != [] && q.queues[a][0] == p.queues[a][0]
    ensures m == Popped(q, a)
    decreases |halves|
  {
    if halves == [] {
      q := p;
    } else {
      HalfCommutes(c, p, a, halves[0]);
      q := ReleasesBeforePop(c, ApplyHalf(c, p, halves[0]), a, halves[1..], m);
    }
  }

  /** A release half and the push back of a reentrant instance commute: it pushes to another queue. */
  lemma HalfBeforePush<H>(c: Config, p: Pool<H>, a: nat, x: nat, half: Half<H>)
    requires a < |p.queues| == |c.reentrant| && HalfEnabled(c, p, half)
    ensures HalfEnabled(c, PushedBack(c, p, a, x), half) && |ApplyHalf(c, p, half).queues| == |p.queues|
    ensures ApplyHalf(c, PushedBack(c, p, a, x), half) == PushedBack(c, ApplyHalf(c, p, half), a, x)
  {
    if c.reentrant[a] && half.Instance? {
      var b := p.busy[half.holder].alg;
      if !c.reentrant[b] {
        assert ApplyHalf(c, PushedBack(c, p, a, x), half).queues == PushedBack(c, ApplyHalf(c, p, half), a, x).queues;
      }
    }
  }

  lemma {:induction false} ReleasesBeforePush<H>(c: Config, p: Pool<H>, a: nat, x: nat, halves: seq<Half<H>>,
                                                q: Pool<H>)
    requires a < |p.queues| == |c.reentrant| && Releases(c, p, halves, q)
    ensures |q.queues| == |p.queues|
    ensures Releases(c, PushedBack(c, p, a, x), halves, PushedBack(c, q, a, x))
    decreases |halves|
  {
    if halves != [] {
      HalfBeforePush(c, p, a, x, halves[0]);
      ReleasesBeforePush(c, ApplyHalf(c, p, halves[0]), a, x, halves[1..], q);
    }
  }

  /**
    An acquisition pops instance x, does its locked part, and pushes a reentrant x back. Meanwhile other
    threads take halves of releases: before the locked part they lead to m, and after it to r. The same
    halves around one step give the same pool: those before lead from p to some q, and those after from
    the result of the step to what the push back leaves of r. So an acquisition may be taken as one step.
  */
  lemma {:induction false} AcquireIsAtomic<H(!new)>(c: Config, p: Pool<H>, h: H, a: nat,
                                                   before: seq<Half<H>>, m: Pool<H>,
                                                   after: seq<Half<H>>, r: Pool<H>)
    requires PoolInv(c, p) && a < |p.queues| && p.queues[a] != [] && Releases(c, Popped(p, a), before, m)
    requires Releases(c, Locked(c, m, h, a, p.queues[a][0]), after, r)
    ensures exists q :: Releases(c, p, before, q) && q.queues[a] != []
                        && Releases(c, Acquire(c, q, h, a), after, PushedBack(c, r, a, p.queues[a][0]))
  {
    var q := ReleasesBeforePop(c, p, a, before, m);
    ReleasesBeforePush(c, Locked(c, m, h, a, p.queues[a][0]), a, p.queues[a][0], after, r);
  }
}
