/**
  The resource pool as the program builds and runs it: resource names become bits, needs become
  bitsets, and a lock-protected bitset of free resources is changed by exclusive or and by or.
*/
module AlgResourcePoolSvc {
  import opened Common
  import opened ResourcePool

  type Bits = seq<bool>

  /** What the pool reads from an algorithm. The needed resources are a set, listed without repetition. */
  datatype AlgSpec =
    AlgSpec(name: string, reentrant: bool, clonable: bool, cardinality: nat, neededResources: seq<string>)

  // --- bitsets

  function Resized(b: Bits, n: nat): (r: Bits)
    ensures |r| == n
  {
    seq(n, i requires 0 <= i < n => i < |b| && b[i])
  }

  function Xor(a: Bits, b: Bits): (r: Bits)
    requires |a| == |b|
    ensures |r| == |a|
  {
    seq(|a|, i requires 0 <= i < |a| => a[i] != b[i])
  }

  function Or(a: Bits, b: Bits): (r: Bits)
    requires |a| == |b|
    ensures |r| == |a|
  {
    seq(|a|, i requires 0 <= i < |a| => a[i] || b[i])
  }

  predicate SubsetOf(a: Bits, b: Bits)
    requires |a| == |b|
  {
    forall i :: 0 <= i < |a| && a[i] ==> b[i]
  }

  /** The positions of the bits that are set. */
  function Ones(b: Bits): set<nat> {
    set i: nat | i < |b| && b[i]
  }

  /** Guarded by the subset test, exclusive or removes exactly the needed resources; or puts them back. */
  lemma {:induction false} XorThenOr(free: Bits, need: Bits)
    requires |free| == |need| && SubsetOf(need, free)
    ensures Ones(Xor(free, need)) == Ones(free) - Ones(need)
    ensures Or(Xor(free, need), need) == free
  {
    assert forall i :: 0 <= i < |free| ==> Or(Xor(free, need), need)[i] == free[i];
  }

  lemma OrIsUnion(free: Bits, need: Bits)
    requires |free| == |need|
    ensures Ones(Or(free, need)) == Ones(free) + Ones(need)
  {
  }

  lemma SubsetIsSubset(a: Bits, b: Bits)
    requires |a| == |b|
    ensures SubsetOf(a, b) <==> Ones(a) <= Ones(b)
  {
    if Ones(a) <= Ones(b) {
      forall i | 0 <= i < |a| && a[i]
        ensures b[i]
      {
        assert i in Ones(a);
      }
    }
  }

  // --- encoding resource names

  /** Every known resource has its own bit, and there are no other bits: bit i stands for names[i]. */
  ghost predicate Indexed(indices: map<string, nat>, names: seq<string>) {
    && (forall r :: r in indices ==> indices[r] < |names| && names[indices[r]] == r)
    && (forall i :: 0 <= i < |names| ==> names[i] in indices && indices[names[i]] == i)
  }

  /** The bits of the first n needed resources, and no others. */
  ghost predicate Encodes(b: Bits, needed: seq<string>, n: nat, indices: map<string, nat>)
    requires n <= |needed|
  {
    && (forall k :: 0 <= k < n ==> needed[k] in indices && indices[needed[k]] < |b| && b[indices[needed[k]]])
    && (forall i: nat :: i < |b| && b[i] ==> exists k :: 0 <= k < n && needed[k] in indices && indices[needed[k]] == i)
  }

  lemma EncodesMore(b: Bits, needed: seq<string>, n: nat, indices: map<string, nat>, more: map<string, nat>)
    requires n <= |needed| && Encodes(b, needed, n, indices)
    requires forall r :: r in indices ==> r in more && more[r] == indices[r]
    ensures Encodes(b, needed, n, more)
  {
    forall i: nat | i < |b| && b[i]
      ensures exists k :: 0 <= k < n && needed[k] in more && more[needed[k]] == i
    {
      var k :| 0 <= k < n && needed[k] in indices && indices[needed[k]] == i;
      assert more[needed[k]] == i;
    }
  }

  lemma EncodesResized(b: Bits, needed: seq<string>, n: nat, indices: map<string, nat>, size: nat)
    requires n <= |needed| && Encodes(b, needed, n, indices) && |b| <= size
    ensures Encodes(Resized(b, size), needed, n, indices)
  {
    var r := Resized(b, size);
    forall i: nat | i < |r| && r[i]
      ensures exists k :: 0 <= k < n && needed[k] in indices && indices[needed[k]] == i
    {
      assert b[i];
    }
  }

  lemma IndexedNext(indices: map<string, nat>, names: seq<string>, name: string)
    requires Indexed(indices, names) && name !in indices
    ensures Indexed(indices[name := |names|], names + [name])
  {
  }

  /** The names whose bits are set in an encoding are exactly the needed ones. */
  lemma EncodingFaithful(b: Bits, needed: seq<string>, indices: map<string, nat>, names: seq<string>, r: string)
    requires Indexed(indices, names) && Encodes(b, needed, |needed|, indices)
    ensures r in indices && indices[r] in Ones(b) <==> r in needed
  {
    if r in indices && indices[r] in Ones(b) {
      var k :| 0 <= k < |needed| && needed[k] in indices && indices[needed[k]] == indices[r];
      assert names[indices[r]] == r == needed[k];
    }
  }

  /** Two algorithms compete for a bit exactly when they need a common resource. */
  lemma {:induction false} ConflictFaithful(a: Bits, needA: seq<string>, b: Bits, needB: seq<string>,
                                             indices: map<string, nat>, names: seq<string>)
    requires Indexed(indices, names) && |a| == |b| == |names|
    requires Encodes(a, needA, |needA|, indices) && Encodes(b, needB, |needB|, indices)
    ensures Ones(a) * Ones(b) != {} <==> exists r :: r in needA && r in needB
  {
    if Ones(a) * Ones(b) != {} {
      var i :| i in Ones(a) * Ones(b);
      EncodingFaithful(a, needA, indices, names, names[i]);
      EncodingFaithful(b, needB, indices, names, names[i]);
    }
    if exists r :: r in needA && r in needB {
      var r :| r in needA && r in needB;
      EncodingFaithful(a, needA, indices, names, r);
      EncodingFaithful(b, needB, indices, names, r);
      assert indices[r] in Ones(a) * Ones(b);
    }
  }

  // --- decodeTopAlgs after flattening

  /** The instances of an algorithm: as many as its cardinality if it may be cloned, otherwise one. */
  function Allowed(alg: AlgSpec, overrideUnClonable: bool): (n: nat)
    ensures n == 1 || n == alg.cardinality
    ensures n != 1 <==> alg.cardinality != 1 && !alg.reentrant && (alg.clonable || overrideUnClonable)
  {
    if alg.reentrant then 1
    else if alg.clonable then alg.cardinality
    else if alg.cardinality == 1 then 1
    else if overrideUnClonable then alg.cardinality
    else 1
  }

  /** The requirements of one algorithm, with bits allotted to the resources met for the first time. */
  method EncodeRequirements(needed: seq<string>, known: map<string, nat>, counter: nat, ghost names: seq<string>)
    returns (requirements: Bits, indices: map<string, nat>, resourceCounter: nat, ghost allNames: seq<string>)
    requires Indexed(known, names) && counter == |names|
    ensures Indexed(indices, allNames) && resourceCounter == |allNames| && names <= allNames
    ensures Encodes(requirements, needed, |needed|, indices) && |requirements| <= resourceCounter
    ensures forall r :: r in known ==> r in indices && indices[r] == known[r]
    ensures forall r :: r in indices ==> r in known || r in needed
  {
    requirements, indices, resourceCounter, allNames := [], known, counter, names;
    for n := 0 to |needed|
      invariant Indexed(indices, allNames) && resourceCounter == |allNames| && names <= allNames
      invariant Encodes(requirements, needed, n, indices) && |requirements| <= resourceCounter
      invariant forall r :: r in known ==> r in indices && indices[r] == known[r]
      invariant forall r :: r in indices ==> r in known || r in needed
    {
      var name := needed[n];
      ghost var before := indices;
      if name !in indices {
        IndexedNext(indices, allNames, name);
        indices := indices[name := resourceCounter];
        resourceCounter, allNames := resourceCounter + 1, allNames + [name];
      }
      EncodesMore(requirements, needed, n, before, indices);
      EncodesResized(requirements, needed, n, indices, resourceCounter);
      requirements := Resized(requirements, resourceCounter);
      SetBit(requirements, needed, n, indices);
      requirements := requirements[indices[name] := true];
    }
  }

  lemma SetBit(b: Bits, needed: seq<string>, n: nat, indices: map<string, nat>)
    requires n < |needed| && Encodes(b, needed, n, indices) && needed[n] in indices && indices[needed[n]] < |b|
    ensures Encodes(b[indices[needed[n]] := true], needed, n + 1, indices)
  {
    var c := b[indices[needed[n]] := true];
    forall i: nat | i < |c| && c[i]
      ensures exists k :: 0 <= k < n + 1 && needed[k] in indices && indices[needed[k]] == i
    {
      if i != indices[needed[n]] {
        var k :| 0 <= k < n && needed[k] in indices && indices[needed[k]] == i;
      }
    }
  }

  /** Whether a clone of an algorithm, given by its number, can be initialised. */
  type Cloning = (nat, nat) -> bool

  /** Instance 0 always exists; the others are the clones that can be initialised, unless creation is lazy. */
  ghost predicate Instances(queue: seq<nat>, alg: nat, allowed: nat, lazy: bool, works: Cloning) {
    && (forall i, j :: 0 <= i < j < |queue| ==> queue[i] < queue[j])
    && forall x: nat :: x in queue <==> x == 0 || (!lazy && x < allowed && works(alg, x))
  }

  ghost predicate AllWork(alg: nat, allowed: nat, works: Cloning) {
    forall x: nat :: 0 < x < allowed ==> works(alg, x)
  }

  /** The instances of one algorithm; fails if and only if some clone that has to be made cannot be. */
  method CreateInstances(alg: nat, allowed: nat, lazy: bool, works: Cloning) returns (queue: seq<nat>, failed: bool)
    ensures Instances(queue, alg, allowed, lazy, works)
    ensures failed <==> !lazy && !AllWork(alg, allowed, works)
  {
    queue, failed := [0], false;
    if !lazy {
      for i := 1 to if allowed < 1 then 1 else allowed
        invariant forall k, l :: 0 <= k < l < |queue| ==> queue[k] < queue[l]
        invariant forall x: nat :: x in queue <==> x == 0 || (x < i && works(alg, x))
        invariant failed <==> exists x: nat :: 0 < x < i && !works(alg, x)
      {
        if works(alg, i) {
          assert forall k :: 0 <= k < |queue| ==> queue[k] in queue;
          queue := queue + [i];
        } else {
          failed := true;
        }
      }
    }
  }

  function Range(n: nat): (r: set<nat>)
    ensures forall i :: i in r <==> 0 <= i < n
  {
    if n == 0 then {} else Range(n - 1) + {n - 1}
  }

  /** The pool's tables describe the algorithms: bits for names, and the instances that were created. */
  ghost predicate Describes(c: Config, algs: seq<AlgSpec>, indices: map<string, nat>, names: seq<string>,
                            reqs: seq<Bits>) {
    && |c.req| == |c.reentrant| == |c.created| == |reqs| == |algs|
    && Indexed(indices, names) && c.resources == Range(|names|)
    && forall a :: 0 <= a < |algs| ==>
         && |reqs[a]| == |names| && c.req[a] == Ones(reqs[a])
         && Encodes(reqs[a], algs[a].neededResources, |algs[a].neededResources|, indices)
         && c.reentrant[a] == algs[a].reentrant && c.created[a] != {}
  }

  lemma DescribedWellFormed(c: Config, algs: seq<AlgSpec>, indices: map<string, nat>, names: seq<string>,
                            reqs: seq<Bits>)
    requires Describes(c, algs, indices, names, reqs)
    ensures WellFormed(c)
  {
    forall a | 0 <= a < |c.req|
      ensures c.req[a] <= c.resources
    {
      assert c.req[a] == Ones(reqs[a]);
    }
  }

  /** The bitsets of all algorithms, first as they grow, then resized to the final number of resources. */
  method EncodeAll(flat: seq<AlgSpec>)
    returns (reqs: seq<Bits>, indices: map<string, nat>, resourceCounter: nat, ghost names: seq<string>)
    ensures Indexed(indices, names) && resourceCounter == |names| && |reqs| == |flat|
    ensures forall a :: 0 <= a < |flat| ==>
              |reqs[a]| == |names| && Encodes(reqs[a], flat[a].neededResources, |flat[a].neededResources|, indices)
  {
    var grown: seq<Bits> := [];
    indices, resourceCounter, names := map[], 0, [];
    for n := 0 to |flat|
      invariant Indexed(indices, names) && resourceCounter == |names| && |grown| == n
      invariant forall a :: 0 <= a < n ==>
                  && |grown[a]| <= |names|
                  && Encodes(grown[a], flat[a].neededResources, |flat[a].neededResources|, indices)
    {
      ghost var known := indices;
      var requirements;
      requirements, indices, resourceCounter, names :=
        EncodeRequirements(flat[n].neededResources, indices, resourceCounter, names);
      forall a | 0 <= a < n
        ensures Encodes(grown[a], flat[a].neededResources, |flat[a].neededResources|, indices)
      {
        EncodesMore(grown[a], flat[a].neededResources, |flat[a].neededResources|, known, indices);
      }
      grown := grown + [requirements];
    }
    reqs := [];
    for n := 0 to |flat|
      invariant |reqs| == n
      invariant forall a :: 0 <= a < n ==>
                  |reqs[a]| == |names| && Encodes(reqs[a], flat[a].neededResources, |flat[a].neededResources|, indices)
    {
      EncodesResized(grown[n], flat[n].neededResources, |flat[n].neededResources|, indices, resourceCounter);
      reqs := reqs + [Resized(grown[n], resourceCounter)];
    }
  }

  /** The instance queues of all algorithms. */
  method CreateAll(flat: seq<AlgSpec>, lazyCreation: bool, overrideUnClonable: bool, works: Cloning)
    returns (queues: seq<seq<nat>>, success: bool)
    ensures |queues| == |flat|
    ensures forall a :: 0 <= a < |flat| ==>
              Instances(queues[a], a, Allowed(flat[a], overrideUnClonable), lazyCreation, works)
    ensures success <==> lazyCreation
                         || forall a :: 0 <= a < |flat| ==> AllWork(a, Allowed(flat[a], overrideUnClonable), works)
  {
    queues, success := [], true;
    for n := 0 to |flat|
      invariant |queues| == n
      invariant forall a :: 0 <= a < n ==>
                  Instances(queues[a], a, Allowed(flat[a], overrideUnClonable), lazyCreation, works)
      invariant success <==> lazyCreation
                             || forall a :: 0 <= a < n ==> AllWork(a, Allowed(flat[a], overrideUnClonable), works)
    {
      var queue, failed := CreateInstances(n, Allowed(flat[n], overrideUnClonable), lazyCreation, works);
      queues := queues + [queue];
      success := success && !failed;
    }
  }

  /** What the tables say, in terms of the abstract pool. */
  ghost function ConfigOf(flat: seq<AlgSpec>, reqs: seq<Bits>, queues: seq<seq<nat>>, count: nat): Config
    requires |reqs| == |queues| == |flat|
  {
    Config(Range(count), seq(|flat|, a requires 0 <= a < |flat| => Ones(reqs[a])),
           seq(|flat|, a requires 0 <= a < |flat| => flat[a].reentrant),
           seq(|flat|, a requires 0 <= a < |flat| => set x | x in queues[a]))
  }

  /** Freshly decoded tables describe the algorithms, and everything is free. */
  lemma DecodedGood<H(!new)>(flat: seq<AlgSpec>, reqs: seq<Bits>, queues: seq<seq<nat>>, indices: map<string, nat>,
                             names: seq<string>, c: Config, p: Pool<H>)
    requires Indexed(indices, names) && |reqs| == |queues| == |flat|
    requires forall a :: 0 <= a < |flat| ==>
               |reqs[a]| == |names| && Encodes(reqs[a], flat[a].neededResources, |flat[a].neededResources|, indices)
    requires forall a :: 0 <= a < |flat| ==> 0 in queues[a] && NoDuplicates(queues[a])
    requires c == ConfigOf(flat, reqs, queues, |names|)
    requires p == Pool(Ones(seq(|names|, i => true)), queues, map[], map[])
    ensures Describes(c, flat, indices, names, reqs) && Initial(c, p) && PoolInv(c, p)
  {
    forall a | 0 <= a < |flat|
      ensures c.created[a] != {} && multiset(queues[a]) == multiset(c.created[a])
    {
      AsSet(queues[a]);
      assert 0 in c.created[a];
    }
    DescribedWellFormed(c, flat, indices, names, reqs);
    assert Ones(seq(|names|, i => true)) == Range(|names|);
    ResourcePool.InitialInv(c, p);
  }

  class AlgResourcePool<H(!new)> {
    var m_algqueue_map: seq<seq<nat>>
    var m_resource_requirements: seq<Bits>
    var m_resource_indices: map<string, nat>
    var m_available_resources: Bits
    var m_isReEntrant: seq<bool>
    ghost var config: Config
    ghost var algs: seq<AlgSpec>
    ghost var names: seq<string>
    ghost var holds: map<H, nat>
    ghost var busy: map<H, Loan>

    ghost function View(): Pool<H>
      reads this
    {
      Pool(Ones(m_available_resources), m_algqueue_map, holds, busy)
    }

    ghost predicate Tables()
      reads this
    {
      && Describes(config, algs, m_resource_indices, names, m_resource_requirements)
      && m_isReEntrant == config.reentrant && |m_available_resources| == |names|
    }

    ghost predicate Valid()
      reads this
    {
      Tables() && PoolInv(config, View())
    }

    constructor ()
      ensures Valid() && algs == [] && holds == map[] && busy == map[]
    {
      m_algqueue_map, m_isReEntrant, m_resource_requirements := [], [], [];
      m_available_resources, m_resource_indices := [], map[];
      algs, names, holds, busy := [], [], map[], map[];
      config := Config({}, [], [], []);
    }

    /**
      The second part of decodeTopAlgs, for the flat list of algorithms; `flattened` is the status of
      the first part. It succeeds if that part succeeded and no clone that has to be made failed.
    */
    method DecodeTopAlgs(flat: seq<AlgSpec>, flattened: bool, lazyCreation: bool, overrideUnClonable: bool,
                         works: Cloning)
      returns (success: bool)
      requires Valid() && algs == [] && holds == map[] && busy == map[]
      modifies this
      ensures Valid() && algs == flat && Initial(config, View())
      ensures |m_algqueue_map| == |flat|
      ensures forall a :: 0 <= a < |flat| ==>
                Instances(m_algqueue_map[a], a, Allowed(flat[a], overrideUnClonable), lazyCreation, works)
      ensures success <==>
              && flattened
              && (lazyCreation
                  || forall a :: 0 <= a < |flat| ==> AllWork(a, Allowed(flat[a], overrideUnClonable), works))
    {
      var reqs, indices, resource_counter, allNames := EncodeAll(flat);
      var queues, created := CreateAll(flat, lazyCreation, overrideUnClonable, works);
      Install(flat, reqs, indices, allNames, resource_counter, queues);
      success := flattened && created;
    }

    /** Fill the tables and make all resources available. */
    method Install(flat: seq<AlgSpec>, reqs: seq<Bits>, indices: map<string, nat>, ghost allNames: seq<string>,
                   resourceCounter: nat, queues: seq<seq<nat>>)
      requires holds == map[] && busy == map[] && Indexed(indices, allNames) && resourceCounter == |allNames|
      requires |reqs| == |queues| == |flat|
      requires forall a :: 0 <= a < |flat| ==>
                 && |reqs[a]| == |allNames|
                 && Encodes(reqs[a], flat[a].neededResources, |flat[a].neededResources|, indices)
      requires forall a :: 0 <= a < |flat| ==> 0 in queues[a] && NoDuplicates(queues[a])
      modifies `m_algqueue_map, `m_resource_requirements, `m_resource_indices, `m_available_resources, `m_isReEntrant,
               `config, `algs, `names
      ensures Valid() && algs == flat && m_algqueue_map == queues && Initial(config, View())
    {
      m_algqueue_map, m_resource_requirements, m_resource_indices := queues, reqs, indices;
      m_available_resources := seq(resourceCounter, i => true);
      m_isReEntrant := seq(|flat|, a requires 0 <= a < |flat| => flat[a].reentrant);
      algs, names := flat, allNames;
      config := ConfigOf(flat, reqs, queues, resourceCounter);
      DecodedGood(flat, reqs, queues, indices, allNames, config, View());
    }

    /**
      A non-blocking acquisition for holder h. A reentrant instance goes back at once, a refused one as
      well; an algorithm that is not known is refused.
    */
    method AcquireAlgorithm(alg: nat, ghost h: H) returns (instance: Option<nat>)
      requires Valid() && h !in holds && h !in busy
      modifies this
      ensures Valid() && config == old(config)
      ensures alg >= |old(m_algqueue_map)| ==> instance.None? && View() == old(View())
      ensures alg < |old(m_algqueue_map)| ==>
                && View() == Acquire(config, old(View()), h, alg)
                && (instance.Some? <==> CanAcquire(config, old(View()), alg))
                && (instance.Some? ==> instance.value == old(m_algqueue_map)[alg][0])
    {
      if alg >= |m_algqueue_map| {
        return None;
      }
      DescribedWellFormed(config, algs, m_resource_indices, names, m_resource_requirements);
      AcquireInv(config, View(), h, alg);
      if m_algqueue_map[alg] == [] {
        return None;
      }
      var algo := m_algqueue_map[alg][0];
      m_algqueue_map := m_algqueue_map[alg := m_algqueue_map[alg][1..]];
      var claimed := Claim(alg, algo, h);
      return if claimed then Some(algo) else None;
    }

    /** The part under the lock, and what goes back to the instance queue. */
    method Claim(alg: nat, algo: nat, ghost h: H) returns (claimed: bool)
      requires Tables() && alg < |m_algqueue_map| == |config.req|
      modifies `m_algqueue_map, `m_available_resources, `holds, `busy
      ensures Tables() && View() == Claimed(config, old(View()), h, alg, algo)
      ensures claimed <==> config.req[alg] <= old(View()).avail
    {
      var requirements := m_resource_requirements[alg];
      SubsetIsSubset(requirements, m_available_resources);
      claimed := SubsetOf(requirements, m_available_resources);
      if claimed {
        XorThenOr(m_available_resources, requirements);
        m_available_resources := Xor(m_available_resources, requirements);
        holds, busy := holds[h := alg], busy[h := Loan(alg, algo)];
      }
      if !claimed || m_isReEntrant[alg] {
        m_algqueue_map := m_algqueue_map[alg := m_algqueue_map[alg] + [algo]];
      }
    }

    /** What holder h acquired goes back: first the resources, then a non-reentrant instance. */
    method ReleaseAlgorithm(alg: nat, algo: nat, ghost h: H)
      requires Valid() && h in holds && holds[h] == alg && h in busy && busy[h] == Loan(alg, algo)
      modifies this
      ensures Valid() && config == old(config)
      ensures View() == ReleaseInstance(config, ReleaseResources(config, old(View()), h), h)
    {
      DescribedWellFormed(config, algs, m_resource_indices, names, m_resource_requirements);
      ReleaseResourcesInv(config, View(), h);
      OrIsUnion(m_available_resources, m_resource_requirements[alg]);
      ghost var half := ReleaseResources(config, View(), h);
      m_available_resources := Or(m_available_resources, m_resource_requirements[alg]);
      holds := holds - {h};
      assert View() == half;
      ReleaseInstanceInv(config, half, h);
      if !m_isReEntrant[alg] {
        m_algqueue_map := m_algqueue_map[alg := m_algqueue_map[alg] + [algo]];
      }
      busy := busy - {h};
    }
  }

  lemma AsSet(q: seq<nat>)
    requires NoDuplicates(q)
    ensures multiset(q) == multiset(set x | x in q)
  {
    if q != [] {
      var init := q[..|q| - 1];
      AsSet(init);
      assert q == init + [q[|q| - 1]];
      assert (set x | x in q) == (set x | x in init) + {q[|q| - 1]};
      assert q[|q| - 1] !in init;
    }
  }
}
