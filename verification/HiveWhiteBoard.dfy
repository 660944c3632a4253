/**
  The white board: a fixed set of event stores and a concurrent queue of the free ones. Allocating
  pops the queue and then marks the store under its own lock; freeing marks the store free and then
  pushes it. Both are two steps here, and any number of threads may be between them.
*/
module WhiteBoard {
  import opened Common

  /** The mark of a store that holds no event. */
  const FREE := -1

  datatype Board = Board(
    events: seq<int>,        // each partition's eventNumber
    free: seq<nat>,          // m_freeSlots, head first
    popped: multiset<nat>,   // taken from the queue, not yet marked
    released: multiset<nat>  // marked free, not yet back in the queue
  )

  datatype Step = Pop | Mark(slot: nat, event: int) | Exchange(slot: nat) | Push(slot: nat)

  function Initial(slots: nat): Board {
    Board(seq(slots, _ => FREE), seq(slots, i => i), multiset{}, multiset{})
  }

  ghost predicate Enabled(b: Board, l: Step) {
    match l
    case Pop => true
    case Mark(s, e) => s in b.popped && s < |b.events| && e != FREE
    case Exchange(s) => s < |b.events|
    case Push(s) => s in b.released
  }

  function Apply(b: Board, l: Step): Board
    requires Enabled(b, l)
  {
    match l
    case Pop =>
      if b.free == [] then b else b.(free := b.free[1..], popped := b.popped + multiset{b.free[0]})
    case Mark(s, e) => b.(events := b.events[s := e], popped := b.popped - multiset{s})
    case Exchange(s) =>
      // a store that was free already is a FAILURE and nothing is pushed
      if b.events[s] == FREE then b
      else b.(events := b.events[s := FREE], released := b.released + multiset{s})
    case Push(s) => b.(free := b.free + [s], released := b.released - multiset{s})
  }

  /** The boards a sequence of steps of all threads goes through. */
  ghost predicate Run(b: Board, ls: seq<Step>, c: Board)
    decreases |ls|
  {
    if ls == [] then b == c else Enabled(b, ls[0]) && Run(Apply(b, ls[0]), ls[1..], c)
  }

  // --- where a store is

  function Queued(q: seq<nat>, s: nat): nat {
    multiset(q)[s]
  }

  /** How often the store is on its way between users: queued, popped or released. */
  function Around(b: Board, s: nat): nat {
    Queued(b.free, s) + b.popped[s] + b.released[s]
  }

  predicate InUse(b: Board, s: nat) {
    s >= |b.events| || b.events[s] != FREE
  }

  /** Every store is in use or around, once and not both, and nothing else is around. */
  ghost predicate Inv(b: Board) {
    forall s: nat :: Around(b, s) == if InUse(b, s) then 0 else 1
  }

  lemma {:induction false} InitialInv(slots: nat)
    ensures Inv(Initial(slots))
  {
    var q := Initial(slots).free;
    forall s: nat
      ensures Queued(q, s) == if s < slots then 1 else 0
    {
      Counting(slots, s);
    }
  }

  lemma {:induction false} Counting(n: nat, s: nat)
    ensures multiset(seq(n, i => i))[s] == if s < n then 1 else 0
  {
    if n > 0 {
      Counting(n - 1, s);
      assert seq(n, i => i) == seq(n - 1, i => i) + [n - 1];
    }
  }

  /** A step moves one store from one place to another. */
  lemma StepMoves(b: Board, l: Step, s: nat)
    requires Inv(b) && Enabled(b, l)
    ensures Around(Apply(b, l), s) == if InUse(Apply(b, l), s) then 0 else 1
  {
    assert Around(b, s) == if InUse(b, s) then 0 else 1;
    match l
    case Pop => PopMoves(b, s);
    case Mark(t, e) => assert Around(b, t) == if InUse(b, t) then 0 else 1;
    case Exchange(t) => assert Around(b, t) == if InUse(b, t) then 0 else 1;
    case Push(t) => PushMoves(b, t, s);
  }

  lemma PopMoves(b: Board, s: nat)
    ensures Around(Apply(b, Pop), s) == Around(b, s)
    ensures Apply(b, Pop).events == b.events
  {
    if b.free != [] {
      Requeued([b.free[0]], b.free[1..], s);
      assert b.free == [b.free[0]] + b.free[1..];
    }
  }

  lemma PushMoves(b: Board, t: nat, s: nat)
    requires Enabled(b, Push(t))
    ensures Around(Apply(b, Push(t)), s) == Around(b, s)
    ensures Apply(b, Push(t)).events == b.events
  {
    Requeued(b.free, [t], s);
  }

  lemma Requeued(q: seq<nat>, r: seq<nat>, s: nat)
    ensures Queued(q + r, s) == Queued(q, s) + Queued(r, s)
  {
  }

  lemma {:induction false} StepInv(b: Board, l: Step)
    requires Inv(b) && Enabled(b, l)
    ensures Inv(Apply(b, l)) && |Apply(b, l).events| == |b.events|
  {
    forall s: nat
      ensures Around(Apply(b, l), s) == if InUse(Apply(b, l), s) then 0 else 1
    {
      StepMoves(b, l, s);
    }
  }

  lemma {:induction false} RunInv(b: Board, ls: seq<Step>, c: Board)
    requires Inv(b) && Run(b, ls, c)
    ensures Inv(c) && |c.events| == |b.events|
    decreases |ls|
  {
    if ls != [] {
      StepInv(b, ls[0]);
      RunInv(Apply(b, ls[0]), ls[1..], c);
    }
  }

  // --- what holds after any interleaving

  /** The queue repeats nothing and every store in it is marked free. */
  lemma {:induction false} FreeListSound(slots: nat, ls: seq<Step>, b: Board)
    requires Run(Initial(slots), ls, b)
    ensures forall i :: 0 <= i < |b.free| ==> b.free[i] < |b.events| && b.events[b.free[i]] == FREE
    ensures forall i, j :: 0 <= i < j < |b.free| ==> b.free[i] != b.free[j]
  {
    InitialInv(slots);
    RunInv(Initial(slots), ls, b);
    forall i | 0 <= i < |b.free|
      ensures b.free[i] < |b.events| && b.events[b.free[i]] == FREE
    {
      assert b.free[i] in multiset(b.free);
      assert Around(b, b.free[i]) >= 1;
    }
    forall i, j | 0 <= i < j < |b.free|
      ensures b.free[i] != b.free[j]
    {
      assert Around(b, b.free[j]) <= 1;
      if b.free[i] == b.free[j] {
        QueuedTwice(b.free, i, j);
      }
    }
  }

  lemma QueuedTwice(q: seq<nat>, i: nat, j: nat)
    requires i < j < |q| && q[i] == q[j]
    ensures Queued(q, q[j]) >= 2
  {
    assert q[..j][i] in multiset(q[..j]);
    assert q == q[..j] + [q[j]] + q[j + 1..];
  }

  /** An allocating thread always finds the store it popped marked free. */
  lemma {:induction false} AllocationFindsItFree(slots: nat, ls: seq<Step>, b: Board, s: nat)
    requires Run(Initial(slots), ls, b) && s in b.popped
    ensures s < |b.events| == slots && b.events[s] == FREE && s !in b.free && b.popped[s] == 1
  {
    InitialInv(slots);
    RunInv(Initial(slots), ls, b);
    assert Around(b, s) <= 1;
  }

  function Occupied(events: seq<int>): nat {
    if events == [] then 0 else Occupied(events[1..]) + (if events[0] == FREE then 0 else 1)
  }

  /** Stores are neither lost nor created. */
  lemma {:induction false} Conservation(slots: nat, ls: seq<Step>, b: Board)
    requires Run(Initial(slots), ls, b)
    ensures |b.free| + |b.popped| + |b.released| + Occupied(b.events) == slots
  {
    InitialInv(slots);
    RunInv(Initial(slots), ls, b);
    forall s: nat
      ensures (multiset(b.free) + b.popped + b.released)[s] == if s < |b.events| && b.events[s] == FREE then 1 else 0
    {
      assert Around(b, s) <= 1;
    }
    CountAll(multiset(b.free) + b.popped + b.released, b.events);
  }

  lemma {:induction false} CountAll(m: multiset<nat>, events: seq<int>)
    requires forall s: nat :: m[s] == if s < |events| && events[s] == FREE then 1 else 0
    ensures |m| + Occupied(events) == |events|
    decreases |events|
  {
    var n := |events|;
    if n == 0 {
      assert forall s: nat :: m[s] == 0;
      assert m == multiset{};
    } else {
      OccupiedLast(events);
      var last := n - 1;
      assert events[..last] + [events[last]] == events;
      CountAll(m[last := 0], events[..last]);
    }
  }

  lemma {:induction false} OccupiedLast(events: seq<int>)
    requires events != []
    ensures Occupied(events) == Occupied(events[..|events| - 1]) + (if events[|events| - 1] == FREE then 0 else 1)
  {
    if |events| > 1 {
      OccupiedLast(events[1..]);
      assert events[1..][..|events| - 2] == events[..|events| - 1][1..];
    }
  }

  // --- freeing twice

  ghost predicate Marks(ls: seq<Step>, s: nat) {
    exists i :: 0 <= i < |ls| && ls[i].Mark? && ls[i].slot == s
  }

  /** While nobody allocates the store, it stays free whatever the threads do. */
  lemma {:induction false} StaysFree(b: Board, ls: seq<Step>, c: Board, s: nat)
    requires Run(b, ls, c) && s < |b.events| && b.events[s] == FREE && !Marks(ls, s)
    ensures s < |c.events| && c.events[s] == FREE
    decreases |ls|
  {
    if ls != [] {
      assert !(ls[0].Mark? && ls[0].slot == s);
      assert forall i :: 0 <= i < |ls[1..]| ==> ls[1..][i] == ls[i + 1];
      StaysFree(Apply(b, ls[0]), ls[1..], c, s);
    }
  }

  /** A store freed twice with no allocation in between: the second free fails and enqueues nothing. */
  lemma {:induction false} DoubleFreeFails(b: Board, ls: seq<Step>, c: Board, s: nat)
    requires Enabled(b, Exchange(s)) && Run(Apply(b, Exchange(s)), ls, c) && !Marks(ls, s)
    ensures Enabled(c, Exchange(s)) && c.events[s] == FREE && Apply(c, Exchange(s)) == c
  {
    StaysFree(Apply(b, Exchange(s)), ls, c, s);
  }

  /** The number of frees of a store that succeed along a run, and of its allocations. */
  ghost function Frees(b: Board, ls: seq<Step>, c: Board, s: nat): nat
    requires Run(b, ls, c) && s < |b.events|
    decreases |ls|
  {
    if ls == [] then 0
    else (if ls[0] == Exchange(s) && b.events[s] != FREE then 1 else 0) + Frees(Apply(b, ls[0]), ls[1..], c, s)
  }

  function Allocations(ls: seq<Step>, s: nat): nat {
    if ls == [] then 0
    else (if ls[0].Mark? && ls[0].slot == s then 1 else 0) + Allocations(ls[1..], s)
  }

  /** Each successful free answers one allocation, and a store holds an event exactly when one is unanswered. */
  lemma {:induction false} FreesMatchAllocations(b: Board, ls: seq<Step>, c: Board, s: nat)
    requires Inv(b) && Run(b, ls, c) && s < |b.events|
    ensures s < |c.events|
    ensures (if b.events[s] == FREE then 0 else 1) + Allocations(ls, s)
            == Frees(b, ls, c, s) + (if c.events[s] == FREE then 0 else 1)
    decreases |ls|
  {
    if ls != [] {
      StepInv(b, ls[0]);
      assert Around(b, s) == if InUse(b, s) then 0 else 1;
      FreesMatchAllocations(Apply(b, ls[0]), ls[1..], c, s);
    }
  }

  // --- looking a store up

  ghost predicate DistinctEvents(events: seq<int>) {
    forall i, j :: 0 <= i < j < |events| && events[i] != FREE ==> events[i] != events[j]
  }

  /** The first store that shows the event when the search looks at it: looks[i] is the board at look i. */
  function Find(looks: seq<seq<int>>, event: int, from_: nat): (r: Option<nat>)
    requires forall i :: 0 <= i < |looks| ==> |looks[i]| == |looks|
    requires from_ <= |looks|
    ensures r.None? <==> forall i :: from_ <= i < |looks| ==> looks[i][i] != event
    ensures r.Some? ==> from_ <= r.value < |looks| && looks[r.value][r.value] == event
    ensures r.Some? ==> forall i :: from_ <= i < r.value ==> looks[i][i] != event
    decreases |looks| - from_
  {
    if from_ == |looks| then None
    else if looks[from_][from_] == event then Some(from_)
    else Find(looks, event, from_ + 1)
  }

  lemma {:induction false} FindsIt(looks: seq<seq<int>>, event: int, from_: nat, s: nat)
    requires forall i :: 0 <= i < |looks| ==> |looks[i]| == |looks|
    requires from_ <= s < |looks|
    requires forall i, p :: 0 <= i < |looks| && 0 <= p < |looks| ==> (looks[i][p] == event <==> p == s)
    ensures Find(looks, event, from_) == Some(s)
    decreases s - from_
  {
    if from_ < s {
      FindsIt(looks, event, from_ + 1, s);
    }
  }

  /** The boards that a search sees while other threads take steps before each of its looks. */
  ghost predicate Watched(b: Board, steps: seq<seq<Step>>, looks: seq<seq<int>>)
    decreases |steps|
  {
    |looks| == |steps| &&
    (steps == [] ||
     exists c :: Run(b, steps[0], c) && looks[0] == c.events && Watched(c, steps[1..], looks[1..]))
  }

  /** Nobody frees store s or gives the event to a store. */
  ghost predicate LeavesAlone(ls: seq<Step>, s: nat, event: int) {
    forall i :: 0 <= i < |ls| ==> ls[i] != Exchange(s) && !(ls[i].Mark? && ls[i].event == event)
  }

  /** The event is in store s and nowhere else. */
  ghost predicate OnlyAt(b: Board, s: nat, event: int) {
    s < |b.events| && event != FREE && forall p :: 0 <= p < |b.events| ==> (b.events[p] == event <==> p == s)
  }

  lemma StepLeavesIt(b: Board, l: Step, s: nat, event: int)
    requires Inv(b) && Enabled(b, l) && OnlyAt(b, s, event)
    requires l != Exchange(s) && !(l.Mark? && l.event == event)
    ensures Inv(Apply(b, l)) && OnlyAt(Apply(b, l), s, event) && |Apply(b, l).events| == |b.events|
  {
    StepInv(b, l);
    assert Around(b, s) == 0;
  }

  lemma {:induction false} RunLeavesIt(b: Board, ls: seq<Step>, c: Board, s: nat, event: int)
    requires Inv(b) && Run(b, ls, c) && OnlyAt(b, s, event) && LeavesAlone(ls, s, event)
    ensures Inv(c) && OnlyAt(c, s, event) && |c.events| == |b.events|
    decreases |ls|
  {
    if ls != [] {
      StepLeavesIt(b, ls[0], s, event);
      assert forall i :: 0 <= i < |ls[1..]| ==> ls[1..][i] == ls[i + 1];
      RunLeavesIt(Apply(b, ls[0]), ls[1..], c, s, event);
    }
  }

  lemma {:induction false} LooksShowIt(b: Board, steps: seq<seq<Step>>, looks: seq<seq<int>>, s: nat, event: int)
    requires Inv(b) && Watched(b, steps, looks) && OnlyAt(b, s, event)
    requires forall i :: 0 <= i < |steps| ==> LeavesAlone(steps[i], s, event)
    ensures forall i :: 0 <= i < |looks| ==>
              |looks[i]| == |b.events| && forall p :: 0 <= p < |b.events| ==> (looks[i][p] == event <==> p == s)
    decreases |steps|
  {
    if steps != [] {
      var c :| Run(b, steps[0], c) && looks[0] == c.events && Watched(c, steps[1..], looks[1..]);
      RunLeavesIt(b, steps[0], c, s, event);
      assert forall i :: 0 <= i < |steps[1..]| ==> steps[1..][i] == steps[i + 1];
      LooksShowIt(c, steps[1..], looks[1..], s, event);
      forall i | 0 <= i < |looks|
        ensures |looks[i]| == |b.events| && forall p :: 0 <= p < |b.events| ==> (looks[i][p] == event <==> p == s)
      {
        assert i > 0 ==> looks[i] == looks[1..][i - 1];
      }
    }
  }

  /**
    A search that takes one lock after the other finds the store of a live event whatever the other
    threads do between its looks, as long as nobody frees that store or gives the event away again.
  */
  lemma {:induction false} FindsLiveEvent(b: Board, steps: seq<seq<Step>>, looks: seq<seq<int>>, s: nat, event: int)
    requires Inv(b) && OnlyAt(b, s, event) && |steps| == |b.events| && Watched(b, steps, looks)
    requires forall i :: 0 <= i < |steps| ==> LeavesAlone(steps[i], s, event)
    ensures forall i :: 0 <= i < |looks| ==> |looks[i]| == |looks|
    ensures Find(looks, event, 0) == Some(s)
  {
    LooksShowIt(b, steps, looks, s, event);
    FindsIt(looks, event, 0, s);
  }

  /** Every look sees the same board. */
  function Looks(events: seq<int>): (looks: seq<seq<int>>)
    ensures |looks| == |events| && forall i :: 0 <= i < |looks| ==> looks[i] == events
  {
    seq(|events|, _ => events)
  }

  /**
    Allocate a new event and look it up: the search answers the allocated store. Free that store and
    all stores are as before, the freed one last in the queue.
  */
  lemma {:induction false} LookUpInvertsAllocate(b: Board, event: int)
    requires Inv(b) && b.free != [] && event != FREE && event !in b.events
    ensures Enabled(Apply(b, Pop), Mark(b.free[0], event))
    ensures var s, c := b.free[0], Apply(Apply(b, Pop), Mark(b.free[0], event));
            && Find(Looks(c.events), event, 0) == Some(s)
            && Enabled(c, Exchange(s))
            && Enabled(Apply(c, Exchange(s)), Push(s))
            && Apply(Apply(c, Exchange(s)), Push(s)) == b.(free := b.free[1..] + [s])
  {
    var s := b.free[0];
    assert s in multiset(b.free);
    assert Around(b, s) <= 1;
    assert Around(b, s) == 1;
    var c := Apply(Apply(b, Pop), Mark(s, event));
    FindsIt(Looks(c.events), event, 0, s);
    assert c.events[s := FREE] == b.events;
  }

  /** With distinct live event numbers the search answers, for each store in use, that store. */
  lemma {:induction false} LookUpInverts(events: seq<int>, s: nat)
    requires DistinctEvents(events) && s < |events| && events[s] != FREE
    ensures Find(Looks(events), events[s], 0) == Some(s)
  {
    FindsIt(Looks(events), events[s], 0, s);
  }

  class HiveWhiteBoard {
    const m_partitions: array<int>
    var m_freeSlots: seq<nat>
    ghost var popped: multiset<nat>
    ghost var released: multiset<nat>

    ghost function View(): Board
      reads this, m_partitions
    {
      Board(m_partitions[..], m_freeSlots, popped, released)
    }

    ghost predicate Valid()
      reads this, m_partitions
    {
      Inv(View())
    }

    constructor (slots: nat)
      ensures Valid() && fresh(m_partitions) && View() == Initial(slots)
    {
      m_partitions := new int[slots](_ => FREE);
      m_freeSlots := [];
      popped, released := multiset{}, multiset{};
      new;
      for i := 0 to slots
        invariant m_freeSlots == seq(i, k => k)
        invariant m_partitions.Length == slots && fresh(m_partitions)
        invariant m_partitions[..] == seq(slots, _ => FREE)
        invariant popped == released == multiset{}
      {
        m_freeSlots := m_freeSlots + [i];
      }
      InitialInv(slots);
    }

    /** The queue's own step of an allocation. */
    method TryPop() returns (slot: Option<nat>)
      requires Valid()
      modifies this
      ensures Valid() && View() == Apply(old(View()), Pop)
      ensures slot == if old(m_freeSlots) == [] then None else Some(old(m_freeSlots)[0])
    {
      StepInv(View(), Pop);
      slot := None;
      if m_freeSlots != [] {
        slot := Some(m_freeSlots[0]);
        popped := popped + multiset{m_freeSlots[0]};
        m_freeSlots := m_freeSlots[1..];
      }
    }

    method AllocateStore(evtnumber: int) returns (slot: Option<nat>)
      requires Valid() && evtnumber != FREE
      modifies this, m_partitions
      ensures Valid()
      ensures slot == if old(m_freeSlots) == [] then None else Some(old(m_freeSlots)[0])
      ensures slot.None? ==> View() == old(View())
      ensures slot.Some? ==> Enabled(Apply(old(View()), Pop), Mark(slot.value, evtnumber))
      ensures slot.Some? ==> View() == Apply(Apply(old(View()), Pop), Mark(slot.value, evtnumber))
    {
      ghost var start := View();
      slot := TryPop();
      if slot.Some? {
        ghost var s := slot.value;
        assert s in multiset(start.free);
        assert Around(start, s) == 1;
        StepInv(View(), Mark(s, evtnumber));
        m_partitions[slot.value] := evtnumber;
        popped := popped - multiset{slot.value};
        assert View() == Apply(Apply(start, Pop), Mark(s, evtnumber));
      }
    }

    /** Returns whether the store was in use, that is SUCCESS. */
    method FreeStore(partition: nat) returns (success: bool)
      requires Valid() && partition < m_partitions.Length
      modifies this, m_partitions
      ensures Valid()
      ensures success <==> old(m_partitions[partition]) != FREE
      ensures !success ==> View() == old(View())
      ensures success ==> View() == Apply(Apply(old(View()), Exchange(partition)), Push(partition))
    {
      ghost var start := View();
      StepInv(start, Exchange(partition));
      var prev := m_partitions[partition];
      m_partitions[partition] := FREE;
      if prev == FREE {
        assert View() == start;
        return false;
      }
      released := released + multiset{partition};
      assert View() == Apply(start, Exchange(partition));
      StepInv(View(), Push(partition));
      m_freeSlots := m_freeSlots + [partition];
      released := released - multiset{partition};
      return true;
    }

    /** The search with nothing happening between its looks. */
    method GetPartitionNumber(eventnumber: int) returns (slot: Option<nat>)
      requires Valid()
      ensures slot == Find(Looks(m_partitions[..]), eventnumber, 0)
      ensures slot.None? <==> forall i :: 0 <= i < m_partitions.Length ==> m_partitions[i] != eventnumber
      ensures slot.Some? ==> slot.value < m_partitions.Length && m_partitions[slot.value] == eventnumber
      ensures slot.Some? ==> forall i :: 0 <= i < slot.value ==> m_partitions[i] != eventnumber
    {
      var i := 0;
      while i < m_partitions.Length
        invariant i <= m_partitions.Length && forall j :: 0 <= j < i ==> m_partitions[j] != eventnumber
        invariant Find(Looks(m_partitions[..]), eventnumber, 0) == Find(Looks(m_partitions[..]), eventnumber, i)
      {
        if m_partitions[i] == eventnumber {
          return Some(i);
        }
        i := i + 1;
      }
      return None;
    }
  }
}
