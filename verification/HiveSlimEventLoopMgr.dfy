/**
  The event loop: create contexts while input and slots last, push them to the scheduler, drain
  finished ones, and stop. The scheduler thread runs in between and finishes or loses contexts in any
  order.
*/
module HiveSlimEventLoop {
  import opened Common
  import opened WhiteBoard
  import opened EventAccounts
  import S = SchedulerState

  // --- contexts and stores

  /** The contexts are exactly those of the stores in use. */
  ghost predicate Hold(events: seq<int>, held: set<Context>) {
    && (forall c :: c in held ==> c.slot < |events| && events[c.slot] == c.evt)
    && (forall s: nat :: s < |events| && events[s] != FREE ==> events[s] >= 0 && S.Context(events[s], s) in held)
  }

  lemma {:induction false} HeldCount(events: seq<int>, held: set<Context>)
    requires Hold(events, held)
    ensures |held| == Occupied(events)
    decreases |events|
  {
    if events == [] {
      assert held == {};
    } else {
      var last := |events| - 1;
      OccupiedLast(events);
      if events[last] == FREE {
        HeldCount(events[..last], held);
      } else {
        var c := S.Context(events[last], last);
        HeldCount(events[..last], held - {c});
      }
    }
  }

  /** With nothing between two steps of the white board, free stores and contexts add up. */
  lemma {:induction false} FreeCount(b: Board, held: set<Context>)
    requires Inv(b) && b.popped == b.released == multiset{} && Hold(b.events, held)
    ensures |b.free| + |held| == |b.events|
  {
    HeldCount(b.events, held);
    forall s: nat
      ensures multiset(b.free)[s] == if s < |b.events| && b.events[s] == FREE then 1 else 0
    {
      assert Around(b, s) == if InUse(b, s) then 0 else 1;
    }
    CountAll(multiset(b.free), b.events);
  }

  /**
    The contexts that hold a store. Those in flight are the scheduler's: some are running, some are in
    the finished queue, the others were dropped. The rest are in the event loop's hands, or left over
    at the end of input.
  */
  datatype Flow = Flow(held: set<Context>, flight: set<Context>, running: set<Context>, finished: seq<Context>)

  /** Each context is in one place. */
  ghost predicate Apart(f: Flow) {
    && f.running <= f.flight <= f.held
    && (forall i :: 0 <= i < |f.finished| ==> f.finished[i] in f.flight && f.finished[i] !in f.running)
    && (forall i, j :: 0 <= i < j < |f.finished| ==> f.finished[i] != f.finished[j])
  }

  /** Something is in flight and nothing of it will come back. */
  predicate AllDropped(f: Flow) {
    f.flight != {} && f.running == {} && f.finished == []
  }

  /** The books of the event loop: contexts, stores in use, and the scheduler's free slots. */
  ghost predicate Holdings(f: Flow, events: seq<int>, freeSlots: int) {
    Apart(f) && Hold(events, f.held) && freeSlots == |events| - |f.flight|
  }

  lemma FinishKeeps(f: Flow, c: Context)
    requires Apart(f) && c in f.running
    ensures Apart(f.(running := f.running - {c}, finished := f.finished + [c]))
    ensures Apart(f.(running := f.running - {c}))
    ensures |f.running - {c}| < |f.running|
  {
    var q := f.finished + [c];
    assert forall i :: 0 <= i < |f.finished| ==> q[i] == f.finished[i];
  }

  lemma TakeKeeps(f: Flow)
    requires Apart(f) && f.finished != []
    ensures f.finished[0] in f.flight
    ensures Apart(f.(flight := f.flight - {f.finished[0]}, finished := f.finished[1..]))
  {
    var q := f.finished[1..];
    assert forall i :: 0 <= i < |q| ==> q[i] == f.finished[i + 1];
  }

  lemma LaunchKeeps(f: Flow, c: Context)
    requires Apart(f) && c in f.held && c !in f.flight
    ensures Apart(f.(flight := f.flight + {c}, running := f.running + {c}))
  {
    assert forall i :: 0 <= i < |f.finished| ==> f.finished[i] in f.flight;
  }

  lemma ReleaseKeeps(events: seq<int>, held: set<Context>, c: Context)
    requires Hold(events, held) && c in held
    ensures c.slot < |events| && events[c.slot] == c.evt && Hold(events[c.slot := FREE], held - {c})
  {
  }

  lemma CreateKeeps(events: seq<int>, held: set<Context>, c: Context)
    requires Hold(events, held) && c.slot < |events| && events[c.slot] == FREE
    ensures c !in held && Hold(events[c.slot := c.evt], held + {c})
  {
  }

  lemma PoppedIsFree(b: Board)
    requires Inv(b)
    ensures b.free != [] ==> b.free[0] < |b.events| && b.events[b.free[0]] == FREE
  {
    if b.free != [] {
      assert b.free[0] in multiset(b.free);
      assert Around(b, b.free[0]) >= 1;
    }
  }

  /** The list holds the contexts that left the flight, each once. */
  ghost predicate Collected(list: seq<Option<Context>>, before: set<Context>, now: set<Context>) {
    && None !in list
    && (forall i, j :: 0 <= i < j < |list| ==> list[i] != list[j])
    && (forall c :: Some(c) in list <==> c in before && c !in now)
    && now <= before && |now| + |list| == |before|
  }

  /** The log grew by the contexts of the list, in this order, with the status each has. */
  ghost predicate Reported(list: seq<Option<Context>>, succeeded: set<Context>, log: seq<LogEntry>,
                           now: seq<LogEntry>) {
    && |now| == |log| + |list| && now[..|log|] == log
    && forall i :: 0 <= i < |list| ==>
         list[i].Some? && now[|log| + i] == Popped(list[i].value, list[i].value in succeeded)
  }

  lemma ReportedNext(list: seq<Option<Context>>, was: set<Context>, log: seq<LogEntry>, then_: seq<LogEntry>,
                     c: Context, succeeded: set<Context>)
    requires Reported(list, was, log, then_) && was <= succeeded
    requires forall i :: 0 <= i < |list| ==> list[i].value in succeeded ==> list[i].value in was
    ensures Reported(list + [Some(c)], succeeded, log, then_ + [Popped(c, c in succeeded)])
  {
    assert (then_ + [Popped(c, c in succeeded)])[..|log|] == then_[..|log|];
  }

  /** One of the contexts has failed. */
  ghost predicate HasFailed(list: seq<Option<Context>>, succeeded: set<Context>) {
    exists i :: 0 <= i < |list| && list[i].Some? && list[i].value !in succeeded
  }

  /** How many entries of the list are contexts. */
  ghost function Contexts(list: seq<Option<Context>>): nat {
    if list == [] then 0 else Contexts(list[..|list| - 1]) + (if list[|list| - 1].Some? then 1 else 0)
  }

  /** The contexts that are not in the list. */
  ghost function Without(held: set<Context>, list: seq<Option<Context>>): set<Context> {
    set c | c in held && Some(c) !in list
  }

  /** The list has a null context, or a failed one if failures are to abort the loop. */
  ghost predicate Fails(list: seq<Option<Context>>, succeeded: set<Context>, abortOnFailure: bool) {
    None in list || (abortOnFailure && HasFailed(list, succeeded))
  }

  /** One entry of the list more. */
  lemma FlushedNext(list: seq<Option<Context>>, n: nat, held: set<Context>, succeeded: set<Context>,
                    abortOnFailure: bool)
    requires n < |list|
    ensures var next, some := list[n], list[n].Some?;
            && Contexts(list[..n + 1]) == Contexts(list[..n]) + (if some then 1 else 0)
            && Without(held, list[..n + 1]) == Without(held, list[..n]) - (if some then {next.value} else {})
            && (Fails(list[..n + 1], succeeded, abortOnFailure) <==>
                Fails(list[..n], succeeded, abortOnFailure) || !some || (abortOnFailure && next.value !in succeeded))
  {
    var less, more := list[..n], list[..n + 1];
    assert more == less + [list[n]];
    assert more[..n] == less && more[n] == list[n];
    assert forall i :: 0 <= i < n ==> more[i] == less[i];
  }

  lemma {:induction false} AllContexts(list: seq<Option<Context>>)
    requires None !in list
    ensures Contexts(list) == |list|
  {
    if list != [] {
      AllContexts(list[..|list| - 1]);
    }
  }

  /** What is reported is what failed. */
  lemma FailureReported(list: seq<Option<Context>>, succeeded: set<Context>, log: seq<LogEntry>, now: seq<LogEntry>)
    requires Reported(list, succeeded, log, now)
    ensures AnyFailed(now) <==> AnyFailed(log) || HasFailed(list, succeeded)
    ensures list != [] ==> OnlyPops(log, now)
  {
    assert forall k :: 0 <= k < |log| ==> log[k] == now[..|log|][k] == now[k];
    forall k | |log| <= k < |now|
      ensures now[k].Popped?
    {
      assert list[k - |log|].Some?;
    }
    if i :| 0 <= i < |list| && list[i].Some? && list[i].value !in succeeded {
      assert now[|log| + i].Popped? && !now[|log| + i].success;
    }
    if AnyFailed(now) {
      var k :| 0 <= k < |now| && now[k].Popped? && !now[k].success;
      assert k >= |log| ==> list[k - |log|].value !in succeeded;
    }
  }

  lemma CollectedNext(list: seq<Option<Context>>, before: set<Context>, now: set<Context>, c: Context)
    requires Collected(list, before, now) && c in now
    ensures Collected(list + [Some(c)], before, now - {c})
  {
    var more := list + [Some(c)];
    forall x: Context
      ensures Some(x) in more <==> x in before && x !in now - {c}
    {
      assert Some(x) in more <==> Some(x) in list || x == c;
    }
    assert None !in more;
  }

  class HiveSlimEventLoopMgr {
    const m_whiteboard: HiveWhiteBoard
    const m_maxEventsInFlight: nat
    const m_abortOnFailure: bool
    const m_eventNumberBlacklist: seq<nat>

    var m_blackListBS: Option<seq<bool>>
    var m_nevt: nat
    var input: Option<seq<bool>>  // no event selector: no end
    // the scheduler's interface
    var m_freeSlots: int
    var m_finishedEvents: seq<Context>
    var running: set<Context>
    var succeeded: set<Context>  // those with the event status of success
    ghost var flight: set<Context>
    ghost var held: set<Context>
    ghost var log: seq<LogEntry>
    ghost var tested: seq<nat>  // the event numbers looked up in the black list

    ghost function FlowOf(): Flow
      reads this
    {
      Flow(held, flight, running, m_finishedEvents)
    }

    ghost function SightOf(): Sight
      reads this
    {
      Sight(held, flight, log, tested, m_nevt, input)
    }

    ghost function GetSettings(): Settings {
      Settings(m_maxEventsInFlight, m_abortOnFailure)
    }

    ghost predicate BoardGood()
      reads this, m_whiteboard, m_whiteboard.m_partitions
    {
      && m_whiteboard.Valid()
      && m_whiteboard.popped == m_whiteboard.released == multiset{}
      && m_whiteboard.m_partitions.Length == m_maxEventsInFlight > 0
    }

    ghost predicate Valid()
      reads this, m_whiteboard, m_whiteboard.m_partitions
    {
      BoardGood() && Holdings(FlowOf(), m_whiteboard.m_partitions[..], m_freeSlots)
    }

    constructor (slots: nat, abortOnFailure: bool, blacklist: seq<nat>, input: Option<seq<bool>>)
      requires slots > 0
      ensures Valid() && FlowOf() == Flow({}, {}, {}, []) && log == [] && m_freeSlots == slots
      ensures fresh(m_whiteboard) && fresh(m_whiteboard.m_partitions)
      ensures this.input == input && m_nevt == 0 && m_blackListBS.None?
      ensures Sorted(m_eventNumberBlacklist) && forall e :: e in m_eventNumberBlacklist <==> e in blacklist
    {
      var board := new HiveWhiteBoard(slots);
      m_whiteboard := board;
      m_maxEventsInFlight, m_abortOnFailure, m_eventNumberBlacklist := slots, abortOnFailure, SortedList(blacklist);
      m_nevt, this.input, m_freeSlots, m_finishedEvents := 0, input, slots, [];
      flight, running, succeeded, held, log, tested := {}, {}, {}, {}, [], [];
      m_blackListBS := None;
      new;
      assert board.View() == Initial(slots);
    }

    /** The scheduler thread finishes or drops one context, whose event has a status then. */
    method SchedulerStep()
      requires Valid() && running != {}
      modifies `running, `succeeded, `m_finishedEvents
      ensures Valid() && |running| < old(|running|)
      ensures running <= old(running) && old(succeeded) <= succeeded <= old(succeeded + running)
    {
      var c :| c in running;
      FinishKeeps(FlowOf(), c);
      running := running - {c};
      if * {
        succeeded := succeeded + {c};
      }
      if * {
        m_finishedEvents := m_finishedEvents + [c];
      }
    }

    /** Whatever the scheduler thread does until the next access of the event loop. */
    method Interfere()
      requires Valid()
      modifies `running, `succeeded, `m_finishedEvents
      ensures Valid() && old(succeeded) <= succeeded <= old(succeeded + running)
    {
      var more: bool := *;
      while running != {} && more
        invariant Valid() && running <= old(running) && old(succeeded) <= succeeded <= old(succeeded + running)
        decreases |running|
      {
        SchedulerStep();
        more := *;
      }
    }

    /** Wait until the finished queue has something, or nothing can come any more. */
    method Await()
      requires Valid()
      modifies `running, `succeeded, `m_finishedEvents
      ensures Valid() && (m_finishedEvents == [] ==> running == {})
    {
      while m_finishedEvents == [] && running != {}
        invariant Valid()
        decreases |running|
      {
        SchedulerStep();
      }
    }

    /**
      Blocks until a context comes back, unless all slots are free. It blocks for ever when every
      context in flight was dropped.
    */
    method PopFinishedEvent() returns (ctx: Option<Context>, blocked: bool)
      requires Valid()
      modifies `running, `succeeded, `m_finishedEvents, `m_freeSlots, `flight, `log
      ensures ctx.None? ==> Valid() && flight == old(flight) && log == old(log)
      ensures !blocked && ctx.None? ==> flight == {}
      ensures blocked ==> ctx.None? && AllDropped(FlowOf())
      ensures ctx.Some? ==> Returned(old(flight), ctx.value)
      ensures ctx.Some? ==> log == old(log) + [Popped(ctx.value, ctx.value in succeeded)]
    {
      if m_freeSlots == m_maxEventsInFlight {
        return None, false;
      }
      Await();
      if m_finishedEvents == [] {
        return None, true;
      }
      ctx := TakeFinished();
      return ctx, false;
    }

    /** A context is in the event loop's hands: its slot is free in the scheduler, its store still in use. */
    ghost predicate Returned(before: set<Context>, c: Context)
      reads this, m_whiteboard, m_whiteboard.m_partitions
    {
      Valid() && c in before && flight == before - {c}
    }

    /** The part of both pops that takes the head of the queue. */
    method TakeFinished() returns (ctx: Option<Context>)
      requires Valid() && m_finishedEvents != []
      modifies `m_finishedEvents, `m_freeSlots, `flight, `log
      ensures ctx == Some(old(m_finishedEvents)[0]) && m_finishedEvents == old(m_finishedEvents)[1..]
      ensures Returned(old(flight), ctx.value)
      ensures log == old(log) + [Popped(ctx.value, ctx.value in succeeded)]
    {
      var c := m_finishedEvents[0];
      TakeKeeps(FlowOf());
      m_finishedEvents := m_finishedEvents[1..];
      m_freeSlots := m_freeSlots + 1;
      flight := flight - {c};
      log := log + [Popped(c, c in succeeded)];
      return Some(c);
    }

    method TryPopFinishedEvent() returns (ctx: Option<Context>)
      requires Valid()
      modifies `running, `succeeded, `m_finishedEvents, `m_freeSlots, `flight, `log
      ensures ctx.None? ==> Valid() && flight == old(flight) && log == old(log) && m_finishedEvents == []
      ensures ctx.Some? ==> Returned(old(flight), ctx.value)
      ensures ctx.Some? ==> log == old(log) + [Popped(ctx.value, ctx.value in succeeded)]
      ensures old(succeeded) <= succeeded <= old(succeeded + flight)
    {
      Interfere();
      if m_finishedEvents == [] {
        return None;
      }
      ctx := TakeFinished();
    }

    /** Ask the event selector for the next readable record. */
    method DeclareEventRootAddress() returns (success: bool)
      modifies `input
      ensures input.Some? <==> old(input).Some?
      ensures success <==> old(input).None? || NextRecord(old(input).value).Some?
      ensures success ==> input == if old(input).None? then None else NextRecord(old(input).value)
    {
      if input.None? {
        return true;
      }
      var records := input.value;
      if records == [] {
        return false;
      }
      if records[0] {
        input := Some(records[1..]);
        return true;
      }
      if |records| == 1 {
        input := Some([]);
        return false;
      }
      input := Some(records[2..]);
      return records[1];
    }

    /** An allocation, seen from here. */
    method AllocateStore(event: nat) returns (slot: Option<nat>)
      requires BoardGood()
      modifies m_whiteboard, m_whiteboard.m_partitions
      ensures BoardGood()
      ensures slot.None? <==> old(m_whiteboard.m_freeSlots) == []
      ensures slot.None? ==> m_whiteboard.m_partitions[..] == old(m_whiteboard.m_partitions[..])
      ensures slot.Some? ==> slot.value < m_maxEventsInFlight && old(m_whiteboard.m_partitions[..])[slot.value] == FREE
      ensures slot.Some? ==> m_whiteboard.m_partitions[..] == old(m_whiteboard.m_partitions[..])[slot.value := event]
    {
      ghost var before := m_whiteboard.View();
      slot := m_whiteboard.AllocateStore(event);
      if slot.Some? {
        PoppedIsFree(before);
        assert m_whiteboard.View().events == before.events[slot.value := event];
        assert m_whiteboard.View().popped == before.popped;
      } else {
        assert m_whiteboard.View().events == before.events;
      }
    }

    /** A release, seen from here. */
    method FreeStore(slot: nat) returns (success: bool)
      requires BoardGood() && slot < m_maxEventsInFlight
      modifies m_whiteboard, m_whiteboard.m_partitions
      ensures BoardGood()
      ensures success <==> old(m_whiteboard.m_partitions[..])[slot] != FREE
      ensures m_whiteboard.m_partitions[..] == old(m_whiteboard.m_partitions[..])[slot := FREE]
    {
      ghost var before := m_whiteboard.View();
      success := m_whiteboard.FreeStore(slot);
      assert m_whiteboard.View().events == before.events[slot := FREE];
      assert m_whiteboard.View().released == before.released;
    }

    /** The store of a context that the event loop has in hand is given back. */
    method ClearWBSlot(c: Context) returns (success: bool)
      requires Valid() && c in held && c !in flight
      modifies `held, m_whiteboard, m_whiteboard.m_partitions
      ensures Valid() && success && held == old(held) - {c}
    {
      ReleaseKeeps(m_whiteboard.m_partitions[..], held, c);
      success := FreeStore(c.slot);
      held := held - {c};
    }

    /**
      A new context takes a free store; without one an exception is thrown. At the end of input the
      context is discarded and the store stays taken.
    */
    method CreateEventContext() returns (ctx: Option<Context>, thrown: bool)
      requires Valid()
      modifies `m_nevt, `input, `held, m_whiteboard, m_whiteboard.m_partitions
      ensures Valid() && m_nevt == old(m_nevt) + 1 && (input.Some? <==> old(input).Some?)
      ensures thrown <==> old(m_whiteboard.m_freeSlots) == []
      ensures thrown ==> ctx.None? && held == old(held)
      ensures !thrown ==> exists c :: c !in old(held) && c.evt == old(m_nevt) && held == old(held) + {c}
                                      && (ctx.Some? ==> ctx.value == c)
      ensures !thrown ==> (ctx.None? <==> old(input).Some? && NextRecord(old(input).value).None?)
      ensures ctx.Some? ==> input == if old(input).None? then None else NextRecord(old(input).value)
    {
      var c := TakeContext();
      if c.None? {
        return None, true;
      }
      var more := DeclareEventRootAddress();
      return if more then c else None, false;
    }

    /** Pair the next event number with a free store. */
    method TakeContext() returns (c: Option<Context>)
      requires Valid()
      modifies `m_nevt, `held, m_whiteboard, m_whiteboard.m_partitions
      ensures Valid() && m_nevt == old(m_nevt) + 1
      ensures c.None? <==> old(m_whiteboard.m_freeSlots) == []
      ensures c.None? ==> held == old(held)
      ensures c.Some? ==> c.value !in old(held) && c.value.evt == old(m_nevt) && held == old(held) + {c.value}
    {
      var slot := AllocateStore(m_nevt);
      m_nevt := m_nevt + 1;
      if slot.None? {
        return None;
      }
      c := Some(S.Context(m_nevt - 1, slot.value));
      CreateKeeps(old(m_whiteboard.m_partitions[..]), held, c.value);
      held := held + {c.value};
    }

    function Lookup(): BlackList
      reads `m_blackListBS
    {
      BlackList(m_blackListBS, m_eventNumberBlacklist)
    }

    /** Look an event number up: in the bit set of a limited run, else by binary search in the list. */
    method OnBlackList(e: nat) returns (listed: bool)
      modifies `tested
      ensures tested == old(tested) + [e]
      ensures Says(Lookup(), e).Some? ==> listed == Says(Lookup(), e).value
    {
      tested := tested + [e];
      if m_blackListBS.Some? {
        if e < |m_blackListBS.value| {
          return m_blackListBS.value[e];
        }
        listed := *;
      } else {
        return e in m_eventNumberBlacklist;
      }
    }

    /** Returns whether the event was on the black list. A full scheduler refuses the event. */
    method ExecuteEvent(c: Context) returns (recoverable: bool)
      requires Valid() && c in held && c !in flight
      modifies `running, `succeeded, `flight, `held, `m_freeSlots, `log, `tested, m_whiteboard,
               m_whiteboard.m_partitions
      ensures Valid() && tested == old(tested) + [c.evt] && succeeded == old(succeeded) - {c}
      ensures Says(Lookup(), c.evt).Some? ==> recoverable == Says(Lookup(), c.evt).value
      ensures recoverable ==> flight == old(flight) && held == old(held) - {c} && log == old(log)
      ensures running == old(running) + (if recoverable || old(m_freeSlots) == 0 then {} else {c})
      ensures !recoverable && old(m_freeSlots) == 0 ==> FlowOf() == old(FlowOf()) && log == old(log)
      ensures !recoverable && old(m_freeSlots) != 0 ==>
                flight == old(flight) + {c} && held == old(held) && log == old(log) + [Pushed(c)]
    {
      succeeded := succeeded - {c};
      var listed := OnBlackList(c.evt);
      if listed {
        var freed := ClearWBSlot(c);
        return true;
      }
      var pushed := PushNewEvent(c);
      return false;
    }

    /** The event loop's side of a push: a full scheduler refuses. */
    method PushNewEvent(c: Context) returns (success: bool)
      requires Valid() && c in held && c !in flight
      modifies `running, `flight, `m_freeSlots, `log
      ensures Valid() && (success <==> old(m_freeSlots) != 0)
      ensures !success ==> FlowOf() == old(FlowOf()) && log == old(log)
      ensures success ==> flight == old(flight) + {c} && running == old(running) + {c} && log == old(log) + [Pushed(c)]
      ensures m_freeSlots == old(m_freeSlots) - (if success then 1 else 0)
    {
      if m_freeSlots == 0 {
        return false;
      }
      m_freeSlots := m_freeSlots - 1;
      LaunchKeeps(FlowOf(), c);
      flight, running := flight + {c}, running + {c};
      log := log + [Pushed(c)];
      return true;
    }

    /** The first context is waited for, the others are taken until there are no more. */
    method CollectFinished() returns (list: seq<Option<Context>>, blocked: bool)
      requires Valid()
      modifies `running, `succeeded, `m_finishedEvents, `m_freeSlots, `flight, `log
      ensures Valid() && (!blocked ==> m_finishedEvents == [])
      ensures blocked ==> AllDropped(FlowOf()) && flight == old(flight) && log == old(log)
      ensures !blocked && old(flight) == {} ==> list == [None] && flight == {} && log == old(log)
      ensures !blocked && old(flight) != {} ==> list != [] && Collected(list, old(flight), flight)
      ensures !blocked && old(flight) != {} ==> Reported(list, succeeded, old(log), log)
    {
      ghost var before := flight;
      var first;
      first, blocked := PopFinishedEvent();
      list := [first];
      if blocked {
        return;
      }
      var more := true;
      while more
        invariant Valid() && (first.None? ==> before == flight == {} && list == [None] && log == old(log))
        invariant first.Some? ==> list != [] && Collected(list, before, flight)
        invariant first.Some? ==> Reported(list, succeeded, old(log), log)
        invariant more || m_finishedEvents == []
        decreases more, |flight|
      {
        ghost var had, logged, was := flight, log, succeeded;
        var next := TryPopFinishedEvent();
        if next.None? {
          more := false;
        } else {
          CollectedNext(list, before, had, next.value);
          ReportedNext(list, was, old(log), logged, next.value, succeeded);
          list := list + [next];
        }
      }
    }

    /** One turn of the loop that flushes: a context gives its store back. */
    method FlushOne(ctx: Option<Context>, finishedEvts: nat, failed: bool) returns (finished: nat, failure: bool)
      requires Valid() && (ctx.Some? ==> ctx.value in held && ctx.value !in flight)
      modifies `held, m_whiteboard, m_whiteboard.m_partitions
      ensures Valid() && held == old(held) - (if ctx.Some? then {ctx.value} else {})
      ensures failure <==> failed || ctx.None? || (m_abortOnFailure && ctx.value !in succeeded)
      ensures finished == finishedEvts + (if ctx.Some? then 1 else 0)
    {
      finished, failure := finishedEvts, failed;
      if ctx.None? {
        return finished, true;
      }
      if ctx.value !in succeeded && m_abortOnFailure {
        failure := true;
      }
      var cleared := ClearWBSlot(ctx.value);
      finished := finished + 1;
    }

    /** Hand back the stores; fails for a null context, and for a failed event if failures are to abort the loop. */
    method FlushFinished(list: seq<Option<Context>>, finishedEvts: nat) returns (finished: nat, failure: bool)
      requires Valid()
      requires forall i :: 0 <= i < |list| && list[i].Some? ==> list[i].value in held && list[i].value !in flight
      requires forall i, j :: 0 <= i < j < |list| && list[i].Some? ==> list[i] != list[j]
      modifies `held, m_whiteboard, m_whiteboard.m_partitions
      ensures Valid() && held == Without(old(held), list)
      ensures failure <==> Fails(list, succeeded, m_abortOnFailure)
      ensures finished == finishedEvts + Contexts(list)
    {
      finished, failure := finishedEvts, false;
      for i := 0 to |list|
        invariant Valid() && held == Without(old(held), list[..i])
        invariant failure <==> Fails(list[..i], succeeded, m_abortOnFailure)
        invariant finished == finishedEvts + Contexts(list[..i])
      {
        FlushedNext(list, i, old(held), succeeded, m_abortOnFailure);
        assert list[i].Some? ==> list[i] !in list[..i];
        finished, failure := FlushOne(list[i], finished, failure);
      }
      assert list[..|list|] == list;
    }

    /**
      What is finished comes back and is flushed. It fails if nothing was in flight, and otherwise only if some
      context that came back had failed and failures are to abort the loop.
    */
    method DrainScheduler(finishedEvts: nat) returns (finished: nat, failure: bool, blocked: bool)
      requires Valid()
      modifies `running, `succeeded, `m_finishedEvents, `m_freeSlots, `flight, `held, `log, m_whiteboard,
               m_whiteboard.m_partitions
      ensures Valid() && (!blocked ==> m_finishedEvents == [])
      ensures blocked ==> AllDropped(FlowOf()) && SightOf() == old(SightOf()) && finished == finishedEvts
      ensures !blocked ==> Drained(old(SightOf()), SightOf(), finishedEvts, finished)
      ensures !blocked ==> (failure <==> DrainFails(old(SightOf()), SightOf(), GetSettings()))
    {
      ghost var before := flight;
      var list;
      list, blocked := CollectFinished();
      if blocked {
        return finishedEvts, false, true;
      }
      assert before == {} ==> forall c: Context :: Some(c) !in list;
      finished, failure := FlushFinished(list, finishedEvts);
      if before != {} {
        AllContexts(list);
        assert Reported(list, succeeded, [], log[|old(log)|..]);
        FailureReported(list, succeeded, [], log[|old(log)|..]);
        FailureReported(list, succeeded, old(log), log);
      }
    }

    /** Free stores and contexts that hold one add up, and so do free slots and contexts in flight. */
    lemma StoreForSlot()
      requires Valid()
      ensures |m_whiteboard.m_freeSlots| + |held| == m_maxEventsInFlight
      ensures m_freeSlots == m_maxEventsInFlight - |flight|
      ensures |held| == |flight| + |held - flight|
    {
      FreeCount(m_whiteboard.View(), held);
      assert held == flight + (held - flight);
    }

    /** A context in hand is launched, or skipped with its store given back. */
    method Submit(c: Context) returns (outcome: Attempt)
      requires Valid() && c in held && c !in flight && m_freeSlots > 0
      modifies `running, `succeeded, `flight, `held, `m_freeSlots, `log, `tested, m_whiteboard,
               m_whiteboard.m_partitions
      ensures Valid() && !outcome.EndOfInput? && tested == old(tested) + [c.evt]
      ensures Says(Lookup(), c.evt).Some? ==> outcome.Skipped? == Says(Lookup(), c.evt).value
      ensures outcome.Skipped? ==> flight == old(flight) && held == old(held) - {c} && log == old(log)
      ensures outcome.Launched? ==> flight == old(flight) + {c} && held == old(held) && log == old(log) + [Pushed(c)]
    {
      var recoverable := ExecuteEvent(c);
      return if recoverable then Skipped else Launched;
    }

    /**
      One event from the input to the scheduler. No exception is thrown: a store is free. The type of `step`
      says what each outcome does.
    */
    method LaunchOne() returns (outcome: Attempt, ghost step: Launching)
      requires Valid() && m_whiteboard.m_freeSlots != [] && m_freeSlots > 0
      modifies `m_nevt, `input, `running, `succeeded, `flight, `held, `m_freeSlots, `log, `tested, m_whiteboard,
               m_whiteboard.m_partitions
      ensures Valid() && step == Step(old(SightOf()), SightOf(), Lookup(), outcome)
    {
      ghost var v := SightOf();
      var ctx, thrown := CreateEventContext();
      ghost var c :| c !in v.held && c.evt == v.nevt && held == v.held + {c} && (ctx.Some? ==> ctx.value == c);
      if ctx.None? {
        step := EndLaunches(v, SightOf(), Lookup(), c);
        return EndOfInput, step;
      }
      outcome := Submit(ctx.value);
      step := SubmitLaunches(v, SightOf(), Lookup(), c, outcome);
    }

    /** The books are about what is seen now. */
    ghost predicate Current(l: Ledger)
      reads this
    {
      l.v == SightOf() && l.b == Lookup()
    }

    /**
      Create events until one is launched, the input ends (the result is -1) or the limit is reached;
      black-listed events are skipped.
    */
    method LaunchNext(maxevt: int, created: nat, skipped: nat, ghost books: Books)
      returns (createdEvts: int, skippedEvts: nat, ghost l: Books)
      requires Valid() && Current(books) && !books.ended && books.created == created && books.skipped == skipped
      requires m_freeSlots > 0 && m_whiteboard.m_freeSlots != []
      requires (maxevt < 0 || created < maxevt) && (maxevt >= 0 || input.Some?)
      modifies `m_nevt, `input, `running, `succeeded, `flight, `held, `m_freeSlots, `log, `tested, m_whiteboard,
               m_whiteboard.m_partitions
      ensures Valid() && Current(l) && Launches(books, l, maxevt)
      ensures skippedEvts == l.skipped && createdEvts == if l.ended then -1 else l.created
    {
      createdEvts, skippedEvts := created, skipped;
      var success := false;
      ghost var r := SpreeBegins(books, maxevt);
      StoreForSlot();
      while !success && (createdEvts < maxevt || maxevt < 0)
        invariant Valid() && Current(r.l) && r.s == books && r.maxevt == maxevt && r.success == success
        invariant createdEvts == r.l.created && skippedEvts == r.l.skipped
        decreases !success, if input.Some? then |input.value| else maxevt - createdEvts
      {
        StoreForSlot();
        var outcome;
        ghost var step;
        outcome, step := LaunchOne();
        if outcome.EndOfInput? {
          l := SpreeAtEnd(r, step);
          createdEvts := -1;
          return;
        }
        r := SpreeGoesOn(r, step);
        if outcome.Skipped? {
          skippedEvts := skippedEvts + 1;
        } else {
          success := true;
        }
        createdEvts := createdEvts + 1;
      }
      SpreeEnds(r);
      l := r.l;
    }

    /** The variables of the loop on events are those of its books. */
    ghost predicate InRound(r: AtHead, createdEvts: int, finishedEvts: nat, skippedEvts: nat)
      reads this, m_whiteboard, m_whiteboard.m_partitions
    {
      && Valid() && Current(r.l) && finishedEvts == r.l.finished && skippedEvts == r.l.skipped
      && createdEvts == if r.l.ended then -1 else r.l.created
    }

    /**
      At every loop head: the scheduler has as many free slots as the white board free stores, but for
      the stores kept from before the run and the one taken at the end of input.
    */
    lemma LoopHeadFreeSlots(r: AtHead, createdEvts: int, finishedEvts: nat, skippedEvts: nat)
      requires InRound(r, createdEvts, finishedEvts, skippedEvts)
      ensures m_freeSlots == |m_whiteboard.m_freeSlots| + |r.l.start.left| + (if createdEvts < 0 then 1 else 0)
      ensures createdEvts >= 0 ==> createdEvts + r.l.start.inFlight == finishedEvts + skippedEvts + |flight|
    {
      StoreForSlot();
    }

    /** The guard of the creating branch. */
    predicate MayCreate(maxevt: int, createdEvts: int, newEvtAllowed: bool)
      reads this, m_whiteboard
    {
      && (newEvtAllowed || createdEvts == 0) && createdEvts >= 0 && (createdEvts < maxevt || maxevt < 0)
      && m_freeSlots > 0 && |m_whiteboard.m_freeSlots| > 0
    }

    /** The creating branch: it keeps the books, and leaves less to create. */
    method Create(createdEvts: int, skippedEvts: nat, ghost r: AtHead, ghost finishedEvts: nat, maxevt: int)
      returns (created: int, skipped: nat, ghost t: AtHead)
      requires InRound(r, createdEvts, finishedEvts, skippedEvts) && r.maxevt == maxevt
      requires MayCreate(maxevt, createdEvts, r.newEvtAllowed) && (maxevt >= 0 || input.Some?)
      requires GoesOn(r.l, GetSettings())
      modifies `m_nevt, `input, `running, `succeeded, `flight, `held, `m_freeSlots, `log, `tested, m_whiteboard,
               m_whiteboard.m_partitions
      ensures InRound(t, created, finishedEvts, skipped) && (maxevt >= 0 || input.Some?)
      ensures t.maxevt == r.maxevt && t.newEvtAllowed == r.newEvtAllowed && t.l.start == r.l.start
      ensures Left(t) < Left(r) && GoesOn(t.l, GetSettings())
    {
      ghost var l;
      created, skipped, l := LaunchNext(maxevt, createdEvts, skippedEvts, r.l);
      t := CreateHead(r, l, GetSettings());
    }

    /** Nothing is in flight and no event may be created: the input has ended, or there never was a free store. */
    lemma NothingToDrain(r: AtHead, createdEvts: int, finishedEvts: nat, skippedEvts: nat)
      requires InRound(r, createdEvts, finishedEvts, skippedEvts)
      requires !MayCreate(r.maxevt, createdEvts, r.newEvtAllowed)
      requires r.maxevt < 0 || finishedEvts + skippedEvts < r.maxevt
      ensures r.l.v.flight == flight == {} ==> r.l.ended || |r.l.start.left| == GetSettings().slots
    {
      StoreForSlot();
    }

    /** The draining branch: it ends the loop, or brings back at least one event. */
    method Drain(finishedEvts: nat, ghost r: AtHead, ghost createdEvts: int, ghost skippedEvts: nat)
      returns (finished: nat, failure: bool, blocked: bool, ghost t: AtHead, ghost final: Option<Final>)
      requires InRound(r, createdEvts, finishedEvts, skippedEvts)
      requires !MayCreate(r.maxevt, createdEvts, r.newEvtAllowed)
      requires r.maxevt < 0 || finishedEvts + skippedEvts < r.maxevt
      requires GoesOn(r.l, GetSettings())
      modifies `running, `succeeded, `m_finishedEvents, `m_freeSlots, `flight, `held, `log, m_whiteboard,
               m_whiteboard.m_partitions
      ensures InRound(t, createdEvts, finished, skippedEvts)
      ensures t.maxevt == r.maxevt && t.l.start == r.l.start && Left(t) == Left(r)
      ensures blocked || failure ==> final.Some? && Concludes(final.value, t) && !final.value.ending.LimitReached?
      ensures !blocked && !failure ==> t.newEvtAllowed && |flight| < |old(flight)| && GoesOn(t.l, GetSettings())
    {
      NothingToDrain(r, createdEvts, finishedEvts, skippedEvts);
      finished, failure, blocked := DrainScheduler(finishedEvts);
      t, final := DrainTurn(r, SightOf(), finished, GetSettings(), failure, blocked);
    }

    /** The loop ends in this round, blocked only if all in flight was dropped. */
    ghost predicate Concludes(o: Outcome, r: Round)
      reads this
    {
      && o.l == r.l && o.maxevt == r.maxevt && o.settings == GetSettings()
      && (o.ending.Blocked? ==> AllDropped(FlowOf()))
    }

    /**
      The loop on events. Every round creates an event, or meets the end of input, or brings at least
      one event back, or ends the loop; so it terminates for a limit or a finite input. The type of
      `final` says what its ending means.
    */
    method NextEvent(maxevt: int)
      returns (finishedEvts: nat, skippedEvts: nat, createdEvts: int, ghost r: AtHead, ghost final: Final)
      requires Valid() && (maxevt >= 0 || input.Some?)
      modifies `m_nevt, `input, `running, `succeeded, `m_finishedEvents, `m_freeSlots, `flight, `held, `log, `tested,
               m_whiteboard, m_whiteboard.m_partitions
      ensures InRound(r, createdEvts, finishedEvts, skippedEvts)
      ensures r.l.start == Begin(old(SightOf())) && r.maxevt == maxevt && Concludes(final, r)
    {
      finishedEvts, skippedEvts, createdEvts := 0, 0, 0;
      log, tested := [], [];
      r := HeadBegins(SightOf(), Lookup(), maxevt, GetSettings());
      var loopEnded, newEvtAllowed := false, false;
      ghost var end: Option<Final> := None;
      while !loopEnded && (maxevt < 0 || finishedEvts + skippedEvts < maxevt)
        invariant InRound(r, createdEvts, finishedEvts, skippedEvts)
        invariant r.maxevt == maxevt && (loopEnded || r.newEvtAllowed == newEvtAllowed)
        invariant r.l.start == Begin(old(SightOf())) && (maxevt >= 0 || input.Some?)
        invariant if loopEnded then end.Some? && Concludes(end.value, r) else GoesOn(r.l, GetSettings())
        decreases !loopEnded, Left(r), |flight|
      {
        if MayCreate(maxevt, createdEvts, newEvtAllowed) {
          createdEvts, skippedEvts, r := Create(createdEvts, skippedEvts, r, finishedEvts, maxevt);
        } else {
          var failure, blocked;
          finishedEvts, failure, blocked, r, end := Drain(finishedEvts, r, createdEvts, skippedEvts);
          loopEnded, newEvtAllowed := failure || blocked, true;
        }
      }
      if loopEnded {
        final := end.value;
      } else {
        final := AtLimit(r, GetSettings());
      }
    }

    /** A limited run has a bit set of the black list; the limit on the list has no bit. */
    method MakeBits(maxevt: int) returns (outOfRange: bool)
      requires Valid() && m_blackListBS.None? && Sorted(m_eventNumberBlacklist)
      modifies `m_blackListBS
      ensures Valid()
      ensures outOfRange <==> maxevt > 0 && maxevt as nat in m_eventNumberBlacklist
      ensures if outOfRange then m_blackListBS.None? else MadeFor(Lookup(), maxevt)
    {
      if maxevt <= 0 {
        return false;
      }
      var bits;
      bits, outOfRange := BlackListBits(m_eventNumberBlacklist, maxevt);
      if !outOfRange {
        m_blackListBS := Some(bits);
      }
    }

    method ClearBits()
      requires Valid()
      modifies `m_blackListBS
      ensures Valid() && m_blackListBS.None?
    {
      m_blackListBS := None;
    }

    /** A run: the loop on events with the bit set, unless that could not be made. */
    method ExecuteRun(maxevt: int)
      returns (finishedEvts: nat, skippedEvts: nat, createdEvts: int, outOfRange: bool, ghost r: AtHead,
               ghost final: Final)
      requires Valid() && m_blackListBS.None? && Sorted(m_eventNumberBlacklist) && (maxevt >= 0 || input.Some?)
      modifies `m_blackListBS, `m_nevt, `input, `running, `succeeded, `m_finishedEvents, `m_freeSlots, `flight, `held,
               `log, `tested, m_whiteboard, m_whiteboard.m_partitions
      ensures Valid() && m_blackListBS.None?
      ensures outOfRange <==> maxevt > 0 && maxevt as nat in m_eventNumberBlacklist
      ensures outOfRange ==> SightOf() == old(SightOf())
      ensures !outOfRange ==> r.l.start == Begin(old(SightOf())) && r.l.v == SightOf() && Concludes(final, r)
      ensures !outOfRange ==> r.maxevt == maxevt && finishedEvts == r.l.finished && skippedEvts == r.l.skipped
      ensures !outOfRange ==> r.l.b.list == m_eventNumberBlacklist && ListedSkipped(r.l, maxevt)
    {
      outOfRange := MakeBits(maxevt);
      if outOfRange {
        return 0, 0, 0, true, Round(NO_BOOKS, 0, false), NO_RUN;
      }
      ghost var b := Lookup();
      finishedEvts, skippedEvts, createdEvts, r, final := NextEvent(maxevt);
      assert r.l.b == b;
      SkipsTheListed(r.l, maxevt);
      ClearBits();
    }
  }
}
