/**
  The books of the event loop as values: what a run has created, read, looked up and pushed, and that every
  part of the loop keeps them.
*/
module EventAccounts {
  import opened Common
  import S = SchedulerState

  type Context = S.Context

  /** What happened to contexts at the scheduler's interface, in order, with the status of those that came back. */
  datatype LogEntry = Pushed(ctx: Context) | Popped(ctx: Context, success: bool)

  /** A second event is pushed only after one has come back. */
  ghost predicate FirstAlone(log: seq<LogEntry>) {
    forall i, j :: 0 <= i < j < |log| && log[i].Pushed? && log[j].Pushed? ==>
      exists k :: 0 <= k < j && log[k].Popped?
  }

  ghost predicate AnyPopped(log: seq<LogEntry>) {
    exists k :: 0 <= k < |log| && log[k].Popped?
  }

  /** Some context came back without success. */
  ghost predicate AnyFailed(log: seq<LogEntry>) {
    exists k :: 0 <= k < |log| && log[k].Popped? && !log[k].success
  }

  ghost predicate AnyPushed(log: seq<LogEntry>) {
    exists k :: 0 <= k < |log| && log[k].Pushed?
  }

  /**
    One step of the input, a list of records with readable or unreadable addresses: a record that
    cannot be read is passed over once, two in a row count as the end.
  */
  function NextRecord(input: seq<bool>): (r: Option<seq<bool>>)
    ensures r.Some? ==> |r.value| < |input|
  {
    if input == [] then None
    else if input[0] then Some(input[1..])
    else if |input| > 1 && input[1] then Some(input[2..])
    else None
  }

  /** The events that the loop can read before it meets the end. */
  function Available(input: seq<bool>): nat
    decreases |input|
  {
    var rest := NextRecord(input);
    if rest.None? then 0 else 1 + Available(rest.value)
  }

  function Readable(input: seq<bool>): nat {
    if input == [] then 0 else (if input[0] then 1 else 0) + Readable(input[1..])
  }

  /** The events before the first two records in a row that cannot be read are read, and no others. */
  lemma {:induction false} ReadsToFirstGap(input: seq<bool>, n: nat)
    requires n <= |input| && forall i :: 0 <= i < n && i + 1 < |input| ==> input[i] || input[i + 1]
    requires n == |input| || (n + 1 < |input| && !input[n] && !input[n + 1])
    ensures Available(input) == Readable(input[..n])
    decreases |input|
  {
    var rest := NextRecord(input);
    if rest.Some? {
      var taken := |input| - |rest.value|;
      assert input[taken - 1] && taken <= n;
      assert rest.value == input[taken..];
      assert rest.value[..n - taken] == input[..n][taken..];
      ReadsToFirstGap(rest.value, n - taken);
      assert taken == 2 ==> input[..n][1..][1..] == input[..n][2..];
    } else if n > 0 {
      assert n == |input| == 1;
    }
  }

  // --- the black list

  ghost predicate Sorted(list: seq<nat>) {
    forall i, j :: 0 <= i < j < |list| ==> list[i] <= list[j]
  }

  function Inserted(e: nat, list: seq<nat>): (r: seq<nat>)
    requires Sorted(list)
    ensures Sorted(r) && forall x :: x in r <==> x == e || x in list
  {
    if list == [] then [e]
    else
      assert forall i :: 0 <= i < |list[1..]| ==> list[1..][i] == list[i + 1];
      assert forall x :: x in list <==> x == list[0] || x in list[1..];
      if e <= list[0] then [e] + list
      else
        var rest := Inserted(e, list[1..]);
        assert forall i :: 0 <= i < |rest| ==> rest[i] in rest;
        [list[0]] + rest
  }

  /** The list in increasing order, as the initialisation leaves it. */
  function SortedList(list: seq<nat>): (r: seq<nat>)
    ensures Sorted(r) && forall x :: x in r <==> x in list
  {
    if list == [] then []
    else
      assert forall x :: x in list <==> x == list[0] || x in list[1..];
      Inserted(list[0], SortedList(list[1..]))
  }

  /**
    The bit set that a limited run looks events up in, one bit for each number below the limit. The guard
    also lets the limit itself through, for which there is no bit.
  */
  method BlackListBits(list: seq<nat>, maxevt: nat) returns (bits: seq<bool>, outOfRange: bool)
    requires Sorted(list) && maxevt > 0
    ensures outOfRange <==> maxevt in list
    ensures |bits| == maxevt && forall e :: 0 <= e < maxevt ==> (bits[e] <==> e in list)
  {
    bits, outOfRange := seq(maxevt, _ => false), false;
    var i := 0;
    while i < |list| && list[i] <= maxevt
      invariant i <= |list| && !outOfRange && maxevt !in list[..i] && |bits| == maxevt
      invariant forall e :: 0 <= e < maxevt ==> (bits[e] <==> e in list[..i])
    {
      if list[i] >= |bits| {
        assert forall e: nat :: e < maxevt ==> e !in list[i..];
        assert list == list[..i] + list[i..];
        return bits, true;
      }
      bits := bits[list[i] := true];
      assert list[..i + 1] == list[..i] + [list[i]];
      i := i + 1;
    }
    assert forall e: nat :: e <= maxevt ==> e !in list[i..];
    assert list == list[..i] + list[i..];
  }

  /** What event numbers are looked up in: the bit set of a limited run, if there is one, and the list. */
  datatype BlackList = BlackList(bits: Option<seq<bool>>, list: seq<nat>)

  /** What a look-up says: nothing for a number that has no bit. */
  function Says(b: BlackList, e: nat): Option<bool> {
    if b.bits.None? then Some(e in b.list)
    else if e < |b.bits.value| then Some(b.bits.value[e])
    else None
  }

  /** The n numbers from first on can be looked up. */
  predicate InRange(b: BlackList, first: nat, n: nat) {
    n == 0 || b.bits.None? || first + n <= |b.bits.value|
  }

  /** How many of them the look-up finds listed. */
  function SaidListed(b: BlackList, first: nat, n: nat): nat {
    if n == 0 then 0 else SaidListed(b, first, n - 1) + (if Says(b, first + n - 1) == Some(true) then 1 else 0)
  }

  /** How many of the n numbers from first on are listed. */
  function ListedFrom(list: seq<nat>, first: nat, n: nat): nat {
    if n == 0 then 0 else ListedFrom(list, first, n - 1) + (if first + n - 1 in list then 1 else 0)
  }

  /** Numbers that have a bit are found listed exactly if they are. */
  lemma {:induction false} SaidIsListed(b: BlackList, first: nat, n: nat)
    requires InRange(b, first, n)
    requires b.bits.Some? ==> forall e :: 0 <= e < |b.bits.value| ==> (b.bits.value[e] <==> e in b.list)
    ensures SaidListed(b, first, n) == ListedFrom(b.list, first, n)
  {
    if n > 0 {
      SaidIsListed(b, first, n - 1);
    }
  }

  /** The numbers from first on, in order. */
  ghost predicate Consecutive(numbers: seq<nat>, first: nat) {
    forall i :: 0 <= i < |numbers| ==> numbers[i] == first + i
  }

  /** Numbers that follow each other from first are below a limit exactly if the last one is. */
  lemma BelowLimit(numbers: seq<nat>, first: nat, limit: nat)
    requires Consecutive(numbers, first)
    ensures (forall e :: e in numbers ==> e < limit) <==> numbers == [] || first + |numbers| <= limit
  {
    if numbers != [] {
      assert numbers[|numbers| - 1] in numbers && numbers[|numbers| - 1] == first + |numbers| - 1;
    }
  }

  /** The log grew by contexts that came back, at least one. */
  ghost predicate OnlyPops(log: seq<LogEntry>, later: seq<LogEntry>) {
    |log| < |later| && later[..|log|] == log && forall i :: |log| <= i < |later| ==> later[i].Popped?
  }

  datatype Attempt = Launched | Skipped | EndOfInput

  /** A context with a new store, and where it goes. */
  lemma OneMore(held: set<Context>, flight: set<Context>, c: Context)
    requires c !in held && flight <= held
    ensures c !in flight && held + {c} - flight == held - flight + {c} && |held + {c} - flight| == |held - flight| + 1
    ensures held + {c} - (flight + {c}) == held - flight && |flight + {c}| == |flight| + 1
    ensures held + {c} - {c} == held
  {
    assert held + {c} - flight == held - flight + {c};
  }

  lemma SameSize(a: set<Context>, b: set<Context>)
    requires a <= b && |a| == |b|
    ensures a == b
  {
    assert b == a + (b - a);
  }

  lemma PushAlone(log: seq<LogEntry>, c: Context)
    requires FirstAlone(log) && (AnyPopped(log) || !AnyPushed(log))
    ensures FirstAlone(log + [Pushed(c)])
  {
    var later := log + [Pushed(c)];
    forall i, j | 0 <= i < j < |later| && later[i].Pushed? && later[j].Pushed?
      ensures exists k :: 0 <= k < j && later[k].Popped?
    {
      if j < |log| {
        var k :| 0 <= k < j && log[k].Popped?;
        assert later[k].Popped?;
      } else {
        assert log[i].Pushed?;
        var k :| 0 <= k < |log| && log[k].Popped?;
        assert later[k].Popped?;
      }
    }
  }

  lemma PopsAlone(log: seq<LogEntry>, later: seq<LogEntry>)
    requires FirstAlone(log) && OnlyPops(log, later)
    ensures FirstAlone(later) && AnyPopped(later) && (AnyPushed(later) <==> AnyPushed(log))
  {
    assert later[|log|].Popped?;
    assert forall i :: 0 <= i < |log| ==> log[i] == later[..|log|][i] == later[i];
    forall i, j | 0 <= i < j < |later| && later[i].Pushed? && later[j].Pushed?
      ensures exists k :: 0 <= k < j && later[k].Popped?
    {
      assert log[i].Pushed? && log[j].Pushed?;
      var k :| 0 <= k < j && log[k].Popped?;
      assert later[k].Popped?;
    }
  }

  /**
    What a run starts from: the input, contexts still in flight, those that keep a store for good, and the
    next event number.
  */
  datatype Start = Start(input: Option<seq<bool>>, inFlight: nat, left: set<Context>, first: nat)

  /** How the loop on events ends. */
  datatype Ending = LimitReached | NullContext | Aborted | Blocked

  /** What the books are about, at one moment of a run. */
  datatype Sight = Sight(held: set<Context>, flight: set<Context>, log: seq<LogEntry>, tested: seq<nat>,
                         nevt: nat, input: Option<seq<bool>>)

  function Begin(v: Sight): Start {
    Start(v.input, |v.flight|, v.held - v.flight, v.nevt)
  }

  // --- the books

  /** The books of a run: where it started, what is seen now, and the numbers of events. */
  datatype Ledger = Ledger(start: Start, v: Sight, b: BlackList, created: nat, ended: bool, finished: nat, skipped: nat)

  /**
    Created events and those in flight before are finished, skipped or in flight; the stores kept for good
    are those from before, and one more once the input has ended.
  */
  ghost predicate Accounts(l: Ledger) {
    && l.created + l.start.inFlight == l.finished + l.skipped + |l.v.flight|
    && l.start.left <= l.v.held - l.v.flight
    && |l.v.held - l.v.flight| == |l.start.left| + (if l.ended then 1 else 0)
  }

  /** The input read so far: the created events, and the end if it was met. */
  ghost predicate InputRead(l: Ledger) {
    && (l.start.input.None? <==> l.v.input.None?)
    && (l.start.input.None? ==> !l.ended)
    && (l.start.input.Some? ==>
          Available(l.start.input.value) == l.created + (if l.ended then 0 else Available(l.v.input.value)))
  }

  /**
    Event numbers go up by one; those of the created events have been looked up in this order, and if all
    can be, the events skipped are those found listed.
  */
  ghost predicate Numbered(l: Ledger) {
    && l.v.nevt == l.start.first + l.created + (if l.ended then 1 else 0)
    && |l.v.tested| == l.created && Consecutive(l.v.tested, l.start.first)
    && (InRange(l.b, l.start.first, l.created) ==> l.skipped == SaidListed(l.b, l.start.first, l.created))
  }

  ghost predicate Kept(l: Ledger) {
    Accounts(l) && InputRead(l) && Numbered(l)
  }

  const NO_BOOKS: Ledger :=
    Ledger(Start(None, 0, {}, 0), Sight({}, {}, [], [], 0, None), BlackList(None, []), 0, false, 0, 0)

  /** Books that are in order. */
  type Books = l: Ledger | Kept(l) witness NO_BOOKS

  // --- one event

  /** One event from the input to the scheduler: launched, skipped, or not there as the input has ended. */
  datatype Step = Step(v: Sight, w: Sight, b: BlackList, outcome: Attempt)

  ghost predicate Launch(step: Step) {
    var v, w, b, outcome := step.v, step.w, step.b, step.outcome;
    && w.nevt == v.nevt + 1 && (w.input.Some? <==> v.input.Some?)
    && (outcome.EndOfInput? <==> v.input.Some? && NextRecord(v.input.value).None?)
    && if outcome.EndOfInput? then
         && w.flight == v.flight && w.log == v.log && w.tested == v.tested
         && v.held - v.flight <= w.held - w.flight && |w.held - w.flight| == |v.held - v.flight| + 1
       else
         && w.input == (if v.input.None? then None else NextRecord(v.input.value))
         && w.held - w.flight == v.held - v.flight && w.tested == v.tested + [v.nevt]
         && (Says(b, v.nevt).Some? ==> outcome.Skipped? == Says(b, v.nevt).value)
         && if outcome.Skipped? then w.flight == v.flight && w.held == v.held && w.log == v.log
            else w.flight != {} && |w.flight| == |v.flight| + 1 && exists c :: w.log == v.log + [Pushed(c)]
  }

  type Launching = step: Step | Launch(step)
    witness Step(Sight({}, {}, [], [], 0, None), Sight({}, {}, [], [0], 1, None), BlackList(None, [0]), Skipped)

  /** The context is there, and the input ends. */
  lemma EndLaunches(v: Sight, w: Sight, b: BlackList, c: Context) returns (step: Launching)
    requires v.flight <= v.held && c !in v.held
    requires v.input.Some? && NextRecord(v.input.value).None? && w.input.Some?
    requires w == v.(held := v.held + {c}, nevt := v.nevt + 1, input := w.input)
    ensures step == Step(v, w, b, EndOfInput)
  {
    OneMore(v.held, v.flight, c);
    step := Step(v, w, b, EndOfInput);
  }

  /** The context is there and handed on. */
  lemma SubmitLaunches(v: Sight, w: Sight, b: BlackList, c: Context, outcome: Attempt) returns (step: Launching)
    requires v.flight <= v.held && c !in v.held && c.evt == v.nevt && !outcome.EndOfInput?
    requires v.input.Some? ==> NextRecord(v.input.value).Some?
    requires w.input == (if v.input.None? then None else NextRecord(v.input.value))
    requires w.nevt == v.nevt + 1 && w.tested == v.tested + [c.evt]
    requires Says(b, c.evt).Some? ==> outcome.Skipped? == Says(b, c.evt).value
    requires if outcome.Skipped? then w.flight == v.flight && w.held == v.held + {c} - {c} && w.log == v.log
             else w.flight == v.flight + {c} && w.held == v.held + {c} && w.log == v.log + [Pushed(c)]
    ensures step == Step(v, w, b, outcome)
  {
    OneMore(v.held, v.flight, c);
    assert outcome.Launched? ==> c in w.flight;
    step := Step(v, w, b, outcome);
  }

  /** The books after an event, or after the end of input. */
  lemma LaunchBooked(l: Books, step: Launching) returns (m: Books)
    requires !l.ended && step.v == l.v && step.b == l.b
    ensures m == if step.outcome.EndOfInput? then l.(v := step.w, ended := true)
                 else l.(v := step.w, created := l.created + 1,
                         skipped := l.skipped + (if step.outcome.Skipped? then 1 else 0))
  {
    var w, outcome := step.w, step.outcome;
    if outcome.EndOfInput? {
      m := l.(v := w, ended := true);
    } else {
      var first, n := l.start.first, l.created;
      assert InRange(l.b, first, n + 1) ==> InRange(l.b, first, n) && Says(l.b, l.v.nevt).Some?;
      m := l.(v := w, created := n + 1, skipped := l.skipped + (if outcome.Skipped? then 1 else 0));
    }
  }

  // --- several events until one is launched

  /** The inner loop: its books at the start and now, the limit, and whether the last event was launched. */
  datatype Spree = Spree(s: Ledger, l: Ledger, maxevt: int, success: bool)

  ghost predicate Going(r: Spree) {
    && Kept(r.l) && !r.l.ended && r.l.start == r.s.start && r.l.b == r.s.b && r.l.finished == r.s.finished
    && r.l.created >= r.s.created && (r.maxevt >= 0 ==> r.l.created <= r.maxevt)
    && (r.l.v.input.Some? <==> r.s.v.input.Some?)
    && (if r.success then
          r.l.created > r.s.created && r.l.v.flight != {} && exists c :: r.l.v.log == r.s.v.log + [Pushed(c)]
        else r.l.v.log == r.s.v.log && r.l.v.flight == r.s.v.flight && r.l.v.held == r.s.v.held)
    && (r.l.v.input.Some? ==>
          if r.l.created > r.s.created then |r.l.v.input.value| < |r.s.v.input.value|
          else r.l.v.input == r.s.v.input)
  }

  type Progress = r: Spree | Going(r) witness Spree(NO_BOOKS, NO_BOOKS, 0, false)

  /** What comes of it: the end of input, or an event launched, or the limit reached. */
  ghost predicate Launches(s: Ledger, l: Ledger, maxevt: int) {
    && Kept(l) && l.start == s.start && l.b == s.b && l.finished == s.finished
    && (l.ended ==> l.created >= s.created) && (!l.ended ==> l.created > s.created)
    && (maxevt >= 0 ==> l.created <= maxevt && (l.ended ==> l.created < maxevt))
    && (l.v.input.Some? <==> s.v.input.Some?)
    && (!l.ended && l.v.input.Some? ==> |l.v.input.value| < |s.v.input.value|)
    && (l.v.log == s.v.log || (l.v.flight != {} && exists c :: l.v.log == s.v.log + [Pushed(c)]))
    && (!l.ended && l.v.log == s.v.log ==> l.created == maxevt)
  }

  lemma SpreeBegins(l: Books, maxevt: int) returns (r: Progress)
    requires !l.ended && (maxevt >= 0 ==> l.created <= maxevt)
    ensures r == Spree(l, l, maxevt, false)
  {
    r := Spree(l, l, maxevt, false);
  }

  lemma SpreeGoesOn(r: Progress, step: Launching) returns (t: Progress)
    requires !r.success && step.v == r.l.v && step.b == r.l.b && !step.outcome.EndOfInput?
    requires r.maxevt < 0 || r.l.created < r.maxevt
    ensures t.s == r.s && t.maxevt == r.maxevt && t.success == step.outcome.Launched? && t.l.v == step.w
    ensures t.l.created == r.l.created + 1
    ensures t.l.skipped == r.l.skipped + (if step.outcome.Skipped? then 1 else 0)
    ensures step.w.input.Some? ==> |step.w.input.value| < |r.l.v.input.value|
  {
    var m := LaunchBooked(r.l, step);
    t := r.(l := m, success := step.outcome.Launched?);
  }

  lemma SpreeAtEnd(r: Progress, step: Launching) returns (m: Books)
    requires !r.success && step.v == r.l.v && step.b == r.l.b && step.outcome.EndOfInput?
    requires r.maxevt < 0 || r.l.created < r.maxevt
    ensures m == r.l.(v := step.w, ended := true) && Launches(r.s, m, r.maxevt)
  {
    m := LaunchBooked(r.l, step);
  }

  lemma SpreeEnds(r: Progress)
    requires (r.maxevt < 0 || r.s.created < r.maxevt) && (r.success || 0 <= r.maxevt <= r.l.created)
    ensures Launches(r.s, r.l, r.maxevt)
  {
  }

  // --- the loop on events

  /** A round: the books, the limit, and whether more than one event may be in flight. */
  datatype Round = Round(l: Ledger, maxevt: int, newEvtAllowed: bool)

  /** What holds whenever the loop on events comes round. */
  ghost predicate Head(r: Round) {
    && Kept(r.l)
    && (r.maxevt >= 0 ==> r.l.created <= r.maxevt && (r.l.ended ==> r.l.created < r.maxevt))
    && FirstAlone(r.l.v.log)
    && (r.newEvtAllowed ==> AnyPopped(r.l.v.log))
    && (!r.l.ended && r.l.created == 0 ==> !AnyPushed(r.l.v.log))
    && (!r.newEvtAllowed && !r.l.ended && r.l.created > 0 ==> r.l.v.flight != {} || r.l.created == r.maxevt)
  }

  type AtHead = r: Round | Head(r) witness Round(NO_BOOKS, 0, false)

  /** A bound on the creations that may still come; none once the input ended. */
  function Left(r: AtHead): nat {
    if r.l.ended then 0
    else if r.l.v.input.Some? then 1 + |r.l.v.input.value|
    else if r.maxevt >= 0 then 1 + r.maxevt - r.l.created
    else 1
  }

  /** The number of slots, and whether a failed event is to abort the run. */
  datatype Settings = Settings(slots: nat, abortOnFailure: bool)

  /** No failed event has come back in this run, unless failures are not to abort it. */
  ghost predicate GoesOn(l: Ledger, settings: Settings) {
    settings.abortOnFailure ==> !AnyFailed(l.v.log)
  }

  lemma HeadBegins(v: Sight, b: BlackList, maxevt: int, settings: Settings) returns (r: AtHead)
    requires v.log == [] && v.tested == []
    ensures GoesOn(r.l, settings)
    ensures r == Round(Ledger(Begin(v), v, b, 0, false, 0, 0), maxevt, false)
  {
    r := Round(Ledger(Begin(v), v, b, 0, false, 0, 0), maxevt, false);
  }

  /** The creating branch keeps what holds at the head, and leaves less to create. */
  lemma CreateHead(r: AtHead, l: Ledger, settings: Settings) returns (t: AtHead)
    requires !r.l.ended && (r.newEvtAllowed || r.l.created == 0) && (r.maxevt >= 0 || r.l.v.input.Some?)
    requires Launches(r.l, l, r.maxevt) && GoesOn(r.l, settings)
    ensures t == r.(l := l) && Left(t) < Left(r) && GoesOn(l, settings)
  {
    if l.v.log != r.l.v.log {
      var c :| l.v.log == r.l.v.log + [Pushed(c)];
      PushAlone(r.l.v.log, c);
      PushPopsNothing(r.l.v.log, c);
    }
    t := r.(l := l);
  }

  lemma PushPopsNothing(log: seq<LogEntry>, c: Context)
    ensures AnyPopped(log + [Pushed(c)]) <==> AnyPopped(log)
    ensures AnyFailed(log + [Pushed(c)]) <==> AnyFailed(log)
  {
    assert forall k :: 0 <= k < |log| ==> (log + [Pushed(c)])[k] == log[k];
  }

  /** What a drain that does not block does: contexts come back, at least one, if any is in flight. */
  ghost predicate Drained(v: Sight, w: Sight, finishedEvts: nat, finished: nat) {
    && w.nevt == v.nevt && w.input == v.input && w.tested == v.tested
    && if v.flight == {} then finished == finishedEvts && w.flight == {} && w.held == v.held && w.log == v.log
       else && |w.flight| < |v.flight| && finished + |w.flight| == finishedEvts + |v.flight|
            && w.held - w.flight == v.held - v.flight && OnlyPops(v.log, w.log)
  }

  /** A drain fails if nothing was in flight, or if a failed event came back and that is to abort the run. */
  ghost predicate DrainFails(v: Sight, w: Sight, settings: Settings) {
    v.flight == {} || (settings.abortOnFailure && AnyFailed(w.log[if |v.log| <= |w.log| then |v.log| else 0..]))
  }

  lemma FailedSince(log: seq<LogEntry>, now: seq<LogEntry>)
    requires log <= now
    ensures AnyFailed(now) <==> AnyFailed(log) || AnyFailed(now[|log|..])
  {
    assert forall k :: 0 <= k < |log| ==> log[k] == now[k];
    assert forall k :: 0 <= k < |now| - |log| ==> now[|log|..][k] == now[|log| + k];
    if k :| 0 <= k < |now| && now[k].Popped? && !now[k].success {
      assert k >= |log| ==> now[|log|..][k - |log|] == now[k];
    }
  }

  /** The draining branch keeps what holds at the head; the run goes on unless it is to be aborted. */
  lemma DrainHead(r: AtHead, w: Sight, finished: nat, settings: Settings) returns (t: AtHead)
    requires Drained(r.l.v, w, r.l.finished, finished) && GoesOn(r.l, settings)
    ensures GoesOn(t.l, settings) <==> !DrainFails(r.l.v, w, settings) || r.l.v.flight == {}
    ensures t == Round(r.l.(v := w, finished := finished), r.maxevt, r.newEvtAllowed || r.l.v.flight != {})
    ensures Left(t) == Left(r)
  {
    if r.l.v.flight != {} {
      PopsAlone(r.l.v.log, w.log);
      FailedSince(r.l.v.log, w.log);
    }
    t := Round(r.l.(v := w, finished := finished), r.maxevt, r.newEvtAllowed || r.l.v.flight != {});
  }

  // --- how it ends

  /** What a run of the loop leaves: its books, the limit and the settings, and the kind of ending. */
  datatype Outcome = Outcome(l: Ledger, maxevt: int, settings: Settings, ending: Ending)

  /** What the ending says of the books; aborted if and only if a failed event came back and that was asked for. */
  ghost predicate Ended(o: Outcome) {
    var l := o.l;
    && Kept(l) && FirstAlone(l.v.log) && (o.ending.Aborted? <==> !GoesOn(l, o.settings))
    && match o.ending
       case LimitReached =>
         && 0 <= o.maxevt <= l.finished + l.skipped
         && (l.start.inFlight == 0 ==>
               && !l.ended && l.created == o.maxevt == l.finished + l.skipped
               && l.v.flight == {} && l.v.held == l.start.left)
       case NullContext =>
         && l.v.flight == {} && (l.ended || |l.start.left| == o.settings.slots)
         && (l.ended ==>
               l.start.input.Some? && l.finished + l.skipped == Available(l.start.input.value) + l.start.inFlight)
       case _ => true
  }

  const NO_RUN: Outcome := Outcome(NO_BOOKS, 0, Settings(0, false), Blocked)

  type Final = o: Outcome | Ended(o) witness NO_RUN

  /** A run that started with nothing in flight and reached its limit leaves nothing behind. */
  lemma AtLimit(r: AtHead, settings: Settings) returns (o: Final)
    requires GoesOn(r.l, settings)
    requires 0 <= r.maxevt <= r.l.finished + r.l.skipped && r.l.v.flight <= r.l.v.held
    ensures o == Outcome(r.l, r.maxevt, settings, LimitReached)
  {
    if r.l.start.inFlight == 0 {
      assert |r.l.v.flight| == 0;
      SameSize(r.l.start.left, r.l.v.held);
    }
    o := Outcome(r.l, r.maxevt, settings, LimitReached);
  }

  /** Nothing is in flight, and no event can be created: the input has ended, or no store was free. */
  lemma AtNullContext(r: AtHead, settings: Settings) returns (o: Final)
    requires GoesOn(r.l, settings) && r.l.v.flight == {} && (r.l.ended || |r.l.start.left| == settings.slots)
    ensures o == Outcome(r.l, r.maxevt, settings, NullContext)
  {
    o := Outcome(r.l, r.maxevt, settings, NullContext);
  }

  /** The loop ends as a drain fails. */
  lemma AtFailure(r: AtHead, t: AtHead, settings: Settings) returns (o: Final)
    requires DrainFails(r.l.v, t.l.v, settings) && t.l.start == r.l.start && t.l.ended == r.l.ended
    requires GoesOn(t.l, settings) <==> r.l.v.flight == {}
    requires r.l.v.flight == {} ==> t.l.v.flight == {} && (r.l.ended || |r.l.start.left| == settings.slots)
    ensures o == Outcome(t.l, t.maxevt, settings, if r.l.v.flight == {} then NullContext else Aborted)
  {
    if r.l.v.flight == {} {
      o := AtNullContext(t, settings);
    } else {
      o := Outcome(t.l, t.maxevt, settings, Aborted);
    }
  }

  /** Nothing that is in flight will come back. */
  lemma AtBlock(r: AtHead, settings: Settings) returns (o: Final)
    requires GoesOn(r.l, settings)
    ensures o == Outcome(r.l, r.maxevt, settings, Blocked)
  {
    o := Outcome(r.l, r.maxevt, settings, Blocked);
  }

  /** The draining branch, which comes back, fails or blocks. */
  lemma DrainTurn(r: AtHead, w: Sight, finished: nat, settings: Settings, failure: bool, blocked: bool)
    returns (t: AtHead, final: Option<Final>)
    requires GoesOn(r.l, settings)
    requires blocked ==> w == r.l.v && finished == r.l.finished
    requires !blocked ==> Drained(r.l.v, w, r.l.finished, finished) && (failure <==> DrainFails(r.l.v, w, settings))
    requires r.l.v.flight == {} ==> r.l.ended || |r.l.start.left| == settings.slots
    ensures t.l == r.l.(v := w, finished := finished) && t.maxevt == r.maxevt && Left(t) == Left(r)
    ensures final.Some? <==> blocked || failure
    ensures final.Some? ==>
              var ending := if blocked then Blocked else if r.l.v.flight == {} then NullContext else Aborted;
              final.value == Outcome(t.l, t.maxevt, settings, ending)
    ensures final.None? ==> t.newEvtAllowed && |w.flight| < |r.l.v.flight| && GoesOn(t.l, settings)
  {
    final := None;
    if blocked {
      t := r;
      var o := AtBlock(t, settings);
      final := Some(o);
    } else {
      t := DrainHead(r, w, finished, settings);
      if failure {
        var o := AtFailure(r, t, settings);
        final := Some(o);
      }
    }
  }

  /** There is no bit set without a limit, and with one it answers as the list for all numbers below. */
  ghost predicate MadeFor(b: BlackList, limit: int) {
    if limit <= 0 then b.bits.None?
    else b.bits.Some? && |b.bits.value| == limit
         && forall e :: 0 <= e < limit ==> (b.bits.value[e] <==> e in b.list)
  }

  /** The created events have numbers below the limit, if there is one. */
  predicate BelowIt(l: Ledger, limit: int) {
    limit > 0 ==> l.created == 0 || l.start.first + l.created <= limit
  }

  /**
    The numbers of the created events are looked up; they are all below the limit exactly if the last one
    is, and then exactly the listed events are skipped.
  */
  ghost predicate ListedSkipped(l: Ledger, limit: int) {
    && |l.v.tested| == l.created && Consecutive(l.v.tested, l.start.first)
    && (limit > 0 ==> ((forall e :: e in l.v.tested ==> e < limit) <==> BelowIt(l, limit)))
    && (BelowIt(l, limit) ==> l.skipped == ListedFrom(l.b.list, l.start.first, l.created))
  }

  lemma SkipsTheListed(l: Books, limit: int)
    requires MadeFor(l.b, limit)
    ensures ListedSkipped(l, limit)
  {
    if InRange(l.b, l.start.first, l.created) {
      SaidIsListed(l.b, l.start.first, l.created);
    }
    if limit > 0 {
      BelowLimit(l.v.tested, l.start.first, limit);
    }
  }
}
