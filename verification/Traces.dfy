/**
  Runs by what the scheduler thread does in them: its own steps, each with the state it was made in. The
  steps of the other threads lie in between.
*/
module Traces {
  import opened Common
  import opened ResourcePool
  import opened SchedulerState
  import opened SchedulerTheorems

  datatype Done = Done(at: Sys, l: Label)

  /** The steps of the scheduler thread along a run. */
  ghost function SchedSteps(u: Setup, s: Sys, run: seq<Label>): seq<Done>
    decreases |run|
  {
    if run == [] || !Enabled(u, s, run[0]) then []
    else First(s, run[0]) + SchedSteps(u, Apply(u, s, run[0]), run[1..])
  }

  function First(s: Sys, l: Label): seq<Done> {
    if SchedLabel(l) then [Done(s, l)] else []
  }

  /** Some run leads from s to t, with these steps of the scheduler thread. */
  ghost predicate Does(u: Setup, s: Sys, tr: seq<Done>, t: Sys) {
    exists run :: Run(u, s, run, t) && SchedSteps(u, s, run) == tr
  }

  lemma DoesNothing(u: Setup, s: Sys)
    ensures Does(u, s, [], s)
  {
    assert Run(u, s, [], s) && SchedSteps(u, s, []) == [];
  }

  lemma DoesFirst(u: Setup, s: Sys, l: Label, tr: seq<Done>, v: Sys)
    requires Enabled(u, s, l) && Does(u, Apply(u, s, l), tr, v)
    ensures Does(u, s, First(s, l) + tr, v)
  {
    var run :| Run(u, Apply(u, s, l), run, v) && SchedSteps(u, Apply(u, s, l), run) == tr;
    assert ([l] + run)[1..] == run;
    assert Run(u, s, [l] + run, v) && SchedSteps(u, s, [l] + run) == First(s, l) + tr;
  }

  lemma DoesStep(u: Setup, s: Sys, l: Label)
    requires Enabled(u, s, l)
    ensures Does(u, s, First(s, l), Apply(u, s, l))
  {
    DoesNothing(u, Apply(u, s, l));
    DoesFirst(u, s, l, [], Apply(u, s, l));
    assert First(s, l) + [] == First(s, l);
  }

  lemma {:induction false} DoesAlong(u: Setup, s: Sys, run: seq<Label>, t: Sys, tr: seq<Done>, v: Sys)
    requires Run(u, s, run, t) && Does(u, t, tr, v)
    ensures Does(u, s, SchedSteps(u, s, run) + tr, v)
    decreases |run|
  {
    if run == [] {
      assert [] + tr == tr;
    } else {
      var r := Apply(u, s, run[0]);
      DoesAlong(u, r, run[1..], t, tr, v);
      DoesFirst(u, s, run[0], SchedSteps(u, r, run[1..]) + tr, v);
      assert First(s, run[0]) + (SchedSteps(u, r, run[1..]) + tr) == SchedSteps(u, s, run) + tr;
    }
  }

  lemma DoesTrans(u: Setup, s: Sys, a: seq<Done>, t: Sys, b: seq<Done>, v: Sys)
    requires Does(u, s, a, t) && Does(u, t, b, v)
    ensures Does(u, s, a + b, v)
  {
    var run :| Run(u, s, run, t) && SchedSteps(u, s, run) == a;
    DoesAlong(u, s, run, t, b, v);
  }

  lemma DoesReachable(u: Setup, s: Sys, tr: seq<Done>, t: Sys)
    requires Reachable(u, s) && Does(u, s, tr, t)
    ensures Reachable(u, t)
  {
    var i, run :| Init(u, i) && Run(u, i, run, s);
    DoesAlong(u, i, run, s, tr, t);
  }

  // ----- kinds of steps ---------------------------------------------------------------------

  /** Steps of one kind, in their order. */
  function Where(tr: seq<Done>, kind: Label -> bool): seq<Done> {
    if tr == [] then [] else (if kind(tr[0].l) then [tr[0]] else []) + Where(tr[1..], kind)
  }

  lemma {:induction false} WhereConcat(a: seq<Done>, b: seq<Done>, kind: Label -> bool)
    ensures Where(a + b, kind) == Where(a, kind) + Where(b, kind)
    decreases |a|
  {
    if a == [] {
      assert a + b == b;
    } else {
      var head := if kind(a[0].l) then [a[0]] else [];
      assert (a + b)[0] == a[0] && (a + b)[1..] == a[1..] + b;
      WhereConcat(a[1..], b, kind);
      assert Where(a + b, kind) == head + Where(a[1..] + b, kind);
      assert Where(a, kind) == head + Where(a[1..], kind);
    }
  }

  lemma {:induction false} WhereNone(tr: seq<Done>, kind: Label -> bool)
    requires forall d :: d in tr ==> !kind(d.l)
    ensures Where(tr, kind) == []
    decreases |tr|
  {
    if tr != [] {
      assert tr[0] in tr;
      WhereNone(tr[1..], kind);
    }
  }

  /** An entry of the retry queue is tried. */
  predicate IsTry(l: Label) {
    l.Retry?
  }

  /** An action is popped and executed. */
  predicate IsAction(l: Label) {
    l.ExecPush? || l.ExecPushFatal? || l.ExecSignoff? || l.ExecView?
  }

  /** A step of the loop over the slots, or of `schedule` after its acquisition. */
  predicate IsPass(l: Label) {
    l.TakeReady? || l.QueueSpec? || l.SpawnTask? || l.MarkScheduled? || l.Finish? || l.Stall?
  }

  ghost predicate OfPass(tr: seq<Done>) {
    forall d :: d in tr ==> IsPass(d.l)
  }

  /** The way from s to t by steps of the loop over the slots only. */
  ghost predicate Passes(u: Setup, s: Sys, t: Sys) {
    exists tr :: Does(u, s, tr, t) && OfPass(tr)
  }

  lemma PassesSelf(u: Setup, s: Sys)
    ensures Passes(u, s, s)
  {
    DoesNothing(u, s);
    assert OfPass([]);
  }

  lemma PassesTrans(u: Setup, s: Sys, t: Sys, v: Sys)
    requires Passes(u, s, t) && Passes(u, t, v)
    ensures Passes(u, s, v)
  {
    var a :| Does(u, s, a, t) && OfPass(a);
    var b :| Does(u, t, b, v) && OfPass(b);
    DoesTrans(u, s, a, t, b, v);
    assert OfPass(a + b);
  }

  /** A pass leaves the steps of other kinds as they were. */
  lemma WherePass(tr: seq<Done>, pass: seq<Done>, kind: Label -> bool)
    requires OfPass(pass) && forall l :: IsPass(l) ==> !kind(l)
    ensures Where(tr + pass, kind) == Where(tr, kind)
  {
    WhereConcat(tr, pass, kind);
    WhereNone(pass, kind);
  }

  // ----- retries --------------------------------------------------------------------------------

  /** The tries made in these states, one after the other. */
  function Tries(turns: seq<Sys>): seq<Done> {
    seq(|turns|, j requires 0 <= j < |turns| => Done(turns[j], Label.Retry))
  }

  /** Turn j tries entry j. */
  predicate TriesEach(turns: seq<Sys>, entries: seq<TaskSpec>) {
    && |turns| == |entries|
    && forall j :: 0 <= j < |turns| ==> turns[j].sched.retry != [] && turns[j].sched.retry[0] == entries[j]
  }

  /** The pool has an instance of the algorithm and its resources. */
  predicate Served(u: Setup, s: Sys, ts: TaskSpec) {
    ts.alg < |s.work.pool.queues| == |u.pool.req| && CanAcquire(u.pool, s.work.pool, ts.alg)
  }

  /** The entries that the pool could not serve at their turn, in their order. */
  function Refused(u: Setup, turns: seq<Sys>, entries: seq<TaskSpec>): seq<TaskSpec>
    requires |turns| == |entries|
  {
    if turns == [] then []
    else
      var n := |turns| - 1;
      Refused(u, turns[..n], entries[..n]) + (if Served(u, turns[n], entries[n]) then [] else [entries[n]])
  }

  /** One more try and what follows it. */
  lemma TryNext(tr: seq<Done>, turns: seq<Sys>, at: Sys, rest: seq<Done>)
    requires Where(tr, IsTry) == Tries(turns) && OfPass(rest)
    ensures Where(tr + ([Done(at, Label.Retry)] + rest), IsTry) == Tries(turns + [at])
  {
    var one := [Done(at, Label.Retry)];
    WhereConcat(tr, one + rest, IsTry);
    WherePass(one, rest, IsTry);
    assert one[1..] == [];
    assert Tries(turns) + one == Tries(turns + [at]);
  }

  /** From start to s the first n entries of the retry queue have had their turns. */
  ghost predicate Turned(u: Setup, start: Sys, s: Sys, turns: seq<Sys>, tr: seq<Done>, n: nat) {
    && n <= |start.sched.retry| && Does(u, start, tr, s)
    && Where(tr, IsTry) == Tries(turns) && Where(tr, IsAction) == []
    && TriesEach(turns, start.sched.retry[..n])
    && s.sched.retry == start.sched.retry[n..] + Refused(u, turns, start.sched.retry[..n])
  }

  lemma NoneTurned(u: Setup, s: Sys)
    ensures Turned(u, s, s, [], [], 0)
  {
    DoesNothing(u, s);
    assert s.sched.retry[0..] + [] == s.sched.retry;
  }

  /** The queue after a turn: the entries that follow, and those refused so far. */
  lemma QueueNext(u: Setup, entries: seq<TaskSpec>, q: seq<TaskSpec>, turns: seq<Sys>, n: nat, at: Sys)
    requires |turns| == n < |entries| && q == entries[n..] + Refused(u, turns, entries[..n])
    ensures q[0] == entries[n]
    ensures q[1..] + (if Served(u, at, q[0]) then [] else [q[0]])
         == entries[n + 1..] + Refused(u, turns + [at], entries[..n + 1])
  {
    RefusedNext(u, turns, entries, n, at);
    assert q[1..] == entries[n + 1..] + Refused(u, turns, entries[..n]);
  }

  lemma TurnNext(turns: seq<Sys>, entries: seq<TaskSpec>, n: nat, at: Sys)
    requires n < |entries| && TriesEach(turns, entries[..n])
    requires at.sched.retry != [] && at.sched.retry[0] == entries[n]
    ensures TriesEach(turns + [at], entries[..n + 1])
  {
  }

  lemma OneTurned(u: Setup, start: Sys, s: Sys, turns: seq<Sys>, tr: seq<Done>, n: nat, at: Sys, rest: seq<Done>,
                  t: Sys)
    returns (more: seq<Done>)
    requires Turned(u, start, s, turns, tr, n) && n < |start.sched.retry|
    requires Does(u, s, [Done(at, Label.Retry)] + rest, t) && OfPass(rest) && at.sched.retry == s.sched.retry
    requires var ts := s.sched.retry[0]; t.sched.retry == s.sched.retry[1..] + (if Served(u, at, ts) then [] else [ts])
    ensures Turned(u, start, t, turns + [at], more, n + 1)
  {
    var step := [Done(at, Label.Retry)] + rest;
    more := tr + step;
    QueueNext(u, start.sched.retry, s.sched.retry, turns, n, at);
    DoesTrans(u, start, tr, s, step, t);
    TryNext(tr, turns, at, rest);
    TurnNext(turns, start.sched.retry, n, at);
    ActionsNext(tr, at, rest);
  }

  lemma ActionsNext(tr: seq<Done>, at: Sys, rest: seq<Done>)
    requires Where(tr, IsAction) == [] && OfPass(rest)
    ensures Where(tr + ([Done(at, Label.Retry)] + rest), IsAction) == []
  {
    WhereConcat(tr, [Done(at, Label.Retry)] + rest, IsAction);
    WhereNone([Done(at, Label.Retry)] + rest, IsAction);
  }

  lemma AllTurned(u: Setup, start: Sys, s: Sys, turns: seq<Sys>, tr: seq<Done>)
    requires Turned(u, start, s, turns, tr, |start.sched.retry|)
    ensures TriesEach(turns, start.sched.retry) && s.sched.retry == Refused(u, turns, start.sched.retry)
  {
    assert start.sched.retry[..|start.sched.retry|] == start.sched.retry;
  }

  lemma RefusedNext(u: Setup, turns: seq<Sys>, entries: seq<TaskSpec>, n: nat, at: Sys)
    requires |turns| == n < |entries|
    ensures Refused(u, turns + [at], entries[..n + 1])
         == Refused(u, turns, entries[..n]) + (if Served(u, at, entries[n]) then [] else [entries[n]])
  {
    assert (turns + [at])[..n] == turns && entries[..n + 1][..n] == entries[..n];
  }
}
