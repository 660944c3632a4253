/**
  The per-event state machine of the algorithms: a vector of states, and beside it one index
  set for each state, which `set` and `reset` keep in step.
*/
module AlgsExecutionStates {

  /** The states, in the order of their integer values 0 .. 7. */
  datatype State =
    | INITIAL
    | CONTROLREADY
    | DATAREADY
    | RESOURCELESS
    | SCHEDULED
    | EVTACCEPTED
    | EVTREJECTED
    | ERROR

  /** Number of states: the enumerator MAXVALUE. */
  const STATES := 8

  /** The integer value of a state. */
  function Code(s: State): nat {
    match s
    case INITIAL => 0
    case CONTROLREADY => 1
    case DATAREADY => 2
    case RESOURCELESS => 3
    case SCHEDULED => 4
    case EVTACCEPTED => 5
    case EVTREJECTED => 6
    case ERROR => 7
  }

  /** The transitions that `set` lists as allowed: one up as far as SCHEDULED, past RESOURCELESS, and to the results. */
  predicate Legal(first: State, second: State): (legal: bool)
    ensures legal <==>
              var from, to := Code(first), Code(second);
              if to <= 4 then from == to - 1 || (from == 2 && to == 4) else from == 4
  {
    || (first == INITIAL && second == CONTROLREADY)
    || (first == CONTROLREADY && second == DATAREADY)
    || (first == DATAREADY && second == SCHEDULED)
    || (first == DATAREADY && second == RESOURCELESS)
    || (first == RESOURCELESS && second == SCHEDULED)
    || (first == SCHEDULED && second == ERROR)
    || (first == SCHEDULED && second == EVTACCEPTED)
    || (first == SCHEDULED && second == EVTREJECTED)
  }

  /** The status code of a request to move from `first` to `second`. */
  predicate Accepted(first: State, second: State) {
    first == second || Legal(first, second)
  }

  /** The state in which such a request leaves the algorithm. */
  function Target(first: State, second: State): State {
    if Accepted(first, second) then second else ERROR
  }

  /** The states after a request; out of range requests change nothing. */
  function SetState(states: seq<State>, iAlgo: nat, newState: State): (r: seq<State>)
    ensures |r| == |states|
  {
    if iAlgo >= |states| then states else states[iAlgo := Target(states[iAlgo], newState)]
  }

  /** The mutable bookkeeping object of one event slot. */
  class AlgsStates {
    var m_states: array<State>
    var m_algsInState: array<set<nat>>

    /** The index sets describe exactly the state vector. */
    ghost predicate Valid()
      reads this, m_states, m_algsInState
    {
      && m_algsInState.Length == STATES
      && forall c: nat, i: nat :: c < STATES ==>
           (i in m_algsInState[c] <==> i < m_states.Length && Code(m_states[i]) == c)
    }

    constructor (algsNumber: nat)
      ensures Valid() && fresh(m_states) && fresh(m_algsInState)
      ensures m_states[..] == seq(algsNumber, i => INITIAL)
    {
      m_states := new State[algsNumber](i => INITIAL);
      m_algsInState := new set<nat>[STATES](c => {});
      new;
      FillInitial();
    }

    /** Put every index into the set of INITIAL. */
    method FillInitial()
      requires m_algsInState.Length == STATES
      requires forall c :: 0 <= c < STATES ==> m_algsInState[c] == {}
      requires forall i :: 0 <= i < m_states.Length ==> m_states[i] == INITIAL
      modifies m_algsInState
      ensures Valid()
    {
      for i := 0 to m_states.Length
        invariant forall c :: 0 < c < STATES ==> m_algsInState[c] == {}
        invariant forall k: nat :: k in m_algsInState[0] <==> k < i
      {
        m_algsInState[Code(INITIAL)] := m_algsInState[Code(INITIAL)] + {i};
      }
    }

    method Set(iAlgo: nat, newState: State) returns (success: bool)
      requires Valid()
      modifies m_states, m_algsInState
      ensures Valid()
      ensures m_states[..] == SetState(old(m_states[..]), iAlgo, newState)
      ensures success <==> iAlgo < m_states.Length && Accepted(old(m_states[..])[iAlgo], newState)
    {
      if iAlgo >= m_states.Length {
        return false;
      }
      var oldState := m_states[iAlgo];
      if oldState == newState {
        return true;
      }
      var target := if Legal(oldState, newState) then newState else ERROR;
      m_states[iAlgo] := target;
      m_algsInState[Code(oldState)] := m_algsInState[Code(oldState)] - {iAlgo};
      m_algsInState[Code(target)] := m_algsInState[Code(target)] + {iAlgo};
      CodeInjective();
      assert m_states[..] == old(m_states[..])[iAlgo := target];
      return Legal(oldState, newState);
    }

    method Reset()
      requires Valid()
      modifies m_states, m_algsInState
      ensures Valid()
      ensures m_states[..] == seq(m_states.Length, i => INITIAL)
    {
      var n := m_states.Length;
      forall i | 0 <= i < n {
        m_states[i] := INITIAL;
      }
      forall c | 0 <= c < STATES {
        m_algsInState[c] := {};
      }
      FillInitial();
    }

    /** Agrees with a scan of the state vector. */
    method ContainsAny(l: seq<State>) returns (found: bool)
      requires Valid()
      ensures found <==> exists i :: 0 <= i < m_states.Length && m_states[i] in l
    {
      CodeInjective();
      for k := 0 to |l|
        invariant forall i :: 0 <= i < m_states.Length ==> m_states[i] !in l[..k]
      {
        var algs := AlgsInState(l[k]);
        if algs != {} {
          ghost var i: nat :| i in algs;
          assert m_states[i] == l[k];
          return true;
        }
        forall i: nat | i < m_states.Length ensures m_states[i] !in l[..k + 1] {
          assert i !in algs;
        }
      }
      assert l[..|l|] == l;
      return false;
    }

    method AlgsInState(state: State) returns (algs: set<nat>)
      requires Valid()
      ensures forall i: nat :: i in algs <==> i < m_states.Length && m_states[i] == state
    {
      CodeInjective();
      algs := m_algsInState[Code(state)];
    }

    method SizeOfSubset(state: State) returns (size: nat)
      requires Valid()
      ensures size == |set i: nat | i < m_states.Length && m_states[i] == state|
    {
      var algs := AlgsInState(state);
      size := |algs|;
      assert algs == set i: nat | i < m_states.Length && m_states[i] == state;
    }
  }

  lemma CodeInjective()
    ensures forall s, t: State :: Code(s) == Code(t) ==> s == t
    ensures forall s: State :: Code(s) < STATES
  {
  }

  // ----- whole runs ---------------------------------------------------------

  /** One call of `set`. */
  datatype Request = Request(iAlgo: nat, newState: State)

  /** The states met by algorithm i along a run of requests, the start included. */
  function History(states: seq<State>, run: seq<Request>, i: nat): (h: seq<State>)
    requires i < |states|
    ensures |h| == |run| + 1 && h[0] == states[i]
    decreases |run|
  {
    if run == [] then [states[i]]
    else [states[i]] + History(SetState(states, run[0].iAlgo, run[0].newState), run[1..], i)
  }

  /** How often consecutive entries differ. */
  function Changes(h: seq<State>): nat {
    if |h| < 2 then 0 else (if h[0] == h[1] then 0 else 1) + Changes(h[1..])
  }

  /** Number of legal steps that separate a state from INITIAL at most. */
  function Depth(s: State): nat {
    match s
    case EVTACCEPTED => 5
    case EVTREJECTED => 5
    case ERROR => 6
    case _ => Code(s)
  }

  /** A state and its immediate successor in some history. */
  predicate Follows(s: State, t: State) {
    s == t || Legal(s, t) || t == ERROR
  }

  lemma {:induction false} HistorySteps(states: seq<State>, run: seq<Request>, i: nat, p: nat)
    requires i < |states| && p < |run|
    ensures Follows(History(states, run, i)[p], History(states, run, i)[p + 1])
    decreases |run|
  {
    var next := SetState(states, run[0].iAlgo, run[0].newState);
    if p > 0 {
      HistorySteps(next, run[1..], i, p - 1);
    }
  }

  lemma {:induction false} HistoryMonotone(states: seq<State>, run: seq<Request>, i: nat, p: nat, q: nat)
    requires i < |states| && p <= q <= |run|
    ensures Code(History(states, run, i)[p]) <= Code(History(states, run, i)[q])
    ensures Depth(History(states, run, i)[p]) <= Depth(History(states, run, i)[q])
    ensures History(states, run, i)[p] == ERROR ==> History(states, run, i)[q] == ERROR
    decreases q
  {
    if p < q {
      HistoryMonotone(states, run, i, p, q - 1);
      HistorySteps(states, run, i, q - 1);
    }
  }

  /** EVTACCEPTED and EVTREJECTED exclude each other in one run. */
  lemma NeverBothVerdicts(states: seq<State>, run: seq<Request>, i: nat)
    requires i < |states|
    ensures !(EVTACCEPTED in History(states, run, i) && EVTREJECTED in History(states, run, i))
  {
    var h := History(states, run, i);
    if EVTACCEPTED in h && EVTREJECTED in h {
      var p :| 0 <= p < |h| && h[p] == EVTACCEPTED;
      var q :| 0 <= q < |h| && h[q] == EVTREJECTED;
      if p < q {
        VerdictIsFinal(states, run, i, p, q);
      } else {
        VerdictIsFinal(states, run, i, q, p);
      }
    }
  }

  lemma {:induction false} VerdictIsFinal(states: seq<State>, run: seq<Request>, i: nat, p: nat, q: nat)
    requires i < |states| && p <= q <= |run|
    requires Depth(History(states, run, i)[p]) == 5
    ensures History(states, run, i)[q] in {History(states, run, i)[p], ERROR}
    decreases q
  {
    if p < q {
      VerdictIsFinal(states, run, i, p, q - 1);
      HistorySteps(states, run, i, q - 1);
    }
  }

  lemma ChangeDeepens(a: State, b: State)
    requires Follows(a, b)
    ensures (if a != b then 1 else 0) + Depth(a) <= Depth(b)
  {
  }

  predicate Chain(h: seq<State>) {
    forall p :: 0 <= p < |h| - 1 ==> Follows(h[p], h[p + 1])
  }

  lemma ChainTail(h: seq<State>)
    requires |h| >= 2 && Chain(h)
    ensures Follows(h[0], h[1]) && Chain(h[1..])
  {
    forall p | 0 <= p < |h[1..]| - 1
      ensures Follows(h[1..][p], h[1..][p + 1])
    {
      assert Follows(h[p + 1], h[p + 2]);
    }
  }

  lemma {:induction false} ChangesBounded(h: seq<State>)
    requires |h| > 0 && Chain(h)
    ensures Changes(h) + Depth(h[0]) <= Depth(h[|h| - 1])
  {
    if |h| >= 2 {
      ChainTail(h);
      ChangesBounded(h[1..]);
      ChangeDeepens(h[0], h[1]);
    }
  }

  /** At most six changes from one reset to the next, whatever is requested. */
  lemma AtMostSixChanges(states: seq<State>, run: seq<Request>, i: nat)
    requires i < |states|
    ensures Changes(History(states, run, i)) <= 6
  {
    var h := History(states, run, i);
    forall p | 0 <= p < |h| - 1 ensures Follows(h[p], h[p + 1]) {
      HistorySteps(states, run, i, p);
    }
    ChangesBounded(h);
  }

  /** The bound is reached: through RESOURCELESS to a verdict, then an illegal request. */
  lemma SixChangesOccur()
    ensures exists run: seq<Request> :: Changes(History([INITIAL], run, 0)) == 6
  {
    var e1 := ExtendRun(EVTACCEPTED, INITIAL, []);
    var e2 := ExtendRun(SCHEDULED, EVTACCEPTED, e1);
    var e3 := ExtendRun(RESOURCELESS, SCHEDULED, e2);
    var e4 := ExtendRun(DATAREADY, RESOURCELESS, e3);
    var e5 := ExtendRun(CONTROLREADY, DATAREADY, e4);
    var e6 := ExtendRun(INITIAL, CONTROLREADY, e5);
    assert Changes(History([ERROR], [], 0)) == 0;
    assert Changes(History([INITIAL], e6, 0)) == 6;
  }

  lemma ExtendRun(s: State, t: State, run: seq<Request>) returns (longer: seq<Request>)
    ensures Changes(History([s], longer, 0))
         == (if s == Target(s, t) then 0 else 1) + Changes(History([Target(s, t)], run, 0))
  {
    longer := [Request(0, t)] + run;
    assert longer[1..] == run && SetState([s], 0, t) == [Target(s, t)];
    var h := History([s], longer, 0);
    assert h[1..] == History([Target(s, t)], run, 0);
  }

  /**
    Starting from INITIAL, a verdict at position q was preceded by CONTROLREADY, DATAREADY and
    SCHEDULED, in that order.
  */
  lemma VerdictWasEarned(states: seq<State>, run: seq<Request>, i: nat, q: nat)
    requires i < |states| && states[i] == INITIAL && q <= |run|
    requires History(states, run, i)[q] in {EVTACCEPTED, EVTREJECTED}
    ensures exists a, b, c :: 0 <= a < b < c < q
              && History(states, run, i)[a] == CONTROLREADY
              && History(states, run, i)[b] == DATAREADY
              && History(states, run, i)[c] == SCHEDULED
  {
    var c := Predecessor(states, run, i, q, SCHEDULED);
    var b := Predecessor(states, run, i, c, DATAREADY);
    var a := Predecessor(states, run, i, b, CONTROLREADY);
  }

  /** The state that must come before another one, RESOURCELESS being optional. */
  predicate MustPrecede(s: State, t: State) {
    || (s == SCHEDULED && t in {EVTACCEPTED, EVTREJECTED})
    || (s == DATAREADY && t in {SCHEDULED, RESOURCELESS})
    || (s == CONTROLREADY && t == DATAREADY)
  }

  lemma {:induction false} Predecessor(states: seq<State>, run: seq<Request>, i: nat, q: nat, s: State) returns (p: nat)
    requires i < |states| && states[i] == INITIAL && q <= |run|
    requires MustPrecede(s, History(states, run, i)[q])
    ensures p < q && History(states, run, i)[p] == s
    decreases q
  {
    var h := History(states, run, i);
    HistorySteps(states, run, i, q - 1);
    if h[q - 1] == s {
      p := q - 1;
    } else {
      p := Predecessor(states, run, i, q - 1, s);
    }
  }
}
