/**
  The data broker: who produces what, who needs whom, and which algorithms a request needs, in an
  order in which they can run.
*/
module HiveDataBroker {
  import opened Common
  import opened DependencyOrder

  /** Identifiers are equal when class and key are; the key may list alternatives separated by colons. */
  datatype DataObjID = DataObjID(clid: nat, key: string)

  /** The collections are sets in the program; here they are listed without repetition. */
  datatype Algorithm = Algorithm(name: string, inputs: seq<DataObjID>, outputs: seq<DataObjID>)

  /** Entries point to each other; here they name each other by index, the order of their addresses. */
  datatype AlgEntry = AlgEntry(alg: Algorithm, dependsOn: set<nat>)

  datatype Error =
    | MultipleProducers(id: DataObjID)
    | UnknownInput(user: nat, id: DataObjID)
    | UnknownRequest(id: DataObjID)

  // --- alternatives

  /** The non-empty pieces between colons; `piece` is the one being read. */
  function Tokens(s: string, piece: string): seq<string> {
    var ended := if piece == "" then [] else [piece];
    if s == "" then ended
    else if s[0] == ':' then ended + Tokens(s[1..], "")
    else Tokens(s[1..], piece + [s[0]])
  }

  function Join(ts: seq<string>): string {
    if ts == [] then "" else if |ts| == 1 then ts[0] else ts[0] + ":" + Join(ts[1..])
  }

  lemma {:induction false} TokensOfPiece(s: string, rest: string, piece: string)
    requires ':' !in s && (rest == "" || rest[0] == ':')
    ensures Tokens(s + rest, piece) == Tokens(rest, piece + s)
    decreases |s|
  {
    if s == "" {
      assert s + rest == rest && piece + s == piece;
    } else {
      assert (s + rest)[1..] == s[1..] + rest;
      TokensOfPiece(s[1..], rest, piece + [s[0]]);
      assert piece + [s[0]] + s[1..] == piece + s;
    }
  }

  /** The pieces of a key, which colons separate. */
  ghost predicate Pieces(key: string, ts: seq<string>) {
    ts != [] && key == Join(ts) && forall t :: t in ts ==> ':' !in t
  }

  function NonEmpty(ts: seq<string>): seq<string> {
    if ts == [] then [] else (if ts[0] == "" then [] else [ts[0]]) + NonEmpty(ts[1..])
  }

  /** The alternatives in a key are its pieces that are not empty. */
  lemma {:induction false} TokensOfJoin(ts: seq<string>)
    requires forall t :: t in ts ==> ':' !in t
    ensures Tokens(Join(ts), "") == NonEmpty(ts)
  {
    if ts != [] {
      assert ts[0] in ts && ts == [ts[0]] + ts[1..];
      if |ts| == 1 {
        TokensOfPiece(ts[0], "", "");
        assert ts[0] + "" == ts[0] && "" + ts[0] == ts[0];
      } else {
        var rest := ":" + Join(ts[1..]);
        TokensOfPiece(ts[0], rest, "");
        assert ts[0] + ":" + Join(ts[1..]) == ts[0] + rest;
        assert "" + ts[0] == ts[0];
        assert rest[1..] == Join(ts[1..]);
        TokensOfJoin(ts[1..]);
      }
    }
  }

  /** Every key has pieces: one if it has no colon, else several. */
  lemma {:induction false} HasPieces(key: string) returns (ts: seq<string>)
    ensures Pieces(key, ts) && (|ts| == 1 <==> ':' !in key)
  {
    if key == "" {
      ts := [""];
    } else {
      var more := HasPieces(key[1..]);
      assert key == [key[0]] + key[1..];
      if key[0] == ':' {
        ts := [""] + more;
        assert ts[1..] == more && Join(ts) == "" + ":" + Join(more);
      } else {
        ts := [[key[0]] + more[0]] + more[1..];
        assert ts[1..] == more[1..];
        assert |more| > 1 ==> Join(ts) == [key[0]] + more[0] + ":" + Join(more[1..]);
        assert |more| > 1 ==> Join(more) == more[0] + ":" + Join(more[1..]);
        assert |more| > 1 ==> Join(ts) == [key[0]] + Join(more);
      }
    }
  }

  lemma {:induction false} PiecesHaveColon(key: string, ts: seq<string>)
    requires Pieces(key, ts)
    ensures |ts| == 1 <==> ':' !in key
  {
    assert ts[0] in ts;
    if |ts| > 1 {
      assert key[|ts[0]|] == ':';
    }
  }

  /** The first alternative that something produces. A token names a key without a class. */
  function FirstKnown(ts: seq<string>, known: set<DataObjID>): (r: Option<string>)
    ensures r.None? ==> forall t :: t in ts ==> DataObjID(0, t) !in known
    ensures r.Some? ==> exists i :: 0 <= i < |ts| && ts[i] == r.value && DataObjID(0, ts[i]) in known
                                    && forall j :: 0 <= j < i ==> DataObjID(0, ts[j]) !in known
  {
    if ts == [] then None
    else if DataObjID(0, ts[0]) in known then Some(ts[0])
    else
      assert ts == [ts[0]] + ts[1..];
      FirstKnown(ts[1..], known)
  }

  /** Only the key is replaced; without a match the identifier stays as it is. */
  function Resolve(id: DataObjID, known: set<DataObjID>): DataObjID {
    if ':' !in id.key then id
    else
      var t := FirstKnown(Tokens(id.key, ""), known);
      if t.Some? then id.(key := t.value) else id
  }

  /** Alternative t names a produced identifier; a piece of a key names one without a class. */
  predicate Matches(t: string, known: set<DataObjID>) {
    t != "" && DataObjID(0, t) in known
  }

  /**
    What an identifier is looked up as. A key of one piece stays as it is. Of several, the first piece that
    something produces becomes the key; if there is none, the key stays as it is.
  */
  ghost predicate LookedUpAs(id: DataObjID, known: set<DataObjID>, as_: DataObjID) {
    exists ts :: Pieces(id.key, ts) && PicksFirst(id, ts, known, as_)
  }

  ghost predicate PicksFirst(id: DataObjID, ts: seq<string>, known: set<DataObjID>, as_: DataObjID) {
    && (|ts| == 1 ==> as_ == id)
    && (|ts| > 1 && (forall t :: t in ts ==> !Matches(t, known)) ==> as_ == id)
    && (|ts| > 1 ==>
          forall k :: 0 <= k < |ts| && Matches(ts[k], known) && (forall j :: 0 <= j < k ==> !Matches(ts[j], known)) ==>
            as_ == DataObjID(id.clid, ts[k]))
  }

  lemma NonEmptyHead(ts: seq<string>, known: set<DataObjID>)
    requires ts != []
    ensures FirstKnown(NonEmpty(ts), known)
         == if Matches(ts[0], known) then Some(ts[0]) else FirstKnown(NonEmpty(ts[1..]), known)
  {
    if ts[0] == "" {
      assert NonEmpty(ts) == NonEmpty(ts[1..]);
    } else {
      assert NonEmpty(ts)[0] == ts[0] && NonEmpty(ts)[1..] == NonEmpty(ts[1..]);
    }
  }

  lemma {:induction false} NoneMatches(ts: seq<string>, known: set<DataObjID>)
    requires forall t :: t in ts ==> !Matches(t, known)
    ensures FirstKnown(NonEmpty(ts), known).None?
  {
    if ts != [] {
      assert ts[0] in ts && forall t :: t in ts[1..] ==> t in ts;
      NonEmptyHead(ts, known);
      NoneMatches(ts[1..], known);
    }
  }

  lemma {:induction false} FirstMatches(ts: seq<string>, known: set<DataObjID>, k: nat)
    requires k < |ts| && Matches(ts[k], known) && forall j :: 0 <= j < k ==> !Matches(ts[j], known)
    ensures FirstKnown(NonEmpty(ts), known) == Some(ts[k])
    decreases k
  {
    NonEmptyHead(ts, known);
    if k > 0 {
      assert ts[1..][k - 1] == ts[k];
      assert forall j :: 0 <= j < k - 1 ==> ts[1..][j] == ts[j + 1];
      FirstMatches(ts[1..], known, k - 1);
    }
  }

  lemma ResolvePicks(id: DataObjID, known: set<DataObjID>, ts: seq<string>)
    requires Pieces(id.key, ts)
    ensures PicksFirst(id, ts, known, Resolve(id, known))
  {
    PiecesHaveColon(id.key, ts);
    TokensOfJoin(ts);
    if forall t :: t in ts ==> !Matches(t, known) {
      NoneMatches(ts, known);
    }
    forall k | 0 <= k < |ts| && Matches(ts[k], known) && (forall j :: 0 <= j < k ==> !Matches(ts[j], known))
      ensures FirstKnown(NonEmpty(ts), known) == Some(ts[k])
    {
      FirstMatches(ts, known, k);
    }
  }

  lemma ResolveLooksUp(id: DataObjID, known: set<DataObjID>)
    ensures LookedUpAs(id, known, Resolve(id, known))
  {
    var ts := HasPieces(id.key);
    ResolvePicks(id, known, ts);
  }

  lemma {:induction false} FirstMatch(ts: seq<string>, known: set<DataObjID>) returns (k: nat)
    requires exists t :: t in ts && Matches(t, known)
    ensures k < |ts| && Matches(ts[k], known) && forall j :: 0 <= j < k ==> !Matches(ts[j], known)
  {
    k := 0;
    while !Matches(ts[k], known)
      invariant k < |ts| && forall j :: 0 <= j < k ==> !Matches(ts[j], known)
      decreases |ts| - k
    {
      if k == |ts| - 1 {
        assert false;
      }
      k := k + 1;
    }
  }

  /** There is one identifier that it is looked up as. */
  lemma LookedUpOnce(id: DataObjID, known: set<DataObjID>, as_: DataObjID)
    requires LookedUpAs(id, known, as_)
    ensures as_ == Resolve(id, known)
  {
    var ts :| Pieces(id.key, ts) && PicksFirst(id, ts, known, as_);
    ResolvePicks(id, known, ts);
    if |ts| > 1 && exists t :: t in ts && Matches(t, known) {
      var k := FirstMatch(ts, known);
    }
  }

  // --- who produces what

  ghost predicate Produces(entries: seq<AlgEntry>, a: nat, id: DataObjID) {
    a < |entries| && id in entries[a].alg.outputs
  }

  ghost predicate IsProduced(entries: seq<AlgEntry>, id: DataObjID) {
    exists a :: Produces(entries, a, id)
  }

  /** No identifier is the output of two algorithms. */
  ghost predicate NoClash(entries: seq<AlgEntry>) {
    forall a, b, id :: Produces(entries, a, id) && Produces(entries, b, id) ==> a == b
  }

  ghost predicate ListedOnce(entries: seq<AlgEntry>) {
    forall a, i, j :: 0 <= a < |entries| && 0 <= i < j < |entries[a].alg.outputs| ==>
      entries[a].alg.outputs[i] != entries[a].alg.outputs[j]
  }

  /** `producers` names the one producer of each output. */
  ghost predicate ProducersOf(entries: seq<AlgEntry>, producers: map<DataObjID, nat>) {
    forall id ::
      && (id in producers <==> IsProduced(entries, id))
      && (id in producers ==> Produces(entries, producers[id], id))
  }

  /** The direct dependencies of an algorithm: the producers of its first n resolved inputs. */
  function Needs(alg: Algorithm, producers: map<DataObjID, nat>, n: nat): set<nat>
    requires n <= |alg.inputs|
  {
    set i | 0 <= i < n && Resolve(alg.inputs[i], producers.Keys) in producers ::
      producers[Resolve(alg.inputs[i], producers.Keys)]
  }

  ghost predicate AllKnown(alg: Algorithm, producers: map<DataObjID, nat>) {
    forall i :: 0 <= i < |alg.inputs| ==> Resolve(alg.inputs[i], producers.Keys) in producers
  }

  /** What a successful initialisation leaves. */
  ghost predicate Mapped(entries: seq<AlgEntry>, producers: map<DataObjID, nat>) {
    && NoClash(entries) && ProducersOf(entries, producers)
    && forall a :: 0 <= a < |entries| ==>
         && AllKnown(entries[a].alg, producers)
         && entries[a].dependsOn == Needs(entries[a].alg, producers, |entries[a].alg.inputs|)
  }

  /** What is looked up has a producer. */
  ghost predicate Found(id: DataObjID, producers: map<DataObjID, nat>) {
    exists as_ :: LookedUpAs(id, producers.Keys, as_) && as_ in producers
  }

  /** x produces what is looked up. */
  ghost predicate FoundAt(id: DataObjID, producers: map<DataObjID, nat>, x: nat) {
    exists as_ :: LookedUpAs(id, producers.Keys, as_) && as_ in producers && producers[as_] == x
  }

  ghost predicate AllFound(ids: seq<DataObjID>, producers: map<DataObjID, nat>) {
    forall i :: 0 <= i < |ids| ==> Found(ids[i], producers)
  }

  lemma FoundByResolve(id: DataObjID, producers: map<DataObjID, nat>)
    ensures Found(id, producers) <==> Resolve(id, producers.Keys) in producers
    ensures forall x :: FoundAt(id, producers, x) <==>
                        Resolve(id, producers.Keys) in producers && producers[Resolve(id, producers.Keys)] == x
  {
    ResolveLooksUp(id, producers.Keys);
    forall as_ | LookedUpAs(id, producers.Keys, as_)
      ensures as_ == Resolve(id, producers.Keys)
    {
      LookedUpOnce(id, producers.Keys, as_);
    }
  }

  /** The dependencies of an algorithm are the producers of what its inputs are looked up as. */
  ghost predicate DependsOnProducers(entry: AlgEntry, producers: map<DataObjID, nat>) {
    && AllFound(entry.alg.inputs, producers)
    && forall x :: x in entry.dependsOn <==>
                   exists i :: 0 <= i < |entry.alg.inputs| && FoundAt(entry.alg.inputs[i], producers, x)
  }

  lemma NeedsAreProducers(entry: AlgEntry, producers: map<DataObjID, nat>)
    requires AllKnown(entry.alg, producers)
    requires entry.dependsOn == Needs(entry.alg, producers, |entry.alg.inputs|)
    ensures DependsOnProducers(entry, producers)
  {
    forall i | 0 <= i < |entry.alg.inputs|
      ensures Found(entry.alg.inputs[i], producers)
      ensures FoundAt(entry.alg.inputs[i], producers, producers[Resolve(entry.alg.inputs[i], producers.Keys)])
      ensures forall x :: FoundAt(entry.alg.inputs[i], producers, x) ==>
                          x == producers[Resolve(entry.alg.inputs[i], producers.Keys)]
    {
      FoundByResolve(entry.alg.inputs[i], producers);
    }
  }

  /** Output k of algorithm a comes before output m of algorithm n. */
  predicate Before(a: nat, k: nat, n: nat, m: nat) {
    a < n || (a == n && k < m)
  }

  ghost predicate Outputs(entries: seq<AlgEntry>, a: nat, k: nat, id: DataObjID) {
    a < |entries| && k < |entries[a].alg.outputs| && entries[a].alg.outputs[k] == id
  }

  /** `producers` has the outputs before output m of algorithm n, each with its algorithm, and no others. */
  ghost predicate Collected(entries: seq<AlgEntry>, producers: map<DataObjID, nat>, n: nat, m: nat) {
    && (forall a, k, id :: Outputs(entries, a, k, id) && Before(a, k, n, m) ==> id in producers && producers[id] == a)
    && (forall id :: id in producers ==>
          exists k: nat :: Outputs(entries, producers[id], k, id) && Before(producers[id], k, n, m))
  }

  lemma CollectedAll(entries: seq<AlgEntry>, producers: map<DataObjID, nat>)
    requires Collected(entries, producers, |entries|, 0)
    ensures NoClash(entries) && ProducersOf(entries, producers)
  {
    forall a: nat, id | Produces(entries, a, id)
      ensures id in producers && producers[id] == a
    {
      var k: nat :| k < |entries[a].alg.outputs| && entries[a].alg.outputs[k] == id;
      assert Outputs(entries, a, k, id) && Before(a, k, |entries|, 0);
    }
    forall id | id in producers
      ensures Produces(entries, producers[id], id)
    {
      var k: nat :| Outputs(entries, producers[id], k, id);
    }
  }

  /** Another output, of an identifier that is new, or that another algorithm has. */
  lemma CollectedNext(entries: seq<AlgEntry>, producers: map<DataObjID, nat>, n: nat, m: nat, id: DataObjID)
    requires ListedOnce(entries) && Collected(entries, producers, n, m) && Outputs(entries, n, m, id)
    ensures id !in producers ==> Collected(entries, producers[id := n], n, m + 1)
    ensures id in producers ==> producers[id] < n && Produces(entries, producers[id], id) && Produces(entries, n, id)
  {
    if id in producers {
      var k: nat :| Outputs(entries, producers[id], k, id) && Before(producers[id], k, n, m);
    } else {
      var more := producers[id := n];
      forall x | x in more
        ensures exists k: nat :: Outputs(entries, more[x], k, x) && Before(more[x], k, n, m + 1)
      {
        if x == id {
          assert Outputs(entries, n, m, id) && Before(n, m, n, m + 1);
        } else {
          var k: nat :| Outputs(entries, producers[x], k, x) && Before(producers[x], k, n, m);
          assert Before(producers[x], k, n, m + 1);
        }
      }
      forall a, k, x | Outputs(entries, a, k, x) && Before(a, k, n, m + 1)
        ensures x in more && more[x] == a
      {
        if a == n && k == m {
          assert x == id;
        } else {
          assert Before(a, k, n, m);
        }
      }
    }
  }

  /** Register every output; a second producer of one is an error. */
  method CollectOutputs(entries: seq<AlgEntry>) returns (r: Result<map<DataObjID, nat>, Error>)
    requires ListedOnce(entries)
    ensures r.Ok? ==> NoClash(entries) && ProducersOf(entries, r.value)
    ensures r.Err? ==> exists a, b, id :: a < b && Produces(entries, a, id) && Produces(entries, b, id)
                                          && r.error == MultipleProducers(id)
  {
    var producers: map<DataObjID, nat> := map[];
    for n := 0 to |entries|
      invariant Collected(entries, producers, n, 0)
    {
      var output := entries[n].alg.outputs;
      for m := 0 to |output|
        invariant Collected(entries, producers, n, m)
      {
        var id := output[m];
        assert Outputs(entries, n, m, id);
        CollectedNext(entries, producers, n, m, id);
        if id in producers {
          return Err(MultipleProducers(id));
        }
        producers := producers[id := n];
      }
      assert Collected(entries, producers, n + 1, 0) by {
        CollectedRow(entries, producers, n);
      }
    }
    CollectedAll(entries, producers);
    return Ok(producers);
  }

  lemma CollectedRow(entries: seq<AlgEntry>, producers: map<DataObjID, nat>, n: nat)
    requires n < |entries| && Collected(entries, producers, n, |entries[n].alg.outputs|)
    ensures Collected(entries, producers, n + 1, 0)
  {
    forall a, k, id | Outputs(entries, a, k, id) && Before(a, k, n + 1, 0)
      ensures id in producers && producers[id] == a
    {
      assert Before(a, k, n, |entries[n].alg.outputs|);
    }
    forall id | id in producers
      ensures exists k: nat :: Outputs(entries, producers[id], k, id) && Before(producers[id], k, n + 1, 0)
    {
      var k: nat :| Outputs(entries, producers[id], k, id) && Before(producers[id], k, n, |entries[n].alg.outputs|);
      assert Before(producers[id], k, n + 1, 0);
    }
  }

  /** Identifier i is the first that is not found, and this is what it was looked up as. */
  ghost predicate FirstUnknown(ids: seq<DataObjID>, i: nat, producers: map<DataObjID, nat>, as_: DataObjID) {
    && i < |ids| && LookedUpAs(ids[i], producers.Keys, as_) && as_ !in producers
    && forall k :: 0 <= k < i ==> Found(ids[k], producers)
  }

  lemma UnknownIsFirst(ids: seq<DataObjID>, i: nat, producers: map<DataObjID, nat>)
    requires i < |ids| && Resolve(ids[i], producers.Keys) !in producers
    requires forall k :: 0 <= k < i ==> Resolve(ids[k], producers.Keys) in producers
    ensures FirstUnknown(ids, i, producers, Resolve(ids[i], producers.Keys)) && !Found(ids[i], producers)
  {
    ResolveLooksUp(ids[i], producers.Keys);
    FoundByResolve(ids[i], producers);
    forall k | 0 <= k < i
      ensures Found(ids[k], producers)
    {
      FoundByResolve(ids[k], producers);
    }
  }

  /** Find the producers of an algorithm's inputs. */
  method ResolveInputs(alg: Algorithm, user: nat, producers: map<DataObjID, nat>) returns (r: Result<set<nat>, Error>)
    ensures r.Ok? <==> AllKnown(alg, producers)
    ensures r.Ok? ==> r.value == Needs(alg, producers, |alg.inputs|)
    ensures r.Err? ==> exists i :: 0 <= i < |alg.inputs| && r.error.UnknownInput? && r.error.user == user
                                   && FirstUnknown(alg.inputs, i, producers, r.error.id)
  {
    var dependsOn: set<nat> := {};
    for i := 0 to |alg.inputs|
      invariant forall k :: 0 <= k < i ==> Resolve(alg.inputs[k], producers.Keys) in producers
      invariant dependsOn == Needs(alg, producers, i)
    {
      var id := Resolve(alg.inputs[i], producers.Keys);
      if id !in producers {
        UnknownIsFirst(alg.inputs, i, producers);
        return Err(UnknownInput(user, id));
      }
      dependsOn := dependsOn + {producers[id]};
      assert dependsOn == Needs(alg, producers, i + 1);
    }
    return Ok(dependsOn);
  }

  /** What an error says: two producers of one output, or else the first input without a producer. */
  ghost predicate Blames(algorithms: seq<AlgEntry>, error: Error) {
    match error
    case MultipleProducers(id) => exists a, b :: a < b && Produces(algorithms, a, id) && Produces(algorithms, b, id)
    case UnknownInput(user, id) =>
      && NoClash(algorithms) && !IsProduced(algorithms, id) && user < |algorithms|
      && exists i, ps: map<DataObjID, nat> ::
           && 0 <= i < |algorithms[user].alg.inputs| && ProducersOf(algorithms, ps)
           && FirstUnknown(algorithms[user].alg.inputs, i, ps, id)
           && forall a :: 0 <= a < user ==> AllFound(algorithms[a].alg.inputs, ps)
    case UnknownRequest(_) => false
  }

  /** Fills the dependencies of the entries; succeeds exactly when outputs are unique and inputs known. */
  method MapProducers(algorithms: seq<AlgEntry>)
    returns (r: Result<map<DataObjID, nat>, Error>, entries: seq<AlgEntry>)
    requires ListedOnce(algorithms)
    requires forall a :: 0 <= a < |algorithms| ==> algorithms[a].dependsOn == {}
    ensures |entries| == |algorithms| && forall a :: 0 <= a < |entries| ==> entries[a].alg == algorithms[a].alg
    ensures r.Ok? ==> Mapped(entries, r.value)
    ensures r.Ok? ==> forall a :: 0 <= a < |entries| ==> DependsOnProducers(entries[a], r.value)
    ensures r.Err? ==> Blames(algorithms, r.error)
  {
    entries := algorithms;
    r := CollectOutputs(algorithms);
    if r.Err? {
      return;
    }
    var producers := r.value;
    for n := 0 to |entries|
      invariant |entries| == |algorithms|
      invariant forall a :: 0 <= a < |entries| ==> entries[a].alg == algorithms[a].alg
      invariant forall a :: 0 <= a < n ==>
                  && AllKnown(entries[a].alg, producers)
                  && entries[a].dependsOn == Needs(entries[a].alg, producers, |entries[a].alg.inputs|)
    {
      var needs := ResolveInputs(entries[n].alg, n, producers);
      if needs.Err? {
        forall a | 0 <= a < n
          ensures AllFound(algorithms[a].alg.inputs, producers)
        {
          NeedsAreProducers(entries[a], producers);
        }
        return Err(needs.error), entries;
      }
      entries := entries[n := entries[n].(dependsOn := needs.value)];
    }
    SameProducers(algorithms, entries, producers);
    forall a | 0 <= a < |entries|
      ensures DependsOnProducers(entries[a], producers)
    {
      NeedsAreProducers(entries[a], producers);
    }
    return Ok(producers), entries;
  }

  /** Who produces what depends on the algorithms only. */
  lemma SameProducers(algorithms: seq<AlgEntry>, entries: seq<AlgEntry>, producers: map<DataObjID, nat>)
    requires |entries| == |algorithms| && forall a :: 0 <= a < |entries| ==> entries[a].alg == algorithms[a].alg
    requires NoClash(algorithms) && ProducersOf(algorithms, producers)
    ensures NoClash(entries) && ProducersOf(entries, producers)
  {
    assert forall a, id :: Produces(entries, a, id) <==> Produces(algorithms, a, id);
    forall id
      ensures IsProduced(entries, id) <==> IsProduced(algorithms, id)
    {
    }
  }

  // --- what is needed

  /** The members of a set of entries in the order of their addresses. */
  function Ascending(s: set<nat>, n: nat): (r: seq<nat>)
    ensures forall i :: 0 <= i < |r| ==> r[i] in s && r[i] < n
    ensures forall i, j :: 0 <= i < j < |r| ==> r[i] < r[j]
  {
    if n == 0 then [] else if n - 1 in s then Ascending(s, n - 1) + [n - 1] else Ascending(s, n - 1)
  }

  lemma {:induction false} AscendingAll(s: set<nat>, n: nat, x: nat)
    ensures x in Ascending(s, n) <==> x in s && x < n
  {
    if n > 0 {
      AscendingAll(s, n - 1, x);
      if n - 1 in s {
        assert Ascending(s, n)[|Ascending(s, n - 1)|] == n - 1;
      }
    }
  }

  /** The dependencies that are followed: those of algorithms that are not stoppers. */
  function Followed(entries: seq<AlgEntry>, stoppers: seq<string>): (g: Graph)
    ensures |g| == |entries| && GoodGraph(g)
  {
    seq(|entries|, a requires 0 <= a < |entries| =>
      if entries[a].alg.name in stoppers then [] else Ascending(entries[a].dependsOn, |entries|))
  }

  /** The first node with the name of the instance; without one the instance itself becomes a node. */
  function NodeNamed(nodes: seq<Algorithm>, instance: Algorithm): (n: Algorithm)
    ensures n.name == instance.name && n in nodes + [instance]
  {
    if nodes == [] then instance
    else if nodes[0].name == instance.name then nodes[0]
    else NodeNamed(nodes[1..], instance)
  }

  /** The producers of the resolved requests, sorted and made unique. */
  function Seeds(requested: seq<DataObjID>, producers: map<DataObjID, nat>, count: nat): seq<nat> {
    Ascending(set i | 0 <= i < |requested| && Resolve(requested[i], producers.Keys) in producers
                :: producers[Resolve(requested[i], producers.Keys)], count)
  }

  function Reversed(s: seq<nat>): (r: seq<nat>)
    ensures |r| == |s| && forall i :: 0 <= i < |s| ==> r[i] == s[|s| - 1 - i]
  {
    if s == [] then [] else Reversed(s[1..]) + [s[0]]
  }

  /**
    The list is what a request needs: nobody twice, exactly the algorithms reached without following
    stoppers, and everybody after the producer of each of its inputs.
  */
  ghost predicate Schedule(entries: seq<AlgEntry>, producers: map<DataObjID, nat>, stoppers: seq<string>,
                           seeds: seq<nat>, list: seq<nat>)
  {
    && NoDup(list)
    && (forall x :: x in list <==> Reach(Followed(entries, stoppers), seeds, x))
    && (forall i, id :: 0 <= i < |list| && list[i] < |entries| && entries[list[i]].alg.name !in stoppers
                        && id in entries[list[i]].alg.inputs ==>
          && Resolve(id, producers.Keys) in producers
          && producers[Resolve(id, producers.Keys)] in list[..i])
  }

  lemma {:induction false} DownwardsReversed(entries: seq<AlgEntry>, producers: map<DataObjID, nat>,
                                              stoppers: seq<string>, seeds: seq<nat>, done: seq<nat>)
    requires Mapped(entries, producers) && Downwards(Followed(entries, stoppers), seeds, done)
    ensures Schedule(entries, producers, stoppers, seeds, Reversed(done))
  {
    var list, g := Reversed(done), Followed(entries, stoppers);
    forall x
      ensures x in list <==> x in done
    {
      ReversedElems(done, x);
    }
    forall i, id | 0 <= i < |list| && list[i] < |entries| && entries[list[i]].alg.name !in stoppers
                   && id in entries[list[i]].alg.inputs
      ensures Resolve(id, producers.Keys) in producers && producers[Resolve(id, producers.Keys)] in list[..i]
    {
      ProducerFollowed(entries, producers, stoppers, list[i], id);
      BelowReversed(done, |done| - 1 - i, producers[Resolve(id, producers.Keys)]);
    }
  }

  lemma ProducerFollowed(entries: seq<AlgEntry>, producers: map<DataObjID, nat>, stoppers: seq<string>, a: nat,
                         id: DataObjID)
    requires Mapped(entries, producers) && a < |entries|
    requires entries[a].alg.name !in stoppers && id in entries[a].alg.inputs
    ensures Resolve(id, producers.Keys) in producers
    ensures producers[Resolve(id, producers.Keys)] in Followed(entries, stoppers)[a]
  {
    var alg := entries[a].alg;
    var n :| 0 <= n < |alg.inputs| && alg.inputs[n] == id;
    assert AllKnown(alg, producers);
    var b := producers[Resolve(id, producers.Keys)];
    assert b in entries[a].dependsOn;
    assert Produces(entries, b, Resolve(id, producers.Keys));
    AscendingAll(entries[a].dependsOn, |entries|, b);
  }

  /** What stands below in a list stands above in its reverse. */
  lemma BelowReversed(s: seq<nat>, m: nat, b: nat)
    requires m < |s| && b in s[m + 1..]
    ensures b in Reversed(s)[..|s| - 1 - m]
  {
    var j :| 0 <= j < |s[m + 1..]| && s[m + 1..][j] == b;
    assert s[m + 1 + j] == b;
    assert Reversed(s)[|s| - 2 - m - j] == b;
    assert Reversed(s)[..|s| - 1 - m][|s| - 2 - m - j] == b;
  }

  lemma ReversedElems(s: seq<nat>, x: nat)
    ensures x in Reversed(s) <==> x in s
  {
    if x in s {
      var i :| 0 <= i < |s| && s[i] == x;
      assert Reversed(s)[|s| - 1 - i] == x;
    }
  }

  /** Position of the first occurrence, or the length. */
  function Find(s: seq<nat>, e: nat): (i: nat)
    ensures i <= |s| && e !in s[..i] && (i < |s| ==> s[i] == e)
    ensures e in s ==> i < |s|
  {
    if s == [] then 0 else if s[0] == e then 0
    else
      assert forall i :: 0 <= i <= |s[1..]| ==> s[..i + 1] == [s[0]] + s[1..][..i];
      1 + Find(s[1..], e)
  }

  lemma {:induction false} WithoutFound(s: seq<nat>, e: nat)
    ensures e in s ==> Without(s, e) == s[..Find(s, e)] + s[Find(s, e) + 1..]
    ensures e !in s ==> Without(s, e) == s && Find(s, e) == |s|
  {
    if s != [] {
      assert s == [s[0]] + s[1..];
      if s[0] != e {
        WithoutFound(s[1..], e);
      }
    }
  }

  /** A state of the worklist that is reached from the seeds in this many rounds. */
  ghost predicate OnTheWay(g: Graph, seeds: seq<nat>, w: Work, rounds: nat) {
    && Inv(g, seeds, w) && Distinct(w)
    && (forall k: nat, end :: Finished(g, w, k, end) ==> Finished(g, Work([], seeds), k + rounds, end))
  }

  lemma Starts(g: Graph, seeds: seq<nat>)
    requires NoDup(seeds) && forall x :: x in seeds ==> x < |g|
    ensures OnTheWay(g, seeds, Work([], seeds), 0)
  {
    InitialInv(g, seeds);
  }

  lemma RoundGoesOn(g: Graph, seeds: seq<nat>, w: Work, rounds: nat)
    requires GoodGraph(g) && Acyclic(g, seeds) && OnTheWay(g, seeds, w, rounds) && w.todo != []
    ensures w.todo[0] < |g| && OnTheWay(g, seeds, Round(g, w), rounds + 1)
    ensures Pending(g, Round(g, w).done, |g|) < Pending(g, w.done, |g|)
  {
    AcyclicNoSelfLoop(g, seeds);
    RoundKeeps(g, seeds, w);
    RoundDecreases(g, seeds, w);
    RoundDistinct(g, w);
    forall k: nat, end | Finished(g, Round(g, w), k, end)
      ensures Finished(g, Work([], seeds), k + (rounds + 1), end)
    {
      assert Finished(g, w, k + 1, end);
    }
  }

  /** The producer of a request is reached. */
  lemma SeedNeeded(entries: seq<AlgEntry>, producers: map<DataObjID, nat>, stoppers: seq<string>,
                   requested: seq<DataObjID>, id: DataObjID)
    requires Mapped(entries, producers) && id in requested && Resolve(id, producers.Keys) in producers
    ensures Reach(Followed(entries, stoppers), Seeds(requested, producers, |entries|),
                  producers[Resolve(id, producers.Keys)])
  {
    var i :| 0 <= i < |requested| && requested[i] == id;
    var x := producers[Resolve(id, producers.Keys)];
    assert Produces(entries, x, Resolve(id, producers.Keys));
    var found := set k | 0 <= k < |requested| && Resolve(requested[k], producers.Keys) in producers
                   :: producers[Resolve(requested[k], producers.Keys)];
    AscendingAll(found, |entries|, x);
    ReachSeed(Followed(entries, stoppers), Seeds(requested, producers, |entries|), x);
  }

  lemma SplitAt(s: seq<nat>, a: seq<nat>, c: nat, b: seq<nat>)
    requires s == a + [c] + b
    ensures |a| < |s| && s[..|a|] == a && s[|a|] == c && s[|a| + 1..] == b
  {
  }

  lemma Rotated(s: seq<nat>, current: nat, dup: nat, e: nat)
    requires dup < current < |s|
    ensures s[..dup] + s[dup + 1..current + 1] + [e] + s[current + 1..]
            == (s[..current][..dup] + s[..current][dup + 1..]) + [s[current]] + ([e] + s[current + 1..])
  {
    assert s[dup + 1..current + 1] == s[..current][dup + 1..] + [s[current]];
  }

  // --- an input on which the worklist does not end

  const X := DataObjID(1, "x")
  const Y := DataObjID(1, "y")

  /** Each of two algorithms reads what the other produces. */
  const PAIR: seq<AlgEntry> := [AlgEntry(Algorithm("A", [Y], [X]), {1}), AlgEntry(Algorithm("B", [X], [Y]), {0})]
  const PAIR_PRODUCERS: map<DataObjID, nat> := map[X := 0, Y := 1]

  lemma PairMapped()
    ensures Mapped(PAIR, PAIR_PRODUCERS)
  {
    assert forall id :: Produces(PAIR, 0, id) <==> id == X;
    assert forall id :: Produces(PAIR, 1, id) <==> id == Y;
    assert Produces(PAIR, 0, X) && Produces(PAIR, 1, Y);
    forall a: nat | a < 2
      ensures PAIR[a].dependsOn == Needs(PAIR[a].alg, PAIR_PRODUCERS, 1)
    {
      assert Resolve(PAIR[a].alg.inputs[0], PAIR_PRODUCERS.Keys) == PAIR[a].alg.inputs[0];
    }
  }

  /** The initialisation accepts the two, and a request for the output of one never ends. */
  lemma PairLoops()
    ensures Mapped(PAIR, PAIR_PRODUCERS) && Seeds([X], PAIR_PRODUCERS, |PAIR|) == [0]
    ensures !Terminates(Followed(PAIR, []), Work([], [0]))
  {
    PairMapped();
    var g := Followed(PAIR, []);
    AscendingAll({0}, 2, 0);
    assert Resolve([X][0], PAIR_PRODUCERS.Keys) == X;
    assert (set i | 0 <= i < 1 && Resolve([X][i], PAIR_PRODUCERS.Keys) in PAIR_PRODUCERS
              :: PAIR_PRODUCERS[Resolve([X][i], PAIR_PRODUCERS.Keys)]) == {0};
    AscendingAll({1}, 2, 1);
    assert 1 in g[0] && 0 in g[1];
    assert PathTo(g, [0], [0], 0) && ReachableCycle(g, [0], [0, 1, 0]);
    TerminatesIffAcyclic(g, [0]);
  }

  class HiveDataBrokerSvc {
    var m_algorithms: seq<AlgEntry>
    var m_cfnodes: seq<Algorithm>
    var m_dependencies: map<DataObjID, nat>

    ghost predicate Valid()
      reads this
    {
      Mapped(m_algorithms, m_dependencies)
    }

    constructor ()
      ensures Valid() && m_algorithms == [] && m_cfnodes == []
    {
      m_algorithms, m_cfnodes, m_dependencies := [], [], map[];
    }

    /** `instances` are the configured producers, instantiated and initialised. */
    method Initialize(instances: seq<Algorithm>) returns (error: Option<Error>)
      requires forall a, i, j :: 0 <= a < |instances| && 0 <= i < j < |instances[a].outputs| ==>
                 instances[a].outputs[i] != instances[a].outputs[j]
      modifies this`m_algorithms, this`m_dependencies
      ensures |m_algorithms| == |instances|
      ensures forall a :: 0 <= a < |instances| ==> m_algorithms[a].alg == instances[a]
      ensures error.None? ==> Valid() && forall a :: 0 <= a < |instances| ==>
                                             DependsOnProducers(m_algorithms[a], m_dependencies)
      ensures error.Some? ==>
                Blames(seq(|instances|, a requires 0 <= a < |instances| => AlgEntry(instances[a], {})), error.value)
    {
      m_algorithms := seq(|instances|, a requires 0 <= a < |instances| => AlgEntry(instances[a], {}));
      var r, entries := MapProducers(m_algorithms);
      m_algorithms := entries;
      if r.Err? {
        return Some(r.error);
      }
      m_dependencies := r.value;
      return None;
    }

    /** The algorithms that produce the requested data, each after the producers of its inputs. */
    method AlgorithmsRequiredFor(requested: seq<DataObjID>, stoppers: seq<string>) returns (r: Result<seq<nat>, Error>)
      requires Valid()
      requires Acyclic(Followed(m_algorithms, stoppers), Seeds(requested, m_dependencies, |m_algorithms|))
      ensures r.Ok? <==> AllFound(requested, m_dependencies)
      ensures r.Err? ==> exists i :: 0 <= i < |requested| && r.error.UnknownRequest?
                                     && FirstUnknown(requested, i, m_dependencies, r.error.id)
      ensures r.Ok? ==> forall i, x :: 0 <= i < |requested| && FoundAt(requested[i], m_dependencies, x) ==> x in r.value
      ensures r.Ok? ==> Schedule(m_algorithms, m_dependencies, stoppers,
                                 Seeds(requested, m_dependencies, |m_algorithms|), r.value)
    {
      var found: set<nat> := {};
      for n := 0 to |requested|
        invariant forall i :: 0 <= i < n ==> Resolve(requested[i], m_dependencies.Keys) in m_dependencies
        invariant found == set i | 0 <= i < n :: m_dependencies[Resolve(requested[i], m_dependencies.Keys)]
      {
        var id := Resolve(requested[n], m_dependencies.Keys);
        if id !in m_dependencies {
          UnknownIsFirst(requested, n, m_dependencies);
          return Err(UnknownRequest(id));
        }
        found := found + {m_dependencies[id]};
      }
      var deps := Ascending(found, |m_algorithms|);
      ghost var seeds := Seeds(requested, m_dependencies, |m_algorithms|);
      assert found == set i | 0 <= i < |requested| && Resolve(requested[i], m_dependencies.Keys) in m_dependencies
                        :: m_dependencies[Resolve(requested[i], m_dependencies.Keys)];
      deps := Order(deps, stoppers);
      DownwardsReversed(m_algorithms, m_dependencies, stoppers, seeds, deps);
      forall i | 0 <= i < |requested|
        ensures Found(requested[i], m_dependencies)
        ensures forall x :: FoundAt(requested[i], m_dependencies, x) ==> x in Reversed(deps)
      {
        FoundByResolve(requested[i], m_dependencies);
        SeedNeeded(m_algorithms, m_dependencies, stoppers, requested, requested[i]);
      }
      return Ok(Reversed(deps));
    }

    /**
      What one control flow algorithm needs, and itself at the end. `instance` is what the application
      manager supplies when no node of that name is known yet.
    */
    method AlgorithmsRequiredForAlgorithm(requested: string, instance: Algorithm, stoppers: seq<string>)
      returns (r: Result<(seq<nat>, Algorithm), Error>)
      requires Valid() && instance.name == requested
      requires requested !in stoppers ==>
                 Acyclic(Followed(m_algorithms, stoppers),
                         Seeds(NodeNamed(m_cfnodes, instance).inputs, m_dependencies, |m_algorithms|))
      modifies this`m_cfnodes
      ensures Valid()
      ensures m_cfnodes == old(m_cfnodes)
                           + (if exists n :: n in old(m_cfnodes) && n.name == requested then [] else [instance])
      ensures r.Err? ==> requested !in stoppers && r.error.UnknownRequest? && r.error.id !in m_dependencies
      ensures r.Ok? ==> r.value.1 == NodeNamed(old(m_cfnodes), instance) && r.value.1 in m_cfnodes
      ensures r.Ok? && requested in stoppers ==> r.value.0 == []
      ensures r.Ok? && requested !in stoppers ==>
                && Schedule(m_algorithms, m_dependencies, stoppers,
                            Seeds(r.value.1.inputs, m_dependencies, |m_algorithms|), r.value.0)
                && AllFound(r.value.1.inputs, m_dependencies)
                && forall i, x :: 0 <= i < |r.value.1.inputs| && FoundAt(r.value.1.inputs[i], m_dependencies, x) ==>
                     x in r.value.0
    {
      var i := 0;
      while i < |m_cfnodes| && m_cfnodes[i].name != requested
        invariant i <= |m_cfnodes| && forall k :: 0 <= k < i ==> m_cfnodes[k].name != requested
        invariant NodeNamed(m_cfnodes, instance) == NodeNamed(m_cfnodes[i..], instance)
      {
        i := i + 1;
      }
      if i == |m_cfnodes| {
        m_cfnodes := m_cfnodes + [instance];
      }
      var alg := m_cfnodes[i];
      if requested in stoppers {
        return Ok(([], alg));
      }
      var needed := AlgorithmsRequiredFor(alg.inputs, stoppers);
      if needed.Err? {
        return Err(needed.error);
      }
      return Ok((needed.value, alg));
    }

    /** The worklist: insert or move the dependencies of `current` right after `current`, and go on. */
    method Order(seeds: seq<nat>, stoppers: seq<string>) returns (deps: seq<nat>)
      requires NoDup(seeds) && forall x :: x in seeds ==> x < |m_algorithms|
      requires Acyclic(Followed(m_algorithms, stoppers), seeds)
      ensures exists k: nat :: Finished(Followed(m_algorithms, stoppers), Work([], seeds), k, Work(deps, []))
      ensures Downwards(Followed(m_algorithms, stoppers), seeds, deps)
    {
      ghost var g := Followed(m_algorithms, stoppers);
      ghost var rounds: nat := 0;
      deps := seeds;
      var current: nat := 0;
      Starts(g, seeds);
      while current < |deps|
        invariant current <= |deps|
        invariant OnTheWay(g, seeds, Work(deps[..current], deps[current..]), rounds)
        decreases Pending(g, deps[..current], |g|)
      {
        ghost var w := Work(deps[..current], deps[current..]);
        RoundGoesOn(g, seeds, w, rounds);
        deps, current := Process(deps, current, stoppers);
        rounds := rounds + 1;
      }
      assert Work(deps[..current], deps[current..]) == Work(deps, []);
      assert Finished(g, Work(deps, []), 0, Work(deps, []));
      DoneDownwards(g, seeds, Work(deps, []));
    }

    /** One round, for the element at `current`. */
    method Process(list: seq<nat>, start: nat, stoppers: seq<string>) returns (deps: seq<nat>, current: nat)
      requires start < |list| && list[start] < |m_algorithms|
      ensures current <= |deps|
      ensures Work(deps[..current], deps[current..])
              == Round(Followed(m_algorithms, stoppers), Work(list[..start], list[start..]))
    {
      deps, current := list, start;
      var entry := m_algorithms[list[start]];
      assert list[start..][1..] == list[start + 1..];
      if entry.alg.name !in stoppers {
        deps, current := PlaceEach(list, start, Ascending(entry.dependsOn, |m_algorithms|));
      }
      current := current + 1;
      assert deps[..current] == deps[..current - 1] + [list[start]];
    }

    /** The dependencies of the element at `start`, one after the other. */
    method PlaceEach(list: seq<nat>, start: nat, dependsOn: seq<nat>) returns (deps: seq<nat>, current: nat)
      requires start < |list|
      ensures current < |deps| && deps[current] == list[start]
      ensures Work(deps[..current], deps[current + 1..])
              == PlaceAll(Work(list[..start], list[start + 1..]), dependsOn)
    {
      deps, current := list, start;
      ghost var w := Work(list[..start], list[start + 1..]);
      for n := 0 to |dependsOn|
        invariant current < |deps| && deps[current] == list[start]
        invariant Work(deps[..current], deps[current + 1..]) == PlaceAll(w, dependsOn[..n])
      {
        deps, current := PlaceOne(deps, current, dependsOn[n]);
        assert dependsOn[..n + 1][..n] == dependsOn[..n];
      }
      assert dependsOn[..|dependsOn|] == dependsOn;
    }

    /** One dependency of the element at `start`. */
    method PlaceOne(list: seq<nat>, start: nat, entry: nat) returns (deps: seq<nat>, current: nat)
      requires start < |list|
      ensures current < |deps| && deps[current] == list[start]
      ensures Work(deps[..current], deps[current + 1..]) == Place(Work(list[..start], list[start + 1..]), entry)
    {
      deps, current := list, start;
      if entry in deps[current + 1..] {
        return;
      }
      WithoutFound(list[..start], entry);
      var dup := Find(deps[..current], entry);
      if dup != current {
        // rotate: the found element goes behind the current one, which moves one up
        deps := deps[..dup] + deps[dup + 1..current + 1] + [entry] + deps[current + 1..];
        current := current - 1;
        Rotated(list, start, dup, entry);
        SplitAt(deps, list[..start][..dup] + list[..start][dup + 1..], list[start], [entry] + list[start + 1..]);
      } else {
        deps := deps[..current + 1] + [entry] + deps[current + 1..];
        assert list[..start + 1] == list[..start] + [list[start]];
        SplitAt(deps, list[..start], list[start], [entry] + list[start + 1..]);
      }
    }
  }
}
