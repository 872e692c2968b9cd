// Rebinding an earlier registry's refs to the nodes of a new screen, and numbering the rest.
module RefReconcile {
  import opened Common
  import opened Ordering
  import opened RefModels
  import opened RefService

  const NON_NUMERIC_REF_SORT_BUCKET := 1_000_000_000

  function RefName(index: nat): (r: string)
    ensures r != ""
  {
    "n" + Decimal(index)
  }

  lemma RefNameInjective(i: nat, j: nat)
    requires RefName(i) == RefName(j)
    ensures i == j
  {
    assert RefName(i)[1..] == Decimal(i) && RefName(j)[1..] == Decimal(j);
    DecimalInjective(i, j);
  }

  // ---------- The order in which earlier bindings are processed ----------

  // "n" and digits, possibly before one final newline, sorts by its number; anything else comes
  // after, in its own bucket.
  function RefSortKey(ref: string): seq<int> {
    var digits :=
      if |ref| >= 2 && ref[0] == 'n' then
        if ref[|ref| - 1] == '\n' then ref[1..|ref| - 1] else ref[1..]
      else "";
    [if digits != "" && AllDigits(digits) then ParseDecimal(digits) else NON_NUMERIC_REF_SORT_BUCKET]
    + Codes(ref)
  }

  function ByRef(): (RefBinding, RefBinding) -> bool {
    (a: RefBinding, b: RefBinding) => LexLeq(RefSortKey(a.ref), RefSortKey(b.ref))
  }

  predicate NoDuplicates<T(==)>(s: seq<T>) {
    forall i, j :: 0 <= i < j < |s| ==> s[i] != s[j]
  }

  function Values(bindings: Bindings, refs: seq<string>): seq<RefBinding>
    requires forall i :: 0 <= i < |refs| ==> refs[i] in bindings
  {
    seq(|refs|, i requires 0 <= i < |refs| => bindings[refs[i]])
  }

  // `order` lists the dictionary's values sorted by ref, whatever its insertion order was.
  ghost predicate SortedListing(bindings: Bindings, order: seq<RefBinding>) {
    exists refs: seq<string> :: IsKeyOrder(bindings, refs) && order == Sort(Values(bindings, refs), ByRef())
  }

  predicate IsKeyOrder(bindings: Bindings, refs: seq<string>) {
    NoDuplicates(refs) && Members(refs) == bindings.Keys
  }

  method SortedBindings(bindings: Bindings) returns (order: seq<RefBinding>)
    ensures SortedListing(bindings, order)
  {
    var refs: seq<string> := [];
    var rest := bindings.Keys;
    while rest != {}
      invariant NoDuplicates(refs)
      invariant Members(refs) !! rest && Members(refs) + rest == bindings.Keys
      decreases rest
    {
      var r :| r in rest;
      assert Members(refs + [r]) == Members(refs) + {r};
      refs := refs + [r];
      rest := rest - {r};
    }
    assert forall i :: 0 <= i < |refs| ==> refs[i] in Members(refs);
    order := Sort(Values(bindings, refs), ByRef());
  }

  lemma SameElements<T>(a: seq<T>, b: seq<T>, x: T)
    requires multiset(a) == multiset(b)
    ensures x in a <==> x in b
  {
    assert x in a <==> x in multiset(a);
    assert x in b <==> x in multiset(b);
  }

  lemma ValuesDistinct(bindings: Bindings, refs: seq<string>, order: seq<RefBinding>, s: nat, t: nat)
    requires WellKeyed(bindings) && IsKeyOrder(bindings, refs)
    requires forall i :: 0 <= i < |refs| ==> refs[i] in Members(refs)
    requires multiset(order) == multiset(Values(bindings, refs))
    requires s < t < |order|
    ensures order[s] != order[t]
  {
    if order[s] == order[t] {
      var values := Values(bindings, refs);
      Twice(order, s, t);
      SameElements(order, values, order[s]);
      var i :| 0 <= i < |values| && values[i] == order[s];
      var j := OtherPosition(values, i);
      assert false;
    }
  }

  lemma ListingElements(bindings: Bindings, refs: seq<string>, order: seq<RefBinding>, b: RefBinding)
    requires WellKeyed(bindings) && IsKeyOrder(bindings, refs)
    requires forall i :: 0 <= i < |refs| ==> refs[i] in bindings
    requires multiset(order) == multiset(Values(bindings, refs))
    ensures b in order <==> b.ref in bindings && bindings[b.ref] == b
  {
    var values := Values(bindings, refs);
    SameElements(order, values, b);
    if b in values {
      var i :| 0 <= i < |values| && values[i] == b;
      assert b == bindings[refs[i]];
    }
    if b.ref in bindings && bindings[b.ref] == b {
      assert b.ref in Members(refs);
      var i :| 0 <= i < |refs| && refs[i] == b.ref;
      assert values[i] == b;
    }
  }

  // For a registry whose bindings sit under their own refs, the listing is exactly its bindings.
  lemma ListingMeaning(bindings: Bindings, order: seq<RefBinding>)
    requires WellKeyed(bindings) && SortedListing(bindings, order)
    ensures forall b :: b in order <==> b.ref in bindings && bindings[b.ref] == b
    ensures NoDuplicates(order)
  {
    var refs: seq<string> :| IsKeyOrder(bindings, refs) && order == Sort(Values(bindings, refs), ByRef());
    SortKeeps(Values(bindings, refs), ByRef());
    assert forall i :: 0 <= i < |refs| ==> refs[i] in Members(refs);
    forall b ensures b in order <==> b.ref in bindings && bindings[b.ref] == b {
      ListingElements(bindings, refs, order, b);
    }
    forall s, t | 0 <= s < t < |order| ensures order[s] != order[t] {
      ValuesDistinct(bindings, refs, order, s, t);
    }
  }

  // ---------- What reconciliation computes ----------

  // Progress of a reconciliation: positions of the candidates not yet taken, the ref of every
  // candidate ("" when it has none), the refs in use, and the registry built so far.
  datatype Pass = Pass(remaining: seq<nat>, refs: seq<string>, used: set<string>, bindings: Bindings)

  predicate InRange(remaining: seq<nat>, n: nat) {
    forall k :: 0 <= k < |remaining| ==> remaining[k] < n
  }

  function Select(nodes: seq<NodeFacts>, at: seq<nat>): (r: seq<NodeFacts>)
    requires InRange(at, |nodes|)
    ensures |r| == |at| && forall k :: 0 <= k < |at| ==> r[k] == nodes[at[k]]
  {
    seq(|at|, k requires 0 <= k < |at| => nodes[at[k]])
  }

  function Initial(n: nat): (p: Pass)
    ensures |p.refs| == n && InRange(p.remaining, n)
  {
    Pass(seq(n, i => i), seq(n, i => ""), {}, map[])
  }

  function Bind(key: TextKey, snapshotId: int, nodes: seq<NodeFacts>, p: Pass, i: nat, ref: string,
      reused: bool): (q: Pass)
    requires |p.refs| == |nodes| && i < |nodes|
    ensures |q.refs| == |nodes| && q.remaining == p.remaining
  {
    p.(refs := p.refs[i := ref], used := p.used + {ref},
       bindings := p.bindings[ref := BindingForCandidate(key, ref, nodes[i], snapshotId, reused)])
  }

  function ReuseOne(key: TextKey, snapshotId: int, nodes: seq<NodeFacts>, binding: RefBinding, p: Pass): (q: Pass)
    requires |p.refs| == |nodes| && InRange(p.remaining, |nodes|)
    ensures |q.refs| == |nodes| && InRange(q.remaining, |nodes|)
  {
    match BestCandidate(key, SourceSignatureFromBinding(binding), Select(nodes, p.remaining))
    case None => p
    case Some(best) =>
      BestInRange(key, SourceSignatureFromBinding(binding), Select(nodes, p.remaining));
      Assign(key, snapshotId, nodes, binding.ref, p, best.index)
  }

  // The k-th remaining candidate takes the ref and leaves the pool.
  function Assign(key: TextKey, snapshotId: int, nodes: seq<NodeFacts>, ref: string, p: Pass, k: nat): (q: Pass)
    requires |p.refs| == |nodes| && InRange(p.remaining, |nodes|) && k < |p.remaining|
    ensures |q.refs| == |nodes| && InRange(q.remaining, |nodes|)
  {
    Bind(key, snapshotId, nodes, p, p.remaining[k], ref, true)
      .(remaining := p.remaining[..k] + p.remaining[k + 1..])
  }

  lemma BestInRange(key: TextKey, source: RefRepairSourceSignature, nodes: seq<NodeFacts>)
    ensures BestCandidate(key, source, nodes).Some? ==> BestCandidate(key, source, nodes).value.index < |nodes|
  {
    if BestCandidate(key, source, nodes).Some? {
      BestIsClearWinner(key, source, nodes, BestCandidate(key, source, nodes).value.index);
    }
  }

  // After the bindings of `order` have been offered to the candidates, in turn.
  function Reuse(key: TextKey, snapshotId: int, nodes: seq<NodeFacts>, order: seq<RefBinding>): (p: Pass)
    ensures |p.refs| == |nodes| && InRange(p.remaining, |nodes|)
  {
    if order == [] then Initial(|nodes|)
    else ReuseOne(key, snapshotId, nodes, order[|order| - 1],
                  Reuse(key, snapshotId, nodes, order[..|order| - 1]))
  }

  ghost function NamesBelow(index: nat): set<string> {
    set j | 0 <= j < index :: RefName(j)
  }

  lemma NextNameIsNew(used: set<string>, next: nat)
    requires RefName(next) in used
    ensures used - NamesBelow(next + 1) < used - NamesBelow(next)
  {
    if RefName(next) in NamesBelow(next) {
      var j :| 0 <= j < next && RefName(next) == RefName(j);
      RefNameInjective(j, next);
    }
    assert NamesBelow(next) <= NamesBelow(next + 1);
    assert RefName(next) in NamesBelow(next + 1);
  }

  // The smallest index from `next` on whose name is free.
  function NextFree(used: set<string>, next: nat): (r: nat)
    ensures r >= next && RefName(r) !in used
    ensures forall j :: next <= j < r ==> RefName(j) in used
    decreases used - NamesBelow(next)
  {
    if RefName(next) in used then
      NextNameIsNew(used, next);
      NextFree(used, next + 1)
    else next
  }

  // After the first k candidates have been numbered if they had no ref; `next` is the counter.
  function Number(key: TextKey, snapshotId: int, nodes: seq<NodeFacts>, start: Pass, k: nat): (r: (Pass, nat))
    requires |start.refs| == |nodes| && k <= |nodes|
    ensures |r.0.refs| == |nodes|
  {
    if k == 0 then (start, 1)
    else
      var (p, next) := Number(key, snapshotId, nodes, start, k - 1);
      if p.refs[k - 1] != "" then (p, next)
      else
        var free := NextFree(p.used, next);
        (Bind(key, snapshotId, nodes, p, k - 1, RefName(free), false), free)
  }

  function Reconciled(key: TextKey, snapshotId: int, nodes: seq<NodeFacts>, order: seq<RefBinding>): (p: Pass)
    ensures |p.refs| == |nodes|
  {
    Number(key, snapshotId, nodes, Reuse(key, snapshotId, nodes, order), |nodes|).0
  }

  function PreviousBindings(previous: RefRegistry?): Bindings
    reads previous
  {
    if previous == null then map[] else previous.bindings
  }

  predicate ShowsRefs(candidates: seq<SemanticNode>, refs: seq<string>)
    reads candidates
  {
    |candidates| == |refs| && forall i :: 0 <= i < |refs| ==> candidates[i].ref == refs[i]
  }

  // ---------- The algorithm ----------

  method ClearCandidateRefs(candidates: seq<SemanticNode>)
    modifies candidates
    ensures forall i :: 0 <= i < |candidates| ==> candidates[i].ref == ""
  {
    for i := 0 to |candidates|
      invariant forall j :: 0 <= j < i ==> candidates[j].ref == ""
    {
      candidates[i].ref := "";
    }
  }

  predicate Shows(candidates: seq<SemanticNode>, usedRefs: set<string>, registry: RefRegistry, p: Pass)
    reads candidates, registry
  {
    ShowsRefs(candidates, p.refs) && usedRefs == p.used && registry.bindings == p.bindings
  }

  method BindCandidate(key: TextKey, snapshotId: int, candidate: SemanticNode, ref: string, reused: bool,
      used: set<string>,
                       registry: RefRegistry, ghost candidates: seq<SemanticNode>, ghost i: nat, ghost p: Pass)
    returns (usedRefs: set<string>)
    requires NoDuplicates(candidates) && i < |candidates| && candidates[i] == candidate
    requires Shows(candidates, used, registry, p)
    modifies candidate, registry
    ensures Shows(candidates, usedRefs, registry, Bind(key, snapshotId, FactsOf(candidates), p, i, ref, reused))
  {
    candidate.ref := ref;
    usedRefs := used + {ref};
    registry.bindings :=
      registry.bindings[ref := BindingForCandidate(key, ref, candidate.facts, snapshotId, reused)];
  }

  // The first loop: offer every earlier binding to the candidates still unmatched.
  method ReuseRefs(key: TextKey, snapshotId: int, candidates: seq<SemanticNode>, order: seq<RefBinding>,
      registry: RefRegistry)
    returns (usedRefs: set<string>)
    requires DistinctKeys(candidates)
    requires registry.bindings == map[] && forall i :: 0 <= i < |candidates| ==> candidates[i].ref == ""
    modifies candidates, registry
    ensures Shows(candidates, usedRefs, registry, Reuse(key, snapshotId, FactsOf(candidates), order))
  {
    var nodes := FactsOf(candidates);
    var remaining: seq<SemanticNode> := candidates;
    usedRefs := {};
    ghost var pass := Initial(|nodes|);
    DistinctObjects(candidates);
    for t := 0 to |order|
      invariant |pass.refs| == |nodes| && pass == Reuse(key, snapshotId, nodes, order[..t])
      invariant Shows(candidates, usedRefs, registry, pass)
      invariant Points(candidates, remaining, pass.remaining)
    {
      assert order[..t + 1][..t] == order[..t];
      assert FactsOf(remaining) == Select(nodes, pass.remaining);
      var source := SourceSignatureFromBinding(order[t]);
      var index, confidence := BestCandidateForSourceSignature(key, source, remaining);
      BestInRange(key, source, FactsOf(remaining));
      if confidence.Some? {
        RemovePoint(candidates, remaining, pass.remaining, index);
        usedRefs := BindCandidate(key, snapshotId, remaining[index], order[t].ref, true, usedRefs, registry,
                                  candidates, pass.remaining[index], pass);
        remaining := remaining[..index] + remaining[index + 1..];
      }
      pass := ReuseOne(key, snapshotId, nodes, order[t], pass);
    }
    assert order[..|order|] == order;
  }

  method SkipUsed(usedRefs: set<string>, start: nat) returns (next: nat)
    ensures next == NextFree(usedRefs, start)
  {
    next := start;
    while RefName(next) in usedRefs
      invariant NextFree(usedRefs, next) == NextFree(usedRefs, start)
      decreases usedRefs - NamesBelow(next)
    {
      NextNameIsNew(usedRefs, next);
      next := next + 1;
    }
  }

  // The second loop: number the candidates that have no ref yet.
  method NumberRest(key: TextKey, snapshotId: int, candidates: seq<SemanticNode>, used: set<string>,
      registry: RefRegistry, ghost start: Pass)
    requires DistinctKeys(candidates)
    requires |start.refs| == |candidates| && Shows(candidates, used, registry, start)
    modifies candidates, registry
    ensures ShowsRefs(candidates, Number(key, snapshotId, FactsOf(candidates), start, |candidates|).0.refs)
    ensures registry.bindings == Number(key, snapshotId, FactsOf(candidates), start, |candidates|).0.bindings
  {
    var usedRefs := used;
    var next := 1;
    ghost var pass := start;
    DistinctObjects(candidates);
    for k := 0 to |candidates|
      invariant |pass.refs| == |candidates|
      invariant (pass, next) == Number(key, snapshotId, FactsOf(candidates), start, k)
      invariant Shows(candidates, usedRefs, registry, pass)
    {
      usedRefs, next, pass := NumberOne(key, snapshotId, candidates[k], usedRefs, next, registry, candidates, k, pass);
    }
  }

  method NumberOne(key: TextKey, snapshotId: int, candidate: SemanticNode, used: set<string>, start: nat,
                   registry: RefRegistry, ghost candidates: seq<SemanticNode>, ghost k: nat, ghost p: Pass)
    returns (usedRefs: set<string>, next: nat, ghost q: Pass)
    requires NoDuplicates(candidates) && k < |candidates| && candidates[k] == candidate
    requires Shows(candidates, used, registry, p)
    modifies candidate, registry
    ensures |q.refs| == |candidates| && Shows(candidates, usedRefs, registry, q)
    ensures p.refs[k] != "" ==> q == p && next == start
    ensures p.refs[k] == "" ==> next == NextFree(p.used, start)
    ensures p.refs[k] == "" ==> q == Bind(key, snapshotId, FactsOf(candidates), p, k, RefName(next), false)
  {
    usedRefs, next, q := used, start, p;
    if candidate.ref == "" {
      next := SkipUsed(used, start);
      usedRefs := BindCandidate(key, snapshotId, candidate, RefName(next), false, used, registry, candidates, k, p);
      q := Bind(key, snapshotId, FactsOf(candidates), p, k, RefName(next), false);
    }
  }

  // Candidates and registry show what reconciling against `previous`, listed as `order`, computes.
  ghost predicate Outcome(key: TextKey, snapshotId: int, candidates: seq<SemanticNode>, previous: Bindings,
                          order: seq<RefBinding>, registry: RefRegistry)
    reads candidates, registry
  {
    && SortedListing(previous, order)
    && ShowsRefs(candidates, Reconciled(key, snapshotId, FactsOf(candidates), order).refs)
    && registry.bindings == Reconciled(key, snapshotId, FactsOf(candidates), order).bindings
  }

  method ReconcileCandidates(key: TextKey, candidates: seq<SemanticNode>, snapshotId: int, previous: RefRegistry?)
    returns (registry: RefRegistry)
    requires DistinctKeys(candidates)
    modifies candidates
    ensures fresh(registry)
    ensures exists order :: Outcome(key, snapshotId, candidates, old(PreviousBindings(previous)), order, registry)
  {
    ClearCandidateRefs(candidates);
    registry := new RefRegistry();
    var order := SortedBindings(if previous == null then map[] else previous.bindings);
    var usedRefs := ReuseRefs(key, snapshotId, candidates, order, registry);
    NumberRest(key, snapshotId, candidates, usedRefs, registry,
               Reuse(key, snapshotId, FactsOf(candidates), order));
    assert Outcome(key, snapshotId, candidates, old(PreviousBindings(previous)), order, registry);
  }

  method Reconcile(key: TextKey, screen: CompiledScreen, snapshotId: int, previous: RefRegistry?)
    returns (registry: RefRegistry)
    modifies screen.RefCandidates()
    ensures fresh(registry)
    ensures exists order ::
      Outcome(key, snapshotId, screen.RefCandidates(), old(PreviousBindings(previous)), order, registry)
  {
    CandidatesDistinct(screen);
    registry := ReconcileCandidates(key, screen.RefCandidates(), snapshotId, previous);
  }

  predicate Points(candidates: seq<SemanticNode>, remaining: seq<SemanticNode>, at: seq<nat>) {
    && |remaining| == |at|
    && InRange(at, |candidates|)
    && forall k :: 0 <= k < |at| ==> remaining[k] == candidates[at[k]]
  }

  lemma RemovePoint(candidates: seq<SemanticNode>, remaining: seq<SemanticNode>, at: seq<nat>, i: nat)
    requires Points(candidates, remaining, at) && i < |at|
    ensures Points(candidates, remaining[..i] + remaining[i + 1..], at[..i] + at[i + 1..])
  {
  }

  lemma DistinctObjects(candidates: seq<SemanticNode>)
    requires DistinctKeys(candidates)
    ensures NoDuplicates(candidates)
  {
  }
}
