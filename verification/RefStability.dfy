// What reconciliation guarantees: refs and nodes correspond one to one, fresh refs are the
// smallest free numbers, and a reused ref never moves while its node is still on the screen.
module RefStability {
  import opened Common
  import opened RefModels
  import opened RefService
  import opened RefReconcile

  // ---------- One to one ----------

  // Assigned refs are distinct, and the registry binds exactly them, each to its own node.
  ghost predicate OneToOne(key: TextKey, snapshotId: int, nodes: seq<NodeFacts>, p: Pass) {
    && |p.refs| == |nodes|
    && p.bindings.Keys == p.used
    && (forall i {:trigger BindsNode(key, snapshotId, nodes, p, i)} ::
          0 <= i < |nodes| && p.refs[i] != "" ==> BindsNode(key, snapshotId, nodes, p, i))
    && (forall i, j :: 0 <= i < j < |nodes| && p.refs[i] != "" ==> p.refs[i] != p.refs[j])
    && (forall r :: r in p.used ==> r != "" && r in p.refs)
  }

  ghost predicate BindsNode(key: TextKey, snapshotId: int, nodes: seq<NodeFacts>, p: Pass, i: nat)
    requires |p.refs| == |nodes| && i < |nodes|
  {
    var ref := p.refs[i];
    ref in p.bindings
    && p.bindings[ref] == BindingForCandidate(key, ref, nodes[i], snapshotId, p.bindings[ref].reused)
  }

  lemma BindKeepsOneToOne(key: TextKey, snapshotId: int, nodes: seq<NodeFacts>, p: Pass, i: nat, ref: string,
      reused: bool)
    requires OneToOne(key, snapshotId, nodes, p)
    requires i < |nodes| && p.refs[i] == "" && ref != "" && ref !in p.used
    ensures OneToOne(key, snapshotId, nodes, Bind(key, snapshotId, nodes, p, i, ref, reused))
  {
    var q := Bind(key, snapshotId, nodes, p, i, ref, reused);
    forall j | 0 <= j < |nodes| && q.refs[j] != "" ensures BindsNode(key, snapshotId, nodes, q, j) {
      assert j != i ==> BindsNode(key, snapshotId, nodes, p, j);
    }
    forall r | r in q.used ensures r != "" && r in q.refs {
      if r == ref {
        assert q.refs[i] == r;
      } else {
        var j :| 0 <= j < |nodes| && p.refs[j] == r;
        assert q.refs[j] == r;
      }
    }
    forall j, k | 0 <= j < k < |nodes| && q.refs[j] != "" ensures q.refs[j] != q.refs[k] {
      assert j != i ==> BindsNode(key, snapshotId, nodes, p, j);
      assert k != i && p.refs[k] != "" ==> BindsNode(key, snapshotId, nodes, p, k);
    }
  }

  // The unmatched positions are listed once each, and they are the ones without a ref.
  predicate RemainingAreUnassigned(p: Pass) {
    && NoDuplicates(p.remaining)
    && InRange(p.remaining, |p.refs|)
    && forall i :: 0 <= i < |p.refs| ==> (i in p.remaining <==> p.refs[i] == "")
  }

  predicate DistinctRefs(order: seq<RefBinding>) {
    && (forall t :: 0 <= t < |order| ==> order[t].ref != "")
    && (forall s, t :: 0 <= s < t < |order| ==> order[s].ref != order[t].ref)
  }

  predicate OffersRef(order: seq<RefBinding>, ref: string) {
    exists t :: 0 <= t < |order| && order[t].ref == ref
  }

  lemma {:induction false} ReuseIsOneToOne(key: TextKey, snapshotId: int, nodes: seq<NodeFacts>, order: seq<RefBinding>)
    requires DistinctRefs(order)
    ensures var p := Reuse(key, snapshotId, nodes, order);
      && OneToOne(key, snapshotId, nodes, p)
      && RemainingAreUnassigned(p)
      && (forall r :: r in p.used ==> OffersRef(order, r))
      && (forall r :: r in p.bindings ==> p.bindings[r].reused)
  {
    if order == [] {
      var p := Initial(|nodes|);
      assert forall i :: 0 <= i < |nodes| ==> p.remaining[i] == i && p.refs[i] == "";
    } else {
      var last := |order| - 1;
      var front, binding := order[..last], order[last];
      ReuseIsOneToOne(key, snapshotId, nodes, front);
      var p := Reuse(key, snapshotId, nodes, front);
      forall r | OffersRef(front, r) ensures OffersRef(order, r) && r != binding.ref {
        var t :| 0 <= t < last && front[t].ref == r;
        assert order[t].ref == r;
      }
      assert order[last].ref == binding.ref;
      ReuseOneKeeps(key, snapshotId, nodes, binding, p);
    }
  }

  lemma ReuseOneKeeps(key: TextKey, snapshotId: int, nodes: seq<NodeFacts>, binding: RefBinding, p: Pass)
    requires OneToOne(key, snapshotId, nodes, p) && RemainingAreUnassigned(p)
    requires binding.ref != "" && binding.ref !in p.used
    ensures var q := ReuseOne(key, snapshotId, nodes, binding, p);
      && OneToOne(key, snapshotId, nodes, q)
      && RemainingAreUnassigned(q)
      && q.used <= p.used + {binding.ref}
      && ((forall r :: r in p.bindings ==> p.bindings[r].reused) ==>
            forall r :: r in q.bindings ==> q.bindings[r].reused)
  {
    var source, pool := SourceSignatureFromBinding(binding), Select(nodes, p.remaining);
    BestInRange(key, source, pool);
    var best := BestCandidate(key, source, pool);
    if best.Some? {
      AssignKeeps(key, snapshotId, nodes, binding.ref, p, best.value.index);
    }
  }

  lemma AssignKeeps(key: TextKey, snapshotId: int, nodes: seq<NodeFacts>, ref: string, p: Pass, k: nat)
    requires OneToOne(key, snapshotId, nodes, p) && RemainingAreUnassigned(p)
    requires ref != "" && ref !in p.used && k < |p.remaining|
    ensures var q := Assign(key, snapshotId, nodes, ref, p, k);
      && OneToOne(key, snapshotId, nodes, q)
      && RemainingAreUnassigned(q)
      && q.used <= p.used + {ref}
      && ((forall r :: r in p.bindings ==> p.bindings[r].reused) ==>
            forall r :: r in q.bindings ==> q.bindings[r].reused)
  {
    assert p.remaining[k] in p.remaining;
    BindKeepsOneToOne(key, snapshotId, nodes, p, p.remaining[k], ref, true);
    RemoveAssigned(p, k, ref);
    OneToOneIgnoresRemaining(key, snapshotId, nodes,
                             Bind(key, snapshotId, nodes, p, p.remaining[k], ref, true),
                             p.remaining[..k] + p.remaining[k + 1..]);
  }

  lemma OneToOneIgnoresRemaining(key: TextKey, snapshotId: int, nodes: seq<NodeFacts>, p: Pass, remaining: seq<nat>)
    requires OneToOne(key, snapshotId, nodes, p)
    ensures OneToOne(key, snapshotId, nodes, p.(remaining := remaining))
  {
    var q := p.(remaining := remaining);
    forall i | 0 <= i < |nodes| && q.refs[i] != "" ensures BindsNode(key, snapshotId, nodes, q, i) {
      assert BindsNode(key, snapshotId, nodes, p, i);
    }
  }

  lemma RemoveAssigned(p: Pass, k: nat, ref: string)
    requires RemainingAreUnassigned(p) && k < |p.remaining| && ref != ""
    ensures RemainingAreUnassigned(p.(refs := p.refs[p.remaining[k] := ref],
                                      remaining := p.remaining[..k] + p.remaining[k + 1..]))
  {
    var rest := p.remaining[..k] + p.remaining[k + 1..];
    forall i | 0 <= i < |p.refs| ensures i in rest <==> (i in p.remaining && i != p.remaining[k]) {
      if i in p.remaining && i != p.remaining[k] {
        var j :| 0 <= j < |p.remaining| && p.remaining[j] == i;
        assert rest[if j < k then j else j - 1] == i;
      }
    }
  }

  // ---------- Fresh numbers ----------

  // Progress of the numbering: the first k candidates have refs, every number below the counter is
  // in use, and reused refs are where the first loop left them.
  ghost predicate Numbered(start: Pass, p: Pass, next: nat, k: nat) {
    && |p.refs| == |start.refs| && k <= |start.refs| && next >= 1
    && (forall i :: 0 <= i < |start.refs| && (i >= k || start.refs[i] != "") ==> p.refs[i] == start.refs[i])
    && (forall i :: 0 <= i < k ==> p.refs[i] != "")
    && (forall j :: 1 <= j < next ==> RefName(j) in p.used)
    && (forall r :: r in p.used <==> r in start.used || FreshBefore(start, p, k, r))
    && (forall i :: 0 <= i < k && start.refs[i] == "" ==> SmallestFree(start, p, i))
  }

  ghost predicate FreshBefore(start: Pass, p: Pass, k: nat, r: string)
    requires |p.refs| == |start.refs| && k <= |start.refs|
  {
    exists i :: 0 <= i < k && start.refs[i] == "" && p.refs[i] == r
  }

  // Candidate i, unmatched, got the smallest positive number that is neither a reused ref nor
  // already given to an earlier unmatched candidate.
  ghost predicate SmallestFree(start: Pass, p: Pass, i: nat)
    requires |p.refs| == |start.refs| && i < |start.refs|
  {
    exists m: nat :: m >= 1 && p.refs[i] == RefName(m) && IsSmallestFree(start, p, i, m)
  }

  ghost predicate IsSmallestFree(start: Pass, p: Pass, i: nat, m: nat)
    requires |p.refs| == |start.refs| && i < |start.refs|
  {
    && RefName(m) !in start.used && !FreshBefore(start, p, i, RefName(m))
    && forall j :: 1 <= j < m ==> RefName(j) in start.used || FreshBefore(start, p, i, RefName(j))
  }

  lemma NumberStep(key: TextKey, snapshotId: int, nodes: seq<NodeFacts>, start: Pass, p: Pass, next: nat, k: nat)
    requires |start.refs| == |nodes| && k < |nodes|
    requires Numbered(start, p, next, k)
    requires p.refs[k] == ""
    ensures var m := NextFree(p.used, next);
      Numbered(start, Bind(key, snapshotId, nodes, p, k, RefName(m), false), m, k + 1)
  {
    var m := NextFree(p.used, next);
    var q := Bind(key, snapshotId, nodes, p, k, RefName(m), false);
    forall r, i | 0 <= i <= k ensures FreshBefore(start, q, i, r) <==> FreshBefore(start, p, i, r) {
      if FreshBefore(start, p, i, r) {
        var j :| 0 <= j < i && start.refs[j] == "" && p.refs[j] == r;
        assert q.refs[j] == r;
      }
      if FreshBefore(start, q, i, r) {
        var j :| 0 <= j < i && start.refs[j] == "" && q.refs[j] == r;
        assert p.refs[j] == r;
      }
    }
    forall i | 0 <= i < k && start.refs[i] == "" ensures SmallestFree(start, q, i) {
      assert SmallestFree(start, p, i);
      var n: nat :| n >= 1 && p.refs[i] == RefName(n) && IsSmallestFree(start, p, i, n);
      assert q.refs[i] == RefName(n) && IsSmallestFree(start, q, i, n);
    }
    assert IsSmallestFree(start, q, k, m);
    assert SmallestFree(start, q, k);
    forall r ensures r in q.used <==> r in start.used || FreshBefore(start, q, k + 1, r) {
      FreshExtends(start, q, k, r);
    }
  }

  lemma FreshExtends(start: Pass, q: Pass, k: nat, r: string)
    requires |q.refs| == |start.refs| && k < |start.refs|
    ensures FreshBefore(start, q, k + 1, r) <==>
            FreshBefore(start, q, k, r) || (start.refs[k] == "" && q.refs[k] == r)
  {
  }

  lemma NumberSkip(start: Pass, p: Pass, next: nat, k: nat)
    requires k < |start.refs| && Numbered(start, p, next, k) && p.refs[k] != ""
    ensures Numbered(start, p, next, k + 1)
  {
    forall r ensures FreshBefore(start, p, k + 1, r) <==> FreshBefore(start, p, k, r) {
      FreshExtends(start, p, k, r);
    }
  }

  lemma {:induction false} NumberIsSmallestFree(key: TextKey, snapshotId: int, nodes: seq<NodeFacts>,
      start: Pass, k: nat)
    requires k <= |nodes| == |start.refs|
    ensures var (p, next) := Number(key, snapshotId, nodes, start, k);
      Numbered(start, p, next, k)
  {
    if k > 0 {
      NumberIsSmallestFree(key, snapshotId, nodes, start, k - 1);
      var (p, next) := Number(key, snapshotId, nodes, start, k - 1);
      if p.refs[k - 1] == "" {
        NumberStep(key, snapshotId, nodes, start, p, next, k - 1);
      } else {
        NumberSkip(start, p, next, k - 1);
      }
    }
  }

  lemma {:induction false} NumberIsOneToOne(key: TextKey, snapshotId: int, nodes: seq<NodeFacts>, start: Pass, k: nat)
    requires k <= |nodes| && OneToOne(key, snapshotId, nodes, start)
    ensures var p := Number(key, snapshotId, nodes, start, k).0;
      && OneToOne(key, snapshotId, nodes, p)
      && AddsFresh(start, p)
  {
    if k > 0 {
      NumberIsOneToOne(key, snapshotId, nodes, start, k - 1);
      NumberingOne(key, snapshotId, nodes, start, k - 1);
    }
  }

  lemma NumberingOne(key: TextKey, snapshotId: int, nodes: seq<NodeFacts>, start: Pass, k: nat)
    requires |start.refs| == |nodes| && k < |nodes|
    requires var p := Number(key, snapshotId, nodes, start, k).0;
      OneToOne(key, snapshotId, nodes, p) && AddsFresh(start, p)
    ensures var q := Number(key, snapshotId, nodes, start, k + 1).0;
      OneToOne(key, snapshotId, nodes, q) && AddsFresh(start, q)
  {
    var (p, next) := Number(key, snapshotId, nodes, start, k);
    if p.refs[k] == "" {
      var ref := RefName(NextFree(p.used, next));
      BindKeepsOneToOne(key, snapshotId, nodes, p, k, ref, false);
      BindAddsFresh(key, snapshotId, nodes, start, p, k, ref);
    }
  }

  // p has the bindings of `start` and otherwise only fresh ones.
  ghost predicate AddsFresh(start: Pass, p: Pass) {
    && p.bindings.Keys == p.used && start.bindings.Keys == start.used <= p.used
    && (forall r :: r in start.used ==> p.bindings[r] == start.bindings[r])
    && (forall r :: r in p.used && r !in start.used ==> !p.bindings[r].reused)
  }

  lemma BindAddsFresh(key: TextKey, snapshotId: int, nodes: seq<NodeFacts>, start: Pass, p: Pass, i: nat, ref: string)
    requires |p.refs| == |nodes| && i < |nodes| && AddsFresh(start, p) && ref !in p.used
    ensures AddsFresh(start, Bind(key, snapshotId, nodes, p, i, ref, false))
  {
  }

  lemma ReconcileIsOneToOne(key: TextKey, snapshotId: int, nodes: seq<NodeFacts>, order: seq<RefBinding>)
    requires DistinctRefs(order)
    ensures OneToOne(key, snapshotId, nodes, Reconciled(key, snapshotId, nodes, order))
    ensures forall i :: 0 <= i < |nodes| ==> Reconciled(key, snapshotId, nodes, order).refs[i] != ""
  {
    ReuseIsOneToOne(key, snapshotId, nodes, order);
    NumberIsOneToOne(key, snapshotId, nodes, Reuse(key, snapshotId, nodes, order), |nodes|);
    NumberIsSmallestFree(key, snapshotId, nodes, Reuse(key, snapshotId, nodes, order), |nodes|);
  }

  // Every candidate ends with a non-empty ref of its own; the registry's domain is exactly those
  // refs, and each ref is bound to its node by a handle of this snapshot.
  lemma ReconcileIsBijection(key: TextKey, snapshotId: int, nodes: seq<NodeFacts>, order: seq<RefBinding>)
    requires DistinctRefs(order)
    ensures var p := Reconciled(key, snapshotId, nodes, order);
      && (forall i :: 0 <= i < |nodes| ==> p.refs[i] != "")
      && NoDuplicates(p.refs)
      && (forall r :: r in p.bindings <==> r in p.refs)
      && (forall i :: 0 <= i < |nodes| ==> Names(key, snapshotId, p.bindings, p.refs[i], nodes[i]))
      && WellKeyed(p.bindings)
  {
    ReconcileIsOneToOne(key, snapshotId, nodes, order);
    OneToOneIsBijection(key, snapshotId, nodes, Reconciled(key, snapshotId, nodes, order));
  }

  lemma OneToOneIsBijection(key: TextKey, snapshotId: int, nodes: seq<NodeFacts>, p: Pass)
    requires OneToOne(key, snapshotId, nodes, p) && forall i :: 0 <= i < |nodes| ==> p.refs[i] != ""
    ensures NoDuplicates(p.refs) && WellKeyed(p.bindings)
    ensures forall r :: r in p.bindings <==> r in p.refs
    ensures forall i :: 0 <= i < |nodes| ==> Names(key, snapshotId, p.bindings, p.refs[i], nodes[i])
  {
    forall i | 0 <= i < |nodes| ensures Names(key, snapshotId, p.bindings, p.refs[i], nodes[i]) {
      assert BindsNode(key, snapshotId, nodes, p, i);
    }
    forall r | r in p.bindings ensures r != "" && p.bindings[r].ref == r {
      var i :| 0 <= i < |nodes| && p.refs[i] == r;
      assert BindsNode(key, snapshotId, nodes, p, i);
    }
  }

  // `ref` is bound, under its own name, to a handle on `node` in the snapshot and to its description.
  predicate Names(key: TextKey, snapshotId: int, bindings: Bindings, ref: string, node: NodeFacts) {
    && ref in bindings
    && bindings[ref].ref == ref
    && bindings[ref].handle == NodeHandle(snapshotId, node.rawRid)
    && MadeFor(key, bindings[ref], node)
  }

  // Unmatched candidates are numbered in candidate order with the smallest positive indices not
  // taken by reused refs.
  lemma FreshRefsAreSmallest(key: TextKey, snapshotId: int, nodes: seq<NodeFacts>, order: seq<RefBinding>, i: nat)
    requires DistinctRefs(order) && i < |nodes|
    ensures var start, p := Reuse(key, snapshotId, nodes, order), Reconciled(key, snapshotId, nodes, order);
      && p.refs[i] in p.bindings
      && (start.refs[i] == "" <==> !p.bindings[p.refs[i]].reused)
      && (start.refs[i] != "" ==> p.refs[i] == start.refs[i])
      && (start.refs[i] == "" ==> SmallestFree(start, p, i))
  {
    var start, p := Reuse(key, snapshotId, nodes, order), Reconciled(key, snapshotId, nodes, order);
    ReuseIsOneToOne(key, snapshotId, nodes, order);
    NumberIsOneToOne(key, snapshotId, nodes, start, |nodes|);
    NumberIsSmallestFree(key, snapshotId, nodes, start, |nodes|);
    assert BindsNode(key, snapshotId, nodes, p, i);
    if start.refs[i] != "" {
      assert BindsNode(key, snapshotId, nodes, start, i);
    } else {
      assert SmallestFree(start, p, i);
      assert p.refs[i] !in start.used;
    }
  }

  // ---------- Stability ----------

  predicate DistinctNodes(nodes: seq<NodeFacts>) {
    forall i, j :: 0 <= i < j < |nodes| ==> nodes[i] != nodes[j]
  }

  // `binding` was made for `node`, whatever snapshot it was made in.
  predicate MadeFor(key: TextKey, binding: RefBinding, node: NodeFacts) {
    && binding.fingerprint == FingerprintForCandidate(key, node)
    && binding.profile == SemanticProfile(node.state, node.actions)
  }

  lemma OwnSignature(key: TextKey, binding: RefBinding, node: NodeFacts)
    requires MadeFor(key, binding, node)
    ensures SourceSignatureFromBinding(binding) == SignatureOf(key, binding.ref, node)
  {
  }

  // owners[t] is where the node that order[t] was made for sits on the new screen.
  predicate AllPresent(key: TextKey, nodes: seq<NodeFacts>, order: seq<RefBinding>, owners: seq<nat>) {
    && |owners| == |order|
    && NoDuplicates(owners)
    && forall t :: 0 <= t < |order| ==> owners[t] < |nodes| && MadeFor(key, order[t], nodes[owners[t]])
  }

  // `ref` is offered to the very node at i.
  predicate Owned(order: seq<RefBinding>, owners: seq<nat>, ref: string, i: nat) {
    |owners| == |order| && exists t :: 0 <= t < |order| && order[t].ref == ref && owners[t] == i
  }

  lemma OwnedStays(order: seq<RefBinding>, owners: seq<nat>, last: nat, ref: string, i: nat)
    requires |order| == |owners| == last + 1 && Owned(order[..last], owners[..last], ref, i)
    ensures Owned(order, owners, ref, i)
    ensures NoDuplicates(owners) ==> i != owners[last]
  {
    var t :| 0 <= t < last && order[..last][t].ref == ref && owners[..last][t] == i;
    assert order[t].ref == ref && owners[t] == i;
  }

  // What `binding` was made for is still unmatched: no other node takes its ref.
  lemma OnlyOwnerTakes(key: TextKey, snapshotId: int, nodes: seq<NodeFacts>, binding: RefBinding, p: Pass, own: nat)
    requires |p.refs| == |nodes| && RemainingAreUnassigned(p)
    requires own < |nodes| && p.refs[own] == "" && MadeFor(key, binding, nodes[own])
    ensures var q := ReuseOne(key, snapshotId, nodes, binding, p);
      q.refs == p.refs || q.refs == p.refs[own := binding.ref]
  {
    OwnSignature(key, binding, nodes[own]);
    assert own in p.remaining;
    var k :| 0 <= k < |p.remaining| && p.remaining[k] == own;
    SelectsOnlyItself(key, binding.ref, Select(nodes, p.remaining), k);
  }

  lemma {:induction false} ReuseStaysPut(key: TextKey, snapshotId: int, nodes: seq<NodeFacts>,
      order: seq<RefBinding>, owners: seq<nat>)
    requires DistinctRefs(order) && AllPresent(key, nodes, order, owners)
    ensures var p := Reuse(key, snapshotId, nodes, order);
      forall i :: 0 <= i < |nodes| && p.refs[i] != "" ==> Owned(order, owners, p.refs[i], i)
  {
    if order != [] {
      var last := |order| - 1;
      ReuseStaysPut(key, snapshotId, nodes, order[..last], owners[..last]);
      ReuseIsOneToOne(key, snapshotId, nodes, order[..last]);
      OneMoreStaysPut(key, snapshotId, nodes, order, owners, Reuse(key, snapshotId, nodes, order[..last]));
    }
  }

  lemma OneMoreStaysPut(key: TextKey, snapshotId: int, nodes: seq<NodeFacts>, order: seq<RefBinding>,
                        owners: seq<nat>, p: Pass)
    requires order != [] && AllPresent(key, nodes, order, owners)
    requires |p.refs| == |nodes| && RemainingAreUnassigned(p)
    requires forall i :: 0 <= i < |nodes| && p.refs[i] != "" ==>
      Owned(order[..|order| - 1], owners[..|order| - 1], p.refs[i], i)
    ensures var q := ReuseOne(key, snapshotId, nodes, order[|order| - 1], p);
      forall i :: 0 <= i < |nodes| && q.refs[i] != "" ==> Owned(order, owners, q.refs[i], i)
  {
    var last := |order| - 1;
    forall i | 0 <= i < |nodes| && p.refs[i] != ""
      ensures Owned(order, owners, p.refs[i], i) && i != owners[last]
    {
      OwnedStays(order, owners, last, p.refs[i], i);
    }
    assert Owned(order, owners, order[last].ref, owners[last]);
    OnlyOwnerTakes(key, snapshotId, nodes, order[last], p, owners[last]);
  }

  // The node that `binding` of the registry `made` names sits at j on the new screen.
  ghost predicate SitsAt(before: seq<NodeFacts>, made: Pass, after: seq<NodeFacts>, binding: RefBinding, j: nat)
    requires |made.refs| == |before|
  {
    j < |after| && exists i :: 0 <= i < |before| && made.refs[i] == binding.ref && before[i] == after[j]
  }

  lemma {:induction false} OwnersOf(key: TextKey, before: seq<NodeFacts>, made: Pass, snapshotId: int,
      after: seq<NodeFacts>, order: seq<RefBinding>)
    returns (owners: seq<nat>)
    requires OneToOne(key, snapshotId, before, made)
    requires forall b :: b in order ==> b.ref in made.bindings && made.bindings[b.ref] == b
    requires forall i :: 0 <= i < |before| ==> before[i] in after
    ensures |owners| == |order|
    ensures forall t :: 0 <= t < |order| ==>
      SitsAt(before, made, after, order[t], owners[t]) && MadeFor(key, order[t], after[owners[t]])
  {
    if order == [] {
      owners := [];
    } else {
      var last := |order| - 1;
      owners := OwnersOf(key, before, made, snapshotId, after, order[..last]);
      assert order[last] in order;
      var i :| 0 <= i < |before| && made.refs[i] == order[last].ref;
      assert BindsNode(key, snapshotId, before, made, i);
      var j :| 0 <= j < |after| && after[j] == before[i];
      assert SitsAt(before, made, after, order[last], j);
      assert forall t :: 0 <= t < last ==> order[..last][t] == order[t];
      owners := owners + [j];
    }
  }

  lemma OwnersAreDistinct(before: seq<NodeFacts>, made: Pass, after: seq<NodeFacts>, order: seq<RefBinding>,
      owners: seq<nat>)
    requires |made.refs| == |before| && DistinctNodes(before) && DistinctRefs(order) && |owners| == |order|
    requires forall t :: 0 <= t < |order| ==> SitsAt(before, made, after, order[t], owners[t])
    ensures NoDuplicates(owners)
  {
    forall s, t | 0 <= s < t < |owners| ensures owners[s] != owners[t] {
      var i :| 0 <= i < |before| && made.refs[i] == order[s].ref && before[i] == after[owners[s]];
      var j :| 0 <= j < |before| && made.refs[j] == order[t].ref && before[j] == after[owners[t]];
    }
  }

  lemma ListingOfWellKeyed(bindings: Bindings, order: seq<RefBinding>)
    requires WellKeyed(bindings) && SortedListing(bindings, order)
    ensures DistinctRefs(order)
    ensures forall b :: b in order <==> b.ref in bindings && bindings[b.ref] == b
  {
    ListingMeaning(bindings, order);
    forall s, t | 0 <= s < t < |order| ensures order[s].ref != order[t].ref {
      assert order[s] in order && order[t] in order;
    }
    forall t | 0 <= t < |order| ensures order[t].ref != "" {
      assert order[t] in order;
    }
  }

  lemma MatchedRefsStayPut(key: TextKey, before: seq<NodeFacts>, firstId: int, first: Pass,
                           after: seq<NodeFacts>, secondId: int, order: seq<RefBinding>, i: nat)
    returns (k: nat)
    requires OneToOne(key, firstId, before, first) && DistinctNodes(before) && DistinctRefs(order)
    requires forall b :: b in order ==> b.ref in first.bindings && first.bindings[b.ref] == b
    requires forall k :: 0 <= k < |before| ==> before[k] in after
    requires i < |after| && Reuse(key, secondId, after, order).refs[i] != ""
    ensures k < |before| && before[k] == after[i]
    ensures first.refs[k] == Reuse(key, secondId, after, order).refs[i]
  {
    var owners := OwnersOf(key, before, first, firstId, after, order);
    OwnersAreDistinct(before, first, after, order, owners);
    ReuseStaysPut(key, secondId, after, order, owners);
    var ref := Reuse(key, secondId, after, order).refs[i];
    var t :| 0 <= t < |order| && order[t].ref == ref && owners[t] == i;
    k :| 0 <= k < |before| && first.refs[k] == ref && before[k] == after[i];
  }

  // Whatever new nodes appear and however the nodes are shuffled: while every old node is still
  // there, a ref that is reused stays on the very node it named before.
  lemma ReusedRefsStayPut(key: TextKey, before: seq<NodeFacts>, firstId: int, firstOrder: seq<RefBinding>,
                          after: seq<NodeFacts>, secondId: int, order: seq<RefBinding>, i: nat)
    requires DistinctRefs(firstOrder) && DistinctNodes(before)
    requires forall k :: 0 <= k < |before| ==> before[k] in after
    requires SortedListing(Reconciled(key, firstId, before, firstOrder).bindings, order)
    requires i < |after|
    ensures var first, second := Reconciled(key, firstId, before, firstOrder), Reconciled(key, secondId, after, order);
      second.refs[i] in second.bindings && (second.bindings[second.refs[i]].reused ==>
        exists k :: 0 <= k < |before| && first.refs[k] == second.refs[i] && before[k] == after[i])
  {
    var first := Reconciled(key, firstId, before, firstOrder);
    ReconcileIsOneToOne(key, firstId, before, firstOrder);
    ReconcileIsBijection(key, firstId, before, firstOrder);
    ListingOfWellKeyed(first.bindings, order);
    FreshRefsAreSmallest(key, secondId, after, order, i);
    if Reuse(key, secondId, after, order).refs[i] != "" {
      var k := MatchedRefsStayPut(key, before, firstId, first, after, secondId, order, i);
    }
  }

  lemma NextFreeIs(used: set<string>, next: nat, k: nat)
    requires 1 <= next && 1 <= k && RefName(k) !in used
    requires forall j :: 1 <= j < next ==> RefName(j) in used
    requires forall j :: 1 <= j < k ==> RefName(j) in used
    ensures NextFree(used, next) == k
  {
  }

  // Candidate i holds the name of number i + 1, if it has a ref at all; the first k all have one.
  ghost predicate InSequence(p: Pass, k: nat) {
    forall i :: 0 <= i < |p.refs| && (i < k || p.refs[i] != "") ==> p.refs[i] == RefName(i + 1)
  }

  lemma CounterReaches(key: TextKey, snapshotId: int, nodes: seq<NodeFacts>, p: Pass, next: nat, k: nat)
    requires k < |nodes| && 1 <= next && OneToOne(key, snapshotId, nodes, p)
    requires InSequence(p, k) && p.refs[k] == ""
    requires forall j :: 1 <= j < next ==> RefName(j) in p.used
    ensures NextFree(p.used, next) == k + 1
  {
    if RefName(k + 1) in p.used {
      var i :| 0 <= i < |nodes| && p.refs[i] == RefName(k + 1);
      RefNameInjective(i + 1, k + 1);
      assert false;
    }
    forall j | 1 <= j < k + 1 ensures RefName(j) in p.used {
      assert p.refs[j - 1] == RefName(j);
      assert BindsNode(key, snapshotId, nodes, p, j - 1);
    }
    NextFreeIs(p.used, next, k + 1);
  }

  lemma CounterIsInStep(key: TextKey, snapshotId: int, nodes: seq<NodeFacts>, start: Pass, k: nat)
    requires k < |nodes| && OneToOne(key, snapshotId, nodes, start)
    requires InSequence(Number(key, snapshotId, nodes, start, k).0, k)
    ensures var (p, next) := Number(key, snapshotId, nodes, start, k);
      p.refs[k] == "" ==> NextFree(p.used, next) == k + 1
  {
    var (p, next) := Number(key, snapshotId, nodes, start, k);
    if p.refs[k] == "" {
      NumberIsSmallestFree(key, snapshotId, nodes, start, k);
      NumberIsOneToOne(key, snapshotId, nodes, start, k);
      CounterReaches(key, snapshotId, nodes, p, next, k);
    }
  }

  // If the matched candidates hold their own numbers, the rest are given theirs.
  lemma {:induction false} NumberedInSequence(key: TextKey, snapshotId: int, nodes: seq<NodeFacts>, start: Pass, k: nat)
    requires k <= |nodes| && OneToOne(key, snapshotId, nodes, start) && InSequence(start, 0)
    ensures InSequence(Number(key, snapshotId, nodes, start, k).0, k)
  {
    if k > 0 {
      NumberedInSequence(key, snapshotId, nodes, start, k - 1);
      NextInSequence(key, snapshotId, nodes, start, k - 1);
    }
  }

  lemma NextInSequence(key: TextKey, snapshotId: int, nodes: seq<NodeFacts>, start: Pass, k: nat)
    requires k < |nodes| && OneToOne(key, snapshotId, nodes, start)
    requires InSequence(Number(key, snapshotId, nodes, start, k).0, k)
    ensures InSequence(Number(key, snapshotId, nodes, start, k + 1).0, k + 1)
  {
    CounterIsInStep(key, snapshotId, nodes, start, k);
    SequenceGrows(key, snapshotId, nodes, Number(key, snapshotId, nodes, start, k).0, k);
  }

  lemma SequenceGrows(key: TextKey, snapshotId: int, nodes: seq<NodeFacts>, p: Pass, k: nat)
    requires |p.refs| == |nodes| && k < |nodes| && InSequence(p, k)
    ensures p.refs[k] != "" ==> InSequence(p, k + 1)
    ensures InSequence(Bind(key, snapshotId, nodes, p, k, RefName(k + 1), false), k + 1)
  {
  }

  // A registry built with no predecessor numbers its nodes n1, n2, ... in candidate order.
  lemma NumberedFromScratch(key: TextKey, snapshotId: int, nodes: seq<NodeFacts>)
    ensures InSequence(Reconciled(key, snapshotId, nodes, []), |nodes|)
  {
    ReuseIsOneToOne(key, snapshotId, nodes, []);
    NumberedInSequence(key, snapshotId, nodes, Initial(|nodes|), |nodes|);
  }

  lemma MatchedAlike(key: TextKey, nodes: seq<NodeFacts>, firstId: int, firstOrder: seq<RefBinding>, secondId: int,
      order: seq<RefBinding>, i: nat)
    requires DistinctNodes(nodes) && DistinctRefs(firstOrder) && i < |nodes|
    requires SortedListing(Reconciled(key, firstId, nodes, firstOrder).bindings, order)
    ensures var ref := Reuse(key, secondId, nodes, order).refs[i];
      ref == "" || ref == Reconciled(key, firstId, nodes, firstOrder).refs[i]
  {
    var first := Reconciled(key, firstId, nodes, firstOrder);
    ReconcileIsOneToOne(key, firstId, nodes, firstOrder);
    NextListing(key, nodes, firstId, firstOrder, order);
    var ref := Reuse(key, secondId, nodes, order).refs[i];
    if ref != "" {
      var k := MatchedRefsStayPut(key, nodes, firstId, first, nodes, secondId, order, i);
      assert k == i;
    }
  }

  lemma NextListing(key: TextKey, nodes: seq<NodeFacts>, firstId: int, firstOrder: seq<RefBinding>,
      order: seq<RefBinding>)
    requires DistinctRefs(firstOrder)
    requires SortedListing(Reconciled(key, firstId, nodes, firstOrder).bindings, order)
    ensures DistinctRefs(order)
    ensures forall b :: b in order <==>
      var bindings := Reconciled(key, firstId, nodes, firstOrder).bindings; b.ref in bindings && bindings[b.ref] == b
  {
    ReconcileIsBijection(key, firstId, nodes, firstOrder);
    ListingOfWellKeyed(Reconciled(key, firstId, nodes, firstOrder).bindings, order);
  }

  // A refresh of an unchanged screen whose refs are in sequence leaves them in sequence.
  lemma SequenceIsKept(key: TextKey, nodes: seq<NodeFacts>, firstId: int, firstOrder: seq<RefBinding>, secondId: int,
      order: seq<RefBinding>)
    requires DistinctNodes(nodes) && DistinctRefs(firstOrder)
    requires InSequence(Reconciled(key, firstId, nodes, firstOrder), |nodes|)
    requires SortedListing(Reconciled(key, firstId, nodes, firstOrder).bindings, order)
    ensures InSequence(Reconciled(key, secondId, nodes, order), |nodes|)
  {
    var start := Reuse(key, secondId, nodes, order);
    forall i | 0 <= i < |nodes| && start.refs[i] != "" ensures start.refs[i] == RefName(i + 1) {
      MatchedAlike(key, nodes, firstId, firstOrder, secondId, order, i);
    }
    NextListing(key, nodes, firstId, firstOrder, order);
    ReuseIsOneToOne(key, secondId, nodes, order);
    NumberedInSequence(key, secondId, nodes, start, |nodes|);
  }

  // orders[k] lists the registry that refresh k starts from: none for the first one, and then
  // always the one that the refresh before has built. ids[k] is the snapshot of refresh k.
  ghost predicate RefreshedOverAndOver(key: TextKey, nodes: seq<NodeFacts>, ids: seq<int>,
                                       orders: seq<seq<RefBinding>>) {
    && |ids| == |orders| > 0 && orders[0] == []
    && forall k :: 0 < k < |ids| ==>
         SortedListing(Reconciled(key, ids[k - 1], nodes, orders[k - 1]).bindings, orders[k])
  }

  lemma {:induction false} SequenceStays(key: TextKey, nodes: seq<NodeFacts>, ids: seq<int>,
      orders: seq<seq<RefBinding>>, k: nat)
    requires DistinctNodes(nodes) && RefreshedOverAndOver(key, nodes, ids, orders) && k < |ids|
    ensures DistinctRefs(orders[k]) && InSequence(Reconciled(key, ids[k], nodes, orders[k]), |nodes|)
  {
    if k == 0 {
      NumberedFromScratch(key, ids[0], nodes);
    } else {
      SequenceStays(key, nodes, ids, orders, k - 1);
      NextListing(key, nodes, ids[k - 1], orders[k - 1], orders[k]);
      SequenceIsKept(key, nodes, ids[k - 1], orders[k - 1], ids[k], orders[k]);
    }
  }

  // However often an unchanged screen is refreshed, every node keeps exactly the ref that it got
  // when the first registry was built with no predecessor.
  lemma UnchangedScreenKeepsRefs(key: TextKey, nodes: seq<NodeFacts>, ids: seq<int>, orders: seq<seq<RefBinding>>,
                                 k: nat)
    requires DistinctNodes(nodes) && RefreshedOverAndOver(key, nodes, ids, orders) && k < |ids|
    ensures Reconciled(key, ids[k], nodes, orders[k]).refs == Reconciled(key, ids[0], nodes, []).refs
  {
    SequenceStays(key, nodes, ids, orders, 0);
    SequenceStays(key, nodes, ids, orders, k);
  }

  // Candidates of a screen are distinct nodes.
  lemma CandidateNodesDistinct(screen: CompiledScreen)
    ensures DistinctNodes(FactsOf(screen.RefCandidates()))
  {
    CandidatesDistinct(screen);
  }
}
