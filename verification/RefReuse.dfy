// When a ref is reused, said of the nodes alone: what makes two nodes likely to be the same, which
// candidate takes over a ref, and that refs follow their nodes from one screen to the next.
module RefReuse {
  import opened Common
  import opened RefModels
  import opened RefService
  import opened RefReconcile
  import opened RefStability

  // ---------- Likeness ----------

  // Texts are compared normalised; what is empty then says nothing.
  predicate SameText(key: TextKey, a: string, b: string) {
    key(a) == key(b) && key(a) != ""
  }

  predicate SameLabel(key: TextKey, was: NodeFacts, node: NodeFacts) {
    SameText(key, was.labelText, node.labelText)
  }

  predicate SameResource(key: TextKey, was: NodeFacts, node: NodeFacts) {
    SameText(key, was.resourceId, node.resourceId)
  }

  predicate SameClass(key: TextKey, was: NodeFacts, node: NodeFacts) {
    SameText(key, was.className, node.className)
  }

  predicate SameParent(key: TextKey, was: NodeFacts, node: NodeFacts) {
    && key(was.parentRole) == key(node.parentRole) && key(was.parentLabel) == key(node.parentLabel)
    && (key(was.parentRole) != "" || key(was.parentLabel) != "")
  }

  // The normalised texts that both lists have.
  function Shared(key: TextKey, a: seq<string>, b: seq<string>): set<string> {
    set i, j | 0 <= i < |a| && 0 <= j < |b| && SameText(key, a[i], b[j]) :: key(a[i])
  }

  function Distance(a: int, b: int): nat {
    if a < b then b - a else a - b
  }

  predicate Near(a: Bounds, b: Bounds) {
    Distance(a.left, b.left) + Distance(a.top, b.top) + Distance(a.right, b.right) + Distance(a.bottom, b.bottom) <= 8
  }

  function One(flag: bool): nat {
    if flag then 1 else 0
  }

  function Anchors(key: TextKey, was: NodeFacts, node: NodeFacts): nat {
    One(SameLabel(key, was, node)) + One(SameResource(key, was, node))
  }

  function Signals(key: TextKey, was: NodeFacts, node: NodeFacts): nat {
    One(Shared(key, was.siblingLabels, node.siblingLabels) != {}) + One(Shared(key, was.state, node.state) != {})
    + One(Shared(key, was.actions, node.actions) != {}) + One(Near(was.relativeBounds, node.relativeBounds))
  }

  // Alike enough for the ref of one to go to the other: by label and resource id; by one of the two
  // and a signal, or class and parent; or by class, parent and two signals.
  predicate Alike(key: TextKey, was: NodeFacts, node: NodeFacts) {
    && was.role == node.role
    && match Anchors(key, was, node)
       case 2 => true
       case 1 =>
         Signals(key, was, node) >= 1 || (SameClass(key, was, node) && SameParent(key, was, node))
       case _ => SameClass(key, was, node) && SameParent(key, was, node) && Signals(key, was, node) >= 2
  }

  // How much speaks for it.
  function Points(key: TextKey, was: NodeFacts, node: NodeFacts): nat {
    (if SameLabel(key, was, node) then 8 else 0)
    + (if SameResource(key, was, node) then 8 else 0)
    + (if SameClass(key, was, node) then 3 else 0)
    + (if SameParent(key, was, node) then 3 else 0)
    + TwoEach(|Shared(key, was.siblingLabels, node.siblingLabels)|)
    + TwoEach(|Shared(key, was.state, node.state)|)
    + TwoEach(|Shared(key, was.actions, node.actions)|)
    + (if Near(was.relativeBounds, node.relativeBounds) then 2 else 0)
  }

  // Two points for each, but for two at the most.
  function TwoEach(n: nat): nat {
    match n
    case 0 => 0
    case 1 => 2
    case _ => 4
  }

  // The points by which a node must lead: fewer if label or resource id speaks for it.
  function Lead(key: TextKey, was: NodeFacts, node: NodeFacts): nat {
    if SameLabel(key, was, node) || SameResource(key, was, node) then 2 else 3
  }

  // ---------- What the evidence says of the nodes ----------

  lemma KeysOfMeaning(key: TextKey, texts: seq<string>, k: string)
    ensures k in KeysOf(key, texts) <==> exists i :: 0 <= i < |texts| && key(texts[i]) == k && k != ""
  {
  }

  lemma OverlapIsShared(key: TextKey, a: seq<string>, b: seq<string>)
    ensures KeysOf(key, a) * KeysOf(key, b) == Shared(key, a, b)
  {
    forall k ensures k in KeysOf(key, a) * KeysOf(key, b) <==> k in Shared(key, a, b) {
      KeysOfMeaning(key, a, k);
      KeysOfMeaning(key, b, k);
      if k in KeysOf(key, a) * KeysOf(key, b) {
        var i :| 0 <= i < |a| && key(a[i]) == k;
        var j :| 0 <= j < |b| && key(b[j]) == k;
        assert SameText(key, a[i], b[j]);
      }
    }
  }

  lemma {:induction false} NonEmptyKeysMeaning(key: TextKey, labels: seq<string>)
    ensures Members(NonEmptyKeys(key, labels)) == KeysOf(key, labels)
  {
    if labels != [] {
      NonEmptyKeysMeaning(key, labels[1..]);
      var head := if key(labels[0]) != "" then [key(labels[0])] else [];
      assert Members(head + NonEmptyKeys(key, labels[1..])) == Members(head) + Members(NonEmptyKeys(key, labels[1..]));
      assert labels == [labels[0]] + labels[1..];
      forall k ensures k in KeysOf(key, labels) <==> k in Members(head) + KeysOf(key, labels[1..]) {
        KeysOfMeaning(key, labels, k);
        KeysOfMeaning(key, labels[1..], k);
        KeysOfFirst(key, labels, k);
      }
    }
  }

  lemma KeysOfFirst(key: TextKey, labels: seq<string>, k: string)
    requires labels != []
    ensures k in KeysOf(key, labels) <==> (k == key(labels[0]) && k != "") || k in KeysOf(key, labels[1..])
  {
    if k in KeysOf(key, labels) {
      var i :| 0 <= i < |labels| && key(labels[i]) == k && k != "";
      assert i > 0 ==> labels[1..][i - 1] == labels[i];
    }
  }

  // The evidence that a binding made for `was` finds in `node`.
  predicate Tells(key: TextKey, e: RepairEvidence, was: NodeFacts, node: NodeFacts) {
    && (e.labelMatch <==> SameLabel(key, was, node))
    && (e.resourceMatch <==> SameResource(key, was, node))
    && (e.classMatch <==> SameClass(key, was, node))
    && (e.parentMatch <==> SameParent(key, was, node))
    && e.siblingOverlap == |Shared(key, was.siblingLabels, node.siblingLabels)|
    && e.stateOverlap == |Shared(key, was.state, node.state)|
    && e.actionsOverlap == |Shared(key, was.actions, node.actions)|
    && (e.StrongBoundsMatch() <==> Near(was.relativeBounds, node.relativeBounds))
  }

  lemma AnchorsTell(key: TextKey, ref: string, was: NodeFacts, node: NodeFacts)
    ensures var e := EvidenceFor(key, SignatureOf(key, ref, was), node);
      (e.labelMatch <==> SameLabel(key, was, node)) && (e.resourceMatch <==> SameResource(key, was, node))
  {
  }

  lemma ContextTells(key: TextKey, ref: string, was: NodeFacts, node: NodeFacts)
    ensures var e := EvidenceFor(key, SignatureOf(key, ref, was), node);
      (e.classMatch <==> SameClass(key, was, node)) && (e.parentMatch <==> SameParent(key, was, node))
  {
  }

  lemma BoundsTell(key: TextKey, ref: string, was: NodeFacts, node: NodeFacts)
    ensures var e := EvidenceFor(key, SignatureOf(key, ref, was), node);
      e.StrongBoundsMatch() <==> Near(was.relativeBounds, node.relativeBounds)
  {
  }

  lemma EvidenceTells(key: TextKey, ref: string, was: NodeFacts, node: NodeFacts)
    ensures Tells(key, EvidenceFor(key, SignatureOf(key, ref, was), node), was, node)
  {
    AnchorsTell(key, ref, was, node);
    ContextTells(key, ref, was, node);
    BoundsTell(key, ref, was, node);
    SiblingsTell(key, was, node);
    OverlapIsShared(key, was.state, node.state);
    OverlapIsShared(key, was.actions, node.actions);
  }

  lemma SiblingsTell(key: TextKey, was: NodeFacts, node: NodeFacts)
    ensures Members(NonEmptyKeys(key, node.siblingLabels)) * Members(NonEmptyKeys(key, was.siblingLabels))
         == Shared(key, was.siblingLabels, node.siblingLabels)
  {
    NonEmptyKeysMeaning(key, was.siblingLabels);
    NonEmptyKeysMeaning(key, node.siblingLabels);
    OverlapIsShared(key, was.siblingLabels, node.siblingLabels);
  }

  lemma EmptyIffNone<T>(s: set<T>)
    ensures |s| > 0 <==> s != {}
  {
  }

  lemma CountsTell(key: TextKey, e: RepairEvidence, was: NodeFacts, node: NodeFacts)
    requires Tells(key, e, was, node)
    ensures e.IdentityAnchorCount() == Anchors(key, was, node)
    ensures e.SemanticSignalCount() == Signals(key, was, node)
    ensures e.Score() == Points(key, was, node)
  {
    SignalsTell(key, e, was, node);
    PointsTell(key, e, was, node);
  }

  lemma SignalsTell(key: TextKey, e: RepairEvidence, was: NodeFacts, node: NodeFacts)
    requires Tells(key, e, was, node)
    ensures e.SemanticSignalCount() == Signals(key, was, node)
  {
    EmptyIffNone(Shared(key, was.siblingLabels, node.siblingLabels));
    EmptyIffNone(Shared(key, was.state, node.state));
    EmptyIffNone(Shared(key, was.actions, node.actions));
  }

  lemma PointsTell(key: TextKey, e: RepairEvidence, was: NodeFacts, node: NodeFacts)
    requires Tells(key, e, was, node)
    ensures e.Score() == Points(key, was, node)
  {
    AtMostTwo(e.siblingOverlap);
    AtMostTwo(e.stateOverlap);
    AtMostTwo(e.actionsOverlap);
  }

  lemma AtMostTwo(n: nat)
    ensures Min(n, 2) * 2 == TwoEach(n)
  {
  }

  // A node is a match of high confidence exactly if it is alike, with its points and the lead that
  // it needs.
  lemma ConfidenceTells(key: TextKey, ref: string, was: NodeFacts, node: NodeFacts)
    ensures var c := CandidateMatchConfidence(key, SignatureOf(key, ref, was), node);
      && (c.Some? && c.value.IsHighConfidence() <==> Alike(key, was, node))
      && (c.Some? ==> c.value.score == Points(key, was, node) && c.value.GapThreshold() == Lead(key, was, node))
  {
    var source := SignatureOf(key, ref, was);
    var e := EvidenceFor(key, source, node);
    EvidenceTells(key, ref, was, node);
    CountsTell(key, e, was, node);
    if node.role == was.role {
      ConfidenceIs(key, source, node, e);
      BucketTells(e, Anchors(key, was, node), Signals(key, was, node));
    }
  }

  lemma BucketTells(e: RepairEvidence, anchors: nat, signals: nat)
    requires e.IdentityAnchorCount() == anchors && e.SemanticSignalCount() == signals
    ensures e.Bucket().Some? && e.Bucket().value >= HIGH_CONFIDENCE_BUCKET <==>
      match anchors
      case 2 => true
      case 1 => signals >= 1 || (e.classMatch && e.parentMatch)
      case _ => e.classMatch && e.parentMatch && signals >= 2
  {
  }

  // ---------- Which node takes the ref ----------

  // Node i is alike, and leads every other node that is.
  ghost predicate Leads(key: TextKey, was: NodeFacts, nodes: seq<NodeFacts>, i: nat) {
    && i < |nodes| && Alike(key, was, nodes[i])
    && forall j :: 0 <= j < |nodes| && j != i && Alike(key, was, nodes[j]) ==>
         Points(key, was, nodes[i]) >= Points(key, was, nodes[j]) + Lead(key, was, nodes[i])
  }

  lemma LeaderIsClear(key: TextKey, ref: string, was: NodeFacts, nodes: seq<NodeFacts>, i: nat)
    ensures Leads(key, was, nodes, i) <==> ClearWinner(key, SignatureOf(key, ref, was), nodes, i)
  {
    if i < |nodes| {
      ConfidenceTells(key, ref, was, nodes[i]);
      if Alike(key, was, nodes[i]) {
        forall j | 0 <= j < |nodes| && j != i
          ensures (Alike(key, was, nodes[j]) ==>
                    Points(key, was, nodes[i]) >= Points(key, was, nodes[j]) + Lead(key, was, nodes[i]))
             <==> !Threatens(key, SignatureOf(key, ref, was),
                             CandidateMatchConfidence(key, SignatureOf(key, ref, was), nodes[i]).value, nodes[j])
        {
          RivalTells(key, ref, was, nodes[i], nodes[j]);
        }
      }
    }
  }

  lemma RivalTells(key: TextKey, ref: string, was: NodeFacts, node: NodeFacts, rival: NodeFacts)
    requires Alike(key, was, node)
    ensures var source := SignatureOf(key, ref, was);
      var mine := CandidateMatchConfidence(key, source, node);
      mine.Some? && (Threatens(key, source, mine.value, rival) <==>
        Alike(key, was, rival) && Points(key, was, node) < Points(key, was, rival) + Lead(key, was, node))
  {
    var source := SignatureOf(key, ref, was);
    ConfidenceTells(key, ref, was, node);
    ConfidenceTells(key, ref, was, rival);
    BucketAtMostHigh(key, source, node);
    BucketAtMostHigh(key, source, rival);
  }

  // The ref of a binding made for `was` goes to node i if and only if that node leads.
  lemma PickedIff(key: TextKey, binding: RefBinding, was: NodeFacts, nodes: seq<NodeFacts>, i: nat)
    requires MadeFor(key, binding, was)
    ensures var best := BestCandidate(key, SourceSignatureFromBinding(binding), nodes);
      best.Some? && best.value.index == i <==> Leads(key, was, nodes, i)
  {
    OwnSignature(key, binding, was);
    LeaderIsClear(key, binding.ref, was, nodes, i);
    BestIsClearWinner(key, SourceSignatureFromBinding(binding), nodes, i);
  }

  // ---------- Refs follow their nodes ----------

  // before[t] is the node that order[t] was made for.
  predicate AllMadeFor(key: TextKey, order: seq<RefBinding>, before: seq<NodeFacts>) {
    |before| == |order| && forall t :: 0 <= t < |order| ==> MadeFor(key, order[t], before[t])
  }

  // One turn of the first loop gives the ref to the node that leads among those left, if one does.
  lemma TurnIff(key: TextKey, snapshotId: int, nodes: seq<NodeFacts>, binding: RefBinding, was: NodeFacts, p: Pass,
                k: nat)
    requires MadeFor(key, binding, was) && |p.refs| == |nodes| && InRange(p.remaining, |nodes|)
    ensures Leads(key, was, Select(nodes, p.remaining), k) ==>
      ReuseOne(key, snapshotId, nodes, binding, p) == Assign(key, snapshotId, nodes, binding.ref, p, k)
    ensures (forall j: nat :: !Leads(key, was, Select(nodes, p.remaining), j)) ==>
      ReuseOne(key, snapshotId, nodes, binding, p) == p
  {
    var pool := Select(nodes, p.remaining);
    PickedIff(key, binding, was, pool, k);
    var best := BestCandidate(key, SourceSignatureFromBinding(binding), pool);
    if best.Some? {
      PickedIff(key, binding, was, pool, best.value.index);
    }
  }

  // What a turn writes is the ref of its binding, to a node that had none and is alike.
  lemma TurnWritesAlike(key: TextKey, snapshotId: int, nodes: seq<NodeFacts>, binding: RefBinding, was: NodeFacts,
                        p: Pass, i: nat)
    requires MadeFor(key, binding, was) && |p.refs| == |nodes| && RemainingAreUnassigned(p) && i < |nodes|
    ensures var q := ReuseOne(key, snapshotId, nodes, binding, p);
      q.refs[i] == p.refs[i] || (p.refs[i] == "" && q.refs[i] == binding.ref && Alike(key, was, nodes[i]))
  {
    var pool := Select(nodes, p.remaining);
    if k: nat :| Leads(key, was, pool, k) {
      TurnIff(key, snapshotId, nodes, binding, was, p, k);
      assert p.remaining[k] in p.remaining;
    } else {
      TurnIff(key, snapshotId, nodes, binding, was, p, 0);
    }
  }

  // A ref is reused only by a node that is alike to the one it was made for.
  lemma {:induction false} ReusedAreAlike(key: TextKey, snapshotId: int, nodes: seq<NodeFacts>, order: seq<RefBinding>,
                                          before: seq<NodeFacts>, i: nat)
    returns (t: nat)
    requires DistinctRefs(order) && AllMadeFor(key, order, before)
    requires i < |nodes| && Reuse(key, snapshotId, nodes, order).refs[i] != ""
    ensures t < |order| && order[t].ref == Reuse(key, snapshotId, nodes, order).refs[i]
    ensures Alike(key, before[t], nodes[i])
  {
    assert order != [];
    var last := |order| - 1;
    var p := Reuse(key, snapshotId, nodes, order[..last]);
    ReuseIsOneToOne(key, snapshotId, nodes, order[..last]);
    TurnWritesAlike(key, snapshotId, nodes, order[last], before[last], p, i);
    if p.refs[i] != "" {
      t := ReusedAreAlike(key, snapshotId, nodes, order[..last], before[..last], i);
    } else {
      t := last;
    }
  }

  // A node to which nothing is alike that was offered so far has no ref yet.
  lemma NotTakenYet(key: TextKey, snapshotId: int, nodes: seq<NodeFacts>, order: seq<RefBinding>,
                    before: seq<NodeFacts>, i: nat)
    requires DistinctRefs(order) && AllMadeFor(key, order, before) && i < |nodes|
    requires forall s :: 0 <= s < |order| ==> !Alike(key, before[s], nodes[i])
    ensures Reuse(key, snapshotId, nodes, order).refs[i] == ""
  {
    if Reuse(key, snapshotId, nodes, order).refs[i] != "" {
      var t := ReusedAreAlike(key, snapshotId, nodes, order, before, i);
    }
  }

  lemma LeadsAmongFewer(key: TextKey, was: NodeFacts, nodes: seq<NodeFacts>, at: seq<nat>, k: nat)
    requires InRange(at, |nodes|) && NoDuplicates(at) && k < |at| && Leads(key, was, nodes, at[k])
    ensures Leads(key, was, Select(nodes, at), k)
  {
  }

  // After n turns of the first loop node i has the ref.
  ghost predicate HasRef(key: TextKey, snapshotId: int, nodes: seq<NodeFacts>, order: seq<RefBinding>, n: nat, i: nat,
                         ref: string)
  {
    n <= |order| && i < |nodes| && Reuse(key, snapshotId, nodes, order[..n]).refs[i] == ref
  }

  lemma NextTurnLeaves(key: TextKey, snapshotId: int, nodes: seq<NodeFacts>, order: seq<RefBinding>, n: nat, i: nat,
                       ref: string)
    requires DistinctRefs(order) && n < |order| && ref != "" && HasRef(key, snapshotId, nodes, order, n, i, ref)
    ensures HasRef(key, snapshotId, nodes, order, n + 1, i, ref)
  {
    assert order[..n + 1][..n] == order[..n];
    ReuseIsOneToOne(key, snapshotId, nodes, order[..n]);
    TakenIsLeftAlone(key, snapshotId, nodes, order[n], Reuse(key, snapshotId, nodes, order[..n]), i);
  }

  lemma {:induction false} StaysInTheEnd(history: seq<string>, n: nat)
    requires n < |history| && history[n] != ""
    requires forall m :: n <= m < |history| - 1 && history[m] != "" ==> history[m + 1] == history[m]
    ensures history[|history| - 1] == history[n]
    decreases |history| - n
  {
    if n < |history| - 1 {
      StaysInTheEnd(history, n + 1);
    }
  }

  // The ref of node i after each number of turns.
  ghost function History(key: TextKey, snapshotId: int, nodes: seq<NodeFacts>, order: seq<RefBinding>, i: nat)
    : (history: seq<string>)
    requires i < |nodes|
    ensures |history| == |order| + 1
    ensures forall m :: 0 <= m <= |order| ==> HasRef(key, snapshotId, nodes, order, m, i, history[m])
  {
    seq(|order| + 1, m requires 0 <= m <= |order| => Reuse(key, snapshotId, nodes, order[..m]).refs[i])
  }

  lemma OnceTakenStays(key: TextKey, snapshotId: int, nodes: seq<NodeFacts>, order: seq<RefBinding>, n: nat, i: nat,
                       history: seq<string>)
    requires DistinctRefs(order) && n <= |order| && i < |nodes|
    requires history == History(key, snapshotId, nodes, order, i) && history[n] != ""
    ensures history[|order|] == history[n]
  {
    forall m | n <= m < |order| && history[m] != "" ensures history[m + 1] == history[m] {
      NextTurnLeaves(key, snapshotId, nodes, order, m, i, history[m]);
    }
    StaysInTheEnd(history, n);
  }

  lemma TakenIsLeftAlone(key: TextKey, snapshotId: int, nodes: seq<NodeFacts>, binding: RefBinding, p: Pass, i: nat)
    requires |p.refs| == |nodes| && RemainingAreUnassigned(p) && i < |nodes| && p.refs[i] != ""
    ensures ReuseOne(key, snapshotId, nodes, binding, p).refs[i] == p.refs[i]
  {
    BestInRange(key, SourceSignatureFromBinding(binding), Select(nodes, p.remaining));
    var best := BestCandidate(key, SourceSignatureFromBinding(binding), Select(nodes, p.remaining));
    if best.Some? {
      assert p.remaining[best.value.index] in p.remaining;
    }
  }

  // The node that leads for a binding takes its ref when its turn comes, unless an earlier binding
  // was made for a node that is alike as well.
  lemma LeaderTakesTheRef(key: TextKey, snapshotId: int, nodes: seq<NodeFacts>, order: seq<RefBinding>,
                          before: seq<NodeFacts>, t: nat, i: nat)
    requires DistinctRefs(order) && AllMadeFor(key, order, before) && t < |order| && i < |nodes|
    requires Leads(key, before[t], nodes, i)
    requires forall s :: 0 <= s < t ==> !Alike(key, before[s], nodes[i])
    ensures Reuse(key, snapshotId, nodes, order[..t + 1]).refs[i] == order[t].ref
  {
    var p := Reuse(key, snapshotId, nodes, order[..t]);
    NotTakenYet(key, snapshotId, nodes, order[..t], before[..t], i);
    ReuseIsOneToOne(key, snapshotId, nodes, order[..t]);
    LeaderHasItsTurn(key, snapshotId, nodes, order[t], before[t], p, i);
    assert order[..t + 1][..t] == order[..t];
  }

  lemma LeaderHasItsTurn(key: TextKey, snapshotId: int, nodes: seq<NodeFacts>, binding: RefBinding, was: NodeFacts,
                         p: Pass, i: nat)
    requires |p.refs| == |nodes| && RemainingAreUnassigned(p) && i < |nodes| && p.refs[i] == ""
    requires MadeFor(key, binding, was) && Leads(key, was, nodes, i)
    ensures ReuseOne(key, snapshotId, nodes, binding, p).refs[i] == binding.ref
  {
    assert i in p.remaining;
    var k :| 0 <= k < |p.remaining| && p.remaining[k] == i;
    LeadsAmongFewer(key, was, nodes, p.remaining, k);
    TurnIff(key, snapshotId, nodes, binding, was, p, k);
  }

  // So it has the ref in the end.
  lemma LeaderKeepsTheRef(key: TextKey, snapshotId: int, nodes: seq<NodeFacts>, order: seq<RefBinding>,
                          before: seq<NodeFacts>, t: nat, i: nat)
    requires DistinctRefs(order) && AllMadeFor(key, order, before) && t < |order| && i < |nodes|
    requires Leads(key, before[t], nodes, i)
    requires forall s :: 0 <= s < t ==> !Alike(key, before[s], nodes[i])
    ensures Reconciled(key, snapshotId, nodes, order).refs[i] == order[t].ref
  {
    LeaderTakesTheRef(key, snapshotId, nodes, order, before, t, i);
    OnceTakenStays(key, snapshotId, nodes, order, t + 1, i, History(key, snapshotId, nodes, order, i));
    assert order[..|order|] == order;
    FreshRefsAreSmallest(key, snapshotId, nodes, order, i);
  }

  // The registry of a pass names every node of the screen, each by a ref of its own, and nothing else.
  ghost predicate IsRegistry(key: TextKey, id: int, before: seq<NodeFacts>, first: Pass) {
    && |first.refs| == |before| && NoDuplicates(first.refs)
    && (forall r :: r in first.bindings <==> r in first.refs)
    && (forall i :: 0 <= i < |before| ==> Names(key, id, first.bindings, first.refs[i], before[i]))
  }

  predicate ListsOnly(order: seq<RefBinding>, bindings: Bindings) {
    forall t :: 0 <= t < |order| ==> order[t].ref in bindings && bindings[order[t].ref] == order[t]
  }

  lemma MakerOf(key: TextKey, id: int, before: seq<NodeFacts>, first: Pass, b: RefBinding) returns (h: nat)
    requires IsRegistry(key, id, before, first) && b.ref in first.bindings && first.bindings[b.ref] == b
    ensures h < |before| && first.refs[h] == b.ref && MadeFor(key, b, before[h])
  {
    assert b.ref in first.refs;
    h :| 0 <= h < |before| && first.refs[h] == b.ref;
    assert Names(key, id, first.bindings, first.refs[h], before[h]);
  }

  // at[t] is where the node is that order[t] was made for.
  predicate MadeAt(key: TextKey, order: seq<RefBinding>, before: seq<NodeFacts>, refs: seq<string>, at: seq<nat>) {
    |at| == |order| && |refs| == |before|
    && forall t :: 0 <= t < |order| ==>
         at[t] < |before| && refs[at[t]] == order[t].ref && MadeFor(key, order[t], before[at[t]])
  }

  // The nodes that the bindings of a registry were made for.
  lemma {:induction false} MakersOf(key: TextKey, id: int, before: seq<NodeFacts>, first: Pass, order: seq<RefBinding>)
    returns (at: seq<nat>)
    requires IsRegistry(key, id, before, first) && ListsOnly(order, first.bindings)
    ensures MadeAt(key, order, before, first.refs, at)
  {
    at := [];
    for t := 0 to |order|
      invariant MadeAt(key, order[..t], before, first.refs, at)
    {
      var h := MakerOf(key, id, before, first, order[t]);
      at := at + [h];
    }
    assert order[..|order|] == order;
  }

  lemma MadeAtMeans(key: TextKey, order: seq<RefBinding>, before: seq<NodeFacts>, refs: seq<string>, at: seq<nat>)
    requires MadeAt(key, order, before, refs, at)
    ensures InRange(at, |before|) && AllMadeFor(key, order, Select(before, at))
  {
  }

  // The binding of node k is the only one that was made for it.
  lemma OnlyOwnBinding(key: TextKey, order: seq<RefBinding>, before: seq<NodeFacts>, refs: seq<string>, at: seq<nat>,
                       k: nat, t: nat, after: NodeFacts)
    requires MadeAt(key, order, before, refs, at) && DistinctRefs(order) && NoDuplicates(refs)
    requires k < |before| && t < |order| && order[t].ref == refs[k]
    requires forall h :: 0 <= h < |before| && h != k ==> !Alike(key, before[h], after)
    ensures at[t] == k && forall s :: 0 <= s < t ==> !Alike(key, before[at[s]], after)
  {
    forall s | 0 <= s < t ensures at[s] != k {
      assert order[s].ref != order[t].ref;
    }
  }

  lemma RegistryOfReconciled(key: TextKey, before: seq<NodeFacts>, id: int, firstOrder: seq<RefBinding>, first: Pass,
                             order: seq<RefBinding>)
    requires DistinctRefs(firstOrder) && first == Reconciled(key, id, before, firstOrder)
    requires SortedListing(first.bindings, order)
    ensures IsRegistry(key, id, before, first) && DistinctRefs(order) && ListsOnly(order, first.bindings)
    ensures forall k :: 0 <= k < |before| ==> exists t :: 0 <= t < |order| && order[t].ref == first.refs[k]
  {
    ReconcileIsBijection(key, id, before, firstOrder);
    NextListing(key, before, id, firstOrder, order);
    forall t | 0 <= t < |order| ensures order[t].ref in first.bindings && first.bindings[order[t].ref] == order[t] {
      assert order[t] in order;
    }
    forall k | 0 <= k < |before| ensures exists t :: 0 <= t < |order| && order[t].ref == first.refs[k] {
      assert Names(key, id, first.bindings, first.refs[k], before[k]);
      assert first.bindings[first.refs[k]] in order;
    }
  }

  lemma FollowsInRegistry(key: TextKey, before: seq<NodeFacts>, id: int, first: Pass, after: seq<NodeFacts>,
                          secondId: int, order: seq<RefBinding>, k: nat, i: nat, t: nat)
    requires IsRegistry(key, id, before, first) && DistinctRefs(order) && ListsOnly(order, first.bindings)
    requires k < |before| && i < |after| && t < |order| && order[t].ref == first.refs[k]
    requires Leads(key, before[k], after, i)
    requires forall h :: 0 <= h < |before| && h != k ==> !Alike(key, before[h], after[i])
    ensures Reconciled(key, secondId, after, order).refs[i] == first.refs[k]
  {
    var at := MakersOf(key, id, before, first, order);
    MadeAtMeans(key, order, before, first.refs, at);
    OnlyOwnBinding(key, order, before, first.refs, at, k, t, after[i]);
    LeaderKeepsTheRef(key, secondId, after, order, Select(before, at), t, i);
  }

  // From one screen to the next a ref follows its node: the node of the new screen that leads for
  // the node k of the earlier one has k's ref, if no other node of the earlier screen is alike to it.
  lemma RefFollowsItsNode(key: TextKey, before: seq<NodeFacts>, firstId: int, firstOrder: seq<RefBinding>,
                          after: seq<NodeFacts>, secondId: int, order: seq<RefBinding>, k: nat, i: nat)
    requires DistinctRefs(firstOrder) && k < |before| && i < |after|
    requires SortedListing(Reconciled(key, firstId, before, firstOrder).bindings, order)
    requires Leads(key, before[k], after, i)
    requires forall h :: 0 <= h < |before| && h != k ==> !Alike(key, before[h], after[i])
    ensures Reconciled(key, secondId, after, order).refs[i] == Reconciled(key, firstId, before, firstOrder).refs[k]
  {
    var first := Reconciled(key, firstId, before, firstOrder);
    RegistryOfReconciled(key, before, firstId, firstOrder, first, order);
    var t :| 0 <= t < |order| && order[t].ref == first.refs[k];
    FollowsInRegistry(key, before, firstId, first, after, secondId, order, k, i, t);
  }

  // And it goes nowhere else: a node that reuses a ref is alike to the node that had it.
  lemma RefNamesAlike(key: TextKey, before: seq<NodeFacts>, firstId: int, firstOrder: seq<RefBinding>,
                      after: seq<NodeFacts>, secondId: int, order: seq<RefBinding>, i: nat)
    requires DistinctRefs(firstOrder) && i < |after|
    requires SortedListing(Reconciled(key, firstId, before, firstOrder).bindings, order)
    ensures var first, second := Reconciled(key, firstId, before, firstOrder), Reconciled(key, secondId, after, order);
      second.refs[i] in second.bindings && (second.bindings[second.refs[i]].reused ==>
        exists k :: 0 <= k < |before| && first.refs[k] == second.refs[i] && Alike(key, before[k], after[i]))
  {
    var first := Reconciled(key, firstId, before, firstOrder);
    RegistryOfReconciled(key, before, firstId, firstOrder, first, order);
    FreshRefsAreSmallest(key, secondId, after, order, i);
    if Reuse(key, secondId, after, order).refs[i] != "" {
      var k := ReusedInRegistry(key, before, firstId, first, after, secondId, order, i);
    }
  }

  lemma ReusedInRegistry(key: TextKey, before: seq<NodeFacts>, id: int, first: Pass, after: seq<NodeFacts>,
                         secondId: int, order: seq<RefBinding>, i: nat)
    returns (k: nat)
    requires IsRegistry(key, id, before, first) && DistinctRefs(order) && ListsOnly(order, first.bindings)
    requires i < |after| && Reuse(key, secondId, after, order).refs[i] != ""
    ensures k < |before| && first.refs[k] == Reuse(key, secondId, after, order).refs[i]
    ensures Alike(key, before[k], after[i])
  {
    var at := MakersOf(key, id, before, first, order);
    MadeAtMeans(key, order, before, first.refs, at);
    var t := ReusedAreAlike(key, secondId, after, order, Select(before, at), i);
    k := at[t];
  }
}
