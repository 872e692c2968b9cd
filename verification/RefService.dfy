// Matching refs of an earlier screen to the nodes of a new one: the evidence, the confidence,
// and the choice of the best candidate.
module RefService {
  import opened Common
  import opened Ordering
  import opened RefModels

  const HIGH_CONFIDENCE_BUCKET := 2
  const MEDIUM_CONFIDENCE_BUCKET := 1
  const STRONG_BOUNDS_DISTANCE := 8
  const GAP_THRESHOLD_ANCHORED := 2
  const GAP_THRESHOLD_CONTEXTUAL := 3

  function Count(b: bool): nat {
    if b then 1 else 0
  }

  function Min(a: int, b: int): int {
    if a <= b then a else b
  }

  datatype RepairEvidence = RepairEvidence(
    labelMatch: bool,
    resourceMatch: bool,
    classMatch: bool,
    parentMatch: bool,
    siblingOverlap: nat,
    stateOverlap: nat,
    actionsOverlap: nat,
    boundsDistance: nat)
  {
    function IdentityAnchorCount(): nat {
      Count(labelMatch) + Count(resourceMatch)
    }

    predicate StrongBoundsMatch() {
      boundsDistance <= STRONG_BOUNDS_DISTANCE
    }

    function SemanticSignalCount(): nat {
      Count(siblingOverlap > 0) + Count(stateOverlap > 0) + Count(actionsOverlap > 0)
      + Count(StrongBoundsMatch())
    }

    function CorroborationCount(): nat {
      Count(classMatch) + Count(parentMatch) + SemanticSignalCount()
    }

    predicate ContextualAnchor() {
      classMatch && parentMatch && SemanticSignalCount() > 0
    }

    function Bucket(): Option<int> {
      if IdentityAnchorCount() >= 2 then Some(HIGH_CONFIDENCE_BUCKET)
      else if IdentityAnchorCount() == 1 then
        if SemanticSignalCount() >= 1 || CorroborationCount() >= 2 then Some(HIGH_CONFIDENCE_BUCKET)
        else Some(MEDIUM_CONFIDENCE_BUCKET)
      else if ContextualAnchor() then
        if SemanticSignalCount() >= 2 && CorroborationCount() >= 4 then Some(HIGH_CONFIDENCE_BUCKET)
        else Some(MEDIUM_CONFIDENCE_BUCKET)
      else None
    }

    function Score(): int {
      IdentityAnchorCount() * 8 + Count(classMatch) * 3 + Count(parentMatch) * 3
      + Min(siblingOverlap, 2) * 2 + Min(stateOverlap, 2) * 2 + Min(actionsOverlap, 2) * 2
      + Count(StrongBoundsMatch()) * 2
    }

    // This evidence is nowhere weaker than `other`.
    predicate AtLeast(other: RepairEvidence) {
      && (other.labelMatch ==> labelMatch)
      && (other.resourceMatch ==> resourceMatch)
      && (other.classMatch ==> classMatch)
      && (other.parentMatch ==> parentMatch)
      && siblingOverlap >= other.siblingOverlap
      && stateOverlap >= other.stateOverlap
      && actionsOverlap >= other.actionsOverlap
      && boundsDistance <= other.boundsDistance
    }
  }

  datatype RepairConfidence = RepairConfidence(bucket: int, score: int, evidence: RepairEvidence)
  {
    function SortKey(): seq<int> {
      [bucket, score, evidence.IdentityAnchorCount(), evidence.CorroborationCount(),
       evidence.siblingOverlap, evidence.stateOverlap, evidence.actionsOverlap,
       -(evidence.boundsDistance as int)]
    }

    predicate IsHighConfidence() {
      bucket >= HIGH_CONFIDENCE_BUCKET
    }

    function GapThreshold(): int {
      if evidence.IdentityAnchorCount() > 0 then GAP_THRESHOLD_ANCHORED
      else GAP_THRESHOLD_CONTEXTUAL
    }
  }

  predicate RepairGapTooSmall(best: RepairConfidence, runnerUp: RepairConfidence) {
    runnerUp.bucket == best.bucket && best.score - runnerUp.score < best.GapThreshold()
  }

  function KeysOf(key: TextKey, texts: seq<string>): set<string> {
    set t | t in texts && key(t) != "" :: key(t)
  }

  function SetOverlap(key: TextKey, left: seq<string>, right: seq<string>): nat {
    |KeysOf(key, left) * KeysOf(key, right)|
  }

  function Members(texts: seq<string>): set<string> {
    set t | t in texts
  }

  function Abs(x: int): nat {
    if x < 0 then -x else x
  }

  function BoundsDistanceScore(left: Bounds, right: Bounds): nat {
    Abs(left.left - right.left) + Abs(left.top - right.top)
    + Abs(left.right - right.right) + Abs(left.bottom - right.bottom)
  }

  function NonEmptyKeys(key: TextKey, labels: seq<string>): seq<string> {
    if labels == [] then []
    else (if key(labels[0]) != "" then [key(labels[0])] else []) + NonEmptyKeys(key, labels[1..])
  }

  function FingerprintForCandidate(key: TextKey, node: NodeFacts): RefFingerprint {
    RefFingerprint(node.role, key(node.labelText), key(node.resourceId), key(node.className),
                   key(node.parentRole), key(node.parentLabel),
                   NonEmptyKeys(key, node.siblingLabels), node.relativeBounds)
  }

  function BindingForCandidate(key: TextKey, ref: string, node: NodeFacts, snapshotId: int, reused: bool): RefBinding {
    RefBinding(ref, NodeHandle(snapshotId, node.rawRid), FingerprintForCandidate(key, node),
               SemanticProfile(node.state, node.actions), reused)
  }

  function SourceSignatureFromBinding(binding: RefBinding): RefRepairSourceSignature {
    RefRepairSourceSignature(binding.ref, binding.fingerprint, binding.profile.state, binding.profile.actions)
  }

  function EvidenceFor(key: TextKey, source: RefRepairSourceSignature, node: NodeFacts): RepairEvidence {
    var want := source.fingerprint;
    var have := FingerprintForCandidate(key, node);
    RepairEvidence(
      have.normalizedLabel == want.normalizedLabel && want.normalizedLabel != "",
      have.resourceId == want.resourceId && want.resourceId != "",
      have.className == want.className && want.className != "",
      have.parentRole == want.parentRole && have.parentLabel == want.parentLabel
        && (want.parentRole != "" || want.parentLabel != ""),
      |Members(have.siblingLabels) * Members(want.siblingLabels)|,
      SetOverlap(key, source.state, node.state),
      SetOverlap(key, source.actions, node.actions),
      BoundsDistanceScore(have.relativeBounds, want.relativeBounds))
  }

  function CandidateMatchConfidence(key: TextKey, source: RefRepairSourceSignature,
      node: NodeFacts): Option<RepairConfidence> {
    if node.role != source.fingerprint.role then None
    else
      var evidence := EvidenceFor(key, source, node);
      if evidence.IdentityAnchorCount() == 0 && !evidence.ContextualAnchor() then None
      else match evidence.Bucket()
        case None => None
        case Some(bucket) => Some(RepairConfidence(bucket, evidence.Score(), evidence))
  }

  // One entry of the list the best candidate is picked from; `index` is the candidate's position.
  datatype Scored = Scored(confidence: RepairConfidence, rid: string, index: nat)
  {
    function FullKey(): seq<int> {
      confidence.SortKey() + Codes(rid)
    }
  }

  function Descending(): (Scored, Scored) -> bool {
    (a: Scored, b: Scored) => LexLeq(b.FullKey(), a.FullKey())
  }

  function ScoreAll(key: TextKey, source: RefRepairSourceSignature, nodes: seq<NodeFacts>): seq<Scored> {
    if nodes == [] then []
    else
      var last := |nodes| - 1;
      var front := ScoreAll(key, source, nodes[..last]);
      match CandidateMatchConfidence(key, source, nodes[last])
      case None => front
      case Some(confidence) => front + [Scored(confidence, nodes[last].rawRid, last)]
  }

  function Pick(ranked: seq<Scored>): Option<Scored> {
    if ranked == [] then None
    else if !ranked[0].confidence.IsHighConfidence() then None
    else if |ranked| > 1 && RepairGapTooSmall(ranked[0].confidence, ranked[1].confidence) then None
    else Some(ranked[0])
  }

  // The position and confidence of the candidate that takes over the source's ref.
  function BestCandidate(key: TextKey, source: RefRepairSourceSignature, nodes: seq<NodeFacts>): Option<Scored> {
    Pick(Sort(ScoreAll(key, source, nodes), Descending()))
  }

  method ScoreCandidates(key: TextKey, source: RefRepairSourceSignature, candidates: seq<SemanticNode>)
    returns (scored: seq<Scored>)
    ensures scored == ScoreAll(key, source, FactsOf(candidates))
  {
    scored := [];
    ghost var nodes := FactsOf(candidates);
    for i := 0 to |candidates|
      invariant scored == ScoreAll(key, source, nodes[..i])
    {
      ScoreOneMore(key, source, nodes, i);
      var match' := CandidateMatchConfidence(key, source, candidates[i].facts);
      if match'.Some? {
        scored := scored + [Scored(match'.value, candidates[i].facts.rawRid, i)];
      }
    }
    assert nodes[..|candidates|] == nodes;
  }

  lemma ScoreOneMore(key: TextKey, source: RefRepairSourceSignature, nodes: seq<NodeFacts>, i: nat)
    requires i < |nodes|
    ensures ScoreAll(key, source, nodes[..i + 1])
      == match CandidateMatchConfidence(key, source, nodes[i])
         case None => ScoreAll(key, source, nodes[..i])
         case Some(confidence) => ScoreAll(key, source, nodes[..i]) + [Scored(confidence, nodes[i].rawRid, i)]
  {
    assert nodes[..i + 1][..i] == nodes[..i];
  }

  method BestCandidateForSourceSignature(key: TextKey, source: RefRepairSourceSignature, candidates: seq<SemanticNode>)
    returns (index: int, confidence: Option<RepairConfidence>)
    ensures match BestCandidate(key, source, FactsOf(candidates))
            case None => index == -1 && confidence == None
            case Some(best) => index == best.index && confidence == Some(best.confidence)
  {
    var scored := ScoreCandidates(key, source, candidates);
    if scored == [] {
      return -1, None;
    }
    var ranked := Sort(scored, Descending());
    var best := ranked[0];
    if !best.confidence.IsHighConfidence() {
      return -1, None;
    }
    if |ranked| > 1 && RepairGapTooSmall(best.confidence, ranked[1].confidence) {
      return -1, None;
    }
    return best.index, Some(best.confidence);
  }

  // ---------- What the choice means ----------

  // Candidate i is a clear winner: high confidence, and every rival in the same bucket trails by
  // the gap threshold. Nothing but bucket and score is mentioned.
  ghost predicate ClearWinner(key: TextKey, source: RefRepairSourceSignature, nodes: seq<NodeFacts>, i: nat)
  {
    && i < |nodes|
    && var mine := CandidateMatchConfidence(key, source, nodes[i]);
    && mine.Some?
    && mine.value.IsHighConfidence()
    && forall j :: 0 <= j < |nodes| && j != i ==> !Threatens(key, source, mine.value, nodes[j])
  }

  predicate Threatens(key: TextKey, source: RefRepairSourceSignature, best: RepairConfidence, rival: NodeFacts) {
    var theirs := CandidateMatchConfidence(key, source, rival);
    theirs.Some? && RepairGapTooSmall(best, theirs.value)
  }

  lemma {:induction false} ScoreAllElements(key: TextKey, source: RefRepairSourceSignature,
      nodes: seq<NodeFacts>, s: Scored)
    ensures multiset(ScoreAll(key, source, nodes))[s] == if IsEntry(key, source, nodes, s) then 1 else 0
  {
    if nodes != [] {
      var last := |nodes| - 1;
      ScoreAllElements(key, source, nodes[..last], s);
      EntryOfFront(key, source, nodes, last, s);
      OneScoreMore(key, source, nodes, last, s);
    }
  }

  lemma OneScoreMore(key: TextKey, source: RefRepairSourceSignature, nodes: seq<NodeFacts>, last: nat, s: Scored)
    requires |nodes| == last + 1
    ensures multiset(ScoreAll(key, source, nodes))[s] == multiset(ScoreAll(key, source, nodes[..last]))[s]
            + if s.index == last && IsEntry(key, source, nodes, s) then 1 else 0
  {
    var confidence := CandidateMatchConfidence(key, source, nodes[last]);
    if confidence.Some? {
      OneMore(ScoreAll(key, source, nodes[..last]), Scored(confidence.value, nodes[last].rawRid, last), s);
    }
  }

  lemma EntryOfFront(key: TextKey, source: RefRepairSourceSignature, nodes: seq<NodeFacts>, last: nat, s: Scored)
    requires last < |nodes|
    ensures IsEntry(key, source, nodes[..last], s) <==> s.index < last && IsEntry(key, source, nodes, s)
  {
  }

  lemma OneMore<T>(front: seq<T>, last: T, x: T)
    ensures multiset(front + [last])[x] == multiset(front)[x] + if x == last then 1 else 0
  {
  }

  lemma DescendingIsPreorder()
    ensures TotalPreorder(Descending())
  {
    var d := Descending();
    forall x, y ensures d(x, y) || d(y, x) {
      LexTotal(x.FullKey(), y.FullKey());
    }
    forall x, y, z | d(x, y) && d(y, z) ensures d(x, z) {
      LexTransitive(z.FullKey(), y.FullKey(), x.FullKey());
    }
  }

  lemma LeadingFields(a: Scored, b: Scored)
    requires LexLeq(b.FullKey(), a.FullKey())
    ensures b.confidence.bucket <= a.confidence.bucket
    ensures b.confidence.bucket == a.confidence.bucket ==> b.confidence.score <= a.confidence.score
  {
    assert a.FullKey()[0] == a.confidence.bucket && a.FullKey()[1] == a.confidence.score;
    assert b.FullKey()[0] == b.confidence.bucket && b.FullKey()[1] == b.confidence.score;
    assert a.FullKey()[1..][0] == a.confidence.score && b.FullKey()[1..][0] == b.confidence.score;
  }

  ghost predicate RankingOf(key: TextKey, source: RefRepairSourceSignature, nodes: seq<NodeFacts>,
      ranked: seq<Scored>) {
    && (forall k :: 0 <= k < |ranked| ==> IsEntry(key, source, nodes, ranked[k]))
    && (forall k, l :: 0 <= k < l < |ranked| ==> LexLeq(ranked[l].FullKey(), ranked[k].FullKey()))
    && (forall k, l :: 0 <= k < l < |ranked| ==> ranked[k].index != ranked[l].index)
    && (forall j :: 0 <= j < |nodes| && CandidateMatchConfidence(key, source, nodes[j]).Some? ==>
          exists k :: 0 <= k < |ranked| && ranked[k].index == j)
  }

  predicate IsEntry(key: TextKey, source: RefRepairSourceSignature, nodes: seq<NodeFacts>, s: Scored) {
    && s.index < |nodes|
    && CandidateMatchConfidence(key, source, nodes[s.index]) == Some(s.confidence)
    && s.rid == nodes[s.index].rawRid
  }

  lemma DistinctPositions(key: TextKey, source: RefRepairSourceSignature, nodes: seq<NodeFacts>,
      ranked: seq<Scored>, k: nat, l: nat)
    requires multiset(ranked) == multiset(ScoreAll(key, source, nodes))
    requires k < l < |ranked|
    ensures ranked[k].index != ranked[l].index
  {
    assert ranked[k] in multiset(ranked) && ranked[l] in multiset(ranked);
    ScoreAllElements(key, source, nodes, ranked[k]);
    ScoreAllElements(key, source, nodes, ranked[l]);
    if ranked[k].index == ranked[l].index {
      Twice(ranked, k, l);
      assert false;
    }
  }

  lemma ScoredPosition(key: TextKey, source: RefRepairSourceSignature, nodes: seq<NodeFacts>,
      ranked: seq<Scored>, j: nat)
    requires multiset(ranked) == multiset(ScoreAll(key, source, nodes))
    requires j < |nodes| && CandidateMatchConfidence(key, source, nodes[j]).Some?
    ensures exists k :: 0 <= k < |ranked| && ranked[k].index == j
  {
    var s := Scored(CandidateMatchConfidence(key, source, nodes[j]).value, nodes[j].rawRid, j);
    ScoreAllElements(key, source, nodes, s);
    assert s in multiset(ranked);
  }

  lemma SortedScoresRank(key: TextKey, source: RefRepairSourceSignature, nodes: seq<NodeFacts>)
    ensures RankingOf(key, source, nodes, Sort(ScoreAll(key, source, nodes), Descending()))
  {
    var ranked := Sort(ScoreAll(key, source, nodes), Descending());
    SortKeeps(ScoreAll(key, source, nodes), Descending());
    forall k | 0 <= k < |ranked| ensures IsEntry(key, source, nodes, ranked[k]) {
      assert ranked[k] in multiset(ranked);
      ScoreAllElements(key, source, nodes, ranked[k]);
    }
    forall k, l | 0 <= k < l < |ranked|
      ensures LexLeq(ranked[l].FullKey(), ranked[k].FullKey())
      ensures ranked[k].index != ranked[l].index
    {
      DistinctPositions(key, source, nodes, ranked, k, l);
      DescendingIsPreorder();
      SortSorts(ScoreAll(key, source, nodes), Descending());
      assert Descending()(ranked[k], ranked[l]);
    }
    forall j | 0 <= j < |nodes| && CandidateMatchConfidence(key, source, nodes[j]).Some?
      ensures exists k :: 0 <= k < |ranked| && ranked[k].index == j
    {
      ScoredPosition(key, source, nodes, ranked, j);
    }
  }

  lemma BucketAtMostHigh(key: TextKey, source: RefRepairSourceSignature, node: NodeFacts)
    ensures var c := CandidateMatchConfidence(key, source, node);
      c.Some? ==> c.value.bucket <= HIGH_CONFIDENCE_BUCKET && c.value.GapThreshold() > 0
  {
  }

  // The chosen candidate is the clear winner, and a clear winner is always chosen: the sort fields
  // after bucket and score never decide the outcome.
  lemma BestIsClearWinner(key: TextKey, source: RefRepairSourceSignature, nodes: seq<NodeFacts>, i: nat)
    ensures (BestCandidate(key, source, nodes).Some? && BestCandidate(key, source, nodes).value.index == i)
            <==> ClearWinner(key, source, nodes, i)
    ensures ClearWinner(key, source, nodes, i) ==>
      Some(BestCandidate(key, source, nodes).value.confidence) == CandidateMatchConfidence(key, source, nodes[i])
  {
    var ranked := Sort(ScoreAll(key, source, nodes), Descending());
    SortedScoresRank(key, source, nodes);
    if Pick(ranked).Some? && Pick(ranked).value.index == i {
      PickedIsClear(key, source, nodes, ranked, i);
    }
    if ClearWinner(key, source, nodes, i) {
      ClearIsPicked(key, source, nodes, ranked, i);
    }
  }

  lemma PickedIsClear(key: TextKey, source: RefRepairSourceSignature, nodes: seq<NodeFacts>, ranked: seq<Scored>,
                      i: nat)
    requires RankingOf(key, source, nodes, ranked)
    requires Pick(ranked).Some? && Pick(ranked).value.index == i
    ensures ClearWinner(key, source, nodes, i)
  {
    var best := Pick(ranked).value;
    forall j | 0 <= j < |nodes| && j != i ensures !Threatens(key, source, best.confidence, nodes[j]) {
      if CandidateMatchConfidence(key, source, nodes[j]).Some? {
        var k :| 0 <= k < |ranked| && ranked[k].index == j;
        LeadingFields(ranked[0], ranked[1]);
        if k > 1 {
          LeadingFields(ranked[1], ranked[k]);
        }
      }
    }
  }

  lemma ClearIsPicked(key: TextKey, source: RefRepairSourceSignature, nodes: seq<NodeFacts>, ranked: seq<Scored>,
                      i: nat)
    requires RankingOf(key, source, nodes, ranked) && ClearWinner(key, source, nodes, i)
    ensures Pick(ranked).Some? && Pick(ranked).value.index == i
    ensures Some(Pick(ranked).value.confidence) == CandidateMatchConfidence(key, source, nodes[i])
  {
    var mine := CandidateMatchConfidence(key, source, nodes[i]).value;
    var k :| 0 <= k < |ranked| && ranked[k].index == i;
    BucketAtMostHigh(key, source, nodes[i]);
    if k > 0 {
      LeadingFields(ranked[0], ranked[k]);
      BucketAtMostHigh(key, source, nodes[ranked[0].index]);
      assert Threatens(key, source, mine, nodes[ranked[0].index]);
      assert false;
    }
    if |ranked| > 1 {
      assert !Threatens(key, source, mine, nodes[ranked[1].index]);
    }
  }

  // Shuffling the candidates changes neither whether one is chosen, nor which, nor its confidence.
  lemma BestIsPermutationInvariant(key: TextKey, source: RefRepairSourceSignature, a: seq<NodeFacts>, b: seq<NodeFacts>)
    requires multiset(a) == multiset(b)
    ensures BestCandidate(key, source, a).Some? <==> BestCandidate(key, source, b).Some?
    ensures BestCandidate(key, source, a).Some? ==>
      var x, y := BestCandidate(key, source, a).value, BestCandidate(key, source, b).value;
      x.index < |a| && y.index < |b| && a[x.index] == b[y.index] && x.confidence == y.confidence
  {
    if BestCandidate(key, source, a).Some? {
      var i := BestCandidate(key, source, a).value.index;
      var j := WinnerAfterShuffle(key, source, a, b, i);
    }
    if BestCandidate(key, source, b).Some? {
      var i := BestCandidate(key, source, b).value.index;
      var j := WinnerAfterShuffle(key, source, b, a, i);
    }
  }

  lemma WinnerAfterShuffle(key: TextKey, source: RefRepairSourceSignature, a: seq<NodeFacts>, b: seq<NodeFacts>, i: nat)
    returns (j: nat)
    requires multiset(a) == multiset(b)
    requires BestCandidate(key, source, a).Some? && BestCandidate(key, source, a).value.index == i
    ensures i < |a| && j < |b| && a[i] == b[j]
    ensures BestCandidate(key, source, b).Some? && BestCandidate(key, source, b).value.index == j
    ensures BestCandidate(key, source, b).value.confidence == BestCandidate(key, source, a).value.confidence
  {
    BestIsClearWinner(key, source, a, i);
    var mine := CandidateMatchConfidence(key, source, a[i]).value;
    assert a[i] in multiset(b);
    j :| 0 <= j < |b| && b[j] == a[i];
    forall k | 0 <= k < |b| && k != j ensures !Threatens(key, source, mine, b[k]) {
      assert b[k] in multiset(a);
      if b[k] == a[i] {
        Twice(b, j, k);
        var l := OtherPosition(a, i);
        assert !Threatens(key, source, mine, a[l]);
      } else {
        var l :| 0 <= l < |a| && a[l] == b[k];
        assert !Threatens(key, source, mine, a[l]);
      }
    }
    BestIsClearWinner(key, source, b, j);
  }

  lemma Twice<T>(s: seq<T>, j: nat, k: nat)
    requires j < |s| && k < |s| && j != k && s[j] == s[k]
    ensures multiset(s)[s[j]] >= 2
  {
    var l, h := if j < k then j else k, if j < k then k else j;
    assert s == s[..h] + [s[h]] + s[h + 1..];
    assert s[l] in multiset(s[..h]);
  }

  lemma OtherPosition<T>(s: seq<T>, i: nat) returns (l: nat)
    requires i < |s| && multiset(s)[s[i]] >= 2
    ensures l < |s| && l != i && s[l] == s[i]
  {
    assert s == s[..i] + [s[i]] + s[i + 1..];
    if s[i] in multiset(s[..i]) {
      l :| 0 <= l < i && s[l] == s[i];
    } else {
      assert s[i] in multiset(s[i + 1..]);
      l :| i < l < |s| && s[l] == s[i];
    }
  }

  // ---------- A node against its own signature ----------

  function SignatureOf(key: TextKey, ref: string, node: NodeFacts): RefRepairSourceSignature {
    SourceSignatureFromBinding(BindingForCandidate(key, ref, node, 0, false))
  }

  lemma OverlapAtMostSelf<T>(a: set<T>, b: set<T>)
    ensures |a * b| <= |a * a|
  {
    assert a * a == a;
    SubsetSize(a * b, a);
  }

  lemma {:induction false} SubsetSize<T>(a: set<T>, b: set<T>)
    requires a <= b
    ensures |a| <= |b|
  {
    if a != {} {
      var x :| x in a;
      SubsetSize(a - {x}, b - {x});
    }
  }

  // Bucket and score grow with the evidence.
  lemma BucketIsMonotone(strong: RepairEvidence, weak: RepairEvidence)
    requires strong.AtLeast(weak) && strong.StrongBoundsMatch()
    ensures weak.Bucket().Some? ==> strong.Bucket().Some? && strong.Bucket().value >= weak.Bucket().value
  {
    assert strong.SemanticSignalCount() >= weak.SemanticSignalCount();
  }

  lemma ScoreIsMonotone(strong: RepairEvidence, weak: RepairEvidence)
    requires strong.AtLeast(weak) && strong.StrongBoundsMatch()
    ensures strong.Score() >= weak.Score()
  {
    assert Min(strong.siblingOverlap, 2) >= Min(weak.siblingOverlap, 2);
    assert Min(strong.stateOverlap, 2) >= Min(weak.stateOverlap, 2);
    assert Min(strong.actionsOverlap, 2) >= Min(weak.actionsOverlap, 2);
    assert strong.IdentityAnchorCount() >= weak.IdentityAnchorCount();
  }

  lemma OwnEvidenceIsStrongest(key: TextKey, ref: string, node: NodeFacts, rival: NodeFacts)
    ensures var source := SignatureOf(key, ref, node);
      EvidenceFor(key, source, node).AtLeast(EvidenceFor(key, source, rival))
      && EvidenceFor(key, source, node).StrongBoundsMatch()
  {
    var own := Members(FingerprintForCandidate(key, node).siblingLabels);
    var theirs := Members(FingerprintForCandidate(key, rival).siblingLabels);
    OverlapAtMostSelf(KeysOf(key, node.state), KeysOf(key, rival.state));
    OverlapAtMostSelf(KeysOf(key, node.actions), KeysOf(key, rival.actions));
    OverlapAtMostSelf(own, theirs);
    assert own * theirs == theirs * own;
  }

  lemma ConfidenceIsMonotone(key: TextKey, source: RefRepairSourceSignature, node: NodeFacts, rival: NodeFacts)
    requires node.role == source.fingerprint.role
    requires EvidenceFor(key, source, node).AtLeast(EvidenceFor(key, source, rival))
    requires EvidenceFor(key, source, node).StrongBoundsMatch()
    ensures
      var self := CandidateMatchConfidence(key, source, node);
      var theirs := CandidateMatchConfidence(key, source, rival);
      theirs.Some? ==>
        self.Some? && self.value.bucket >= theirs.value.bucket && self.value.score >= theirs.value.score
  {
    var strong, weak := EvidenceFor(key, source, node), EvidenceFor(key, source, rival);
    BucketIsMonotone(strong, weak);
    ScoreIsMonotone(strong, weak);
    ConfidenceIs(key, source, node, strong);
    if rival.role == source.fingerprint.role {
      ConfidenceIs(key, source, rival, weak);
    }
  }

  lemma ConfidenceIs(key: TextKey, source: RefRepairSourceSignature, node: NodeFacts, evidence: RepairEvidence)
    requires node.role == source.fingerprint.role && evidence == EvidenceFor(key, source, node)
    ensures CandidateMatchConfidence(key, source, node).Some? <==> evidence.Bucket().Some?
    ensures evidence.Bucket().Some? ==>
      CandidateMatchConfidence(key, source, node).value
        == RepairConfidence(evidence.Bucket().value, evidence.Score(), evidence)
  {
  }

  // A node matches its own signature at least as well as any other node does.
  lemma SelfMatchDominates(key: TextKey, ref: string, node: NodeFacts, rival: NodeFacts)
    ensures var source := SignatureOf(key, ref, node);
      var self, theirs := CandidateMatchConfidence(key, source, node), CandidateMatchConfidence(key, source, rival);
      theirs.Some? ==>
        self.Some? && self.value.bucket >= theirs.value.bucket && self.value.score >= theirs.value.score
  {
    OwnEvidenceIsStrongest(key, ref, node, rival);
    ConfidenceIsMonotone(key, SignatureOf(key, ref, node), node, rival);
  }

  // So while the node itself is among the candidates, its signature can select only the node.
  lemma SelectsOnlyItself(key: TextKey, ref: string, nodes: seq<NodeFacts>, own: nat)
    requires own < |nodes|
    ensures var best := BestCandidate(key, SignatureOf(key, ref, nodes[own]), nodes);
      best.Some? ==> best.value.index == own
  {
    var source := SignatureOf(key, ref, nodes[own]);
    var best := BestCandidate(key, source, nodes);
    if best.Some? && best.value.index != own {
      var i := best.value.index;
      BestIsClearWinner(key, source, nodes, i);
      SelfMatchDominates(key, ref, nodes[own], nodes[i]);
      BucketAtMostHigh(key, source, nodes[own]);
      BucketAtMostHigh(key, source, nodes[i]);
      assert false;
    }
  }
}
