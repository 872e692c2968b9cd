// Which nodes of a screen may have a ref, in which order they are numbered, and in which order
// earlier refs have their turn.
module RefCandidates {
  import opened Common
  import opened Ordering
  import opened RefModels
  import opened RefReconcile

  // ---------- The candidates of a screen ----------

  // The node has actions, and no node before it has actions and its key.
  predicate FirstOfItsKey(nodes: seq<SemanticNode>, i: nat) {
    i < |nodes| && |nodes[i].facts.actions| > 0 && !HasKey(nodes[..i], nodes[i])
  }

  // The candidates stand at rising places, which are those of the first nodes of their keys.
  ghost predicate StandAt(nodes: seq<SemanticNode>, candidates: seq<SemanticNode>, at: seq<nat>) {
    && (forall i, j :: 0 <= i < j < |at| ==> at[i] < at[j])
    && |at| == |candidates|
    && (forall k :: 0 <= k < |at| ==> at[k] < |nodes| && candidates[k] == nodes[at[k]])
    && (forall i: nat :: i in at <==> FirstOfItsKey(nodes, i))
  }

  lemma {:induction false} AdmittedStand(nodes: seq<SemanticNode>) returns (at: seq<nat>)
    ensures StandAt(nodes, Admitted(nodes), at)
  {
    if nodes == [] {
      return [];
    }
    var last := |nodes| - 1;
    var before := AdmittedStand(nodes[..last]);
    KeyIsNewIff(nodes[..last], before, nodes[last]);
    at := if FirstOfItsKey(nodes, last) then before + [last] else before;
    OneMoreStands(nodes, last, Admitted(nodes[..last]), before);
  }

  lemma OneMoreStands(nodes: seq<SemanticNode>, last: nat, front: seq<SemanticNode>, before: seq<nat>)
    requires |nodes| == last + 1 && StandAt(nodes[..last], front, before)
    ensures FirstOfItsKey(nodes, last) ==> StandAt(nodes, front + [nodes[last]], before + [last])
    ensures !FirstOfItsKey(nodes, last) ==> StandAt(nodes, front, before)
  {
    forall i: nat ensures i in before <==> i < last && FirstOfItsKey(nodes, i) {
      assert i < last ==> nodes[..last][..i] == nodes[..i];
    }
    assert forall k :: 0 <= k < |before| ==> before[k] in before;
    assert forall i: nat :: i in before + [last] <==> i in before || i == last;
  }

  predicate HasKeyAt(nodes: seq<SemanticNode>, node: SemanticNode, j: int) {
    && 0 <= j < |nodes| && |nodes[j].facts.actions| > 0
    && nodes[j].facts.group == node.facts.group && nodes[j].facts.rawRid == node.facts.rawRid
  }

  predicate HasKey(nodes: seq<SemanticNode>, node: SemanticNode) {
    exists j :: 0 <= j < |nodes| && HasKeyAt(nodes, node, j)
  }

  lemma KeyIsNewIff(nodes: seq<SemanticNode>, at: seq<nat>, node: SemanticNode)
    requires StandAt(nodes, Admitted(nodes), at)
    ensures Key(node) in Keys(Admitted(nodes)) <==> HasKey(nodes, node)
  {
    var front := Admitted(nodes);
    if Key(node) in Keys(front) {
      var n :| n in front && Key(n) == Key(node);
      var k :| 0 <= k < |front| && front[k] == n;
      assert at[k] in at;
      assert HasKeyAt(nodes, node, at[k]);
    }
    if HasKey(nodes, node) {
      var j :| 0 <= j < |nodes| && HasKeyAt(nodes, node, j);
      var i := FirstWithKey(nodes, j);
      assert i in at;
      var k :| 0 <= k < |at| && at[k] == i;
      KeysHave(front, k);
    }
  }

  lemma {:induction false} FirstWithKey(nodes: seq<SemanticNode>, j: nat) returns (i: nat)
    requires j < |nodes| && |nodes[j].facts.actions| > 0
    ensures FirstOfItsKey(nodes, i) && Key(nodes[i]) == Key(nodes[j])
  {
    if FirstOfItsKey(nodes, j) {
      return j;
    }
    var m :| 0 <= m < j && HasKeyAt(nodes[..j], nodes[j], m);
    i := FirstWithKey(nodes, m);
  }

  // ---------- The focused input ----------

  predicate IsFocusedInput(node: SemanticNode) {
    node.facts.role == "input" && exists i :: 0 <= i < |node.facts.state| && node.facts.state[i] == "focused"
  }

  predicate FirstFocusedAt(nodes: seq<SemanticNode>, k: int) {
    0 <= k < |nodes| && IsFocusedInput(nodes[k]) && forall j :: 0 <= j < k ==> !IsFocusedInput(nodes[j])
  }

  lemma {:induction false} FirstFocusedIff(nodes: seq<SemanticNode>)
    ensures FirstFocused(nodes) == None <==> forall j :: 0 <= j < |nodes| ==> !IsFocusedInput(nodes[j])
    ensures forall k :: FirstFocusedAt(nodes, k) ==> FirstFocused(nodes) == Some(nodes[k])
  {
    if nodes != [] {
      var rest := nodes[1..];
      FirstFocusedIff(rest);
      if !IsFocusedInput(nodes[0]) {
        assert forall j :: 1 <= j < |nodes| ==> nodes[j] == rest[j - 1];
        assert forall j :: 0 <= j < |rest| ==> rest[j] == nodes[j + 1];
        forall k | FirstFocusedAt(nodes, k) ensures FirstFocused(nodes) == Some(nodes[k]) {
          assert FirstFocusedAt(rest, k - 1);
        }
      }
    }
  }

  lemma {:induction false} FirstOfBoth(a: seq<SemanticNode>, b: seq<SemanticNode>)
    ensures FirstFocused(a + b) == if FirstFocused(a).Some? then FirstFocused(a) else FirstFocused(b)
  {
    if a == [] {
      assert a + b == b;
    } else {
      FirstOfBoth(a[1..], b);
      assert (a + b)[1..] == a[1..] + b;
    }
  }

  // The groups are searched in one order: targets, dialog, keyboard, system, and context last.
  lemma FocusedInputIs(screen: CompiledScreen)
    ensures screen.FocusedInput()
      == if FirstFocused(screen.targets).Some? then FirstFocused(screen.targets)
         else if FirstFocused(screen.dialog).Some? then FirstFocused(screen.dialog)
         else if FirstFocused(screen.keyboard).Some? then FirstFocused(screen.keyboard)
         else if FirstFocused(screen.system).Some? then FirstFocused(screen.system)
         else FirstFocused(screen.context)
  {
    var a, b := screen.targets + screen.dialog, screen.keyboard;
    FirstOfBoth(screen.targets, screen.dialog);
    FirstOfBoth(a, b);
    FirstOfBoth(a + b, screen.system);
    FirstOfBoth(a + b + screen.system, screen.context);
  }

  // ---------- The pool ----------

  // Behind a blocking group no other group has candidates; without one the context has none.
  lemma PoolIs(screen: CompiledScreen)
    ensures screen.blockingGroup == None ==>
      screen.RefPool() == screen.targets + screen.dialog + screen.keyboard + screen.system
    ensures screen.blockingGroup == Some("targets") ==> screen.RefPool() == screen.targets
    ensures screen.blockingGroup == Some("dialog") ==> screen.RefPool() == screen.dialog
    ensures screen.blockingGroup == Some("keyboard") ==> screen.RefPool() == screen.keyboard
    ensures screen.blockingGroup == Some("system") ==> screen.RefPool() == screen.system
    ensures screen.blockingGroup == Some("context") ==> screen.RefPool() == screen.context
  {
  }

  // The focused input is a candidate whatever blocks its group and whether or not it has actions:
  // the last one, unless a candidate of the pool has its key.
  lemma CandidatesAre(screen: CompiledScreen)
    ensures var pool, focused := screen.RefPool(), screen.FocusedInput();
      screen.RefCandidates()
        == if focused.Some? && !HasKey(pool, focused.value) then Admitted(pool) + [focused.value] else Admitted(pool)
  {
    var pool, focused := screen.RefPool(), screen.FocusedInput();
    if focused.Some? {
      var at := AdmittedStand(pool);
      KeyIsNewIff(pool, at, focused.value);
    }
  }

  // ---------- The turns of earlier refs ----------

  predicate IsNumbered(ref: string, digits: string) {
    digits != "" && AllDigits(digits) && (ref == "n" + digits || ref == "n" + digits + "\n")
  }

  // A numbered ref is sorted by its number, and any other ref by a number that stands for all of them;
  // refs of one number by their own texts.
  lemma SortedBy(ref: string, digits: string)
    ensures |RefSortKey(ref)| > 0 && RefSortKey(ref)[1..] == Codes(ref)
    ensures IsNumbered(ref, digits) ==> RefSortKey(ref)[0] == ParseDecimal(digits)
    ensures (forall other :: !IsNumbered(ref, other)) ==> RefSortKey(ref)[0] == 1_000_000_000
  {
    if IsNumbered(ref, digits) {
      if ref == "n" + digits {
        assert ref[1..] == digits && IsDigit(ref[|ref| - 1]);
      } else {
        assert ref[1..|ref| - 1] == digits;
      }
    }
    if forall other :: !IsNumbered(ref, other) {
      NotNumbered(ref);
    }
  }

  lemma NotNumbered(ref: string)
    requires forall other :: !IsNumbered(ref, other)
    ensures RefSortKey(ref)[0] == 1_000_000_000
  {
    if |ref| >= 2 && ref[0] == 'n' {
      assert !IsNumbered(ref, ref[1..]) && !IsNumbered(ref, ref[1..|ref| - 1]);
      assert ref == "n" + ref[1..];
      if ref[|ref| - 1] == '\n' {
        assert ref == "n" + ref[1..|ref| - 1] + "\n";
      }
    }
  }

  // So n2 has its turn before n10.
  lemma SmallerNumberFirst(a: RefBinding, b: RefBinding, m: nat, n: nat)
    requires a.ref == "n" + Decimal(m) && b.ref == "n" + Decimal(n) && m < n
    ensures ByRef()(a, b) && !ByRef()(b, a)
  {
    ParseOfDecimal(m);
    ParseOfDecimal(n);
    SortedBy(a.ref, Decimal(m));
    SortedBy(b.ref, Decimal(n));
  }
}
