// Screen nodes, ref bindings and ref registries.
module RefModels {
  import opened Common

  // The normaliser that makes two texts comparable; any function will do.
  type TextKey = string -> string

  datatype Bounds = Bounds(left: int, top: int, right: int, bottom: int)

  // The fields of a semantic node that ref assignment reads and never writes.
  datatype NodeFacts = NodeFacts(
    group: string,
    rawRid: string,
    role: string,
    labelText: string,
    state: seq<string>,
    actions: seq<string>,
    resourceId: string,
    className: string,
    parentRole: string,
    parentLabel: string,
    siblingLabels: seq<string>,
    relativeBounds: Bounds)

  class SemanticNode {
    const facts: NodeFacts
    var ref: string

    constructor (facts: NodeFacts)
      ensures this.facts == facts && ref == ""
    {
      this.facts := facts;
      ref := "";
    }
  }

  function FactsOf(nodes: seq<SemanticNode>): (r: seq<NodeFacts>)
    ensures |r| == |nodes| && forall i :: 0 <= i < |nodes| ==> r[i] == nodes[i].facts
  {
    seq(|nodes|, i requires 0 <= i < |nodes| => nodes[i].facts)
  }

  datatype RefFingerprint = RefFingerprint(
    role: string,
    normalizedLabel: string,
    resourceId: string,
    className: string,
    parentRole: string,
    parentLabel: string,
    siblingLabels: seq<string>,
    relativeBounds: Bounds)

  datatype NodeHandle = NodeHandle(snapshotId: int, rid: string)

  datatype SemanticProfile = SemanticProfile(state: seq<string>, actions: seq<string>)

  datatype RefRepairSourceSignature = RefRepairSourceSignature(
    ref: string,
    fingerprint: RefFingerprint,
    state: seq<string>,
    actions: seq<string>)

  datatype RefBinding = RefBinding(
    ref: string,
    handle: NodeHandle,
    fingerprint: RefFingerprint,
    profile: SemanticProfile,
    reused: bool)

  type Bindings = map<string, RefBinding>

  class RefRegistry {
    var bindings: Bindings

    constructor ()
      ensures bindings == map[]
    {
      bindings := map[];
    }
  }

  // What every registry built by reconciliation satisfies: each binding sits under its own,
  // non-empty ref.
  predicate WellKeyed(bindings: Bindings) {
    forall r :: r in bindings ==> r != "" && bindings[r].ref == r
  }

  // The compiled screen, as far as ref assignment reads it.
  datatype CompiledScreen = CompiledScreen(
    blockingGroup: Option<string>,
    targets: seq<SemanticNode>,
    context: seq<SemanticNode>,
    dialog: seq<SemanticNode>,
    keyboard: seq<SemanticNode>,
    system: seq<SemanticNode>)
  {
    function Group(name: string): seq<SemanticNode> {
      if name == "targets" then targets
      else if name == "context" then context
      else if name == "dialog" then dialog
      else if name == "keyboard" then keyboard
      else if name == "system" then system
      else []
    }

    // The first focused input in the fixed group order.
    function FocusedInput(): Option<SemanticNode> {
      FirstFocused(targets + dialog + keyboard + system + context)
    }

    function RefPool(): seq<SemanticNode> {
      match blockingGroup
      case Some(name) => Group(name)
      case None => targets + dialog + keyboard + system
    }

    function RefCandidates(): seq<SemanticNode> {
      var admitted := Admitted(RefPool());
      match FocusedInput()
      case Some(node) => if Key(node) in Keys(admitted) then admitted else admitted + [node]
      case None => admitted
    }
  }

  function FirstFocused(nodes: seq<SemanticNode>): Option<SemanticNode> {
    if nodes == [] then None
    else if nodes[0].facts.role == "input" && "focused" in nodes[0].facts.state then Some(nodes[0])
    else FirstFocused(nodes[1..])
  }

  function Key(node: SemanticNode): (string, string) {
    (node.facts.group, node.facts.rawRid)
  }

  function Keys(nodes: seq<SemanticNode>): set<(string, string)> {
    set n | n in nodes :: Key(n)
  }

  // Nodes with actions, the first of each (group, rid) only.
  function Admitted(nodes: seq<SemanticNode>): seq<SemanticNode> {
    if nodes == [] then []
    else
      var front := Admitted(nodes[..|nodes| - 1]);
      var node := nodes[|nodes| - 1];
      if node.facts.actions == [] || Key(node) in Keys(front) then front else front + [node]
  }

  predicate DistinctKeys(nodes: seq<SemanticNode>) {
    forall i, j :: 0 <= i < j < |nodes| ==> Key(nodes[i]) != Key(nodes[j])
  }

  lemma KeysHave(nodes: seq<SemanticNode>, i: nat)
    requires i < |nodes|
    ensures Key(nodes[i]) in Keys(nodes)
  {
    assert nodes[i] in nodes;
  }

  lemma AppendDistinct(front: seq<SemanticNode>, node: SemanticNode)
    requires DistinctKeys(front) && Key(node) !in Keys(front)
    ensures DistinctKeys(front + [node])
  {
    forall i | 0 <= i < |front| ensures Key(front[i]) != Key(node) {
      KeysHave(front, i);
    }
  }

  lemma {:induction false} AdmittedDistinct(nodes: seq<SemanticNode>)
    ensures DistinctKeys(Admitted(nodes))
  {
    if nodes != [] {
      AdmittedDistinct(nodes[..|nodes| - 1]);
      var front, node := Admitted(nodes[..|nodes| - 1]), nodes[|nodes| - 1];
      if Key(node) !in Keys(front) {
        AppendDistinct(front, node);
      }
    }
  }

  // No two ref candidates of a screen share a group and a raw id.
  lemma CandidatesDistinct(screen: CompiledScreen)
    ensures DistinctKeys(screen.RefCandidates())
  {
    var admitted := Admitted(screen.RefPool());
    AdmittedDistinct(screen.RefPool());
    var focused := screen.FocusedInput();
    if focused.Some? && Key(focused.value) !in Keys(admitted) {
      AppendDistinct(admitted, focused.value);
    }
  }
}
