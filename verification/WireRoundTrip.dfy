// Dumping a valid node and validating the payload.
module WireRoundTrip {
  import opened Common
  import opened PublicScreen

  // What the wire keeps of a node: an explicit kind, no text on nodes, and no ref-bound fields
  // without a ref.
  function Canonical(n: PublicNode): PublicNode {
    if n.IsText() then
      n.(ref := None, state := [], actions := [], bounds := None, meta := None)
    else
      var bare := n.(kind := Some(n.KindOrNode()), text := None, children := CanonicalAll(n.children));
      if n.ref.Some? then bare
      else bare.(state := [], actions := [], bounds := None, meta := None)
  }

  function CanonicalAll(nodes: seq<PublicNode>): (r: seq<PublicNode>)
    ensures |r| == |nodes| && forall i :: 0 <= i < |nodes| ==> r[i] == Canonical(nodes[i])
    decreases nodes
  {
    if nodes == [] then [] else [Canonical(nodes[0])] + CanonicalAll(nodes[1..])
  }

  lemma PayloadAt(n: PublicNode, children: seq<Json>, name: Name)
    ensures Look(Payload(n, children), name) == FieldAt(n, children, name)
  {
  }

  lemma TextsReadBack(fields: map<Name, Json>, name: Name, items: seq<string>)
    requires Look(fields, name) == Some(Texts(items)) || (Look(fields, name) == None && items == [])
    ensures ReadTexts(fields, name) == Some(items)
  {
    if name in fields {
      var read := seq(|items|, i requires 0 <= i < |items| => fields[name].items[i].text);
      assert read == items;
    }
  }

  lemma NullableReadsBack(fields: map<Name, Json>, name: Name, o: Option<string>)
    requires Look(fields, name) in {MaybeText(o), Some(Nullable(o))}
    ensures ReadNullable(fields, name) == Some(o)
  {
  }

  lemma KindsDiffer()
    ensures KIND_NODE != KIND_CONTAINER && KIND_NODE != KIND_TEXT && KIND_CONTAINER != KIND_TEXT
  {
    assert |"node"| == 4 && |"container"| == 9;
    assert "node"[0] != "text"[0];
  }

  // Fields that hold what `wanted` needs assemble to it.
  ghost predicate Carries(fields: map<Name, Json>, wanted: PublicNode) {
    && CarriesRefFields(fields, wanted)
    && CarriesShared(fields, wanted)
    && KindName in fields && ReadKind(fields[KindName]) == Some(wanted.kind)
    && ReadText(fields, RoleName) == Some(wanted.role)
    && ReadText(fields, LabelName) == Some(wanted.caption)
    && ReadNullable(fields, TextName) == Some(wanted.text)
  }

  ghost predicate CarriesRefFields(fields: map<Name, Json>, wanted: PublicNode) {
    && ReadNullable(fields, RefName) == Some(wanted.ref)
    && ReadTexts(fields, StateName) == Some(wanted.state)
    && ReadTexts(fields, ActionsName) == Some(wanted.actions)
    && ReadBounds(fields) == Some(wanted.bounds)
    && ReadMeta(fields) == Some(wanted.meta)
  }

  ghost predicate CarriesShared(fields: map<Name, Json>, wanted: PublicNode) {
    && ReadTexts(fields, ScrollDirectionsName) == Some(wanted.scrollDirections)
    && ReadTexts(fields, SubmitRefsName) == Some(wanted.submitRefs)
    && ReadNullable(fields, WithinName) == Some(wanted.within)
    && ReadNullable(fields, ValueName) == Some(wanted.value)
    && ReadNullable(fields, OriginName) == Some(wanted.origin)
    && ReadNullable(fields, WindowRefName) == Some(wanted.windowRef)
    && ReadNullable(fields, AmbiguityName) == Some(wanted.ambiguity)
  }

  lemma CarriedAssembles(fields: map<Name, Json>, wanted: PublicNode)
    requires Carries(fields, wanted) && ValidFields(wanted) && ValidShape(wanted)
    ensures Assemble(fields, wanted.children) == Some(wanted)
  {
  }

  // What a dumped node's fields read as once normalised: normalising only makes the kind explicit
  // and turns empty meta into null.
  function NormalAt(n: PublicNode, children: seq<Json>, name: Name): Option<Json> {
    match name
    case KindName =>
      Some(match n.KindOrNode() case Container => KIND_CONTAINER case Node => KIND_NODE case Text => KIND_TEXT)
    case MetaName =>
      if n.IsText() || n.ref == None then None else if n.meta == None then Some(Null) else Some(DumpMeta(n.meta))
    case _ => FieldAt(n, children, name)
  }

  ghost predicate IsNormal(n: PublicNode, children: seq<Json>, fields: map<Name, Json>) {
    forall name :: Look(fields, name) == NormalAt(n, children, name)
  }

  lemma MetaIsNotEmpty(meta: Meta)
    ensures DumpMeta(Some(meta)) != Obj(map[])
  {
    assert ResourceIdName in DumpMeta(Some(meta)).fields;
  }

  // What a dumped node's fields read as once their kind is explicit.
  function KindedAt(n: PublicNode, children: seq<Json>, name: Name): Option<Json> {
    if name == KindName then NormalAt(n, children, KindName) else FieldAt(n, children, name)
  }

  lemma DumpIsKinded(n: PublicNode, children: seq<Json>, name: Name)
    requires Valid(n) && |children| == |n.children|
    ensures Look(Kinded(Payload(n, children)), name) == KindedAt(n, children, name)
  {
    PayloadAt(n, children, KindName);
    PayloadAt(n, children, ChildrenName);
    PayloadAt(n, children, name);
  }

  lemma TextHasNoRole(n: PublicNode, children: seq<Json>)
    requires Valid(n) && |children| == |n.children|
    ensures var kinded := Kinded(Payload(n, children));
      kinded[KindName] == KIND_TEXT ==> RoleName !in kinded && LabelName !in kinded
  {
    KindsDiffer();
    DumpIsKinded(n, children, KindName);
    DumpIsKinded(n, children, RoleName);
    DumpIsKinded(n, children, LabelName);
  }

  // What the meta field becomes, by what it and the ref field are.
  function MetaFor(ref: Option<Json>, meta: Option<Json>): Option<Json> {
    if ref == None || ref == Some(Null) then None
    else if meta == Some(Obj(map[])) then Some(Null)
    else meta
  }

  lemma MetaNormalizedAt(fields: map<Name, Json>, name: Name)
    ensures Look(MetaNormalized(fields), name)
         == if name == MetaName then MetaFor(Look(fields, RefName), Look(fields, MetaName)) else Look(fields, name)
  {
  }

  lemma MetaOfNormal(n: PublicNode, children: seq<Json>)
    ensures MetaFor(KindedAt(n, children, RefName), KindedAt(n, children, MetaName)) == NormalAt(n, children, MetaName)
  {
    if n.meta.Some? {
      MetaIsNotEmpty(n.meta.value);
    }
  }

  lemma NormalizedAt(n: PublicNode, children: seq<Json>, name: Name)
    requires Valid(n) && |children| == |n.children|
    ensures Look(MetaNormalized(Kinded(Payload(n, children))), name) == NormalAt(n, children, name)
  {
    MetaNormalizedAt(Kinded(Payload(n, children)), name);
    if name == MetaName {
      DumpIsKinded(n, children, RefName);
      DumpIsKinded(n, children, MetaName);
      MetaOfNormal(n, children);
    } else {
      DumpIsKinded(n, children, name);
    }
  }

  lemma DumpNormalizes(n: PublicNode, children: seq<Json>)
    requires Valid(n) && |children| == |n.children|
    ensures Normalize(Payload(n, children)).Some? && IsNormal(n, children, Normalize(Payload(n, children)).value)
  {
    TextHasNoRole(n, children);
    forall name ensures Look(MetaNormalized(Kinded(Payload(n, children))), name) == NormalAt(n, children, name) {
      NormalizedAt(n, children, name);
    }
  }

  lemma NormalCarriesShared(n: PublicNode, children: seq<Json>, fields: map<Name, Json>)
    requires Valid(n) && IsNormal(n, children, fields)
    ensures CarriesShared(fields, n)
  {
    NormalCarriesLists(n, children, fields);
    NormalCarriesTexts(n, children, fields);
    NormalCarriesWindow(n, children, fields);
  }

  lemma NormalCarriesTexts(n: PublicNode, children: seq<Json>, fields: map<Name, Json>)
    requires Valid(n) && IsNormal(n, children, fields)
    ensures ReadNullable(fields, WithinName) == Some(n.within) && ReadNullable(fields, ValueName) == Some(n.value)
    ensures ReadNullable(fields, OriginName) == Some(n.origin)
  {
    NormalText(n, children, fields, WithinName, n.within);
    NormalText(n, children, fields, ValueName, n.value);
    NormalText(n, children, fields, OriginName, n.origin);
  }

  lemma NormalCarriesWindow(n: PublicNode, children: seq<Json>, fields: map<Name, Json>)
    requires Valid(n) && IsNormal(n, children, fields)
    ensures ReadNullable(fields, WindowRefName) == Some(n.windowRef)
    ensures ReadNullable(fields, AmbiguityName) == Some(n.ambiguity)
  {
    NormalText(n, children, fields, WindowRefName, n.windowRef);
    NormalText(n, children, fields, AmbiguityName, n.ambiguity);
  }

  lemma NormalText(n: PublicNode, children: seq<Json>, fields: map<Name, Json>, name: Name, text: Option<string>)
    requires IsNormal(n, children, fields) && NormalAt(n, children, name) in {MaybeText(text), Some(Nullable(text))}
    ensures ReadNullable(fields, name) == Some(text)
  {
    assert Look(fields, name) == NormalAt(n, children, name);
    NullableReadsBack(fields, name, text);
  }

  lemma NormalCarriesLists(n: PublicNode, children: seq<Json>, fields: map<Name, Json>)
    requires Valid(n) && IsNormal(n, children, fields)
    ensures ReadTexts(fields, ScrollDirectionsName) == Some(n.scrollDirections)
    ensures ReadTexts(fields, SubmitRefsName) == Some(n.submitRefs)
  {
    TextsReadBack(fields, ScrollDirectionsName, n.scrollDirections);
    TextsReadBack(fields, SubmitRefsName, n.submitRefs);
  }

  lemma NormalCarriesRefFields(n: PublicNode, children: seq<Json>, fields: map<Name, Json>)
    requires Valid(n) && IsNormal(n, children, fields)
    ensures CarriesRefFields(fields, Canonical(n))
  {
    var wanted := Canonical(n);
    NullableReadsBack(fields, RefName, wanted.ref);
    TextsReadBack(fields, StateName, wanted.state);
    TextsReadBack(fields, ActionsName, wanted.actions);
    BoundsReadBack(n, children, fields);
    MetaReadsBack(n, children, fields);
  }

  lemma BoundsReadBack(n: PublicNode, children: seq<Json>, fields: map<Name, Json>)
    requires Valid(n) && IsNormal(n, children, fields)
    ensures ReadBounds(fields) == Some(Canonical(n).bounds)
  {
    assert Look(fields, BoundsName) == NormalAt(n, children, BoundsName);
  }

  lemma MetaReadsBack(n: PublicNode, children: seq<Json>, fields: map<Name, Json>)
    requires Valid(n) && IsNormal(n, children, fields)
    ensures ReadMeta(fields) == Some(Canonical(n).meta)
  {
    assert Look(fields, MetaName) == NormalAt(n, children, MetaName);
    if n.ref.Some? && n.meta.Some? && !n.IsText() {
      var meta := fields[MetaName].fields;
      NullableReadsBack(meta, ResourceIdName, n.meta.value.resourceId);
    }
  }

  lemma NormalCarriesKind(n: PublicNode, children: seq<Json>, fields: map<Name, Json>)
    requires Valid(n) && IsNormal(n, children, fields)
    ensures KindName in fields && ReadKind(fields[KindName]) == Some(Canonical(n).kind)
  {
    KindsDiffer();
    assert Look(fields, KindName) == NormalAt(n, children, KindName);
  }

  lemma NormalCarriesLabels(n: PublicNode, children: seq<Json>, fields: map<Name, Json>)
    requires Valid(n) && IsNormal(n, children, fields)
    ensures ReadText(fields, RoleName) == Some(Canonical(n).role)
    ensures ReadText(fields, LabelName) == Some(Canonical(n).caption)
    ensures ReadNullable(fields, TextName) == Some(Canonical(n).text)
  {
    assert Look(fields, RoleName) == NormalAt(n, children, RoleName);
    assert Look(fields, LabelName) == NormalAt(n, children, LabelName);
    NormalText(n, children, fields, TextName, Canonical(n).text);
  }

  lemma NormalCarries(n: PublicNode, children: seq<Json>, fields: map<Name, Json>)
    requires Valid(n) && IsNormal(n, children, fields)
    ensures Carries(fields, Canonical(n))
  {
    NormalCarriesShared(n, children, fields);
    NormalCarriesRefFields(n, children, fields);
    NormalCarriesKind(n, children, fields);
    NormalCarriesLabels(n, children, fields);
  }

  lemma CanonicalIsWellShaped(n: PublicNode)
    requires Valid(n)
    ensures ValidFields(Canonical(n)) && ValidShape(Canonical(n))
  {
  }

  lemma PayloadAssembles(n: PublicNode, children: seq<Json>)
    requires Valid(n) && |children| == |n.children|
    ensures var normal := Normalize(Payload(n, children));
      normal.Some? && Assemble(normal.value, CanonicalAll(n.children)) == Some(Canonical(n))
  {
    DumpNormalizes(n, children);
    var normal := Normalize(Payload(n, children)).value;
    NormalCarries(n, children, normal);
    CanonicalIsWellShaped(n);
    CarriedAssembles(normal, Canonical(n));
    assert n.IsText() ==> CanonicalAll(n.children) == n.children;
  }

  lemma PayloadFields(n: PublicNode, children: seq<Json>)
    requires Valid(n) && |children| == |n.children|
    ensures Payload(n, children).Keys <= NODE_FIELDS
    ensures Look(Payload(n, children), ChildrenName) == if children == [] then None else Some(Arr(children))
  {
    PayloadAt(n, children, ChildrenName);
  }

  lemma ValidatesAs(raw: map<Name, Json>, items: seq<Json>, children: seq<PublicNode>)
    requires raw.Keys <= NODE_FIELDS && Look(raw, ChildrenName) == (if items == [] then None else Some(Arr(items)))
    requires ValidateAll(items) == Some(children) && Normalize(raw).Some?
    ensures Validate(Obj(raw)) == Assemble(Normalize(raw).value, children)
  {
  }

  // Dump, validate: the canonical form of the node comes back, at any depth.
  lemma {:induction false} DumpValidates(n: PublicNode)
    requires Valid(n)
    ensures Validate(Dump(n)) == Some(Canonical(n))
    decreases n, 1
  {
    var items := DumpAll(n.children);
    DumpAllValidates(n.children);
    PayloadAssembles(n, items);
    PayloadFields(n, items);
    ValidatesAs(Payload(n, items), items, CanonicalAll(n.children));
  }

  lemma {:induction false} DumpAllValidates(nodes: seq<PublicNode>)
    requires AllValid(nodes)
    ensures ValidateAll(DumpAll(nodes)) == Some(CanonicalAll(nodes))
    decreases nodes, 0
  {
    if nodes != [] {
      DumpValidates(nodes[0]);
      DumpAllValidates(nodes[1..]);
      assert DumpAll(nodes)[1..] == DumpAll(nodes[1..]);
    }
  }

  lemma PayloadsAlike(n: PublicNode, children: seq<Json>)
    requires Valid(n)
    ensures Payload(Canonical(n), children) == Payload(n, children)
  {
    var c := Canonical(n);
    forall name ensures FieldAt(c, children, name) == FieldAt(n, children, name) {
      assert OptionalAt(c, children, name) == OptionalAt(n, children, name);
    }
  }

  // The canonical form is valid and dumps to the very same payload: dump, validate, dump is dump.
  lemma {:induction false} CanonicalDumpsAlike(n: PublicNode)
    requires Valid(n)
    ensures Valid(Canonical(n)) && Dump(Canonical(n)) == Dump(n)
    decreases n, 1
  {
    var c := Canonical(n);
    CanonicalAllDumpsAlike(n.children);
    CanonicalIsWellShaped(n);
    PayloadsAlike(n, DumpAll(n.children));
    if n.IsText() {
      assert c.children == n.children;
    } else {
      assert c.children == CanonicalAll(n.children);
      forall i | 0 <= i < |c.children| ensures Valid(c.children[i]) {}
    }
  }

  lemma DumpsAlikeTogether(a: seq<PublicNode>, b: seq<PublicNode>)
    requires |a| == |b| > 0 && Dump(a[0]) == Dump(b[0]) && DumpAll(a[1..]) == DumpAll(b[1..])
    ensures DumpAll(a) == DumpAll(b)
  {
  }

  lemma {:induction false} CanonicalAllDumpsAlike(nodes: seq<PublicNode>)
    requires AllValid(nodes)
    ensures AllValid(CanonicalAll(nodes)) && DumpAll(CanonicalAll(nodes)) == DumpAll(nodes)
    decreases nodes, 0
  {
    if nodes != [] {
      CanonicalDumpsAlike(nodes[0]);
      CanonicalAllDumpsAlike(nodes[1..]);
      DumpsAlikeTogether(CanonicalAll(nodes), nodes);
    }
  }

  // Two valid nodes look the same on the wire exactly when they have the same canonical form.
  lemma WireForgetsOnlyTheNonCanonical(a: PublicNode, b: PublicNode)
    requires Valid(a) && Valid(b)
    ensures Dump(a) == Dump(b) <==> Canonical(a) == Canonical(b)
  {
    DumpValidates(a);
    DumpValidates(b);
    CanonicalDumpsAlike(a);
    CanonicalDumpsAlike(b);
  }

  // ---------- What validation lets through ----------

  lemma NormalizedFields(raw: map<Name, Json>)
    requires Normalize(raw).Some?
    ensures var normal := Normalize(raw).value;
      && KindName in normal
      && (normal[KindName] == KIND_TEXT ==> RoleName !in normal && LabelName !in normal)
      && (RefName !in normal || normal[RefName] == Null ==> MetaName !in normal)
  {
  }

  lemma AssembledIsValid(fields: map<Name, Json>, children: seq<PublicNode>)
    requires KindName in fields && AllValid(children) && Assemble(fields, children).Some?
    requires fields[KindName] == KIND_TEXT ==> RoleName !in fields && LabelName !in fields
    requires RefName !in fields || fields[RefName] == Null ==> MetaName !in fields
    ensures Valid(Assemble(fields, children).value)
  {
    KindsDiffer();
  }

  // Whatever validation lets through, at any depth, is valid; so `Valid` says no less than it.
  lemma {:induction false} ValidatedIsValid(j: Json)
    ensures Validate(j).Some? ==> Valid(Validate(j).value)
    decreases j, 1
  {
    if Validate(j).Some? {
      var raw := j.fields;
      if ChildrenName in raw {
        ValidatedAllValid(raw[ChildrenName].items);
      }
      var children := if ChildrenName in raw then ValidateAll(raw[ChildrenName].items).value else [];
      NormalizedFields(raw);
      AssembledIsValid(Normalize(raw).value, children);
    }
  }

  lemma {:induction false} ValidatedAllValid(items: seq<Json>)
    ensures ValidateAll(items).Some? ==> AllValid(ValidateAll(items).value)
    decreases items
  {
    if items != [] {
      ValidatedIsValid(items[0]);
      ValidatedAllValid(items[1..]);
    }
  }

  // For every payload that validates: dumping what it stands for gives a payload that validates
  // again, and whose dump is that same payload.
  lemma ValidatedRoundTrip(j: Json)
    requires Validate(j).Some?
    ensures var dumped := Dump(Validate(j).value);
      Validate(dumped).Some? && Dump(Validate(dumped).value) == dumped
  {
    var n := Validate(j).value;
    ValidatedIsValid(j);
    DumpValidates(n);
    CanonicalDumpsAlike(n);
  }
}
