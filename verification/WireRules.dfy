// What the wire holds of a node under each name, which payloads validation lets through, and what it
// reads in them.
module WireRules {
  import opened Common
  import opened PublicScreen
  import opened WireRoundTrip

  // ---------- What is written ----------

  function Written(o: Option<string>): Option<Json> {
    match o
    case Some(text) => Some(Str(text))
    case None => None
  }

  predicate IsListOf(j: Json, texts: seq<string>) {
    j.Arr? && |j.items| == |texts| && forall i :: 0 <= i < |texts| ==> j.items[i] == Str(texts[i])
  }

  // The list is written if and only if there is something in it.
  predicate WritesList(payload: map<Name, Json>, name: Name, texts: seq<string>) {
    if |texts| > 0 then name in payload && IsListOf(payload[name], texts) else name !in payload
  }

  // What every kind of item writes if it has it.
  predicate WritesOptional(n: PublicNode, payload: map<Name, Json>) {
    && WritesList(payload, ScrollDirectionsName, n.scrollDirections)
    && WritesList(payload, SubmitRefsName, n.submitRefs)
    && Look(payload, WithinName) == Written(n.within)
    && Look(payload, ValueName) == Written(n.value)
    && Look(payload, OriginName) == Written(n.origin)
    && Look(payload, WindowRefName) == Written(n.windowRef)
    && Look(payload, AmbiguityName) == Written(n.ambiguity)
  }

  // What a node writes if it has a ref, and otherwise does not write.
  predicate WritesRefFields(n: PublicNode, payload: map<Name, Json>) {
    if n.ref == None then
      RefName !in payload && StateName !in payload && ActionsName !in payload && BoundsName !in payload
      && MetaName !in payload
    else
      && Look(payload, RefName) == Some(Str(n.ref.value))
      && StateName in payload && IsListOf(payload[StateName], n.state)
      && ActionsName in payload && IsListOf(payload[ActionsName], n.actions)
      && BoundsName in payload
      && payload[BoundsName]
           == (match n.bounds
               case None => Null
               case Some(b) => Arr([Int(b.left), Int(b.top), Int(b.right), Int(b.bottom)]))
      && MetaName in payload
      && payload[MetaName]
           == (match n.meta
               case None => Obj(map[])
               case Some(meta) => Obj(map[
                 ResourceIdName := match meta.resourceId case Some(id) => Str(id) case None => Null,
                 ClassNameName := Str(meta.className)]))
  }

  predicate WritesChildren(n: PublicNode, payload: map<Name, Json>) {
    if n.children == [] then ChildrenName !in payload
    else
      && ChildrenName in payload && payload[ChildrenName].Arr? && |payload[ChildrenName].items| == |n.children|
      && forall i :: 0 <= i < |n.children| ==> payload[ChildrenName].items[i] == Dump(n.children[i])
  }

  predicate WritesHead(n: PublicNode, payload: map<Name, Json>) {
    if n.kind == Some(Text) then
      && Look(payload, KindName) == Some(Str("text"))
      && Look(payload, TextName) == Some(match n.text case Some(text) => Str(text) case None => Null)
      && RoleName !in payload && LabelName !in payload
      && RefName !in payload && StateName !in payload && ActionsName !in payload && BoundsName !in payload
      && MetaName !in payload
    else
      && Look(payload, KindName) == (if n.kind == Some(Container) then Some(Str("container")) else None)
      && TextName !in payload
      && Look(payload, RoleName) == Some(Str(n.role)) && Look(payload, LabelName) == Some(Str(n.caption))
      && WritesRefFields(n, payload)
  }

  lemma OptionalWritten(n: PublicNode, children: seq<Json>)
    ensures WritesOptional(n, Payload(n, children))
  {
  }

  lemma HeadWritten(n: PublicNode, children: seq<Json>)
    ensures WritesHead(n, Payload(n, children))
  {
  }

  lemma ChildrenWritten(n: PublicNode)
    ensures WritesChildren(n, Payload(n, DumpAll(n.children)))
  {
    var children := DumpAll(n.children);
    var payload := Payload(n, children);
    assert FieldAt(n, children, ChildrenName) == if children != [] then Some(Arr(children)) else None;
  }

  lemma NamesWritten(n: PublicNode, children: seq<Json>, name: Name)
    requires name in Payload(n, children)
    ensures IsNodeName(name)
  {
  }

  lemma DumpHolds(n: PublicNode)
    ensures Dump(n) == Obj(Payload(n, DumpAll(n.children)))
  {
  }

  // The dump of a node holds its parts under their names, and nothing else.
  lemma DumpIs(n: PublicNode, payload: map<Name, Json>)
    requires Dump(n) == Obj(payload)
    ensures WritesHead(n, payload) && WritesOptional(n, payload) && WritesChildren(n, payload)
    ensures forall name :: name in payload ==> IsNodeName(name)
  {
    DumpHolds(n);
    HeadWritten(n, DumpAll(n.children));
    OptionalWritten(n, DumpAll(n.children));
    ChildrenWritten(n);
    forall name | name in payload ensures IsNodeName(name) {
      NamesWritten(n, DumpAll(n.children), name);
    }
  }

  predicate IsNodeName(name: Name) {
    name in {KindName, RoleName, LabelName, TextName, RefName, StateName, ActionsName, BoundsName, MetaName,
             ChildrenName, ScrollDirectionsName, SubmitRefsName, WithinName, ValueName, OriginName, WindowRefName,
             AmbiguityName}
  }

  // ---------- What is let through ----------

  predicate Absent(raw: map<Name, Json>, name: Name) {
    name !in raw || raw[name] == Null
  }

  predicate TextOrNothing(raw: map<Name, Json>, name: Name) {
    Absent(raw, name) || raw[name].Str?
  }

  predicate TextIfAny(raw: map<Name, Json>, name: Name) {
    name !in raw || raw[name].Str?
  }

  predicate ListIfAny(raw: map<Name, Json>, name: Name, allowed: set<string>) {
    name !in raw ||
    (raw[name].Arr?
     && forall i :: 0 <= i < |raw[name].items| ==> raw[name].items[i].Str? && raw[name].items[i].text in allowed)
  }

  predicate NoneIn(raw: map<Name, Json>, name: Name) {
    name !in raw || raw[name] == Arr([])
  }

  predicate SomeText(raw: map<Name, Json>, name: Name) {
    name in raw && raw[name].Str? && |raw[name].text| > 0
  }

  // A container is one that says so, or that says nothing and has children.
  predicate IsContainer(raw: map<Name, Json>) {
    if KindName in raw then raw[KindName] == Str("container")
    else !NoneIn(raw, ChildrenName)
  }

  predicate IsTextItem(raw: map<Name, Json>) {
    KindName in raw && raw[KindName] == Str("text")
  }

  predicate KnownKind(raw: map<Name, Json>) {
    KindName in raw ==> raw[KindName] in {Null, Str("node"), Str("container"), Str("text")}
  }

  predicate IsRole(text: string) {
    text in {"button", "input", "switch", "checkbox", "radio", "tab", "keyboard-key", "image", "list-item", "text",
             "container", "dialog", "scroll-container"}
  }

  predicate IsRefText(s: string) {
    |s| >= 2 && s[0] == 'n' && '1' <= s[1] <= '9' && forall i :: 2 <= i < |s| ==> '0' <= s[i] <= '9'
  }

  predicate SubmitRefsIfAny(raw: map<Name, Json>) {
    SubmitRefsName !in raw ||
    (raw[SubmitRefsName].Arr?
     && (forall i :: 0 <= i < |raw[SubmitRefsName].items| ==>
           raw[SubmitRefsName].items[i].Str? && IsRefText(raw[SubmitRefsName].items[i].text))
     && (forall i, j :: 0 <= i < j < |raw[SubmitRefsName].items| ==>
           raw[SubmitRefsName].items[i] != raw[SubmitRefsName].items[j]))
  }

  predicate BoundsIfAny(raw: map<Name, Json>) {
    Absent(raw, BoundsName) ||
    (raw[BoundsName].Arr? && |raw[BoundsName].items| == 4
     && forall i :: 0 <= i < 4 ==> raw[BoundsName].items[i].Int?)
  }

  // Meta counts only beside a ref, and empty meta is none.
  predicate HasMeta(raw: map<Name, Json>) {
    !Absent(raw, RefName) && !Absent(raw, MetaName) && raw[MetaName] != Obj(map[])
  }

  predicate MetaIfAny(raw: map<Name, Json>) {
    HasMeta(raw) ==>
      && raw[MetaName].Obj? && SomeText(raw[MetaName].fields, ClassNameName)
      && TextOrNothing(raw[MetaName].fields, ResourceIdName)
      && forall name :: name in raw[MetaName].fields ==> name == ClassNameName || name == ResourceIdName
  }

  predicate ChildrenIfAny(raw: map<Name, Json>) {
    ChildrenName !in raw ||
    (raw[ChildrenName].Arr?
     && forall i :: 0 <= i < |raw[ChildrenName].items| ==> Validate(raw[ChildrenName].items[i]).Some?)
  }

  predicate WellTyped(raw: map<Name, Json>) {
    && TextIfAny(raw, RoleName) && TextIfAny(raw, LabelName)
    && TextOrNothing(raw, TextName) && TextOrNothing(raw, RefName)
    && TextOrNothing(raw, WithinName) && TextOrNothing(raw, ValueName) && TextOrNothing(raw, WindowRefName)
    && Absent(raw, OriginName) && Absent(raw, AmbiguityName)
    && BoundsIfAny(raw) && MetaIfAny(raw)
  }

  predicate WellListed(raw: map<Name, Json>) {
    && ListIfAny(raw, StateName, {"checked", "unchecked", "selected", "disabled", "focused", "password", "expanded",
                                  "collapsed"})
    && ListIfAny(raw, ActionsName, {"tap", "longTap", "type", "scroll", "focus", "submit"})
    && ListIfAny(raw, ScrollDirectionsName, {"up", "down", "left", "right", "backward"})
    && SubmitRefsIfAny(raw)
  }

  // A text has a text and nothing that belongs to nodes. A node has a role and a label; a container
  // alone has children or scroll directions, and an input with a ref alone has submit refs.
  predicate WellShaped(raw: map<Name, Json>) {
    if IsTextItem(raw) then
      && RoleName !in raw && LabelName !in raw && SomeText(raw, TextName)
      && NoneIn(raw, ChildrenName) && NoneIn(raw, ScrollDirectionsName) && NoneIn(raw, SubmitRefsName)
    else
      && SomeText(raw, RoleName) && SomeText(raw, LabelName)
      && IsRole(raw[RoleName].text)
      && (NoneIn(raw, SubmitRefsName) || (raw[RoleName] == Str("input") && SomeText(raw, RefName)))
      && (IsContainer(raw) || (NoneIn(raw, ChildrenName) && NoneIn(raw, ScrollDirectionsName)))
  }

  predicate Accepted(raw: map<Name, Json>) {
    && (forall name :: name in raw ==> IsNodeName(name))
    && KnownKind(raw) && WellTyped(raw) && WellListed(raw) && ChildrenIfAny(raw) && WellShaped(raw)
  }

  // ---------- What is read ----------

  function TextOf(raw: map<Name, Json>, name: Name): string {
    if name in raw && raw[name].Str? then raw[name].text else ""
  }

  function MaybeTextOf(raw: map<Name, Json>, name: Name): Option<string> {
    if name in raw && raw[name].Str? then Some(raw[name].text) else None
  }

  predicate ReadsList(raw: map<Name, Json>, name: Name, texts: seq<string>) {
    if name in raw then IsListOf(raw[name], texts) else texts == []
  }

  predicate ReadsKind(raw: map<Name, Json>, kind: Option<Kind>) {
    kind == if IsTextItem(raw) then Some(Text)
            else if IsContainer(raw) then Some(Container)
            else if KindName in raw && raw[KindName] == Null then None
            else Some(Node)
  }

  predicate ReadsBounds(raw: map<Name, Json>, bounds: Option<Bounds>) {
    match bounds
    case None => Absent(raw, BoundsName)
    case Some(b) =>
      BoundsName in raw && raw[BoundsName] == Arr([Int(b.left), Int(b.top), Int(b.right), Int(b.bottom)])
  }

  predicate ReadsMeta(raw: map<Name, Json>, meta: Option<Meta>) {
    match meta
    case None => !HasMeta(raw)
    case Some(m) =>
      && HasMeta(raw) && raw[MetaName].Obj?
      && Look(raw[MetaName].fields, ClassNameName) == Some(Str(m.className))
      && m.resourceId == MaybeTextOf(raw[MetaName].fields, ResourceIdName)
  }

  predicate ReadsTexts(raw: map<Name, Json>, n: PublicNode) {
    && n.role == TextOf(raw, RoleName)
    && n.caption == TextOf(raw, LabelName)
    && n.text == MaybeTextOf(raw, TextName)
    && n.ref == MaybeTextOf(raw, RefName)
    && n.within == MaybeTextOf(raw, WithinName)
    && n.value == MaybeTextOf(raw, ValueName)
    && n.origin == MaybeTextOf(raw, OriginName)
    && n.windowRef == MaybeTextOf(raw, WindowRefName)
    && n.ambiguity == MaybeTextOf(raw, AmbiguityName)
  }

  predicate ReadsLists(raw: map<Name, Json>, n: PublicNode) {
    && ReadsList(raw, StateName, n.state)
    && ReadsList(raw, ActionsName, n.actions)
    && ReadsList(raw, ScrollDirectionsName, n.scrollDirections)
    && ReadsList(raw, SubmitRefsName, n.submitRefs)
  }

  predicate ReadsAs(raw: map<Name, Json>, n: PublicNode) {
    && ReadsKind(raw, n.kind) && ReadsBounds(raw, n.bounds) && ReadsMeta(raw, n.meta)
    && ReadsTexts(raw, n) && ReadsLists(raw, n)
  }

  predicate ReadsChildren(raw: map<Name, Json>, children: seq<PublicNode>) {
    if ChildrenName !in raw then children == []
    else
      && raw[ChildrenName].Arr? && |raw[ChildrenName].items| == |children|
      && forall i :: 0 <= i < |children| ==> Validate(raw[ChildrenName].items[i]) == Some(children[i])
  }

  // ---------- Normalised fields ----------

  // Validation reads the fields as they are written but for kind and meta.
  ghost predicate Normal(raw: map<Name, Json>, fields: map<Name, Json>) {
    && (forall name :: name != KindName && name != MetaName ==> Look(fields, name) == Look(raw, name))
    && KindName in fields
    && fields[KindName]
         == (if KindName in raw then raw[KindName]
             else if NoneIn(raw, ChildrenName) || Absent(raw, ChildrenName) then Str("node")
             else Str("container"))
    && (if HasMeta(raw) then Look(fields, MetaName) == Some(raw[MetaName]) else Absent(fields, MetaName))
  }

  lemma NormalizedIs(raw: map<Name, Json>)
    ensures Normalize(raw) == None <==> IsTextItem(raw) && (RoleName in raw || LabelName in raw)
    ensures Normalize(raw).Some? ==> Normal(raw, Normalize(raw).value)
  {
  }

  lemma AtName(raw: map<Name, Json>, fields: map<Name, Json>, name: Name)
    requires Normal(raw, fields) && name != KindName && name != MetaName
    ensures name in fields <==> name in raw
    ensures name in raw ==> fields[name] == raw[name]
  {
    assert Look(fields, name) == Look(raw, name);
  }

  lemma TextIsRead(raw: map<Name, Json>, fields: map<Name, Json>, name: Name)
    requires Normal(raw, fields) && name != KindName && name != MetaName
    ensures ReadText(fields, name) == if TextIfAny(raw, name) then Some(TextOf(raw, name)) else None
    ensures ReadNullable(fields, name) == if TextOrNothing(raw, name) then Some(MaybeTextOf(raw, name)) else None
  {
    AtName(raw, fields, name);
  }

  predicate TextsIfAny(raw: map<Name, Json>, name: Name) {
    name !in raw || (raw[name].Arr? && forall i :: 0 <= i < |raw[name].items| ==> raw[name].items[i].Str?)
  }

  lemma ListIsRead(raw: map<Name, Json>, fields: map<Name, Json>, name: Name)
    requires Normal(raw, fields) && name != KindName && name != MetaName
    ensures ReadTexts(fields, name).Some? <==> TextsIfAny(raw, name)
    ensures ReadTexts(fields, name).Some? ==> ReadsList(raw, name, ReadTexts(fields, name).value)
  {
    AtName(raw, fields, name);
  }

  lemma BoundsAreRead(raw: map<Name, Json>, fields: map<Name, Json>)
    requires Normal(raw, fields)
    ensures ReadBounds(fields).Some? <==> BoundsIfAny(raw)
    ensures ReadBounds(fields).Some? ==> ReadsBounds(raw, ReadBounds(fields).value)
  {
    AtName(raw, fields, BoundsName);
    if BoundsName in raw && raw[BoundsName].Arr? && |raw[BoundsName].items| == 4 {
      var items := raw[BoundsName].items;
      assert items == [items[0], items[1], items[2], items[3]];
    }
  }

  lemma KindIsRead(raw: map<Name, Json>, fields: map<Name, Json>)
    requires Normal(raw, fields) && (ChildrenName in raw ==> raw[ChildrenName] != Null)
    ensures ReadKind(fields[KindName]).Some? <==> KnownKind(raw)
    ensures ReadKind(fields[KindName]).Some? ==> ReadsKind(raw, ReadKind(fields[KindName]).value)
  {
    KindTexts();
  }

  lemma KindTexts()
    ensures Str("node") != Str("container") && Str("node") != Str("text") && Str("container") != Str("text")
  {
    assert |"node"| != |"container"|;
    assert "node"[0] != "text"[0];
  }

  predicate MetaTyped(raw: map<Name, Json>) {
    HasMeta(raw) ==>
      && raw[MetaName].Obj? && ClassNameName in raw[MetaName].fields && raw[MetaName].fields[ClassNameName].Str?
      && TextOrNothing(raw[MetaName].fields, ResourceIdName)
      && forall name :: name in raw[MetaName].fields ==> name == ClassNameName || name == ResourceIdName
  }

  lemma MetaIsRead(raw: map<Name, Json>, fields: map<Name, Json>)
    requires Normal(raw, fields)
    ensures ReadMeta(fields).Some? <==> MetaTyped(raw)
    ensures ReadMeta(fields).Some? ==> ReadsMeta(raw, ReadMeta(fields).value)
  {
    if HasMeta(raw) {
      assert Look(fields, MetaName) == Some(raw[MetaName]);
    }
  }

  // ---------- The outcome ----------

  predicate Typed(raw: map<Name, Json>) {
    && TextIfAny(raw, RoleName) && TextIfAny(raw, LabelName)
    && TextOrNothing(raw, TextName) && TextOrNothing(raw, RefName)
    && TextOrNothing(raw, WithinName) && TextOrNothing(raw, ValueName) && TextOrNothing(raw, WindowRefName)
    && TextOrNothing(raw, OriginName) && TextOrNothing(raw, AmbiguityName)
    && BoundsIfAny(raw) && MetaTyped(raw)
  }

  predicate Listed(raw: map<Name, Json>) {
    && TextsIfAny(raw, StateName) && TextsIfAny(raw, ActionsName)
    && TextsIfAny(raw, ScrollDirectionsName) && TextsIfAny(raw, SubmitRefsName)
  }

  lemma TextsAreRead(raw: map<Name, Json>, fields: map<Name, Json>)
    requires Normal(raw, fields)
    ensures forall name :: name != KindName && name != MetaName ==>
      && ReadText(fields, name) == (if TextIfAny(raw, name) then Some(TextOf(raw, name)) else None)
      && ReadNullable(fields, name) == (if TextOrNothing(raw, name) then Some(MaybeTextOf(raw, name)) else None)
  {
    forall name | name != KindName && name != MetaName
      ensures ReadText(fields, name) == if TextIfAny(raw, name) then Some(TextOf(raw, name)) else None
      ensures ReadNullable(fields, name) == if TextOrNothing(raw, name) then Some(MaybeTextOf(raw, name)) else None
    {
      TextIsRead(raw, fields, name);
    }
  }

  lemma ListsAreRead(raw: map<Name, Json>, fields: map<Name, Json>)
    requires Normal(raw, fields)
    ensures forall name :: name in {StateName, ActionsName, ScrollDirectionsName, SubmitRefsName} ==>
      && (ReadTexts(fields, name).Some? <==> TextsIfAny(raw, name))
      && (ReadTexts(fields, name).Some? ==> ReadsList(raw, name, ReadTexts(fields, name).value))
  {
    forall name | name in {StateName, ActionsName, ScrollDirectionsName, SubmitRefsName}
      ensures ReadTexts(fields, name).Some? <==> TextsIfAny(raw, name)
      ensures ReadTexts(fields, name).Some? ==> ReadsList(raw, name, ReadTexts(fields, name).value)
    {
      ListIsRead(raw, fields, name);
    }
  }

  ghost predicate Readable(fields: map<Name, Json>) {
    && KindName in fields && ReadKind(fields[KindName]).Some? && ReadBounds(fields).Some? && ReadMeta(fields).Some?
    && ReadText(fields, RoleName).Some? && ReadText(fields, LabelName).Some?
    && ReadNullable(fields, TextName).Some? && ReadNullable(fields, RefName).Some?
    && ReadNullable(fields, WithinName).Some? && ReadNullable(fields, ValueName).Some?
    && ReadNullable(fields, OriginName).Some? && ReadNullable(fields, WindowRefName).Some?
    && ReadNullable(fields, AmbiguityName).Some?
    && ReadTexts(fields, StateName).Some? && ReadTexts(fields, ActionsName).Some?
    && ReadTexts(fields, ScrollDirectionsName).Some? && ReadTexts(fields, SubmitRefsName).Some?
  }

  lemma ReadableIff(raw: map<Name, Json>, fields: map<Name, Json>)
    requires Normal(raw, fields) && (ChildrenName in raw ==> raw[ChildrenName] != Null)
    ensures Readable(fields) <==> KnownKind(raw) && Typed(raw) && Listed(raw)
  {
    KindIsRead(raw, fields);
    TextsAreRead(raw, fields);
    ListsAreRead(raw, fields);
    BoundsAreRead(raw, fields);
    MetaIsRead(raw, fields);
  }

  lemma UnreadableFails(fields: map<Name, Json>, children: seq<PublicNode>)
    requires KindName in fields && !Readable(fields)
    ensures Assemble(fields, children) == None
  {
  }

  function NodeOf(fields: map<Name, Json>, children: seq<PublicNode>): PublicNode
    requires Readable(fields)
  {
    PublicNode(
      ReadKind(fields[KindName]).value, ReadText(fields, RoleName).value, ReadText(fields, LabelName).value,
      ReadNullable(fields, TextName).value, ReadNullable(fields, RefName).value,
      ReadTexts(fields, StateName).value, ReadTexts(fields, ActionsName).value,
      ReadBounds(fields).value, ReadMeta(fields).value, children, ReadTexts(fields, ScrollDirectionsName).value,
      ReadTexts(fields, SubmitRefsName).value, ReadNullable(fields, WithinName).value,
      ReadNullable(fields, ValueName).value, ReadNullable(fields, OriginName).value,
      ReadNullable(fields, WindowRefName).value, ReadNullable(fields, AmbiguityName).value)
  }

  lemma NodeIsCarried(fields: map<Name, Json>, children: seq<PublicNode>)
    requires Readable(fields)
    ensures Carries(fields, NodeOf(fields, children))
  {
  }

  lemma CarriedOrRejected(fields: map<Name, Json>, n: PublicNode)
    requires Carries(fields, n)
    ensures Assemble(fields, n.children) == if ValidFields(n) && ValidShape(n) then Some(n) else None
  {
  }

  lemma CarriedTexts(raw: map<Name, Json>, fields: map<Name, Json>, n: PublicNode)
    requires Normal(raw, fields) && Carries(fields, n)
    ensures ReadsTexts(raw, n)
  {
    TextIsRead(raw, fields, RoleName);
    TextIsRead(raw, fields, LabelName);
    TextIsRead(raw, fields, TextName);
    TextIsRead(raw, fields, RefName);
    TextIsRead(raw, fields, WithinName);
    TextIsRead(raw, fields, ValueName);
    TextIsRead(raw, fields, OriginName);
    TextIsRead(raw, fields, WindowRefName);
    TextIsRead(raw, fields, AmbiguityName);
  }

  lemma CarriedLists(raw: map<Name, Json>, fields: map<Name, Json>, n: PublicNode)
    requires Normal(raw, fields) && Carries(fields, n)
    ensures ReadsLists(raw, n)
  {
    ListsAreRead(raw, fields);
  }

  lemma CarriedReads(raw: map<Name, Json>, fields: map<Name, Json>, n: PublicNode)
    requires Normal(raw, fields) && (ChildrenName in raw ==> raw[ChildrenName] != Null) && Carries(fields, n)
    ensures ReadsAs(raw, n)
  {
    KindIsRead(raw, fields);
    BoundsAreRead(raw, fields);
    MetaIsRead(raw, fields);
    CarriedTexts(raw, fields, n);
    CarriedLists(raw, fields, n);
  }

  // Whether the fields are valid, in the texts of the payload.
  lemma AllowedIff(raw: map<Name, Json>, name: Name, texts: seq<string>, allowed: set<string>)
    requires TextsIfAny(raw, name) && ReadsList(raw, name, texts)
    ensures AllIn(texts, allowed) <==> ListIfAny(raw, name, allowed)
    ensures texts == [] <==> NoneIn(raw, name)
  {
    if name in raw {
      var items := raw[name].items;
      assert forall i :: 0 <= i < |items| ==> items[i] == Str(texts[i]);
    }
  }

  lemma RefTextIff(s: string)
    ensures IsPublicRef(s) <==> IsRefText(s)
  {
    if |s| >= 2 {
      var rest := s[1..];
      assert rest[0] == s[1];
      assert forall i :: 2 <= i < |s| ==> s[i] == rest[i - 1];
      assert forall i :: 1 <= i < |rest| ==> rest[i] == s[i + 1];
    }
  }

  lemma SubmitRefsIff(raw: map<Name, Json>, refs: seq<string>)
    requires TextsIfAny(raw, SubmitRefsName) && ReadsList(raw, SubmitRefsName, refs)
    ensures ValidSubmitRefs(refs) <==> SubmitRefsIfAny(raw)
  {
    forall i | 0 <= i < |refs| ensures IsPublicRef(refs[i]) <==> IsRefText(refs[i]) {
      RefTextIff(refs[i]);
    }
    if SubmitRefsName in raw {
      var items := raw[SubmitRefsName].items;
      assert forall i :: 0 <= i < |refs| ==> items[i] == Str(refs[i]);
    }
  }

  lemma FieldsAreValidIff(raw: map<Name, Json>, n: PublicNode)
    requires Typed(raw) && Listed(raw) && ReadsAs(raw, n) && (n.role == "" || IsRole(n.role))
    ensures ValidFields(n) <==> WellTyped(raw) && WellListed(raw)
  {
    AllowedIff(raw, StateName, n.state, STATES);
    AllowedIff(raw, ActionsName, n.actions, ACTIONS);
    AllowedIff(raw, ScrollDirectionsName, n.scrollDirections, SCROLL_DIRECTIONS);
    SubmitRefsIff(raw, n.submitRefs);
  }

  lemma ShapeIsValidIff(raw: map<Name, Json>, n: PublicNode)
    requires Typed(raw) && Listed(raw) && ReadsAs(raw, n) && ReadsChildren(raw, n.children)
    requires !(IsTextItem(raw) && (RoleName in raw || LabelName in raw))
    ensures ValidShape(n) && (n.role == "" || IsRole(n.role)) <==> WellShaped(raw)
  {
    AllowedIff(raw, ScrollDirectionsName, n.scrollDirections, SCROLL_DIRECTIONS);
    AllowedIff(raw, SubmitRefsName, n.submitRefs, {});
  }

  lemma RolesAre(n: PublicNode)
    ensures ValidFields(n) ==> n.role == "" || IsRole(n.role)
  {
  }

  // ---------- Children ----------

  lemma FirstAndRest(items: seq<Json>, rest: seq<Json>)
    requires items != [] && rest == items[1..]
    ensures ValidateAll(items)
      == if Validate(items[0]) == None || ValidateAll(rest) == None then None
         else Some([Validate(items[0]).value] + ValidateAll(rest).value)
  {
  }

  lemma {:induction false} ChildIs(items: seq<Json>, nodes: seq<PublicNode>, i: nat)
    requires i < |items| && ValidateAll(items) == Some(nodes)
    ensures |nodes| == |items| && Validate(items[i]) == Some(nodes[i])
  {
    var rest := items[1..];
    FirstAndRest(items, rest);
    if i > 0 {
      ChildIs(rest, nodes[1..], i - 1);
      assert rest[i - 1] == items[i];
    }
  }

  lemma {:induction false} AllOfThem(items: seq<Json>)
    requires forall i :: 0 <= i < |items| ==> Validate(items[i]).Some?
    ensures ValidateAll(items).Some?
  {
    if items != [] {
      var rest := items[1..];
      forall i | 0 <= i < |rest| ensures Validate(rest[i]).Some? {
        assert rest[i] == items[i + 1];
      }
      AllOfThem(rest);
      FirstAndRest(items, rest);
    }
  }

  lemma AllValidateIff(items: seq<Json>)
    ensures ValidateAll(items).Some? <==> forall i :: 0 <= i < |items| ==> Validate(items[i]).Some?
    ensures ValidateAll(items).Some? ==>
      forall i :: 0 <= i < |items| ==> Validate(items[i]) == Some(ValidateAll(items).value[i])
  {
    if ValidateAll(items).Some? {
      var nodes := ValidateAll(items).value;
      forall i | 0 <= i < |items| ensures Validate(items[i]) == Some(nodes[i]) {
        ChildIs(items, nodes, i);
      }
    }
    if forall i :: 0 <= i < |items| ==> Validate(items[i]).Some? {
      AllOfThem(items);
    }
  }

  // ---------- Outcomes ----------

  lemma FailsWithout(raw: map<Name, Json>)
    requires !ChildrenIfAny(raw) || Normalize(raw) == None || exists name :: name in raw && !IsNodeName(name)
    ensures Validate(Obj(raw)) == None
  {
    if ChildrenName in raw && raw[ChildrenName].Arr? {
      AllValidateIff(raw[ChildrenName].items);
    }
    if name :| name in raw && !IsNodeName(name) {
      assert !(raw.Keys <= NODE_FIELDS);
    }
  }

  lemma AssemblesFrom(raw: map<Name, Json>) returns (children: seq<PublicNode>)
    requires ChildrenIfAny(raw) && Normalize(raw).Some? && forall name :: name in raw ==> IsNodeName(name)
    ensures ReadsChildren(raw, children)
    ensures Validate(Obj(raw)) == Assemble(Normalize(raw).value, children)
  {
    children := [];
    if ChildrenName in raw {
      AllValidateIff(raw[ChildrenName].items);
      children := ValidateAll(raw[ChildrenName].items).value;
    }
  }

  // A payload is let through if and only if it is an object of known fields, each well typed, and its
  // shape is that of a text, a node or a container.
  lemma AcceptedIff(j: Json)
    ensures Validate(j).Some? <==> j.Obj? && Accepted(j.fields)
  {
    if j.Obj? {
      var raw := j.fields;
      NormalizedIs(raw);
      if !ChildrenIfAny(raw) || Normalize(raw) == None || exists name :: name in raw && !IsNodeName(name) {
        FailsWithout(raw);
      } else {
        var _ := Outcome(raw);
      }
    }
  }

  lemma Outcome(raw: map<Name, Json>) returns (children: seq<PublicNode>)
    requires ChildrenIfAny(raw) && Normalize(raw).Some? && forall name :: name in raw ==> IsNodeName(name)
    ensures ReadsChildren(raw, children)
    ensures Validate(Obj(raw)).Some? <==> Accepted(raw)
    ensures Validate(Obj(raw)).Some? ==>
      ReadsAs(raw, Validate(Obj(raw)).value) && Validate(Obj(raw)).value.children == children
  {
    NormalizedIs(raw);
    children := AssemblesFrom(raw);
    AssembledIs(raw, Normalize(raw).value, children);
  }

  lemma AssembledIs(raw: map<Name, Json>, fields: map<Name, Json>, children: seq<PublicNode>)
    requires Normal(raw, fields) && ReadsChildren(raw, children)
    requires !(IsTextItem(raw) && (RoleName in raw || LabelName in raw))
    ensures Assemble(fields, children).Some? <==>
      KnownKind(raw) && WellTyped(raw) && WellListed(raw) && WellShaped(raw)
    ensures Assemble(fields, children).Some? ==>
      ReadsAs(raw, Assemble(fields, children).value) && Assemble(fields, children).value.children == children
  {
    ReadableIff(raw, fields);
    if Readable(fields) {
      var n := NodeOf(fields, children);
      NodeIsCarried(fields, children);
      CarriedOrRejected(fields, n);
      CarriedReads(raw, fields, n);
      IsValidIff(raw, n);
    } else {
      UnreadableFails(fields, children);
      WellIsReadable(raw);
    }
  }

  lemma WellIsReadable(raw: map<Name, Json>)
    ensures WellTyped(raw) && WellListed(raw) ==> Typed(raw) && Listed(raw)
  {
  }

  lemma IsValidIff(raw: map<Name, Json>, n: PublicNode)
    requires Typed(raw) && Listed(raw) && ReadsAs(raw, n) && ReadsChildren(raw, n.children)
    requires !(IsTextItem(raw) && (RoleName in raw || LabelName in raw))
    ensures ValidFields(n) && ValidShape(n) <==> WellTyped(raw) && WellListed(raw) && WellShaped(raw)
  {
    RolesAre(n);
    ShapeIsValidIff(raw, n);
    if n.role == "" || IsRole(n.role) {
      FieldsAreValidIff(raw, n);
    }
  }

  // And it is read part by part, its children in their order.
  lemma ReadIs(raw: map<Name, Json>, n: PublicNode)
    requires Validate(Obj(raw)) == Some(n)
    ensures ReadsAs(raw, n) && ReadsChildren(raw, n.children)
  {
    AcceptedIff(Obj(raw));
    NormalizedIs(raw);
    var _ := Outcome(raw);
  }
}
