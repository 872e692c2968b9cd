// The public screen contract: node and screen shapes, which of them are valid, and how they are
// written to and read from the wire.
module PublicScreen {
  import opened Common

  // Names of wire fields and of XML attributes. `OtherName` stands for any other key.
  datatype Name =
    | KindName | RoleName | LabelName | TextName | RefName | StateName | ActionsName | BoundsName
    | MetaName | ChildrenName | ScrollDirectionsName | SubmitRefsName | WithinName | ValueName
    | OriginName | WindowRefName | AmbiguityName | ResourceIdName | ClassNameName
    | PackageNameName | ActivityNameName | RequestedPackageNameName | ResolvedPackageNameName
    | MatchTypeName | InputRefName | KeyboardVisibleName | BlockingGroupName | FocusName | NodesName
    | NameName | GroupName | ReasonName | CountName | FocusedName | BlockingName | ScreenIdName
    | AppName | SurfaceName | GroupsName | OmittedName | VisibleWindowsName | TransientName
    | OtherName(text: string)

  datatype Json =
    | Null
    | Bool(flag: bool)
    | Int(number: int)
    | Str(text: string)
    | Arr(items: seq<Json>)
    | Obj(fields: map<Name, Json>)

  datatype Kind = Node | Container | Text

  datatype Bounds = Bounds(left: int, top: int, right: int, bottom: int)

  datatype Meta = Meta(resourceId: Option<string>, className: string)

  datatype PublicNode = PublicNode(
    kind: Option<Kind>,
    role: string,
    caption: string,
    text: Option<string>,
    ref: Option<string>,
    state: seq<string>,
    actions: seq<string>,
    bounds: Option<Bounds>,
    meta: Option<Meta>,
    children: seq<PublicNode>,
    scrollDirections: seq<string>,
    submitRefs: seq<string>,
    within: Option<string>,
    value: Option<string>,
    origin: Option<string>,
    windowRef: Option<string>,
    ambiguity: Option<string>)
  {
    function KindOrNode(): Kind {
      if kind.Some? then kind.value else Node
    }

    predicate IsText() {
      kind == Some(Text)
    }
  }

  const ROLES: set<string> := {
    "button", "input", "switch", "checkbox", "radio", "tab", "keyboard-key", "image", "list-item",
    "text", "container", "dialog", "scroll-container"}
  const ACTIONS: set<string> := {"tap", "longTap", "type", "scroll", "focus", "submit"}
  const STATES: set<string> := {
    "checked", "unchecked", "selected", "disabled", "focused", "password", "expanded", "collapsed"}
  const SCROLL_DIRECTIONS: set<string> := {"up", "down", "left", "right", "backward"}

  predicate AllIn(items: seq<string>, allowed: set<string>) {
    forall i :: 0 <= i < |items| ==> items[i] in allowed
  }

  // "n" and a positive number without leading zeros.
  predicate IsPublicRef(s: string) {
    |s| >= 2 && s[0] == 'n' && s[1] != '0' && AllDigits(s[1..])
  }

  predicate ValidSubmitRefs(refs: seq<string>) {
    && (forall i :: 0 <= i < |refs| ==> IsPublicRef(refs[i]))
    && (forall i, j :: 0 <= i < j < |refs| ==> refs[i] != refs[j])
  }

  // The field validators; no origin and no ambiguity token is defined.
  predicate ValidFields(n: PublicNode) {
    && (n.role == "" || n.role in ROLES)
    && AllIn(n.state, STATES)
    && AllIn(n.actions, ACTIONS)
    && AllIn(n.scrollDirections, SCROLL_DIRECTIONS)
    && ValidSubmitRefs(n.submitRefs)
    && n.origin == None
    && n.ambiguity == None
    && (n.meta.Some? ==> n.meta.value.className != "")
  }

  // The shape validator that runs once the fields are known.
  predicate ValidShape(n: PublicNode) {
    if n.KindOrNode() == Text then
      && n.text.Some? && n.text.value != ""
      && n.children == [] && n.scrollDirections == [] && n.submitRefs == []
    else
      && n.role != "" && n.caption != ""
      && (n.submitRefs != [] ==> n.role == "input" && n.ref.Some? && n.ref.value != "")
      && (n.KindOrNode() == Node ==> n.children == [])
      && (n.KindOrNode() != Container ==> n.scrollDirections == [])
  }

  // A node that passes validation, with all its descendants. Text items never carry role or label,
  // and a node without a ref never carries meta.
  predicate Valid(n: PublicNode) {
    && ValidFields(n)
    && ValidShape(n)
    && (n.IsText() ==> n.role == "" && n.caption == "")
    && (n.ref == None ==> n.meta == None)
    && forall i :: 0 <= i < |n.children| ==> Valid(n.children[i])
  }

  predicate AllValid(nodes: seq<PublicNode>) {
    forall i :: 0 <= i < |nodes| ==> Valid(nodes[i])
  }

  // ---------- Writing nodes ----------

  const NODE_FIELDS: set<Name> := {
    KindName, RoleName, LabelName, TextName, RefName, StateName, ActionsName, BoundsName, MetaName,
    ChildrenName, ScrollDirectionsName, SubmitRefsName, WithinName, ValueName, OriginName,
    WindowRefName, AmbiguityName}

  const KIND_NODE := Str("node")
  const KIND_CONTAINER := Str("container")
  const KIND_TEXT := Str("text")

  function Nullable(o: Option<string>): Json {
    if o.Some? then Str(o.value) else Null
  }

  function Texts(items: seq<string>): Json {
    Arr(seq(|items|, i requires 0 <= i < |items| => Str(items[i])))
  }

  // A field that is written only when it has a value.
  function Present(name: Name, o: Option<string>): map<Name, Json> {
    if o.Some? then map[name := Str(o.value)] else map[]
  }

  function DumpBounds(bounds: Option<Bounds>): Json {
    if bounds == None then Null
    else Arr([Int(bounds.value.left), Int(bounds.value.top), Int(bounds.value.right), Int(bounds.value.bottom)])
  }

  function DumpMeta(meta: Option<Meta>): Json {
    if meta == None then Obj(map[])
    else Obj(map[ResourceIdName := Nullable(meta.value.resourceId), ClassNameName := Str(meta.value.className)])
  }

  function MaybeText(o: Option<string>): Option<Json> {
    if o.Some? then Some(Str(o.value)) else None
  }

  function MaybeTexts(items: seq<string>): Option<Json> {
    if items != [] then Some(Texts(items)) else None
  }

  // What the payload of a node holds under each name, given its dumped children.
  function OptionalAt(n: PublicNode, children: seq<Json>, name: Name): Option<Json> {
    match name
    case ScrollDirectionsName => MaybeTexts(n.scrollDirections)
    case SubmitRefsName => MaybeTexts(n.submitRefs)
    case WithinName => MaybeText(n.within)
    case ValueName => MaybeText(n.value)
    case OriginName => MaybeText(n.origin)
    case WindowRefName => MaybeText(n.windowRef)
    case AmbiguityName => MaybeText(n.ambiguity)
    case ChildrenName => if children != [] then Some(Arr(children)) else None
    case _ => None
  }

  function FieldAt(n: PublicNode, children: seq<Json>, name: Name): Option<Json> {
    if n.KindOrNode() == Text then
      match name
      case KindName => Some(KIND_TEXT)
      case TextName => Some(Nullable(n.text))
      case _ => OptionalAt(n, children, name)
    else
      match name
      case RoleName => Some(Str(n.role))
      case LabelName => Some(Str(n.caption))
      case KindName => if n.KindOrNode() == Container then Some(KIND_CONTAINER) else None
      case RefName => MaybeText(n.ref)
      case StateName => if n.ref.Some? then Some(Texts(n.state)) else None
      case ActionsName => if n.ref.Some? then Some(Texts(n.actions)) else None
      case BoundsName => if n.ref.Some? then Some(DumpBounds(n.bounds)) else None
      case MetaName => if n.ref.Some? then Some(DumpMeta(n.meta)) else None
      case _ => OptionalAt(n, children, name)
  }

  function Payload(n: PublicNode, children: seq<Json>): map<Name, Json> {
    map name | name in NODE_FIELDS && FieldAt(n, children, name).Some? :: FieldAt(n, children, name).value
  }

  function Dump(n: PublicNode): Json
    decreases n, 0
  {
    Obj(Payload(n, DumpAll(n.children)))
  }

  function DumpAll(nodes: seq<PublicNode>): (r: seq<Json>)
    ensures |r| == |nodes| && forall i :: 0 <= i < |nodes| ==> r[i] == Dump(nodes[i])
    decreases nodes
  {
    if nodes == [] then [] else [Dump(nodes[0])] + DumpAll(nodes[1..])
  }

  function Look(fields: map<Name, Json>, name: Name): Option<Json> {
    if name in fields then Some(fields[name]) else None
  }

  // When the serializer gets to a field: base fields first, then the optional ones in turn.
  function Rank(name: Name): nat {
    if name.ScrollDirectionsName? then 1
    else if name.SubmitRefsName? then 2
    else if name.WithinName? then 3
    else if name.ValueName? then 4
    else if name.OriginName? then 5
    else if name.WindowRefName? then 6
    else if name.AmbiguityName? then 7
    else if name.ChildrenName? then 8
    else if name in NODE_FIELDS then 0
    else 9
  }

  // The payload holds exactly what the fields before rank k hold.
  ghost predicate Filled(n: PublicNode, children: seq<Json>, payload: map<Name, Json>, k: nat) {
    forall name :: Look(payload, name) == if Rank(name) < k then FieldAt(n, children, name) else None
  }

  lemma FillNext(n: PublicNode, children: seq<Json>, payload: map<Name, Json>, name: Name)
    requires Filled(n, children, payload, Rank(name)) && 1 <= Rank(name) <= 8
    ensures FieldAt(n, children, name) == None ==> Filled(n, children, payload, Rank(name) + 1)
    ensures FieldAt(n, children, name).Some? ==>
      Filled(n, children, payload[name := FieldAt(n, children, name).value], Rank(name) + 1)
  {
    var k := Rank(name);
    forall other ensures Rank(other) == k ==> other == name {}
    if FieldAt(n, children, name).Some? {
      var after := payload[name := FieldAt(n, children, name).value];
      forall other ensures Look(after, other) == if Rank(other) < k + 1 then FieldAt(n, children, other) else None {
        assert other != name ==> Look(after, other) == Look(payload, other);
      }
    } else {
      forall other ensures Look(payload, other) == if Rank(other) < k + 1 then FieldAt(n, children, other) else None {
        assert Look(payload, other) == if Rank(other) < k then FieldAt(n, children, other) else None;
      }
    }
  }

  lemma FullyFilled(n: PublicNode, children: seq<Json>, payload: map<Name, Json>)
    requires Filled(n, children, payload, 9)
    ensures payload == Payload(n, children)
  {
    var dumped := Payload(n, children);
    forall name ensures Look(payload, name) == Look(dumped, name) {
      assert Look(payload, name) == if Rank(name) < 9 then FieldAt(n, children, name) else None;
    }
    forall name ensures name in payload <==> name in dumped {
      assert Look(payload, name) == Look(dumped, name);
    }
    forall name | name in payload ensures payload[name] == dumped[name] {
      assert Look(payload, name) == Look(dumped, name);
    }
  }

  // The serializer, filling the payload field by field.
  method SerializeModel(n: PublicNode) returns (j: Json)
    ensures j == Dump(n)
    decreases n, 2
  {
    var payload := SerializeBase(n, DumpAll(n.children));
    payload := AppendOptionalFields(n, payload);
    FullyFilled(n, DumpAll(n.children), payload);
    return Obj(payload);
  }

  method SerializeBase(n: PublicNode, ghost children: seq<Json>) returns (payload: map<Name, Json>)
    ensures Filled(n, children, payload, 1)
  {
    if n.KindOrNode() == Text {
      payload := map[KindName := KIND_TEXT, TextName := Nullable(n.text)];
    } else {
      payload := map[RoleName := Str(n.role), LabelName := Str(n.caption)];
      if n.KindOrNode() == Container {
        payload := payload[KindName := KIND_CONTAINER];
      }
      if n.ref.Some? {
        payload := AppendRefFields(n, payload);
      }
    }
    forall name ensures Look(payload, name) == if Rank(name) < 1 then FieldAt(n, children, name) else None {
    }
  }

  method AppendRefFields(n: PublicNode, start: map<Name, Json>) returns (payload: map<Name, Json>)
    requires n.ref.Some?
    ensures payload == start[RefName := Str(n.ref.value)][StateName := Texts(n.state)][ActionsName := Texts(n.actions)]
                       [BoundsName := DumpBounds(n.bounds)][MetaName := DumpMeta(n.meta)]
  {
    payload := start[RefName := Str(n.ref.value)];
    payload := payload[StateName := Texts(n.state)];
    payload := payload[ActionsName := Texts(n.actions)];
    payload := payload[BoundsName := DumpBounds(n.bounds)];
    payload := payload[MetaName := DumpMeta(n.meta)];
  }

  method AppendOptionalFields(n: PublicNode, start: map<Name, Json>) returns (payload: map<Name, Json>)
    requires Filled(n, DumpAll(n.children), start, 1)
    ensures Filled(n, DumpAll(n.children), payload, 9)
    decreases n, 1
  {
    payload := AppendLists(n, start, DumpAll(n.children));
    payload := AppendTexts(n, payload, DumpAll(n.children));
    FillNext(n, DumpAll(n.children), payload, ChildrenName);
    if n.children != [] {
      var dumped := SerializeChildren(n.children);
      payload := payload[ChildrenName := Arr(dumped)];
    }
  }

  method AppendLists(n: PublicNode, start: map<Name, Json>, ghost children: seq<Json>)
    returns (payload: map<Name, Json>)
    requires Filled(n, children, start, 1)
    ensures Filled(n, children, payload, 3)
  {
    payload := start;
    FillNext(n, children, payload, ScrollDirectionsName);
    if n.scrollDirections != [] {
      payload := payload[ScrollDirectionsName := Texts(n.scrollDirections)];
    }
    FillNext(n, children, payload, SubmitRefsName);
    if n.submitRefs != [] {
      payload := payload[SubmitRefsName := Texts(n.submitRefs)];
    }
  }

  method AppendTexts(n: PublicNode, start: map<Name, Json>, ghost children: seq<Json>)
    returns (payload: map<Name, Json>)
    requires Filled(n, children, start, 3)
    ensures Filled(n, children, payload, 8)
  {
    payload := start;
    FillNext(n, children, payload, WithinName);
    if n.within.Some? {
      payload := payload[WithinName := Str(n.within.value)];
    }
    FillNext(n, children, payload, ValueName);
    if n.value.Some? {
      payload := payload[ValueName := Str(n.value.value)];
    }
    payload := AppendPlaces(n, payload, children);
  }

  method AppendPlaces(n: PublicNode, start: map<Name, Json>, ghost children: seq<Json>)
    returns (payload: map<Name, Json>)
    requires Filled(n, children, start, 5)
    ensures Filled(n, children, payload, 8)
  {
    payload := start;
    payload := AppendOrigin(n, payload, children);
    FillNext(n, children, payload, WindowRefName);
    if n.windowRef.Some? {
      payload := payload[WindowRefName := Str(n.windowRef.value)];
    }
    FillNext(n, children, payload, AmbiguityName);
    if n.ambiguity.Some? {
      payload := payload[AmbiguityName := Str(n.ambiguity.value)];
    }
  }

  method AppendOrigin(n: PublicNode, start: map<Name, Json>, ghost children: seq<Json>)
    returns (payload: map<Name, Json>)
    requires Filled(n, children, start, 5)
    ensures Filled(n, children, payload, 6)
  {
    payload := start;
    FillNext(n, children, payload, OriginName);
    if n.origin.Some? {
      payload := payload[OriginName := Str(n.origin.value)];
    }
  }

  method SerializeChildren(nodes: seq<PublicNode>) returns (children: seq<Json>)
    ensures children == DumpAll(nodes)
    decreases nodes, 0
  {
    children := [];
    for i := 0 to |nodes|
      invariant |children| == i && forall j :: 0 <= j < i ==> children[j] == Dump(nodes[j])
    {
      var child := SerializeModel(nodes[i]);
      children := children + [child];
    }
  }

  // ---------- Reading nodes ----------

  // An absent kind is told by the children.
  function Kinded(fields: map<Name, Json>): (r: map<Name, Json>)
    ensures KindName in r
  {
    var hasChildren := ChildrenName in fields && fields[ChildrenName] != Null && fields[ChildrenName] != Arr([]);
    if KindName in fields then fields
    else fields[KindName := if hasChildren then KIND_CONTAINER else KIND_NODE]
  }

  // Meta needs a ref, and empty meta is none.
  function MetaNormalized(fields: map<Name, Json>): map<Name, Json> {
    if RefName !in fields || fields[RefName] == Null then fields - {MetaName}
    else if MetaName in fields && fields[MetaName] == Obj(map[]) then fields[MetaName := Null]
    else fields
  }

  // The normalisation before validation; None is a validation error.
  function Normalize(fields: map<Name, Json>): Option<map<Name, Json>> {
    var kinded := Kinded(fields);
    if kinded[KindName] == KIND_TEXT && (RoleName in kinded || LabelName in kinded) then None
    else Some(MetaNormalized(kinded))
  }

  function ReadKind(j: Json): Option<Option<Kind>> {
    if j == Null then Some(None)
    else if j == KIND_NODE then Some(Some(Node))
    else if j == KIND_CONTAINER then Some(Some(Container))
    else if j == KIND_TEXT then Some(Some(Text))
    else None
  }

  // Each reader yields None for a value that validation rejects.
  function ReadText(fields: map<Name, Json>, name: Name): Option<string> {
    if name !in fields then Some("")
    else if fields[name].Str? then Some(fields[name].text) else None
  }

  function ReadNullable(fields: map<Name, Json>, name: Name): Option<Option<string>> {
    if name !in fields || fields[name] == Null then Some(None)
    else if fields[name].Str? then Some(Some(fields[name].text)) else None
  }

  function ReadTexts(fields: map<Name, Json>, name: Name): Option<seq<string>> {
    if name !in fields then Some([])
    else if fields[name].Arr? && forall i :: 0 <= i < |fields[name].items| ==> fields[name].items[i].Str? then
      var items := fields[name].items;
      Some(seq(|items|, i requires 0 <= i < |items| => items[i].text))
    else None
  }

  function ReadBounds(fields: map<Name, Json>): Option<Option<Bounds>> {
    if BoundsName !in fields || fields[BoundsName] == Null then Some(None)
    else match fields[BoundsName]
      case Arr(items) =>
        if |items| == 4 && items[0].Int? && items[1].Int? && items[2].Int? && items[3].Int? then
          Some(Some(Bounds(items[0].number, items[1].number, items[2].number, items[3].number)))
        else None
      case _ => None
  }

  function ReadMeta(fields: map<Name, Json>): Option<Option<Meta>> {
    if MetaName !in fields || fields[MetaName] == Null then Some(None)
    else match fields[MetaName]
      case Obj(meta) =>
        if !(meta.Keys <= {ResourceIdName, ClassNameName}) || ClassNameName !in meta
           || ReadNullable(meta, ResourceIdName) == None || !meta[ClassNameName].Str? then None
        else Some(Some(Meta(ReadNullable(meta, ResourceIdName).value, meta[ClassNameName].text)))
      case _ => None
  }

  // `model_validate` on one node payload.
  function Validate(j: Json): (r: Option<PublicNode>)
    decreases j, 1
  {
    match j
    case Obj(raw) =>
      if !(raw.Keys <= NODE_FIELDS) then None
      else
        var children :=
          if ChildrenName !in raw then Some([])
          else match raw[ChildrenName]
            case Arr(items) => ValidateAll(items)
            case _ => None;
        var normal := Normalize(raw);
        if children == None || normal == None then None
        else Assemble(normal.value, children.value)
    case _ => None
  }

  function ValidateAll(items: seq<Json>): (r: Option<seq<PublicNode>>)
    ensures r.Some? ==> |r.value| == |items|
    decreases items
  {
    if items == [] then Some([])
    else
      var head, tail := Validate(items[0]), ValidateAll(items[1..]);
      if head == None || tail == None then None else Some([head.value] + tail.value)
  }

  function Assemble(fields: map<Name, Json>, children: seq<PublicNode>): Option<PublicNode>
    requires KindName in fields
  {
    var kind := ReadKind(fields[KindName]);
    var role := ReadText(fields, RoleName);
    var caption := ReadText(fields, LabelName);
    var text := ReadNullable(fields, TextName);
    var ref := ReadNullable(fields, RefName);
    var state := ReadTexts(fields, StateName);
    var actions := ReadTexts(fields, ActionsName);
    var bounds := ReadBounds(fields);
    var meta := ReadMeta(fields);
    var scrolls := ReadTexts(fields, ScrollDirectionsName);
    var submits := ReadTexts(fields, SubmitRefsName);
    var within := ReadNullable(fields, WithinName);
    var value := ReadNullable(fields, ValueName);
    var origin := ReadNullable(fields, OriginName);
    var windowRef := ReadNullable(fields, WindowRefName);
    var ambiguity := ReadNullable(fields, AmbiguityName);
    if kind == None || role == None || caption == None || text == None || ref == None || state == None
       || actions == None || bounds == None || meta == None || scrolls == None || submits == None
       || within == None || value == None || origin == None || windowRef == None || ambiguity == None then None
    else
      var n := PublicNode(kind.value, role.value, caption.value, text.value, ref.value, state.value,
                          actions.value, bounds.value, meta.value, children, scrolls.value, submits.value,
                          within.value, value.value, origin.value, windowRef.value, ambiguity.value);
      if ValidFields(n) && ValidShape(n) then Some(n) else None
  }

  // ---------- Screens ----------

  datatype Group = Targets | Keyboard | System | Context | Dialog

  const GROUP_ORDER: seq<Group> := [Targets, Keyboard, System, Context, Dialog]
  const BLOCKING_GROUPS: set<Group> := {Dialog, Keyboard, System}

  datatype PublicApp = PublicApp(
    packageName: Option<string>,
    activityName: Option<string>,
    requestedPackageName: Option<string>,
    resolvedPackageName: Option<string>,
    matchType: Option<string>)
  {
    function Field(name: Name): Option<string> {
      match name
      case PackageNameName => packageName
      case ActivityNameName => activityName
      case RequestedPackageNameName => requestedPackageName
      case ResolvedPackageNameName => resolvedPackageName
      case MatchTypeName => matchType
      case _ => None
    }
  }

  const APP_FIELDS: set<Name> :=
    {PackageNameName, ActivityNameName, RequestedPackageNameName, ResolvedPackageNameName, MatchTypeName}

  datatype PublicSurface = PublicSurface(keyboardVisible: bool, blockingGroup: Option<Group>, inputRef: Option<string>)

  datatype PublicGroup = PublicGroup(name: Group, nodes: seq<PublicNode>)

  datatype OmittedEntry = OmittedEntry(group: Group, reason: string, count: Option<int>)

  datatype VisibleWindow = VisibleWindow(windowRef: string, role: string, focused: bool, blocking: bool)

  datatype TransientItem = TransientItem(text: string, kind: Option<string>)

  datatype Screen = Screen(
    screenId: string,
    app: PublicApp,
    surface: PublicSurface,
    groups: seq<PublicGroup>,
    omitted: seq<OmittedEntry>,
    visibleWindows: seq<VisibleWindow>,
    transient: seq<TransientItem>)

  const OMITTED_REASONS: set<string> := {"offscreen", "virtualized", "structureCollapsed"}
  const TRANSIENT_KINDS: set<string> := {"toast", "snackbar", "banner"}
  const MATCH_TYPES: set<string> := {"exact", "alias"}

  // The blocking group, if any, comes first; the rest keep their order.
  function ExpectedOrder(blocking: Option<Group>): seq<Group> {
    match blocking
    case None => GROUP_ORDER
    case Some(first) => [first] + Without(GROUP_ORDER, first)
  }

  function Without(order: seq<Group>, group: Group): seq<Group> {
    if order == [] then []
    else (if order[0] == group then [] else [order[0]]) + Without(order[1..], group)
  }

  predicate ValidEntries(screen: Screen) {
    && screen.screenId != ""
    && (screen.surface.blockingGroup.Some? ==> screen.surface.blockingGroup.value in BLOCKING_GROUPS)
    && (screen.app.matchType.Some? ==> screen.app.matchType.value in MATCH_TYPES)
    && (forall i :: 0 <= i < |screen.omitted| ==> screen.omitted[i].reason in OMITTED_REASONS)
    && (forall i :: 0 <= i < |screen.visibleWindows| ==>
          screen.visibleWindows[i].windowRef != "" && screen.visibleWindows[i].role != "")
    && (forall i :: 0 <= i < |screen.transient| ==>
          screen.transient[i].text != ""
          && (screen.transient[i].kind.Some? ==> screen.transient[i].kind.value in TRANSIENT_KINDS))
  }

  // The groups carry the expected names in the expected order, and only valid nodes.
  predicate ValidGroups(screen: Screen) {
    var expected := ExpectedOrder(screen.surface.blockingGroup);
    && |screen.groups| == |expected|
    && forall i :: 0 <= i < |expected| ==> screen.groups[i].name == expected[i] && AllValid(screen.groups[i].nodes)
  }

  // Cross-references between nodes and windows are left out: neither renderer reads them.
  predicate ValidScreen(screen: Screen) {
    ValidEntries(screen) && ValidGroups(screen)
  }

  function GroupText(group: Group): string {
    match group
    case Targets => "targets"
    case Keyboard => "keyboard"
    case System => "system"
    case Context => "context"
    case Dialog => "dialog"
  }

  function DumpApp(app: PublicApp): Json {
    Obj(map name | name in APP_FIELDS && app.Field(name).Some? :: Str(app.Field(name).value))
  }

  function DumpSurface(surface: PublicSurface): Json {
    Obj(map[KeyboardVisibleName := Bool(surface.keyboardVisible),
            FocusName := Obj(Present(InputRefName, surface.inputRef))]
        + (if surface.blockingGroup.Some? then map[BlockingGroupName := Str(GroupText(surface.blockingGroup.value))]
           else map[]))
  }

  function DumpGroup(group: PublicGroup): Json {
    Obj(map[NameName := Str(GroupText(group.name)), NodesName := Arr(DumpAll(group.nodes))])
  }

  function DumpOmitted(entry: OmittedEntry): Json {
    Obj(map[GroupName := Str(GroupText(entry.group)), ReasonName := Str(entry.reason)]
        + (if entry.count.Some? then map[CountName := Int(entry.count.value)] else map[]))
  }

  function DumpWindow(window: VisibleWindow): Json {
    Obj(map[WindowRefName := Str(window.windowRef), RoleName := Str(window.role),
            FocusedName := Bool(window.focused), BlockingName := Bool(window.blocking)])
  }

  function DumpTransient(item: TransientItem): Json {
    Obj(map[TextName := Str(item.text)] + Present(KindName, item.kind))
  }

  function DumpList<T>(items: seq<T>, dump: T -> Json): (r: Json) {
    Arr(seq(|items|, i requires 0 <= i < |items| => dump(items[i])))
  }

  function DumpScreen(screen: Screen): Json {
    Obj(map[ScreenIdName := Str(screen.screenId), AppName := DumpApp(screen.app),
            SurfaceName := DumpSurface(screen.surface), GroupsName := DumpList(screen.groups, DumpGroup),
            OmittedName := DumpList(screen.omitted, DumpOmitted),
            VisibleWindowsName := DumpList(screen.visibleWindows, DumpWindow),
            TransientName := DumpList(screen.transient, DumpTransient)])
  }
}
