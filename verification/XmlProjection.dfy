// The CLI's renderer: it projects the dumped screen, whatever its shape, and builds the tree from
// the projection.
module XmlProjection {
  import opened Common
  import opened PublicScreen
  import opened XmlTree

  const APP_ATTRS: seq<Name> :=
    [PackageNameName, ActivityNameName, RequestedPackageNameName, ResolvedPackageNameName, MatchTypeName]
  const FOCUS_ATTRS: seq<Name> := [InputRefName]
  const VISIBLE_WINDOW_ATTRS: seq<Name> := [WindowRefName, RoleName, FocusedName, BlockingName]
  const NODE_TEXT_ATTRS: seq<Name> := [LabelName, WithinName, ValueName]
  const TEXT_ITEM_ATTRS: seq<Name> := [OriginName, WindowRefName, AmbiguityName, WithinName, ValueName]
  const NODE_SCALAR_ATTRS: seq<Name> := [RefName, RoleName, OriginName, WindowRefName, AmbiguityName]
  const NODE_SEQUENCE_ATTRS: seq<Name> := [ActionsName, StateName, ScrollDirectionsName, SubmitRefsName]

  // ---------- Attribute rules ----------

  // The text of a list item; nested lists and objects are not modelled.
  function ItemText(j: Json): string {
    match j
    case Str(text) => text
    case Int(number) => IntText(number)
    case Bool(flag) => if flag then "True" else "False"
    case Null => "None"
    case _ => ""
  }

  function ItemTexts(items: seq<Json>): seq<string> {
    seq(|items|, i requires 0 <= i < |items| => ItemText(items[i]))
  }

  function ScalarAttr(j: Json): Option<string> {
    match j
    case Null => None
    case Bool(flag) => Some(BoolText(flag))
    case Int(number) => Some(IntText(number))
    case Str(text) => Some(text)
    case Arr(items) => Some(Join(ItemTexts(items)))
    case Obj(_) => None
  }

  function NonEmptyStringAttr(j: Json): Option<string> {
    if j.Str? && j.text != "" then Some(j.text) else None
  }

  function NonEmptySequenceAttr(j: Json): Option<string> {
    if j.Arr? && j.items != [] then Some(Join(ItemTexts(j.items))) else None
  }

  function BoolAttr(j: Json): Option<string> {
    if j.Bool? then Some(BoolText(j.flag)) else None
  }

  function CountAttr(j: Json): Option<string> {
    if j.Int? && j.number >= 0 then Some(IntText(j.number)) else None
  }

  function GroupOf(j: Json): Option<Group> {
    if j == Str("targets") then Some(Targets)
    else if j == Str("keyboard") then Some(Keyboard)
    else if j == Str("system") then Some(System)
    else if j == Str("context") then Some(Context)
    else if j == Str("dialog") then Some(Dialog)
    else None
  }

  function BlockingGroupOf(j: Json): Option<Group> {
    var group := GroupOf(j);
    if group.Some? && group.value in BLOCKING_GROUPS then group else None
  }

  // The attributes that `rule` makes of the named fields.
  function Project(fields: map<Name, Json>, names: seq<Name>, rule: Json -> Option<string>): Attrs {
    if names == [] then map[]
    else
      var last := names[|names| - 1];
      var front := Project(fields, names[..|names| - 1], rule);
      if last in fields && rule(fields[last]).Some? then front[last := rule(fields[last]).value] else front
  }

  method ProjectAttrs(fields: map<Name, Json>, names: seq<Name>, rule: Json -> Option<string>) returns (attrs: Attrs)
    ensures attrs == Project(fields, names, rule)
  {
    attrs := map[];
    for i := 0 to |names|
      invariant attrs == Project(fields, names[..i], rule)
    {
      assert names[..i + 1][..i] == names[..i];
      if names[i] in fields {
        var projected := rule(fields[names[i]]);
        if projected.Some? {
          attrs := attrs[names[i] := projected.value];
        }
      }
    }
    assert names[..|names|] == names;
  }

  function Fields(j: Option<Json>): map<Name, Json> {
    if j.Some? && j.value.Obj? then j.value.fields else map[]
  }

  // ---------- Group items ----------

  function TextValue(j: Option<Json>): Option<string> {
    if j == None then None
    else match j.value
      case Str(text) => Some(text)
      case Arr(items) => FirstPresent(items)
      case _ => None
  }

  function FirstPresent(items: seq<Json>): Option<string> {
    if items == [] then None
    else if items[0] != Null then Some(ItemText(items[0]))
    else FirstPresent(items[1..])
  }

  function NodeItemAttrs(fields: map<Name, Json>): Attrs {
    (Project(fields, NODE_SCALAR_ATTRS, ScalarAttr)
     + Project(fields, NODE_SEQUENCE_ATTRS, NonEmptySequenceAttr)
     - {RoleName})
    + Project(fields, NODE_TEXT_ATTRS, ScalarAttr)
  }

  function ProjectItem(j: Json): Option<Xml> {
    match j
    case Obj(fields) =>
      if KindName in fields && fields[KindName] == KIND_TEXT then
        var text := TextValue(Look(fields, TextName));
        if text == None then None
        else Some(Xml("literal", Project(fields, TEXT_ITEM_ATTRS, ScalarAttr), text, []))
      else
        var children :=
          if ChildrenName !in fields then []
          else match fields[ChildrenName]
            case Arr(items) => ProjectItems(items)
            case _ => [];
        ProjectNode(fields, children)
    case _ => None
  }

  // An item that is not text, its children already projected.
  function ProjectNode(fields: map<Name, Json>, children: seq<Xml>): Option<Xml> {
    if RoleName !in fields || !fields[RoleName].Str? || fields[RoleName].text !in ROLES then None
    else
      var attrs := NodeItemAttrs(fields);
      if attrs == map[] && children == [] then None
      else Some(Xml(fields[RoleName].text, attrs, None, children))
  }

  function ProjectItems(items: seq<Json>): seq<Xml> {
    if items == [] then []
    else
      var head := ProjectItem(items[0]);
      (if head.Some? then [head.value] else []) + ProjectItems(items[1..])
  }

  function ItemsOf(j: Option<Json>): seq<Xml> {
    if j.Some? && j.value.Arr? then ProjectItems(j.value.items) else []
  }

  // ---------- The rest of the screen ----------

  datatype OmittedProjection = OmittedProjection(group: Group, reason: string, count: Option<string>)

  datatype TransientProjection = TransientProjection(text: string, kind: Option<string>)

  datatype ScreenProjection = ScreenProjection(
    screenId: string,
    app: Attrs,
    surface: Attrs,
    focus: Attrs,
    groups: seq<(Group, seq<Xml>)>,
    omitted: seq<OmittedProjection>,
    visibleWindows: seq<Attrs>,
    transient: seq<TransientProjection>)

  function SurfaceAttrs(surface: map<Name, Json>): Attrs {
    Project(surface, [KeyboardVisibleName], BoolAttr)
    + Project(surface, [BlockingGroupName], BlockingGroupAttr)
  }

  function BlockingGroupAttr(j: Json): Option<string> {
    var group := BlockingGroupOf(j);
    if group.Some? then Some(GroupText(group.value)) else None
  }

  // The items of the last entry that carries the group's name.
  function EntryItems(entries: seq<Json>, group: Group): seq<Xml> {
    if entries == [] then []
    else
      var last := Fields(Some(entries[|entries| - 1]));
      if NameName in last && GroupOf(last[NameName]) == Some(group) then ItemsOf(Look(last, NodesName))
      else EntryItems(entries[..|entries| - 1], group)
  }

  function RemoveGroup(order: seq<Group>, group: Group): seq<Group> {
    if order == [] then []
    else if order[0] == group then order[1..]
    else [order[0]] + RemoveGroup(order[1..], group)
  }

  function ProjectedOrder(blocking: Option<Group>): seq<Group> {
    if blocking.Some? && blocking.value in BLOCKING_GROUPS
    then [blocking.value] + RemoveGroup(GROUP_ORDER, blocking.value) else GROUP_ORDER
  }

  function ProjectGroups(value: Option<Json>, blocking: Option<Group>): seq<(Group, seq<Xml>)> {
    var entries := if value.Some? && value.value.Arr? then value.value.items else [];
    var order := ProjectedOrder(blocking);
    seq(|order|, i requires 0 <= i < |order| => (order[i], EntryItems(entries, order[i])))
  }

  // Every group is listed, with the items of the last entry that names it.
  predicate ListsItems(byName: map<Group, seq<Xml>>, entries: seq<Json>) {
    forall g :: g in byName && byName[g] == EntryItems(entries, g)
  }

  method ItemsByName(entries: seq<Json>) returns (byName: map<Group, seq<Xml>>)
    ensures ListsItems(byName, entries)
  {
    byName := NoItems();
    for i := 0 to |entries|
      invariant ListsItems(byName, entries[..i])
    {
      assert entries[..i + 1][..i] == entries[..i];
      var entry := Fields(Some(entries[i]));
      if NameName in entry && GroupOf(entry[NameName]).Some? {
        byName := byName[GroupOf(entry[NameName]).value := ItemsOf(Look(entry, NodesName))];
      }
    }
    assert entries[..|entries|] == entries;
  }

  method NoItems() returns (byName: map<Group, seq<Xml>>)
    ensures ListsItems(byName, [])
  {
    byName := map[Targets := [], Keyboard := [], System := [], Context := [], Dialog := []];
    forall g: Group ensures g in byName && byName[g] == [] {
      match g case Targets => case Keyboard => case System => case Context => case Dialog =>
    }
  }

  method ProjectGroupList(value: Option<Json>, blocking: Option<Group>) returns (groups: seq<(Group, seq<Xml>)>)
    ensures groups == ProjectGroups(value, blocking)
  {
    var entries := if value.Some? && value.value.Arr? then value.value.items else [];
    var entriesByName := ItemsByName(entries);
    var order := GROUP_ORDER;
    if blocking.Some? && blocking.value in BLOCKING_GROUPS {
      order := RemoveGroup(order, blocking.value);
      order := [blocking.value] + order;
    }
    groups := InOrder(order, entriesByName, entries);
  }

  method InOrder(order: seq<Group>, byName: map<Group, seq<Xml>>, ghost entries: seq<Json>)
    returns (groups: seq<(Group, seq<Xml>)>)
    requires ListsItems(byName, entries)
    ensures |groups| == |order|
    ensures forall k :: 0 <= k < |order| ==> groups[k] == (order[k], EntryItems(entries, order[k]))
  {
    groups := [];
    for i := 0 to |order|
      invariant |groups| == i
      invariant forall k :: 0 <= k < i ==> groups[k] == (order[k], EntryItems(entries, order[k]))
    {
      groups := groups + [(order[i], byName[order[i]])];
    }
  }

  function ProjectOmitted(j: Json): Option<OmittedProjection> {
    var fields := Fields(Some(j));
    if GroupName !in fields || GroupOf(fields[GroupName]) == None then None
    else if ReasonName !in fields || !fields[ReasonName].Str? || fields[ReasonName].text !in OMITTED_REASONS then None
    else Some(OmittedProjection(GroupOf(fields[GroupName]).value, fields[ReasonName].text,
                                if CountName in fields then CountAttr(fields[CountName]) else None))
  }

  function ProjectWindow(j: Json): Option<Attrs> {
    var attrs := Project(Fields(Some(j)), VISIBLE_WINDOW_ATTRS, ScalarAttr);
    if attrs == map[] then None else Some(attrs)
  }

  function ProjectTransient(j: Json): Option<TransientProjection> {
    var fields := Fields(Some(j));
    if TextName !in fields || NonEmptyStringAttr(fields[TextName]) == None then None
    else
      var kind := if KindName in fields && fields[KindName].Str? && fields[KindName].text in TRANSIENT_KINDS
                  then Some(fields[KindName].text) else None;
      Some(TransientProjection(fields[TextName].text, kind))
  }

  function Collect<T>(items: seq<Json>, project: Json -> Option<T>): seq<T> {
    if items == [] then []
    else
      var head := project(items[0]);
      (if head.Some? then [head.value] else []) + Collect(items[1..], project)
  }

  function CollectFrom<T>(value: Option<Json>, project: Json -> Option<T>): seq<T> {
    if value.Some? && value.value.Arr? then Collect(value.value.items, project) else []
  }

  // Python's text of a looked-up value.
  function TextOf(j: Option<Json>): string {
    if j.Some? then ItemText(j.value) else "None"
  }

  function ProjectScreen(j: Json): ScreenProjection {
    var screen := Fields(Some(j));
    var surface := Fields(Look(screen, SurfaceName));
    ScreenProjection(
      TextOf(Look(screen, ScreenIdName)),
      Project(Fields(Look(screen, AppName)), APP_ATTRS, NonEmptyStringAttr),
      SurfaceAttrs(surface),
      Project(Fields(Look(surface, FocusName)), FOCUS_ATTRS, NonEmptyStringAttr),
      ProjectGroups(Look(screen, GroupsName),
                    if BlockingGroupName in surface then BlockingGroupOf(surface[BlockingGroupName]) else None),
      CollectFrom(Look(screen, OmittedName), ProjectOmitted),
      CollectFrom(Look(screen, VisibleWindowsName), ProjectWindow),
      CollectFrom(Look(screen, TransientName), ProjectTransient))
  }

  // ---------- The tree of a projection ----------

  function OmittedElement(entry: OmittedProjection): Xml {
    Xml("entry",
        map[GroupName := GroupText(entry.group), ReasonName := entry.reason]
        + (if entry.count.Some? then map[CountName := entry.count.value] else map[]),
        None, [])
  }

  function WindowElement(attrs: Attrs): Xml {
    Xml("window", attrs, None, [])
  }

  function TransientElement(item: TransientProjection): Xml {
    Xml("item", if item.kind.Some? then map[KindName := item.kind.value] else map[], Some(item.text), [])
  }

  function GroupElement(group: (Group, seq<Xml>)): Xml {
    Xml(GroupText(group.0), map[], None, group.1)
  }

  function Elements<T>(items: seq<T>, build: T -> Xml): (r: seq<Xml>)
    ensures |r| == |items| && forall i :: 0 <= i < |items| ==> r[i] == build(items[i])
  {
    seq(|items|, i requires 0 <= i < |items| => build(items[i]))
  }

  function ScreenElement(p: ScreenProjection): Xml {
    Xml("screen", map[ScreenIdName := p.screenId], None,
        [Xml("app", p.app, None, []),
         Xml("surface", p.surface, None, [Xml("focus", p.focus, None, [])]),
         Xml("groups", map[], None, Elements(p.groups, GroupElement)),
         Xml("omitted", map[], None, Elements(p.omitted, OmittedElement)),
         Xml("visibleWindows", map[], None, Elements(p.visibleWindows, WindowElement)),
         Xml("transient", map[], None, Elements(p.transient, TransientElement))])
  }

  function RenderDump(j: Json): Xml {
    ScreenElement(ProjectScreen(j))
  }
}
