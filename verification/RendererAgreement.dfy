// The daemon's renderer and the CLI's renderer produce the same tree.
module RendererAgreement {
  import opened Common
  import opened PublicScreen
  import opened XmlTree
  import opened ScreenXml
  import opened XmlProjection
  import opened ScreenReading

  // ---------- Attributes ----------

  lemma {:induction false} ProjectAt(fields: map<Name, Json>, names: seq<Name>, rule: Json -> Option<string>,
      name: Name)
    ensures AttrAt(Project(fields, names, rule), name) ==
            if name in names && name in fields then rule(fields[name]) else None
  {
    if names != [] {
      ProjectAt(fields, names[..|names| - 1], rule, name);
      assert names == names[..|names| - 1] + [names[|names| - 1]];
    }
  }

  lemma TextsJoin(items: seq<string>)
    ensures ScalarAttr(Texts(items)) == Some(Join(items))
    ensures NonEmptySequenceAttr(Texts(items)) == JoinNonEmpty(items)
  {
    assert ItemTexts(Texts(items).items) == items;
  }

  // What a rule makes of the field a dumped node holds under a name.
  function RuleAt(n: PublicNode, children: seq<Json>, name: Name, rule: Json -> Option<string>): Option<string> {
    var field := FieldAt(n, children, name);
    if field.Some? then rule(field.value) else None
  }

  lemma PayloadRule(n: PublicNode, children: seq<Json>, names: seq<Name>, rule: Json -> Option<string>, name: Name)
    requires forall k :: k in names ==> k in NODE_FIELDS
    ensures AttrAt(Project(Payload(n, children), names, rule), name) ==
            if name in names then RuleAt(n, children, name, rule) else None
  {
    ProjectAt(Payload(n, children), names, rule, name);
  }

  // Later attributes win, and the role never shows.
  lemma NodeItemAttrsAt(fields: map<Name, Json>, name: Name)
    ensures AttrAt(NodeItemAttrs(fields), name) ==
      var texts := AttrAt(Project(fields, NODE_TEXT_ATTRS, ScalarAttr), name);
      var lists := AttrAt(Project(fields, NODE_SEQUENCE_ATTRS, NonEmptySequenceAttr), name);
      if texts.Some? then texts
      else if name == RoleName then None
      else if lists.Some? then lists
      else AttrAt(Project(fields, NODE_SCALAR_ATTRS, ScalarAttr), name)
  {
  }

  lemma TextRules(n: PublicNode, children: seq<Json>, name: Name)
    requires Valid(n) && !n.IsText() && name in NODE_TEXT_ATTRS
    ensures RuleAt(n, children, name, ScalarAttr) == NodeAttr(n, name)
  {
  }

  lemma ListRules(n: PublicNode, children: seq<Json>, name: Name)
    requires Valid(n) && !n.IsText() && name in NODE_SEQUENCE_ATTRS
    ensures RuleAt(n, children, name, NonEmptySequenceAttr) == NodeAttr(n, name)
  {
    TextsJoin(match name
              case ActionsName => n.actions
              case StateName => n.state
              case ScrollDirectionsName => n.scrollDirections
              case _ => n.submitRefs);
  }

  lemma ScalarRules(n: PublicNode, children: seq<Json>, name: Name)
    requires Valid(n) && !n.IsText() && name in NODE_SCALAR_ATTRS && name != RoleName
    ensures RuleAt(n, children, name, ScalarAttr) == NodeAttr(n, name)
  {
  }

  lemma AttrNames(name: Name)
    ensures name in ITEM_ATTRS <==>
      name in NODE_TEXT_ATTRS || name in NODE_SEQUENCE_ATTRS || (name in NODE_SCALAR_ATTRS && name != RoleName)
    ensures name in NODE_TEXT_ATTRS ==> name !in NODE_SEQUENCE_ATTRS && name !in NODE_SCALAR_ATTRS
    ensures name in NODE_SEQUENCE_ATTRS ==> name !in NODE_SCALAR_ATTRS
  {
  }

  // What the three projections of a node's payload come to, later ones winning.
  function ProjectedAttr(n: PublicNode, children: seq<Json>, name: Name): Option<string> {
    var texts := if name in NODE_TEXT_ATTRS then RuleAt(n, children, name, ScalarAttr) else None;
    var lists := if name in NODE_SEQUENCE_ATTRS then RuleAt(n, children, name, NonEmptySequenceAttr) else None;
    var scalars := if name in NODE_SCALAR_ATTRS then RuleAt(n, children, name, ScalarAttr) else None;
    if texts.Some? then texts
    else if name == RoleName then None
    else if lists.Some? then lists
    else scalars
  }

  lemma ProjectedAttrAt(n: PublicNode, children: seq<Json>, name: Name)
    ensures AttrAt(NodeItemAttrs(Payload(n, children)), name) == ProjectedAttr(n, children, name)
  {
    NodeItemAttrsAt(Payload(n, children), name);
    PayloadRule(n, children, NODE_SCALAR_ATTRS, ScalarAttr, name);
    PayloadRule(n, children, NODE_SEQUENCE_ATTRS, NonEmptySequenceAttr, name);
    PayloadRule(n, children, NODE_TEXT_ATTRS, ScalarAttr, name);
  }

  lemma ProjectedAttrIs(n: PublicNode, children: seq<Json>, name: Name)
    requires Valid(n) && !n.IsText()
    ensures ProjectedAttr(n, children, name) == if name in ITEM_ATTRS then NodeAttr(n, name) else None
  {
    AttrNames(name);
    if name in NODE_TEXT_ATTRS {
      TextRules(n, children, name);
    } else if name in NODE_SEQUENCE_ATTRS {
      ListRules(n, children, name);
    } else if name in NODE_SCALAR_ATTRS && name != RoleName {
      ScalarRules(n, children, name);
    }
  }

  lemma NodeAttrAgrees(n: PublicNode, children: seq<Json>, name: Name)
    requires Valid(n) && !n.IsText()
    ensures AttrAt(NodeItemAttrs(Payload(n, children)), name) == AttrAt(NodeAttrs(n), name)
  {
    ProjectedAttrAt(n, children, name);
    ProjectedAttrIs(n, children, name);
    NodeAttrsAt(n, name);
  }

  lemma NodeAttrsAt(n: PublicNode, name: Name)
    ensures AttrAt(NodeAttrs(n), name) == if name in ITEM_ATTRS then NodeAttr(n, name) else None
  {
  }

  lemma NodeAttrsAgree(n: PublicNode, children: seq<Json>)
    requires Valid(n) && !n.IsText()
    ensures NodeItemAttrs(Payload(n, children)) == NodeAttrs(n)
  {
    forall name ensures AttrAt(NodeItemAttrs(Payload(n, children)), name) == AttrAt(NodeAttrs(n), name) {
      NodeAttrAgrees(n, children, name);
    }
    SameAttrs(NodeItemAttrs(Payload(n, children)), NodeAttrs(n));
  }

  lemma TextAttrAgrees(n: PublicNode, children: seq<Json>, name: Name)
    requires Valid(n) && n.IsText()
    ensures AttrAt(Project(Payload(n, children), TEXT_ITEM_ATTRS, ScalarAttr), name) == AttrAt(TextAttrs(n), name)
  {
    PayloadRule(n, children, TEXT_ITEM_ATTRS, ScalarAttr, name);
    TextItemRule(n, children, name);
    assert AttrAt(TextAttrs(n), name) == if name in ITEM_ATTRS then SharedAttr(n, name) else None;
  }

  lemma TextItemRule(n: PublicNode, children: seq<Json>, name: Name)
    requires Valid(n) && n.IsText()
    ensures (if name in TEXT_ITEM_ATTRS then RuleAt(n, children, name, ScalarAttr) else None)
         == if name in ITEM_ATTRS then SharedAttr(n, name) else None
  {
  }

  lemma TextAttrsAgree(n: PublicNode, children: seq<Json>)
    requires Valid(n) && n.IsText()
    ensures Project(Payload(n, children), TEXT_ITEM_ATTRS, ScalarAttr) == TextAttrs(n)
  {
    var attrs := Project(Payload(n, children), TEXT_ITEM_ATTRS, ScalarAttr);
    forall name ensures AttrAt(attrs, name) == AttrAt(TextAttrs(n), name) {
      TextAttrAgrees(n, children, name);
    }
    SameAttrs(attrs, TextAttrs(n));
  }

  // ---------- Items ----------

  lemma TextItemAgrees(n: PublicNode, children: seq<Json>)
    requires Valid(n) && n.IsText()
    ensures ProjectItem(Obj(Payload(n, children))) == Some(Item(n))
  {
    TextAttrsAgree(n, children);
  }

  lemma NodeProjects(n: PublicNode, children: seq<Json>)
    requires Valid(n) && !n.IsText()
    ensures ProjectNode(Payload(n, children), Items(n.children)) == Some(Item(n))
  {
    NodeAttrsAgree(n, children);
    assert LabelName in NodeAttrs(n);
    assert Look(Payload(n, children), RoleName) == FieldAt(n, children, RoleName);
  }

  lemma NodeItemAgrees(n: PublicNode, children: seq<Json>)
    requires Valid(n) && !n.IsText() && |children| == |n.children|
    requires ProjectItems(children) == Items(n.children)
    ensures ProjectItem(Obj(Payload(n, children))) == Some(Item(n))
  {
    NodeProjects(n, children);
    NodeIsNoTextItem(n, children);
    ChildItems(n, children);
  }

  lemma NodeIsNoTextItem(n: PublicNode, children: seq<Json>)
    requires Valid(n) && !n.IsText()
    ensures Look(Payload(n, children), KindName) != Some(KIND_TEXT)
  {
    KindTextIsOwn();
    assert Look(Payload(n, children), KindName) == FieldAt(n, children, KindName);
  }

  lemma ChildItems(n: PublicNode, children: seq<Json>)
    requires Valid(n) && !n.IsText() && |children| == |n.children|
    ensures Look(Payload(n, children), ChildrenName) == if children == [] then None else Some(Arr(children))
  {
    assert Look(Payload(n, children), ChildrenName) == FieldAt(n, children, ChildrenName);
  }

  lemma KindTextIsOwn()
    ensures KIND_TEXT != KIND_CONTAINER
  {
    assert |"text"| == 4 && |"container"| == 9;
  }

  // A valid node projects, from its dump, to the element the daemon makes of it.
  lemma {:induction false} ItemsAgree(n: PublicNode)
    requires Valid(n)
    ensures ProjectItem(Dump(n)) == Some(Item(n))
    decreases n, 1
  {
    AllItemsAgree(n.children);
    if n.IsText() {
      TextItemAgrees(n, DumpAll(n.children));
    } else {
      NodeItemAgrees(n, DumpAll(n.children));
    }
  }

  lemma {:induction false} AllItemsAgree(nodes: seq<PublicNode>)
    requires AllValid(nodes)
    ensures ProjectItems(DumpAll(nodes)) == Items(nodes)
    decreases nodes, 0
  {
    if nodes != [] {
      ItemsAgree(nodes[0]);
      AllItemsAgree(nodes[1..]);
      assert DumpAll(nodes)[1..] == DumpAll(nodes[1..]);
    }
  }

  // ---------- App and surface ----------

  lemma AppAgrees(app: PublicApp)
    ensures Project(DumpApp(app).fields, APP_ATTRS, NonEmptyStringAttr) == AppXml(app).attrs
  {
    var fields, attrs := DumpApp(app).fields, AppXml(app).attrs;
    var projected := Project(fields, APP_ATTRS, NonEmptyStringAttr);
    forall name ensures AttrAt(projected, name) == AttrAt(attrs, name) {
      ProjectAt(fields, APP_ATTRS, NonEmptyStringAttr, name);
      assert name in APP_ATTRS <==> name in APP_FIELDS;
    }
    SameAttrs(projected, attrs);
  }

  lemma GroupTextReadsBack(group: Group)
    ensures GroupOf(Str(GroupText(group))) == Some(group)
  {
    assert "targets"[0] == 't' && "keyboard"[0] == 'k' && "system"[0] == 's';
    assert "context"[0] == 'c' && "dialog"[0] == 'd';
  }

  lemma SurfaceAgrees(surface: PublicSurface)
    requires surface.blockingGroup.Some? ==> surface.blockingGroup.value in BLOCKING_GROUPS
    ensures SurfaceAttrs(DumpSurface(surface).fields) == SurfaceXml(surface).attrs
    ensures BlockingGroupName in DumpSurface(surface).fields <==> surface.blockingGroup.Some?
    ensures surface.blockingGroup.Some? ==>
      BlockingGroupOf(DumpSurface(surface).fields[BlockingGroupName]) == surface.blockingGroup
  {
    var fields := DumpSurface(surface).fields;
    if surface.blockingGroup.Some? {
      GroupTextReadsBack(surface.blockingGroup.value);
    }
    forall name ensures AttrAt(SurfaceAttrs(fields), name) == AttrAt(SurfaceXml(surface).attrs, name) {
      ProjectAt(fields, [KeyboardVisibleName], BoolAttr, name);
      ProjectAt(fields, [BlockingGroupName], BlockingGroupAttr, name);
    }
    SameAttrs(SurfaceAttrs(fields), SurfaceXml(surface).attrs);
  }

  lemma FocusAgrees(surface: PublicSurface)
    ensures Project(Fields(Look(DumpSurface(surface).fields, FocusName)), FOCUS_ATTRS, NonEmptyStringAttr)
            == OptionalAttr(InputRefName, NonEmpty(surface.inputRef))
  {
    var fields := Present(InputRefName, surface.inputRef);
    assert Fields(Look(DumpSurface(surface).fields, FocusName)) == fields;
    var attrs := OptionalAttr(InputRefName, NonEmpty(surface.inputRef));
    forall name ensures AttrAt(Project(fields, FOCUS_ATTRS, NonEmptyStringAttr), name) == AttrAt(attrs, name) {
      ProjectAt(fields, FOCUS_ATTRS, NonEmptyStringAttr, name);
    }
    SameAttrs(Project(fields, FOCUS_ATTRS, NonEmptyStringAttr), attrs);
  }

  // ---------- Groups ----------

  // Removing the one occurrence of a group is filtering it out.
  lemma {:induction false} RemoveIsWithout(order: seq<Group>, group: Group)
    requires forall i, j :: 0 <= i < j < |order| ==> order[i] != order[j]
    ensures RemoveGroup(order, group) == Without(order, group)
  {
    if order != [] {
      RemoveIsWithout(order[1..], group);
      if order[0] == group {
        WithoutAbsent(order[1..], group);
      }
    }
  }

  lemma {:induction false} WithoutAbsent(order: seq<Group>, group: Group)
    requires group !in order
    ensures Without(order, group) == order
  {
    if order != [] {
      WithoutAbsent(order[1..], group);
    }
  }

  lemma OrderAgrees(blocking: Option<Group>)
    ensures ProjectedOrder(blocking) == Order(blocking)
  {
    if blocking.Some? {
      RemoveIsWithout(GROUP_ORDER, blocking.value);
    }
  }

  lemma GroupEntryReadsBack(group: PublicGroup)
    requires AllValid(group.nodes)
    ensures var fields := Fields(Some(DumpGroup(group)));
      NameName in fields && GroupOf(fields[NameName]) == Some(group.name)
      && ItemsOf(Look(fields, NodesName)) == Items(group.nodes)
  {
    GroupTextReadsBack(group.name);
    AllItemsAgree(group.nodes);
  }

  lemma {:induction false} GroupItemsAgree(groups: seq<PublicGroup>, entries: seq<Json>, name: Group)
    requires |entries| == |groups|
    requires forall i :: 0 <= i < |groups| ==> AllValid(groups[i].nodes) && entries[i] == DumpGroup(groups[i])
    ensures EntryItems(entries, name) == Items(NodesOf(groups, name))
  {
    if groups != [] {
      var last := |groups| - 1;
      GroupItemsAgree(groups[..last], entries[..last], name);
      GroupEntryReadsBack(groups[last]);
    }
  }

  lemma GroupsAgree(screen: Screen)
    requires ValidScreen(screen)
    ensures Elements(
      ProjectGroups(Some(DumpList(screen.groups, DumpGroup)), screen.surface.blockingGroup), GroupElement)
            == GroupsXml(screen).children
  {
    OrderAgrees(screen.surface.blockingGroup);
    var order := Order(screen.surface.blockingGroup);
    forall i | 0 <= i < |order|
      ensures EntryItems(DumpList(screen.groups, DumpGroup).items, order[i]) == Items(NodesOf(screen.groups, order[i]))
    {
      GroupItemsAgree(screen.groups, DumpList(screen.groups, DumpGroup).items, order[i]);
    }
  }

  // ---------- Flat lists ----------

  lemma {:induction false} CollectsAll<T>(items: seq<Json>, project: Json -> Option<T>, values: seq<T>)
    requires |items| == |values|
    requires forall i :: 0 <= i < |items| ==> project(items[i]) == Some(values[i])
    ensures Collect(items, project) == values
  {
    if items != [] {
      CollectsAll(items[1..], project, values[1..]);
    }
  }

  function OmittedOf(entry: OmittedEntry): OmittedProjection {
    OmittedProjection(entry.group, entry.reason,
                      if entry.count.Some? && entry.count.value >= 0 then Some(IntText(entry.count.value)) else None)
  }

  lemma OmittedProjects(entry: OmittedEntry)
    requires entry.reason in OMITTED_REASONS
    ensures ProjectOmitted(DumpOmitted(entry)) == Some(OmittedOf(entry))
  {
    GroupTextReadsBack(entry.group);
  }

  predicate Counted(entry: OmittedEntry) {
    entry.count == None || entry.count.value >= 0
  }

  lemma OmittedAgrees(entry: OmittedEntry)
    ensures OmittedElement(OmittedOf(entry)) == OmittedXml(entry) <==> Counted(entry)
  {
    if !Counted(entry) {
      assert CountName in OmittedXml(entry).attrs && CountName !in OmittedElement(OmittedOf(entry)).attrs;
    }
  }

  function WindowAttrs(window: VisibleWindow): Attrs {
    WindowXml(window).attrs
  }

  lemma WindowProjects(window: VisibleWindow)
    ensures ProjectWindow(DumpWindow(window)) == Some(WindowAttrs(window))
  {
    var fields, attrs := DumpWindow(window).fields, WindowAttrs(window);
    forall name ensures AttrAt(Project(fields, VISIBLE_WINDOW_ATTRS, ScalarAttr), name) == AttrAt(attrs, name) {
      ProjectAt(fields, VISIBLE_WINDOW_ATTRS, ScalarAttr, name);
    }
    SameAttrs(Project(fields, VISIBLE_WINDOW_ATTRS, ScalarAttr), attrs);
    assert WindowRefName in attrs;
  }

  lemma TransientProjects(item: TransientItem)
    requires item.text != "" && (item.kind.Some? ==> item.kind.value in TRANSIENT_KINDS)
    ensures ProjectTransient(DumpTransient(item)) == Some(TransientProjection(item.text, item.kind))
  {
  }

  function OmittedValues(entries: seq<OmittedEntry>): (r: seq<OmittedProjection>)
    ensures |r| == |entries| && forall i :: 0 <= i < |entries| ==> r[i] == OmittedOf(entries[i])
  {
    seq(|entries|, i requires 0 <= i < |entries| => OmittedOf(entries[i]))
  }

  lemma OmittedListAgrees(screen: Screen)
    requires ValidScreen(screen)
    ensures CollectFrom(Some(DumpList(screen.omitted, DumpOmitted)), ProjectOmitted) == OmittedValues(screen.omitted)
  {
    forall i | 0 <= i < |screen.omitted|
      ensures ProjectOmitted(DumpList(screen.omitted, DumpOmitted).items[i]) == Some(OmittedOf(screen.omitted[i]))
    {
      OmittedProjects(screen.omitted[i]);
    }
    CollectsAll(DumpList(screen.omitted, DumpOmitted).items, ProjectOmitted, OmittedValues(screen.omitted));
  }

  lemma WindowListAgrees(screen: Screen)
    ensures Elements(CollectFrom(Some(DumpList(screen.visibleWindows, DumpWindow)), ProjectWindow), WindowElement)
            == MapXml(screen.visibleWindows, WindowXml)
  {
    var ws := screen.visibleWindows;
    var values := seq(|ws|, i requires 0 <= i < |ws| => WindowAttrs(ws[i]));
    forall i | 0 <= i < |ws| ensures ProjectWindow(DumpList(ws, DumpWindow).items[i]) == Some(values[i]) {
      WindowProjects(ws[i]);
    }
    CollectsAll(DumpList(ws, DumpWindow).items, ProjectWindow, values);
  }

  lemma TransientListAgrees(screen: Screen)
    requires ValidScreen(screen)
    ensures Elements(CollectFrom(Some(DumpList(screen.transient, DumpTransient)), ProjectTransient), TransientElement)
            == MapXml(screen.transient, TransientXml)
  {
    var ts := screen.transient;
    var values := seq(|ts|, i requires 0 <= i < |ts| => TransientProjection(ts[i].text, ts[i].kind));
    forall i | 0 <= i < |ts| ensures ProjectTransient(DumpList(ts, DumpTransient).items[i]) == Some(values[i]) {
      TransientProjects(ts[i]);
    }
    CollectsAll(DumpList(ts, DumpTransient).items, ProjectTransient, values);
  }

  // ---------- The screen ----------

  predicate CountsNonNegative(screen: Screen) {
    forall i :: 0 <= i < |screen.omitted| ==> Counted(screen.omitted[i])
  }

  lemma OmittedTreesAgree(screen: Screen)
    ensures Elements(OmittedValues(screen.omitted), OmittedElement) == MapXml(screen.omitted, OmittedXml)
            <==> CountsNonNegative(screen)
  {
    var cli, daemon := Elements(OmittedValues(screen.omitted), OmittedElement), MapXml(screen.omitted, OmittedXml);
    forall i | 0 <= i < |screen.omitted| ensures cli[i] == daemon[i] <==> Counted(screen.omitted[i]) {
      OmittedAgrees(screen.omitted[i]);
    }
    if cli == daemon {
      forall i | 0 <= i < |screen.omitted| ensures Counted(screen.omitted[i]) {
        assert cli[i] == daemon[i];
      }
    }
  }

  // What the CLI reads out of the dumped screen.
  lemma DumpedScreenReads(screen: Screen)
    ensures var fields := Fields(Some(DumpScreen(screen)));
      && Look(fields, ScreenIdName) == Some(Str(screen.screenId))
      && Look(fields, AppName) == Some(DumpApp(screen.app))
      && Look(fields, SurfaceName) == Some(DumpSurface(screen.surface))
      && Look(fields, GroupsName) == Some(DumpList(screen.groups, DumpGroup))
      && Look(fields, OmittedName) == Some(DumpList(screen.omitted, DumpOmitted))
      && Look(fields, VisibleWindowsName) == Some(DumpList(screen.visibleWindows, DumpWindow))
      && Look(fields, TransientName) == Some(DumpList(screen.transient, DumpTransient))
  {
  }

  lemma ScreenIdReads(screen: Screen)
    ensures ProjectScreen(DumpScreen(screen)).screenId == screen.screenId
  {
    var id := Look(Fields(Some(DumpScreen(screen))), ScreenIdName);
    assert id == Some(Str(screen.screenId));
    assert TextOf(id) == screen.screenId;
  }

  lemma AppReads(screen: Screen)
    ensures ProjectScreen(DumpScreen(screen)).app == Project(DumpApp(screen.app).fields, APP_ATTRS, NonEmptyStringAttr)
  {
    DumpedScreenReads(screen);
  }

  lemma SurfaceReads(screen: Screen)
    requires ValidScreen(screen)
    ensures ProjectScreen(DumpScreen(screen)).surface == SurfaceXml(screen.surface).attrs
  {
    DumpedScreenReads(screen);
    SurfaceAgrees(screen.surface);
  }

  lemma FocusReads(screen: Screen)
    ensures ProjectScreen(DumpScreen(screen)).focus == SurfaceXml(screen.surface).children[0].attrs
  {
    DumpedScreenReads(screen);
    FocusAgrees(screen.surface);
  }

  lemma GroupsRead(screen: Screen)
    requires ValidScreen(screen)
    ensures ProjectScreen(DumpScreen(screen)).groups
         == ProjectGroups(Some(DumpList(screen.groups, DumpGroup)), screen.surface.blockingGroup)
  {
    DumpedScreenReads(screen);
    SurfaceAgrees(screen.surface);
  }

  lemma HeadAgrees(screen: Screen)
    requires ValidScreen(screen)
    ensures var p := ProjectScreen(DumpScreen(screen));
      && p.screenId == screen.screenId
      && p.app == AppXml(screen.app).attrs
      && p.surface == SurfaceXml(screen.surface).attrs
      && p.focus == SurfaceXml(screen.surface).children[0].attrs
      && Elements(p.groups, GroupElement) == GroupsXml(screen).children
  {
    ScreenIdReads(screen);
    AppReads(screen);
    AppAgrees(screen.app);
    SurfaceReads(screen);
    FocusReads(screen);
    GroupsRead(screen);
    GroupsAgree(screen);
  }

  lemma ListsAgree(screen: Screen)
    requires ValidScreen(screen)
    ensures var p := ProjectScreen(DumpScreen(screen));
      && p.omitted == OmittedValues(screen.omitted)
      && Elements(p.visibleWindows, WindowElement) == MapXml(screen.visibleWindows, WindowXml)
      && Elements(p.transient, TransientElement) == MapXml(screen.transient, TransientXml)
  {
    DumpedScreenReads(screen);
    OmittedListAgrees(screen);
    WindowListAgrees(screen);
    TransientListAgrees(screen);
  }

  // For every valid screen the two trees are equal, exactly when no omitted count is negative.
  lemma RenderersAgree(screen: Screen)
    requires ValidScreen(screen)
    ensures RenderDump(DumpScreen(screen)) == ScreenTree(screen) <==> CountsNonNegative(screen)
  {
    HeadAgrees(screen);
    ListsAgree(screen);
    OmittedTreesAgree(screen);
    TreeOfParts(ProjectScreen(DumpScreen(screen)), screen);
  }

  // So the client's tree, too, is read as the screen.
  lemma ClientTreeIsRead(screen: Screen)
    requires ValidScreen(screen) && CountsNonNegative(screen)
    ensures ShowsScreen(screen, ReadScreen(RenderDump(DumpScreen(screen))))
  {
    RenderersAgree(screen);
    ScreenIsRead(screen);
  }

  // The two trees are equal exactly when their omitted lists are, the other parts being equal.
  lemma TreeOfParts(p: ScreenProjection, screen: Screen)
    requires p.screenId == screen.screenId && p.app == AppXml(screen.app).attrs
    requires p.surface == SurfaceXml(screen.surface).attrs && p.focus == SurfaceXml(screen.surface).children[0].attrs
    requires Elements(p.groups, GroupElement) == GroupsXml(screen).children
    requires Elements(p.visibleWindows, WindowElement) == MapXml(screen.visibleWindows, WindowXml)
    requires Elements(p.transient, TransientElement) == MapXml(screen.transient, TransientXml)
    ensures ScreenElement(p) == ScreenTree(screen) <==>
            Elements(p.omitted, OmittedElement) == MapXml(screen.omitted, OmittedXml)
  {
    ElementParts(p);
    TreeParts(screen);
    SixEqual(ScreenElement(p).children, ScreenTree(screen).children);
  }

  lemma SixEqual(a: seq<Xml>, b: seq<Xml>)
    requires |a| == |b| == 6 && a[0] == b[0] && a[1] == b[1] && a[2] == b[2] && a[4] == b[4] && a[5] == b[5]
    ensures a == b <==> a[3] == b[3]
  {
  }

  lemma ElementParts(p: ScreenProjection)
    ensures var parts := ScreenElement(p).children;
      && |parts| == 6
      && parts[0] == Xml("app", p.app, None, [])
      && parts[1] == Xml("surface", p.surface, None, [Xml("focus", p.focus, None, [])])
      && parts[2] == Xml("groups", map[], None, Elements(p.groups, GroupElement))
      && parts[3] == Xml("omitted", map[], None, Elements(p.omitted, OmittedElement))
      && parts[4] == Xml("visibleWindows", map[], None, Elements(p.visibleWindows, WindowElement))
      && parts[5] == Xml("transient", map[], None, Elements(p.transient, TransientElement))
  {
  }

  lemma SixInARow(a: seq<Xml>, b: seq<Xml>)
    requires |a| == |b| == 3
    ensures var r := a + b;
      |r| == 6 && r[0] == a[0] && r[1] == a[1] && r[2] == a[2] && r[3] == b[0] && r[4] == b[1] && r[5] == b[2]
  {
  }

  lemma TreeParts(screen: Screen)
    ensures var parts := ScreenTree(screen).children;
      && |parts| == 6
      && parts[0] == AppXml(screen.app) && parts[1] == SurfaceXml(screen.surface) && parts[2] == GroupsXml(screen)
      && parts[3] == Xml("omitted", map[], None, MapXml(screen.omitted, OmittedXml))
      && parts[4] == Xml("visibleWindows", map[], None, MapXml(screen.visibleWindows, WindowXml))
      && parts[5] == Xml("transient", map[], None, MapXml(screen.transient, TransientXml))
  {
    SixInARow(Top(screen), Lists(screen));
  }

  ghost predicate RenderersDiffer(screen: Screen) {
    RenderDump(DumpScreen(screen)) != ScreenTree(screen)
  }

  lemma DifferIf(screen: Screen)
    requires ValidScreen(screen) && !CountsNonNegative(screen)
    ensures RenderersDiffer(screen)
  {
    RenderersAgree(screen);
  }

  // A screen with empty groups and the omitted entries.
  function BareScreen(screenId: string, omitted: seq<OmittedEntry>): Screen {
    Screen(screenId, PublicApp(None, None, None, None, None), PublicSurface(false, None, None),
           seq(5, i requires 0 <= i < 5 => PublicGroup(GROUP_ORDER[i], [])), omitted, [], [])
  }

  // There are valid screens on which the two renderers differ.
  lemma NegativeCountDiffers(screenId: string)
    requires screenId != ""
    ensures exists screen :: ValidScreen(screen) && RenderersDiffer(screen)
  {
    var entry := OmittedEntry(Targets, "offscreen", Some(-1));
    var screen := BareScreen(screenId, [entry]);
    assert screen.omitted[0] == entry;
    assert !Counted(screen.omitted[0]);
    DifferIf(screen);
  }
}
