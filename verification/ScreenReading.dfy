// Reading a rendered screen back: what its tree tells, in the texts a reader of it sees.
module ScreenReading {
  import opened Common
  import opened PublicScreen
  import opened XmlTree
  import opened ScreenXml

  // ---------- Texts ----------

  function ReadFlag(text: string): Option<bool> {
    if text == "true" then Some(true) else if text == "false" then Some(false) else None
  }

  function ReadGroup(text: string): Option<Group> {
    if text == "targets" then Some(Targets)
    else if text == "keyboard" then Some(Keyboard)
    else if text == "system" then Some(System)
    else if text == "context" then Some(Context)
    else if text == "dialog" then Some(Dialog)
    else None
  }

  function ReadInt(text: string): Option<int> {
    if text != "" && text[0] == '-' && AllDigits(text[1..]) then Some(-(ParseDecimal(text[1..]) as int))
    else if text != "" && AllDigits(text) then Some(ParseDecimal(text))
    else None
  }

  // The words of a text, which single spaces separate.
  function Words(text: string): (words: seq<string>)
    ensures words != []
  {
    if text == "" then [""]
    else
      var rest := Words(text[1..]);
      if text[0] == ' ' then [""] + rest else [[text[0]] + rest[0]] + rest[1..]
  }

  predicate IsWord(text: string) {
    forall i :: 0 <= i < |text| ==> text[i] != ' '
  }

  predicate AreWords(items: seq<string>) {
    forall i :: 0 <= i < |items| ==> IsWord(items[i])
  }

  lemma {:induction false} WordAlone(word: string)
    requires IsWord(word)
    ensures Words(word) == [word]
  {
    if word != "" {
      WordAlone(word[1..]);
      assert [word[0]] + word[1..] == word;
    }
  }

  lemma {:induction false} WordFirst(word: string, rest: string)
    requires IsWord(word)
    ensures Words(word + (" " + rest)) == [word] + Words(rest)
  {
    var text := word + (" " + rest);
    if word == "" {
      assert text == " " + rest && text[1..] == rest;
    } else {
      WordFirst(word[1..], rest);
      assert text[1..] == word[1..] + (" " + rest) && [word[0]] + word[1..] == word;
    }
  }

  // Joined words are read as they were.
  lemma {:induction false} WordsOfJoin(items: seq<string>)
    requires items != [] && AreWords(items)
    ensures Words(Join(items)) == items
  {
    if |items| == 1 {
      WordAlone(items[0]);
    } else {
      WordsOfJoin(items[1..]);
      WordFirst(items[0], Join(items[1..]));
      assert items[0] + " " + Join(items[1..]) == items[0] + (" " + Join(items[1..]));
    }
  }

  lemma FlagIsRead(flag: bool)
    ensures ReadFlag(BoolText(flag)) == Some(flag)
  {
  }

  lemma GroupIsRead(group: Group)
    ensures ReadGroup(GroupText(group)) == Some(group)
  {
  }

  lemma IntIsRead(n: int)
    ensures ReadInt(IntText(n)) == Some(n)
  {
    if n < 0 {
      ParseOfDecimal(-n);
      assert IntText(n)[1..] == Decimal(-n);
    } else {
      ParseOfDecimal(n);
      assert IsDigit(Decimal(n)[0]);
    }
  }

  // ---------- Items ----------

  datatype ItemView =
    | LiteralView(text: Option<string>, common: CommonView)
    | NodeView(
        role: string,
        caption: Option<string>,
        ref: Option<string>,
        actions: seq<string>,
        state: seq<string>,
        scrollDirections: seq<string>,
        submitRefs: seq<string>,
        common: CommonView,
        children: seq<ItemView>)

  datatype CommonView = CommonView(
    within: Option<string>,
    value: Option<string>,
    origin: Option<string>,
    windowRef: Option<string>,
    ambiguity: Option<string>)

  function ReadCommon(attrs: Attrs): CommonView {
    CommonView(AttrAt(attrs, WithinName), AttrAt(attrs, ValueName), AttrAt(attrs, OriginName),
               AttrAt(attrs, WindowRefName), AttrAt(attrs, AmbiguityName))
  }

  function WordsAt(attrs: Attrs, name: Name): seq<string> {
    if name in attrs then Words(attrs[name]) else []
  }

  function ReadItem(item: Xml): ItemView {
    if item.tag == "literal" then LiteralView(item.text, ReadCommon(item.attrs))
    else
      NodeView(item.tag, AttrAt(item.attrs, LabelName), AttrAt(item.attrs, RefName),
               WordsAt(item.attrs, ActionsName), WordsAt(item.attrs, StateName),
               WordsAt(item.attrs, ScrollDirectionsName), WordsAt(item.attrs, SubmitRefsName),
               ReadCommon(item.attrs), ReadItems(item.children))
  }

  function ReadItems(items: seq<Xml>): (views: seq<ItemView>)
    ensures |views| == |items| && forall i :: 0 <= i < |items| ==> views[i] == ReadItem(items[i])
  {
    if items == [] then [] else [ReadItem(items[0])] + ReadItems(items[1..])
  }

  // What a node has to show: a text its text; any other node its role and label, with its ref what
  // can be done with it and how it stands, and what lies within.
  function ViewOf(n: PublicNode): ItemView {
    var common := CommonView(n.within, n.value, n.origin, n.windowRef, n.ambiguity);
    if n.IsText() then LiteralView(n.text, common)
    else
      NodeView(n.role, Some(n.caption), n.ref,
               if n.ref.Some? then n.actions else [], if n.ref.Some? then n.state else [],
               n.scrollDirections, n.submitRefs, common, ViewsOf(n.children))
  }

  function ViewsOf(nodes: seq<PublicNode>): (views: seq<ItemView>)
    ensures |views| == |nodes| && forall i :: 0 <= i < |nodes| ==> views[i] == ViewOf(nodes[i])
  {
    if nodes == [] then [] else [ViewOf(nodes[0])] + ViewsOf(nodes[1..])
  }

  lemma TokensAreWords(n: PublicNode)
    requires ValidFields(n)
    ensures AreWords(n.actions) && AreWords(n.state) && AreWords(n.scrollDirections) && AreWords(n.submitRefs)
  {
    forall i | 0 <= i < |n.submitRefs| ensures IsWord(n.submitRefs[i]) {
      RefIsWord(n.submitRefs[i]);
    }
  }

  lemma RefIsWord(ref: string)
    requires IsPublicRef(ref)
    ensures IsWord(ref)
  {
    forall i | 0 <= i < |ref| ensures ref[i] != ' ' {
      assert i > 0 ==> IsDigit(ref[1..][i - 1]);
    }
  }

  lemma WordsAreRead(attrs: Attrs, name: Name, items: seq<string>)
    requires AreWords(items) && AttrAt(attrs, name) == JoinNonEmpty(items)
    ensures WordsAt(attrs, name) == items
  {
    if items != [] {
      WordsOfJoin(items);
    }
  }

  lemma NodeAttrAt(n: PublicNode, name: Name)
    ensures AttrAt(NodeAttrs(n), name) == NodeAttr(n, name) && AttrAt(TextAttrs(n), name) == SharedAttr(n, name)
  {
  }

  lemma CommonIsRead(n: PublicNode)
    ensures var common := CommonView(n.within, n.value, n.origin, n.windowRef, n.ambiguity);
      ReadCommon(NodeAttrs(n)) == common && ReadCommon(TextAttrs(n)) == common
  {
    NodeAttrAt(n, WithinName);
    NodeAttrAt(n, ValueName);
    NodeAttrAt(n, OriginName);
    NodeAttrAt(n, WindowRefName);
    NodeAttrAt(n, AmbiguityName);
  }

  lemma ListsAreRead(n: PublicNode)
    requires ValidFields(n)
    ensures WordsAt(NodeAttrs(n), ActionsName) == (if n.ref.Some? then n.actions else [])
    ensures WordsAt(NodeAttrs(n), StateName) == (if n.ref.Some? then n.state else [])
    ensures WordsAt(NodeAttrs(n), ScrollDirectionsName) == n.scrollDirections
    ensures WordsAt(NodeAttrs(n), SubmitRefsName) == n.submitRefs
  {
    TokensAreWords(n);
    NodeListsAt(n);
    WordsAreRead(NodeAttrs(n), ActionsName, if n.ref.Some? then n.actions else []);
    WordsAreRead(NodeAttrs(n), StateName, if n.ref.Some? then n.state else []);
    WordsAreRead(NodeAttrs(n), ScrollDirectionsName, n.scrollDirections);
    WordsAreRead(NodeAttrs(n), SubmitRefsName, n.submitRefs);
  }

  lemma NodeListsAt(n: PublicNode)
    ensures AttrAt(NodeAttrs(n), ActionsName) == JoinNonEmpty(if n.ref.Some? then n.actions else [])
    ensures AttrAt(NodeAttrs(n), StateName) == JoinNonEmpty(if n.ref.Some? then n.state else [])
    ensures AttrAt(NodeAttrs(n), ScrollDirectionsName) == JoinNonEmpty(n.scrollDirections)
    ensures AttrAt(NodeAttrs(n), SubmitRefsName) == JoinNonEmpty(n.submitRefs)
  {
    NodeAttrAt(n, ActionsName);
    NodeAttrAt(n, StateName);
    NodeAttrAt(n, ScrollDirectionsName);
    NodeAttrAt(n, SubmitRefsName);
  }

  // The item of a valid node is read as what the node has to show, with all that lies within.
  lemma {:induction false} ItemIsRead(n: PublicNode)
    requires Valid(n)
    ensures ReadItem(Item(n)) == ViewOf(n)
    decreases n, 1
  {
    CommonIsRead(n);
    if !n.IsText() {
      ItemsAreRead(n.children);
      NodeIsRead(n, Items(n.children), ViewsOf(n.children));
    }
  }

  lemma NodeIsRead(n: PublicNode, items: seq<Xml>, views: seq<ItemView>)
    requires Valid(n) && !n.IsText() && ReadItems(items) == views
    ensures ReadItem(Xml(n.role, NodeAttrs(n), None, items))
         == NodeView(n.role, Some(n.caption), n.ref,
                     if n.ref.Some? then n.actions else [], if n.ref.Some? then n.state else [],
                     n.scrollDirections, n.submitRefs,
                     CommonView(n.within, n.value, n.origin, n.windowRef, n.ambiguity), views)
  {
    CommonIsRead(n);
    ListsAreRead(n);
    CaptionAndRefAreRead(n);
    RoleIsNoLiteral(n.role);
    NodeReadsAs(n.role, NodeAttrs(n), items);
  }

  lemma CaptionAndRefAreRead(n: PublicNode)
    requires ValidShape(n) && !n.IsText()
    ensures AttrAt(NodeAttrs(n), LabelName) == Some(n.caption) && AttrAt(NodeAttrs(n), RefName) == n.ref
  {
    NodeAttrAt(n, LabelName);
    NodeAttrAt(n, RefName);
  }

  // A caption is shown unless it is empty or the item is a text.
  lemma CaptionIs(n: PublicNode)
    ensures AttrAt(NodeAttrs(n), LabelName) == if n.IsText() || |n.caption| == 0 then None else Some(n.caption)
    ensures AttrAt(TextAttrs(n), LabelName) == AttrAt(NodeAttrs(n), LabelName)
  {
    NodeAttrAt(n, LabelName);
  }

  lemma RoleIsNoLiteral(role: string)
    requires role in ROLES
    ensures role != "literal"
  {
  }

  lemma NodeReadsAs(tag: string, attrs: Attrs, items: seq<Xml>)
    requires tag != "literal"
    ensures ReadItem(Xml(tag, attrs, None, items))
         == NodeView(tag, AttrAt(attrs, LabelName), AttrAt(attrs, RefName),
                     WordsAt(attrs, ActionsName), WordsAt(attrs, StateName),
                     WordsAt(attrs, ScrollDirectionsName), WordsAt(attrs, SubmitRefsName),
                     ReadCommon(attrs), ReadItems(items))
  {
  }

  lemma {:induction false} ItemsAreRead(nodes: seq<PublicNode>)
    requires AllValid(nodes)
    ensures ReadItems(Items(nodes)) == ViewsOf(nodes)
    decreases nodes, 0
  {
    if nodes != [] {
      ItemIsRead(nodes[0]);
      ItemsAreRead(nodes[1..]);
      assert Items(nodes)[1..] == Items(nodes[1..]);
    }
  }

  // ---------- What cannot be rendered ----------

  // The node and all that is rendered within it.
  function AllWithin(n: PublicNode): seq<PublicNode> {
    [n] + (if n.kind == Some(Text) then [] else AllWithinEach(n.children))
  }

  function AllWithinEach(nodes: seq<PublicNode>): seq<PublicNode> {
    if nodes == [] then [] else AllWithin(nodes[0]) + AllWithinEach(nodes[1..])
  }

  predicate HasTag(n: PublicNode) {
    n.kind == Some(Text)
    || n.role in {"button", "input", "switch", "checkbox", "radio", "tab", "keyboard-key", "image", "list-item", "text",
                  "container", "dialog", "scroll-container"}
  }

  // A node can be rendered if and only if it and all that is rendered within it have a tag.
  lemma {:induction false} RendersIff(n: PublicNode)
    ensures Renderable(n) <==> forall m :: m in AllWithin(n) ==> HasTag(m)
    decreases n, 1
  {
    if n.IsText() {
      assert AllWithin(n) == [n];
    } else {
      EachRendersIff(n.children);
      RolesAreTags(n);
      assert Renderable(n) <==> n.role in ROLES && AllRenderable(n.children);
      FirstAndWithin(n, AllWithinEach(n.children));
    }
  }

  lemma RolesAreTags(n: PublicNode)
    requires !n.IsText()
    ensures HasTag(n) <==> n.role in ROLES
  {
  }

  lemma FirstAndWithin(n: PublicNode, within: seq<PublicNode>)
    ensures (forall m :: m in [n] + within ==> HasTag(m)) <==> HasTag(n) && forall m :: m in within ==> HasTag(m)
  {
    var all := [n] + within;
    assert all[0] == n;
    assert forall m :: m in all <==> m == n || m in within;
  }

  lemma {:induction false} EachRendersIff(nodes: seq<PublicNode>)
    ensures AllRenderable(nodes) <==> forall m :: m in AllWithinEach(nodes) ==> HasTag(m)
    decreases nodes, 0
  {
    if nodes != [] {
      RendersIff(nodes[0]);
      EachRendersIff(nodes[1..]);
      assert AllRenderable(nodes) <==> Renderable(nodes[0]) && AllRenderable(nodes[1..]) by {
        AllRenderableSplits(nodes);
      }
    }
  }

  lemma AllRenderableSplits(nodes: seq<PublicNode>)
    requires nodes != []
    ensures AllRenderable(nodes) <==> Renderable(nodes[0]) && AllRenderable(nodes[1..])
  {
    if Renderable(nodes[0]) && AllRenderable(nodes[1..]) {
      forall i | 0 <= i < |nodes| ensures Renderable(nodes[i]) {
        assert i > 0 ==> nodes[i] == nodes[1..][i - 1];
      }
    }
    if AllRenderable(nodes) {
      forall i | 0 <= i < |nodes[1..]| ensures Renderable(nodes[1..][i]) {
        assert nodes[1..][i] == nodes[i + 1];
      }
    }
  }

  lemma GroupsRenderIff(groups: seq<PublicGroup>, order: seq<Group>)
    ensures GroupsRenderable(groups, order) <==> forall g :: g in order ==> AllRenderable(NodesOf(groups, g))
  {
    if GroupsRenderable(groups, order) {
      forall g | g in order ensures AllRenderable(NodesOf(groups, g)) {
        var i :| 0 <= i < |order| && order[i] == g;
      }
    }
    if forall g :: g in order ==> AllRenderable(NodesOf(groups, g)) {
      forall i | 0 <= i < |order| ensures AllRenderable(NodesOf(groups, order[i])) {
        assert order[i] in order;
      }
    }
  }

  lemma AllGroupsAreShown(blocking: Option<Group>, g: Group)
    ensures g in Order(blocking)
  {
    OrderIsShown(blocking);
  }

  predicate GroupHasTags(groups: seq<PublicGroup>, g: Group) {
    forall m :: m in AllWithinEach(NodesOf(groups, g)) ==> HasTag(m)
  }

  // And a screen if and only if that is so of all its groups.
  lemma ScreenRendersIff(screen: Screen)
    ensures RenderableScreen(screen) <==> forall g: Group :: GroupHasTags(screen.groups, g)
  {
    GroupsRenderIff(screen.groups, Order(screen.surface.blockingGroup));
    forall g: Group
      ensures g in Order(screen.surface.blockingGroup)
      ensures AllRenderable(NodesOf(screen.groups, g)) <==> GroupHasTags(screen.groups, g)
    {
      AllGroupsAreShown(screen.surface.blockingGroup, g);
      EachRendersIff(NodesOf(screen.groups, g));
    }
  }

  // ---------- The screen ----------

  datatype ScreenView = ScreenView(
    screenId: Option<string>,
    app: AppView,
    keyboardVisible: Option<bool>,
    blockingGroup: Option<Group>,
    inputRef: Option<string>,
    groups: seq<GroupView>,
    omitted: seq<OmittedView>,
    visibleWindows: seq<WindowView>,
    transient: seq<TransientView>)

  datatype AppView = AppView(
    packageName: Option<string>,
    activityName: Option<string>,
    requestedPackageName: Option<string>,
    resolvedPackageName: Option<string>,
    matchType: Option<string>)

  datatype GroupView = GroupView(name: Option<Group>, items: seq<ItemView>)

  datatype OmittedView = OmittedView(group: Option<Group>, reason: Option<string>, count: Option<int>)

  datatype WindowView = WindowView(
    windowRef: Option<string>,
    role: Option<string>,
    focused: Option<bool>,
    blocking: Option<bool>)

  datatype TransientView = TransientView(text: Option<string>, kind: Option<string>)

  // The first child of a tag; an empty element if there is none.
  function Child(children: seq<Xml>, tag: string): Xml {
    if children == [] then Xml(tag, map[], None, [])
    else if children[0].tag == tag then children[0]
    else Child(children[1..], tag)
  }

  function FlagAt(attrs: Attrs, name: Name): Option<bool> {
    if name in attrs then ReadFlag(attrs[name]) else None
  }

  function GroupAt(attrs: Attrs, name: Name): Option<Group> {
    if name in attrs then ReadGroup(attrs[name]) else None
  }

  function ReadApp(app: Xml): AppView {
    AppView(AttrAt(app.attrs, PackageNameName), AttrAt(app.attrs, ActivityNameName),
            AttrAt(app.attrs, RequestedPackageNameName), AttrAt(app.attrs, ResolvedPackageNameName),
            AttrAt(app.attrs, MatchTypeName))
  }

  function ReadGroupList(group: Xml): GroupView {
    GroupView(ReadGroup(group.tag), ReadItems(group.children))
  }

  function ReadOmitted(entry: Xml): OmittedView {
    OmittedView(GroupAt(entry.attrs, GroupName), AttrAt(entry.attrs, ReasonName),
                if CountName in entry.attrs then ReadInt(entry.attrs[CountName]) else None)
  }

  function ReadWindow(window: Xml): WindowView {
    WindowView(AttrAt(window.attrs, WindowRefName), AttrAt(window.attrs, RoleName),
               FlagAt(window.attrs, FocusedName), FlagAt(window.attrs, BlockingName))
  }

  function ReadTransient(item: Xml): TransientView {
    TransientView(item.text, AttrAt(item.attrs, KindName))
  }

  function ReadEach<T>(elements: seq<Xml>, read: Xml -> T): (views: seq<T>)
    ensures |views| == |elements| && forall i :: 0 <= i < |elements| ==> views[i] == read(elements[i])
  {
    seq(|elements|, i requires 0 <= i < |elements| => read(elements[i]))
  }

  function ReadScreen(root: Xml): ScreenView {
    var surface := Child(root.children, "surface");
    ScreenView(
      AttrAt(root.attrs, ScreenIdName),
      ReadApp(Child(root.children, "app")),
      FlagAt(surface.attrs, KeyboardVisibleName),
      GroupAt(surface.attrs, BlockingGroupName),
      AttrAt(Child(surface.children, "focus").attrs, InputRefName),
      ReadEach(Child(root.children, "groups").children, ReadGroupList),
      ReadEach(Child(root.children, "omitted").children, ReadOmitted),
      ReadEach(Child(root.children, "visibleWindows").children, ReadWindow),
      ReadEach(Child(root.children, "transient").children, ReadTransient))
  }

  // An empty text is not shown.
  function Shown(o: Option<string>): Option<string> {
    match o
    case None => None
    case Some(text) => if |text| == 0 then None else Some(text)
  }

  // The five groups, the one that blocks the others first.
  function ShownOrder(blocking: Option<Group>): seq<Group> {
    match blocking
    case Some(Dialog) => [Dialog, Targets, Keyboard, System, Context]
    case Some(Keyboard) => [Keyboard, Targets, System, Context, Dialog]
    case Some(System) => [System, Targets, Keyboard, Context, Dialog]
    case _ => [Targets, Keyboard, System, Context, Dialog]
  }

  // The nodes of a group: those of the last entry of its name, and none if there is no such entry.
  ghost predicate IsShownFor(groups: seq<PublicGroup>, name: Group, nodes: seq<PublicNode>) {
    || (exists i: nat :: IsLastOf(groups, name, i) && groups[i].nodes == nodes)
    || (nodes == [] && forall i :: 0 <= i < |groups| ==> groups[i].name != name)
  }

  // The view of a screen: every part in the order of the screen, the groups in the shown order.
  ghost predicate ShowsScreen(screen: Screen, view: ScreenView) {
    && view.screenId == Some(screen.screenId)
    && view.app == AppView(Shown(screen.app.packageName), Shown(screen.app.activityName),
                           Shown(screen.app.requestedPackageName), Shown(screen.app.resolvedPackageName),
                           Shown(screen.app.matchType))
    && view.keyboardVisible == Some(screen.surface.keyboardVisible)
    && view.blockingGroup == screen.surface.blockingGroup
    && view.inputRef == Shown(screen.surface.inputRef)
    && ShowsGroups(screen, view.groups)
    && ShowsLists(screen, view)
  }

  ghost predicate ShowsGroups(screen: Screen, groups: seq<GroupView>) {
    && |groups| == 5
    && forall i :: 0 <= i < 5 ==>
         ShowsGroup(screen.groups, ShownOrder(screen.surface.blockingGroup)[i], groups[i])
  }

  ghost predicate ShowsGroup(groups: seq<PublicGroup>, name: Group, view: GroupView) {
    view.name == Some(name) && exists nodes :: IsShownFor(groups, name, nodes) && view.items == ViewsOf(nodes)
  }

  predicate ShowsLists(screen: Screen, view: ScreenView) {
    && |view.omitted| == |screen.omitted|
    && (forall i :: 0 <= i < |screen.omitted| ==>
          var entry := screen.omitted[i];
          view.omitted[i] == OmittedView(Some(entry.group), Some(entry.reason), entry.count))
    && |view.visibleWindows| == |screen.visibleWindows|
    && (forall i :: 0 <= i < |screen.visibleWindows| ==>
          var window := screen.visibleWindows[i];
          view.visibleWindows[i]
            == WindowView(Some(window.windowRef), Some(window.role), Some(window.focused), Some(window.blocking)))
    && |view.transient| == |screen.transient|
    && (forall i :: 0 <= i < |screen.transient| ==>
          view.transient[i] == TransientView(Some(screen.transient[i].text), screen.transient[i].kind))
  }

  lemma {:induction false} NodesOfIsLast(groups: seq<PublicGroup>, name: Group)
    ensures IsShownFor(groups, name, NodesOf(groups, name))
  {
    if groups != [] {
      var last := |groups| - 1;
      if groups[last].name == name {
        assert IsLastOf(groups, name, last);
      } else {
        NodesOfIsLast(groups[..last], name);
        ShownForMore(groups, name, NodesOf(groups[..last], name));
      }
    }
  }

  predicate IsLastOf(groups: seq<PublicGroup>, name: Group, i: nat) {
    i < |groups| && groups[i].name == name && forall j :: i < j < |groups| ==> groups[j].name != name
  }

  lemma ShownForMore(groups: seq<PublicGroup>, name: Group, nodes: seq<PublicNode>)
    requires groups != [] && groups[|groups| - 1].name != name
    requires IsShownFor(groups[..|groups| - 1], name, nodes)
    ensures IsShownFor(groups, name, nodes)
  {
    var front := groups[..|groups| - 1];
    if i: nat :| IsLastOf(front, name, i) && front[i].nodes == nodes {
      assert IsLastOf(groups, name, i) && groups[i].nodes == nodes;
    } else {
      forall i | 0 <= i < |groups| ensures groups[i].name != name {
        assert i < |front| ==> groups[i] == front[i];
      }
    }
  }

  lemma OrderIsShown(blocking: Option<Group>)
    ensures Order(blocking) == ShownOrder(blocking)
  {
    match blocking
    case Some(Dialog) => WithoutOne([Targets, Keyboard, System, Context], Dialog, []);
    case Some(Keyboard) => WithoutOne([Targets], Keyboard, [System, Context, Dialog]);
    case Some(System) => WithoutOne([Targets, Keyboard], System, [Context, Dialog]);
    case _ =>
  }

  lemma {:induction false} WithoutNone(order: seq<Group>, group: Group)
    requires group !in order
    ensures Without(order, group) == order
  {
    if order != [] {
      WithoutNone(order[1..], group);
      assert order == [order[0]] + order[1..];
    }
  }

  lemma {:induction false} WithoutOne(before: seq<Group>, group: Group, after: seq<Group>)
    requires group !in before && group !in after
    ensures Without(before + [group] + after, group) == before + after
  {
    var order := before + [group] + after;
    if before == [] {
      assert order[1..] == after;
      WithoutNone(after, group);
    } else {
      assert order[1..] == before[1..] + [group] + after;
      WithoutOne(before[1..], group, after);
      assert before == [before[0]] + before[1..];
    }
  }

  lemma GroupsAreRead(screen: Screen)
    requires ValidScreen(screen)
    ensures ShowsGroups(screen, ReadEach(GroupsXml(screen).children, ReadGroupList))
  {
    var order := Order(screen.surface.blockingGroup);
    OrderIsShown(screen.surface.blockingGroup);
    forall i | 0 <= i < 5
      ensures ShowsGroup(screen.groups, order[i], ReadGroupList(GroupXml(screen.groups, order[i])))
    {
      GroupIsRead(order[i]);
      NodesOfValidGroups(screen.groups, order[i]);
      ItemsAreRead(NodesOf(screen.groups, order[i]));
      NodesOfIsLast(screen.groups, order[i]);
    }
  }

  lemma OmittedIsRead(entry: OmittedEntry)
    ensures ReadOmitted(OmittedXml(entry)) == OmittedView(Some(entry.group), Some(entry.reason), entry.count)
  {
    GroupIsRead(entry.group);
    if entry.count.Some? {
      IntIsRead(entry.count.value);
    }
  }

  lemma WindowIsRead(window: VisibleWindow)
    ensures ReadWindow(WindowXml(window))
         == WindowView(Some(window.windowRef), Some(window.role), Some(window.focused), Some(window.blocking))
  {
    FlagIsRead(window.focused);
    FlagIsRead(window.blocking);
  }

  lemma TransientIsRead(item: TransientItem)
    ensures ReadTransient(TransientXml(item)) == TransientView(Some(item.text), item.kind)
  {
  }

  lemma AppIsRead(app: PublicApp)
    ensures ReadApp(AppXml(app))
         == AppView(Shown(app.packageName), Shown(app.activityName), Shown(app.requestedPackageName),
                    Shown(app.resolvedPackageName), Shown(app.matchType))
  {
    AppAttrAt(app, PackageNameName);
    AppAttrAt(app, ActivityNameName);
    AppAttrAt(app, RequestedPackageNameName);
    AppAttrAt(app, ResolvedPackageNameName);
    AppAttrAt(app, MatchTypeName);
  }

  lemma AppAttrAt(app: PublicApp, name: Name)
    requires name in APP_FIELDS
    ensures AttrAt(AppXml(app).attrs, name) == Shown(app.Field(name))
  {
  }

  // The surface names a blocking group only if the group is one that blocks.
  lemma BlockingIsRead(surface: PublicSurface)
    ensures GroupAt(SurfaceXml(surface).attrs, BlockingGroupName)
      == if surface.blockingGroup in {Some(Dialog), Some(Keyboard), Some(System)} then surface.blockingGroup else None
  {
    if surface.blockingGroup.Some? {
      GroupIsRead(surface.blockingGroup.value);
    }
  }

  lemma SurfaceIsRead(surface: PublicSurface)
    requires surface.blockingGroup.Some? ==> surface.blockingGroup.value in BLOCKING_GROUPS
    ensures var x := SurfaceXml(surface);
      && FlagAt(x.attrs, KeyboardVisibleName) == Some(surface.keyboardVisible)
      && GroupAt(x.attrs, BlockingGroupName) == surface.blockingGroup
      && AttrAt(Child(x.children, "focus").attrs, InputRefName) == Shown(surface.inputRef)
  {
    FlagIsRead(surface.keyboardVisible);
    if surface.blockingGroup.Some? {
      GroupIsRead(surface.blockingGroup.value);
    }
  }

  lemma ListsAreReadBack(screen: Screen, view: ScreenView)
    requires view.omitted == ReadEach(MapXml(screen.omitted, OmittedXml), ReadOmitted)
    requires view.visibleWindows == ReadEach(MapXml(screen.visibleWindows, WindowXml), ReadWindow)
    requires view.transient == ReadEach(MapXml(screen.transient, TransientXml), ReadTransient)
    ensures ShowsLists(screen, view)
  {
    forall i | 0 <= i < |screen.omitted| ensures ReadOmitted(OmittedXml(screen.omitted[i])) == view.omitted[i] {
    }
    forall entry
      ensures ReadOmitted(OmittedXml(entry)) == OmittedView(Some(entry.group), Some(entry.reason), entry.count)
    {
      OmittedIsRead(entry);
    }
    forall window ensures ReadWindow(WindowXml(window))
      == WindowView(Some(window.windowRef), Some(window.role), Some(window.focused), Some(window.blocking))
    {
      WindowIsRead(window);
    }
    forall item ensures ReadTransient(TransientXml(item)) == TransientView(Some(item.text), item.kind) {
      TransientIsRead(item);
    }
  }

  // The parts of a screen stand under their tags.
  lemma PartsStand(screen: Screen)
    ensures var children := ScreenTree(screen).children;
      && Child(children, "app") == AppXml(screen.app)
      && Child(children, "surface") == SurfaceXml(screen.surface)
      && Child(children, "groups") == GroupsXml(screen)
      && Child(children, "omitted").children == MapXml(screen.omitted, OmittedXml)
      && Child(children, "visibleWindows").children == MapXml(screen.visibleWindows, WindowXml)
      && Child(children, "transient").children == MapXml(screen.transient, TransientXml)
  {
    SixTags(screen, ScreenTree(screen).children);
    SixChildren(ScreenTree(screen).children);
  }

  lemma SixChildren(children: seq<Xml>)
    requires |children| == 6 && children[0].tag == "app" && children[1].tag == "surface"
    requires children[2].tag == "groups" && children[3].tag == "omitted"
    requires children[4].tag == "visibleWindows" && children[5].tag == "transient"
    ensures Child(children, "app") == children[0] && Child(children, "surface") == children[1]
    ensures Child(children, "groups") == children[2] && Child(children, "omitted") == children[3]
    ensures Child(children, "visibleWindows") == children[4] && Child(children, "transient") == children[5]
  {
    ChildAt(children, "app", 0);
    ChildAt(children, "surface", 1);
    ChildAt(children, "groups", 2);
    ChildAt(children, "omitted", 3);
    ChildAt(children, "visibleWindows", 4);
    ChildAt(children, "transient", 5);
  }

  lemma SixTags(screen: Screen, children: seq<Xml>)
    requires children == ScreenTree(screen).children
    ensures |children| == 6 && children[0] == AppXml(screen.app) && children[1] == SurfaceXml(screen.surface)
    ensures children[2] == GroupsXml(screen)
    ensures children[3] == Xml("omitted", map[], None, MapXml(screen.omitted, OmittedXml))
    ensures children[4] == Xml("visibleWindows", map[], None, MapXml(screen.visibleWindows, WindowXml))
    ensures children[5] == Xml("transient", map[], None, MapXml(screen.transient, TransientXml))
    ensures children[0].tag == "app" && children[1].tag == "surface" && children[2].tag == "groups"
  {
  }

  lemma {:induction false} ChildAt(children: seq<Xml>, tag: string, k: nat)
    requires k < |children| && children[k].tag == tag && forall i :: 0 <= i < k ==> children[i].tag != tag
    ensures Child(children, tag) == children[k]
  {
    if k > 0 {
      ChildAt(children[1..], tag, k - 1);
    }
  }

  // The tree of a valid screen is read as the screen: nothing that it shows is lost or mixed up.
  lemma ScreenIsRead(screen: Screen)
    requires ValidScreen(screen)
    ensures ScreenTree(screen).tag == "screen" && ShowsScreen(screen, ReadScreen(ScreenTree(screen)))
  {
    PartsStand(screen);
    AppIsRead(screen.app);
    SurfaceIsRead(screen.surface);
    GroupsAreRead(screen);
    ListsAreReadBack(screen, ReadScreen(ScreenTree(screen)));
  }
}
