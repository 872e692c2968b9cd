// The daemon's renderer: it grows an element tree in place, straight from the screen.
module ScreenXml {
  import opened Common
  import opened PublicScreen
  import opened XmlTree

  // ---------- The tree a screen renders to ----------

  // The attribute an item has under each name.
  function SharedAttr(n: PublicNode, name: Name): Option<string> {
    match name
    case OriginName => n.origin
    case WindowRefName => n.windowRef
    case AmbiguityName => n.ambiguity
    case LabelName => if !n.IsText() && n.caption != "" then Some(n.caption) else None
    case WithinName => n.within
    case ValueName => n.value
    case _ => None
  }

  function NodeAttr(n: PublicNode, name: Name): Option<string> {
    match name
    case RefName => n.ref
    case ActionsName => if n.ref.Some? then JoinNonEmpty(n.actions) else None
    case StateName => if n.ref.Some? then JoinNonEmpty(n.state) else None
    case ScrollDirectionsName => JoinNonEmpty(n.scrollDirections)
    case SubmitRefsName => JoinNonEmpty(n.submitRefs)
    case _ => SharedAttr(n, name)
  }

  const ITEM_ATTRS: set<Name> := {
    RefName, ActionsName, StateName, ScrollDirectionsName, SubmitRefsName, OriginName, WindowRefName,
    AmbiguityName, LabelName, WithinName, ValueName}

  function TextAttrs(n: PublicNode): Attrs {
    map name | name in ITEM_ATTRS && SharedAttr(n, name).Some? :: SharedAttr(n, name).value
  }

  function NodeAttrs(n: PublicNode): Attrs {
    map name | name in ITEM_ATTRS && NodeAttr(n, name).Some? :: NodeAttr(n, name).value
  }

  function Item(n: PublicNode): Xml {
    if n.IsText() then Xml("literal", TextAttrs(n), n.text, [])
    else Xml(n.role, NodeAttrs(n), None, Items(n.children))
  }

  function Items(nodes: seq<PublicNode>): (r: seq<Xml>)
    ensures |r| == |nodes| && forall i :: 0 <= i < |nodes| ==> r[i] == Item(nodes[i])
  {
    if nodes == [] then [] else [Item(nodes[0])] + Items(nodes[1..])
  }

  function OptionalAttr(name: Name, o: Option<string>): Attrs {
    if o.Some? then map[name := o.value] else map[]
  }

  function AppXml(app: PublicApp): Xml {
    Xml("app", map name | name in APP_FIELDS && NonEmpty(app.Field(name)).Some? :: app.Field(name).value, None, [])
  }

  function BlockingText(surface: PublicSurface): Option<string> {
    if surface.blockingGroup.Some? && surface.blockingGroup.value in BLOCKING_GROUPS
    then Some(GroupText(surface.blockingGroup.value)) else None
  }

  function SurfaceXml(surface: PublicSurface): Xml {
    Xml("surface",
        map[KeyboardVisibleName := BoolText(surface.keyboardVisible)]
        + OptionalAttr(BlockingGroupName, BlockingText(surface)),
        None,
        [Xml("focus", OptionalAttr(InputRefName, NonEmpty(surface.inputRef)), None, [])])
  }

  function Order(blocking: Option<Group>): seq<Group> {
    if blocking == None || blocking.value !in BLOCKING_GROUPS then GROUP_ORDER
    else [blocking.value] + Without(GROUP_ORDER, blocking.value)
  }

  // The last group of a name counts.
  function NodesOf(groups: seq<PublicGroup>, name: Group): seq<PublicNode> {
    if groups == [] then []
    else if groups[|groups| - 1].name == name then groups[|groups| - 1].nodes
    else NodesOf(groups[..|groups| - 1], name)
  }

  function GroupXml(groups: seq<PublicGroup>, name: Group): Xml {
    Xml(GroupText(name), map[], None, Items(NodesOf(groups, name)))
  }

  function GroupXmls(groups: seq<PublicGroup>, order: seq<Group>): (r: seq<Xml>)
    ensures |r| == |order| && forall i :: 0 <= i < |order| ==> r[i] == GroupXml(groups, order[i])
  {
    seq(|order|, i requires 0 <= i < |order| => GroupXml(groups, order[i]))
  }

  function GroupsXml(screen: Screen): Xml {
    Xml("groups", map[], None, GroupXmls(screen.groups, Order(screen.surface.blockingGroup)))
  }

  function OmittedXml(entry: OmittedEntry): Xml {
    Xml("entry",
        map[GroupName := GroupText(entry.group), ReasonName := entry.reason]
        + (if entry.count.Some? then map[CountName := IntText(entry.count.value)] else map[]),
        None, [])
  }

  function WindowXml(window: VisibleWindow): Xml {
    Xml("window",
        map[WindowRefName := window.windowRef, RoleName := window.role,
            FocusedName := BoolText(window.focused), BlockingName := BoolText(window.blocking)],
        None, [])
  }

  function TransientXml(item: TransientItem): Xml {
    Xml("item", OptionalAttr(KindName, item.kind), Some(item.text), [])
  }

  function MapXml<T>(items: seq<T>, render: T -> Xml): (r: seq<Xml>)
    ensures |r| == |items| && forall i :: 0 <= i < |items| ==> r[i] == render(items[i])
  {
    seq(|items|, i requires 0 <= i < |items| => render(items[i]))
  }

  function Top(screen: Screen): (r: seq<Xml>)
    ensures r == [AppXml(screen.app), SurfaceXml(screen.surface), GroupsXml(screen)]
  {
    [AppXml(screen.app)] + [SurfaceXml(screen.surface)] + [GroupsXml(screen)]
  }

  // The three flat lists.
  function Lists(screen: Screen): (r: seq<Xml>)
    ensures |r| == 3
  {
    [Xml("omitted", map[], None, MapXml(screen.omitted, OmittedXml)),
     Xml("visibleWindows", map[], None, MapXml(screen.visibleWindows, WindowXml)),
     Xml("transient", map[], None, MapXml(screen.transient, TransientXml))]
  }

  function ScreenTree(screen: Screen): Xml {
    Xml("screen", map[ScreenIdName := screen.screenId], None,
        Top(screen) + Lists(screen))
  }

  // Every node below has a role that is a tag; otherwise rendering raises an error.
  predicate Renderable(n: PublicNode) {
    n.IsText() || (n.role in ROLES && forall i :: 0 <= i < |n.children| ==> Renderable(n.children[i]))
  }

  predicate AllRenderable(nodes: seq<PublicNode>) {
    forall i :: 0 <= i < |nodes| ==> Renderable(nodes[i])
  }

  predicate RenderableUpTo(groups: seq<PublicGroup>, order: seq<Group>, n: nat)
    requires n <= |order|
  {
    forall i :: 0 <= i < n ==> AllRenderable(NodesOf(groups, order[i]))
  }

  predicate GroupsRenderable(groups: seq<PublicGroup>, order: seq<Group>) {
    RenderableUpTo(groups, order, |order|)
  }

  predicate RenderableScreen(screen: Screen) {
    GroupsRenderable(screen.groups, Order(screen.surface.blockingGroup))
  }

  lemma {:induction false} ValidIsRenderable(n: PublicNode)
    requires Valid(n)
    ensures Renderable(n)
    decreases n
  {
    forall i | 0 <= i < |n.children| ensures Renderable(n.children[i]) {
      ValidIsRenderable(n.children[i]);
    }
  }

  lemma {:induction false} NodesOfValidGroups(groups: seq<PublicGroup>, name: Group)
    requires forall i :: 0 <= i < |groups| ==> AllValid(groups[i].nodes)
    ensures AllValid(NodesOf(groups, name))
  {
    if groups != [] {
      NodesOfValidGroups(groups[..|groups| - 1], name);
    }
  }

  // A valid screen never raises that error.
  lemma ValidScreenRenders(screen: Screen)
    requires ValidScreen(screen)
    ensures RenderableScreen(screen)
  {
    var order := Order(screen.surface.blockingGroup);
    forall i | 0 <= i < |order| ensures AllRenderable(NodesOf(screen.groups, order[i])) {
      var nodes := NodesOf(screen.groups, order[i]);
      NodesOfValidGroups(screen.groups, order[i]);
      forall j | 0 <= j < |nodes| ensures Renderable(nodes[j]) {
        ValidIsRenderable(nodes[j]);
      }
    }
  }

  // ---------- Growing it in place ----------

  class Element {
    const tag: string
    const attrs: Attrs
    var text: Option<string>
    var children: seq<Element>

    constructor (tag: string, attrs: Attrs)
      ensures this.tag == tag && this.attrs == attrs && text == None && children == []
    {
      this.tag, this.attrs, this.text, this.children := tag, attrs, None, [];
    }
  }

  // The element and everything below it, all within `parts`, currently spell the tree x.
  ghost predicate Spells(e: Element, x: Xml, parts: set<Element>)
    reads parts
    decreases x
  {
    && e in parts
    && e.tag == x.tag && e.attrs == x.attrs && e.text == x.text
    && |e.children| == |x.children|
    && forall i :: 0 <= i < |x.children| ==> Spells(e.children[i], x.children[i], parts)
  }

  ghost predicate ChildrenSpell(e: Element, xs: seq<Xml>, parts: set<Element>)
    reads e, parts
  {
    |e.children| == |xs| && forall i :: 0 <= i < |xs| ==> Spells(e.children[i], xs[i], parts)
  }

  lemma {:induction false} SpellsGrows(e: Element, x: Xml, parts: set<Element>, more: set<Element>)
    requires Spells(e, x, parts) && parts <= more
    ensures Spells(e, x, more)
    decreases x
  {
    forall i | 0 <= i < |x.children| ensures Spells(e.children[i], x.children[i], more) {
      SpellsGrows(e.children[i], x.children[i], parts, more);
    }
  }

  method SubElement(parent: Element, tag: string, attrs: Attrs) returns (e: Element)
    modifies parent`children
    ensures fresh(e) && e.tag == tag && e.attrs == attrs && e.text == None && e.children == []
    ensures parent.children == old(parent.children) + [e]
  {
    e := new Element(tag, attrs);
    parent.children := parent.children + [e];
  }

  // Once its children spell x's, the element itself spells x.
  lemma ElementSpells(e: Element, x: Xml, below: set<Element>)
    requires e.tag == x.tag && e.attrs == x.attrs && e.text == x.text && ChildrenSpell(e, x.children, below)
    ensures Spells(e, x, below + {e})
  {
    forall i | 0 <= i < |x.children| ensures Spells(e.children[i], x.children[i], below + {e}) {
      SpellsGrows(e.children[i], x.children[i], below, below + {e});
    }
  }

  // A last child has come to those before, and spells x.
  ghost predicate Appended(e: Element, before: seq<Element>, x: Xml, added: set<Element>)
    reads e, added
  {
    && |e.children| == |before| + 1 && e.children[..|before|] == before
    && Spells(e.children[|before|], x, added)
  }

  // One more child, built apart from the others.
  lemma MoreChildrenSpell(e: Element, before: seq<Element>, xs: seq<Xml>, x: Xml, below: set<Element>,
      added: set<Element>)
    requires |before| == |xs| && Appended(e, before, x, added)
    requires forall i :: 0 <= i < |xs| ==> Spells(before[i], xs[i], below)
    ensures ChildrenSpell(e, xs + [x], below + added)
  {
    forall i | 0 <= i < |xs| ensures Spells(e.children[i], xs[i], below + added) {
      assert e.children[i] == before[i];
      SpellsGrows(before[i], xs[i], below, below + added);
    }
    SpellsGrows(e.children[|before|], x, added, below + added);
  }

  // The loop's step: the next of the trees xs has been added to those before.
  lemma NextSpells(e: Element, before: seq<Element>, xs: seq<Xml>, i: nat, below: set<Element>, added: set<Element>)
    requires i < |xs| && |before| == i && Appended(e, before, xs[i], added)
    requires forall j :: 0 <= j < i ==> Spells(before[j], xs[j], below)
    ensures ChildrenSpell(e, xs[..i + 1], below + added)
  {
    MoreChildrenSpell(e, before, xs[..i], xs[i], below, added);
    assert xs[..i] + [xs[i]] == xs[..i + 1];
  }

  // Appends the item below `parent`, touching nothing but the parent's list of children. False
  // stands for the error that a role has no tag.
  method AppendGroupItem(parent: Element, n: PublicNode) returns (ok: bool, ghost parts: set<Element>)
    modifies parent`children
    ensures ok <==> Renderable(n)
    ensures fresh(parts) && parent !in parts
    ensures ok ==> Appended(parent, old(parent.children), Item(n), parts)
    decreases n, 1
  {
    if n.IsText() {
      parts := AppendLeaf(parent, "literal", TextAttrs(n), n.text);
      return true, parts;
    }
    if n.role !in ROLES {
      return false, {};
    }
    var element := SubElement(parent, n.role, NodeAttrs(n));
    ghost var below;
    ok, below := AppendItems(element, n.children);
    if ok {
      ElementSpells(element, Item(n), below);
    }
    parts := below + {element};
  }

  // The loop over the items of a group, or over the children of a node.
  method AppendItems(parent: Element, nodes: seq<PublicNode>) returns (ok: bool, ghost parts: set<Element>)
    requires parent.children == []
    modifies parent`children
    ensures ok <==> AllRenderable(nodes)
    ensures fresh(parts) && parent !in parts
    ensures ok ==> ChildrenSpell(parent, Items(nodes), parts)
    decreases nodes, 1
  {
    ok, parts := true, {};
    ghost var xs := Items(nodes);
    for i := 0 to |nodes|
      invariant fresh(parts) && parent !in parts
      invariant ChildrenSpell(parent, xs[..i], parts)
      invariant forall j :: 0 <= j < i ==> Renderable(nodes[j])
    {
      ok, parts := AppendNextItem(parent, nodes, i, xs, parts);
      if !ok {
        return;
      }
    }
    assert xs[..|nodes|] == xs;
    ok := true;
  }

  // The loop's body.
  method AppendNextItem(parent: Element, nodes: seq<PublicNode>, i: nat, ghost xs: seq<Xml>, ghost below: set<Element>)
    returns (ok: bool, ghost parts: set<Element>)
    requires i < |nodes| == |xs| && xs[i] == Item(nodes[i])
    requires ChildrenSpell(parent, xs[..i], below) && parent !in below
    modifies parent`children
    ensures ok <==> Renderable(nodes[i])
    ensures fresh(parts - below) && parent !in parts
    ensures ok ==> ChildrenSpell(parent, xs[..i + 1], parts)
    decreases nodes, 0
  {
    ghost var before := parent.children;
    ok, parts := AppendGroupItem(parent, nodes[i]);
    if ok {
      NextSpells(parent, before, xs, i, below, parts);
    }
    parts := below + parts;
  }

  method AppendLeaf(parent: Element, tag: string, attrs: Attrs, text: Option<string>)
    returns (ghost parts: set<Element>)
    modifies parent`children
    ensures fresh(parts) && parent !in parts
    ensures Appended(parent, old(parent.children), Xml(tag, attrs, text, []), parts)
  {
    var e := SubElement(parent, tag, attrs);
    e.text := text;
    parts := {e};
  }

  method AppendGroups(parent: Element, screen: Screen) returns (ok: bool, ghost parts: set<Element>)
    modifies parent`children
    ensures ok <==> RenderableScreen(screen)
    ensures fresh(parts) && parent !in parts
    ensures ok ==> Appended(parent, old(parent.children), GroupsXml(screen), parts)
  {
    var groupsElement := SubElement(parent, "groups", map[]);
    var groupsByName := GroupsByName(screen.groups);
    ghost var below;
    ok, below := AppendEachGroup(groupsElement, screen.groups, groupsByName, Order(screen.surface.blockingGroup));
    if ok {
      ElementSpells(groupsElement, GroupsXml(screen), below);
    }
    parts := below + {groupsElement};
  }

  predicate Indexes(byName: map<Group, seq<PublicNode>>, groups: seq<PublicGroup>) {
    forall g :: NodesOf(groups, g) == if g in byName then byName[g] else []
  }

  method AppendEachGroup(groupsElement: Element, ghost groups: seq<PublicGroup>,
                         groupsByName: map<Group, seq<PublicNode>>, order: seq<Group>)
    returns (ok: bool, ghost parts: set<Element>)
    requires groupsElement.children == [] && Indexes(groupsByName, groups)
    modifies groupsElement`children
    ensures ok <==> GroupsRenderable(groups, order)
    ensures fresh(parts) && groupsElement !in parts
    ensures ok ==> ChildrenSpell(groupsElement, GroupXmls(groups, order), parts)
  {
    ok, parts := true, {};
    ghost var xs := GroupXmls(groups, order);
    for i := 0 to |order|
      invariant fresh(parts) && groupsElement !in parts
      invariant ChildrenSpell(groupsElement, xs[..i], parts)
      invariant RenderableUpTo(groups, order, i)
    {
      ok, parts := AppendNextGroup(groupsElement, groups, groupsByName, order, i, xs, parts);
      if !ok {
        return;
      }
    }
    assert xs[..|order|] == xs;
    ok := true;
  }

  // The loop's body.
  method AppendNextGroup(groupsElement: Element, ghost groups: seq<PublicGroup>,
                         groupsByName: map<Group, seq<PublicNode>>, order: seq<Group>, i: nat,
                         ghost xs: seq<Xml>, ghost below: set<Element>)
    returns (ok: bool, ghost parts: set<Element>)
    requires Indexes(groupsByName, groups) && i < |order| && RenderableUpTo(groups, order, i)
    requires i < |xs| && xs[i] == GroupXml(groups, order[i])
    requires ChildrenSpell(groupsElement, xs[..i], below) && groupsElement !in below
    modifies groupsElement`children
    ensures ok <==> RenderableUpTo(groups, order, i + 1)
    ensures !ok ==> !GroupsRenderable(groups, order)
    ensures fresh(parts - below) && groupsElement !in parts
    ensures ok ==> ChildrenSpell(groupsElement, xs[..i + 1], parts)
  {
    ghost var before := groupsElement.children;
    var nodes := if order[i] in groupsByName then groupsByName[order[i]] else [];
    ok, parts := AppendGroup(groupsElement, groups, order[i], nodes);
    if ok {
      NextSpells(groupsElement, before, xs, i, below, parts);
    }
    parts := below + parts;
  }

  method AppendGroup(parent: Element, ghost groups: seq<PublicGroup>, name: Group, nodes: seq<PublicNode>)
    returns (ok: bool, ghost parts: set<Element>)
    requires nodes == NodesOf(groups, name)
    modifies parent`children
    ensures ok <==> AllRenderable(nodes)
    ensures fresh(parts) && parent !in parts
    ensures ok ==> Appended(parent, old(parent.children), GroupXml(groups, name), parts)
  {
    var e := SubElement(parent, GroupText(name), map[]);
    ghost var below;
    ok, below := AppendItems(e, nodes);
    if ok {
      ElementSpells(e, GroupXml(groups, name), below);
    }
    parts := below + {e};
  }

  method GroupsByName(groups: seq<PublicGroup>) returns (byName: map<Group, seq<PublicNode>>)
    ensures Indexes(byName, groups)
  {
    byName := map[];
    for i := 0 to |groups|
      invariant Indexes(byName, groups[..i])
    {
      assert groups[..i + 1][..i] == groups[..i];
      byName := byName[groups[i].name := groups[i].nodes];
    }
    assert groups[..|groups|] == groups;
  }

  method AppendSurface(parent: Element, surface: PublicSurface) returns (ghost parts: set<Element>)
    modifies parent`children
    ensures fresh(parts) && parent !in parts
    ensures Appended(parent, old(parent.children), SurfaceXml(surface), parts)
  {
    var attrs: Attrs := map[KeyboardVisibleName := BoolText(surface.keyboardVisible)];
    if surface.blockingGroup.Some? && surface.blockingGroup.value in BLOCKING_GROUPS {
      attrs := attrs[BlockingGroupName := GroupText(surface.blockingGroup.value)];
    }
    var e := SubElement(parent, "surface", attrs);
    ghost var below := AppendLeaf(e, "focus", OptionalAttr(InputRefName, NonEmpty(surface.inputRef)), None);
    assert ChildrenSpell(e, SurfaceXml(surface).children, below);
    ElementSpells(e, SurfaceXml(surface), below);
    parts := below + {e};
  }

  // The three flat lists of a screen: an element with one leaf for each entry.
  method AppendList<T>(parent: Element, tag: string, items: seq<T>, render: T -> Xml)
    returns (ghost parts: set<Element>)
    requires forall x :: x in items ==> render(x).children == []
    modifies parent`children
    ensures fresh(parts) && parent !in parts
    ensures Appended(parent, old(parent.children), Xml(tag, map[], None, MapXml(items, render)), parts)
  {
    var e := SubElement(parent, tag, map[]);
    ghost var below := AppendLeaves(e, items, render);
    ElementSpells(e, Xml(tag, map[], None, MapXml(items, render)), below);
    parts := below + {e};
  }

  method AppendLeaves<T>(e: Element, items: seq<T>, render: T -> Xml) returns (ghost parts: set<Element>)
    requires e.children == [] && forall x :: x in items ==> render(x).children == []
    modifies e`children
    ensures fresh(parts) && e !in parts
    ensures ChildrenSpell(e, MapXml(items, render), parts)
  {
    parts := {};
    ghost var xs := MapXml(items, render);
    for i := 0 to |items|
      invariant fresh(parts) && e !in parts
      invariant ChildrenSpell(e, xs[..i], parts)
    {
      ghost var before := e.children;
      var x := render(items[i]);
      ghost var added := AppendLeaf(e, x.tag, x.attrs, x.text);
      NextSpells(e, before, xs, i, parts, added);
      parts := parts + added;
    }
    assert xs[..|items|] == xs;
  }

  method AppendApp(root: Element, app: PublicApp) returns (ghost parts: set<Element>)
    requires root.children == []
    modifies root`children
    ensures fresh(parts) && root !in parts
    ensures ChildrenSpell(root, [AppXml(app)], parts)
  {
    parts := AppendLeaf(root, "app", AppXml(app).attrs, None);
  }

  method AppendSurfaceAfter(root: Element, surface: PublicSurface, ghost done: seq<Xml>, ghost below: set<Element>)
    returns (ghost parts: set<Element>)
    requires ChildrenSpell(root, done, below) && root !in below
    modifies root`children
    ensures fresh(parts - below) && root !in parts
    ensures ChildrenSpell(root, done + [SurfaceXml(surface)], parts)
  {
    ghost var before := root.children;
    ghost var added := AppendSurface(root, surface);
    MoreChildrenSpell(root, before, done, SurfaceXml(surface), below, added);
    parts := below + added;
  }

  method AppendGroupsAfter(root: Element, screen: Screen, ghost done: seq<Xml>, ghost below: set<Element>)
    returns (ok: bool, ghost parts: set<Element>)
    requires ChildrenSpell(root, done, below) && root !in below
    modifies root`children
    ensures ok <==> RenderableScreen(screen)
    ensures fresh(parts - below) && root !in parts
    ensures ok ==> ChildrenSpell(root, done + [GroupsXml(screen)], parts)
  {
    ghost var before := root.children;
    ok, parts := AppendGroups(root, screen);
    if ok {
      MoreChildrenSpell(root, before, done, GroupsXml(screen), below, parts);
    }
    parts := below + parts;
  }

  method AppendHead(root: Element, screen: Screen) returns (ghost parts: set<Element>)
    requires root.children == []
    modifies root`children
    ensures fresh(parts) && root !in parts
    ensures ChildrenSpell(root, [AppXml(screen.app)] + [SurfaceXml(screen.surface)], parts)
  {
    ghost var app := AppendApp(root, screen.app);
    parts := AppendSurfaceAfter(root, screen.surface, [AppXml(screen.app)], app);
  }

  // App, surface and groups.
  method AppendTop(root: Element, screen: Screen) returns (ok: bool, ghost parts: set<Element>)
    requires root.children == []
    modifies root`children
    ensures ok <==> RenderableScreen(screen)
    ensures fresh(parts) && root !in parts
    ensures ok ==> ChildrenSpell(root, Top(screen), parts)
  {
    ghost var head := AppendHead(root, screen);
    ok, parts := AppendGroupsAfter(root, screen, [AppXml(screen.app)] + [SurfaceXml(screen.surface)], head);
  }

  method AppendListAfter<T>(root: Element, tag: string, items: seq<T>, render: T -> Xml,
                            ghost done: seq<Xml>, ghost below: set<Element>)
    returns (ghost parts: set<Element>)
    requires forall x :: x in items ==> render(x).children == []
    requires ChildrenSpell(root, done, below) && root !in below
    modifies root`children
    ensures fresh(parts - below) && root !in parts
    ensures ChildrenSpell(root, done + [Xml(tag, map[], None, MapXml(items, render))], parts)
  {
    ghost var before := root.children;
    ghost var added := AppendList(root, tag, items, render);
    MoreChildrenSpell(root, before, done, Xml(tag, map[], None, MapXml(items, render)), below, added);
    parts := below + added;
  }

  // Omitted entries, visible windows and transient items.
  method AppendLists(root: Element, screen: Screen, ghost done: seq<Xml>, ghost below: set<Element>)
    returns (ghost parts: set<Element>)
    requires ChildrenSpell(root, done, below) && root !in below
    modifies root`children
    ensures fresh(parts - below) && root !in parts
    ensures ChildrenSpell(root, done + Lists(screen), parts)
  {
    ghost var lists := Lists(screen);
    parts := AppendListAfter(root, "omitted", screen.omitted, OmittedXml, done, below);
    parts := AppendListAfter(root, "visibleWindows", screen.visibleWindows, WindowXml, done + [lists[0]], parts);
    parts := AppendListAfter(root, "transient", screen.transient, TransientXml, done + [lists[0]] + [lists[1]], parts);
    ThreeMore(done, lists);
  }

  lemma ThreeMore(done: seq<Xml>, lists: seq<Xml>)
    requires |lists| == 3
    ensures done + [lists[0]] + [lists[1]] + [lists[2]] == done + lists
  {
  }

  // The whole tree, or the error that some role has no tag.
  method RenderScreen(screen: Screen) returns (ok: bool, root: Element, ghost parts: set<Element>)
    ensures ok <==> RenderableScreen(screen)
    ensures fresh(root) && (ok ==> Spells(root, ScreenTree(screen), parts))
  {
    root := new Element("screen", map[ScreenIdName := screen.screenId]);
    ok, parts := AppendTop(root, screen);
    if !ok {
      return;
    }
    parts := AppendLists(root, screen, Top(screen), parts);
    ElementSpells(root, ScreenTree(screen), parts);
    parts := parts + {root};
  }
}
