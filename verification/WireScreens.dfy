// Which screens are valid, and what the wire holds of a screen's parts under their names.
module WireScreens {
  import opened Common
  import opened PublicScreen
  import opened WireRules

  // ---------- Which screens are valid ----------

  // One group's place in the order without a blocking group.
  function Place(group: Group): nat {
    match group
    case Targets => 0
    case Keyboard => 1
    case System => 2
    case Context => 3
    case Dialog => 4
  }

  predicate Rise(order: seq<Group>) {
    forall i, j :: 0 <= i < j < |order| ==> Place(order[i]) < Place(order[j])
  }

  // Every group is there once: the blocking one before all others, and the others in their places.
  predicate InOrder(order: seq<Group>, blocking: Option<Group>) {
    && |order| == 5
    && match blocking
       case None => Rise(order)
       case Some(first) => order[0] == first && first !in order[1..] && Rise(order[1..])
  }

  lemma OrderExpected(blocking: Option<Group>)
    ensures ExpectedOrder(blocking)
      == match blocking
         case None => [Targets, Keyboard, System, Context, Dialog]
         case Some(Targets) => [Targets, Keyboard, System, Context, Dialog]
         case Some(Keyboard) => [Keyboard, Targets, System, Context, Dialog]
         case Some(System) => [System, Targets, Keyboard, Context, Dialog]
         case Some(Context) => [Context, Targets, Keyboard, System, Dialog]
         case Some(Dialog) => [Dialog, Targets, Keyboard, System, Context]
  {
    var order: seq<Group> := [Targets, Keyboard, System, Context, Dialog];
    if blocking.Some? {
      var g := blocking.value;
      TakenOut(order, g);
    }
  }

  lemma TakenOut(order: seq<Group>, g: Group)
    requires order == [Targets, Keyboard, System, Context, Dialog]
    ensures Without(order, g)
      == match g
         case Targets => [Keyboard, System, Context, Dialog]
         case Keyboard => [Targets, System, Context, Dialog]
         case System => [Targets, Keyboard, Context, Dialog]
         case Context => [Targets, Keyboard, System, Dialog]
         case Dialog => [Targets, Keyboard, System, Context]
  {
    var a: seq<Group>, b: seq<Group>, c: seq<Group> := [Keyboard, System, Context, Dialog],
                                                       [System, Context, Dialog], [Context, Dialog];
    var d: seq<Group> := [Dialog];
    assert order[1..] == a && a[1..] == b && b[1..] == c && c[1..] == d && d[1..] == [];
    assert Without(d, g) == if g == Dialog then [] else [Dialog];
    assert Without(c, g) == (if g == Context then [] else [Context]) + Without(d, g);
    assert Without(b, g) == (if g == System then [] else [System]) + Without(c, g);
    assert Without(a, g) == (if g == Keyboard then [] else [Keyboard]) + Without(b, g);
  }

  lemma FiveRise(order: seq<Group>)
    requires |order| == 5
    ensures Rise(order) <==> order == [Targets, Keyboard, System, Context, Dialog]
  {
    if Rise(order) {
      assert Place(order[0]) < Place(order[1]) < Place(order[2]) < Place(order[3]) < Place(order[4]);
    }
  }

  lemma FourRise(order: seq<Group>, out: Group)
    requires |order| == 4
    ensures Rise(order) && out !in order <==> order == Without([Targets, Keyboard, System, Context, Dialog], out)
  {
    TakenOut([Targets, Keyboard, System, Context, Dialog], out);
    var left := Without([Targets, Keyboard, System, Context, Dialog], out);
    LeftRise(left, out);
    if Rise(order) && out !in order {
      forall k | 0 <= k < 4 ensures order[k] == left[k] {
        PlacesLeft(order, out, k);
        PlacesLeft(left, out, k);
        PlaceTells(order[k], left[k]);
      }
    }
  }

  lemma LeftRise(left: seq<Group>, out: Group)
    requires left == Without([Targets, Keyboard, System, Context, Dialog], out)
    ensures |left| == 4 && Rise(left) && out !in left
  {
    TakenOut([Targets, Keyboard, System, Context, Dialog], out);
    match out
    case Targets => TheseRise(Keyboard, System, Context, Dialog, out);
    case Keyboard => TheseRise(Targets, System, Context, Dialog, out);
    case System => TheseRise(Targets, Keyboard, Context, Dialog, out);
    case Context => TheseRise(Targets, Keyboard, System, Dialog, out);
    case Dialog => TheseRise(Targets, Keyboard, System, Context, out);
  }

  lemma TheseRise(a: Group, b: Group, c: Group, d: Group, out: Group)
    requires Place(a) < Place(b) < Place(c) < Place(d)
    requires out != a && out != b && out != c && out != d
    ensures Rise([a, b, c, d]) && out !in [a, b, c, d]
  {
  }

  // Four places that rise and miss one are those before it and those behind it.
  lemma PlacesLeft(order: seq<Group>, out: Group, k: nat)
    requires |order| == 4 && Rise(order) && out !in order && k < 4
    ensures Place(order[k]) == if k < Place(out) then k else k + 1
  {
    var p := Place(out);
    assert Place(order[0]) < Place(order[1]) < Place(order[2]) < Place(order[3]);
    forall i | 0 <= i < 4 ensures Place(order[i]) != p {
      if Place(order[i]) == p {
        PlaceTells(order[i], out);
      }
    }
  }

  lemma PlaceTells(a: Group, b: Group)
    requires Place(a) == Place(b)
    ensures a == b
  {
  }

  lemma InOrderIff(order: seq<Group>, blocking: Option<Group>)
    ensures order == ExpectedOrder(blocking) <==> InOrder(order, blocking)
  {
    OrderExpected(blocking);
    match blocking
    case None =>
      if |order| == 5 {
        FiveRise(order);
      }
    case Some(first) =>
      TakenOut([Targets, Keyboard, System, Context, Dialog], first);
      if |order| == 5 {
        FourRise(order[1..], first);
        assert order == [order[0]] + order[1..];
      }
      assert ExpectedOrder(blocking)[1..] == Without([Targets, Keyboard, System, Context, Dialog], first);
  }

  predicate KnownEntry(entry: OmittedEntry) {
    entry.reason in {"offscreen", "virtualized", "structureCollapsed"}
  }

  predicate NamedWindow(window: VisibleWindow) {
    |window.windowRef| > 0 && |window.role| > 0
  }

  predicate KnownTransient(item: TransientItem) {
    |item.text| > 0 && (item.kind == None || item.kind.value in {"toast", "snackbar", "banner"})
  }

  // The entries of a valid screen.
  lemma EntriesAreValidIff(screen: Screen)
    ensures ValidEntries(screen) <==>
      && |screen.screenId| > 0
      && screen.surface.blockingGroup != Some(Targets) && screen.surface.blockingGroup != Some(Context)
      && (screen.app.matchType == None || screen.app.matchType.value in {"exact", "alias"})
      && (forall i :: 0 <= i < |screen.omitted| ==> KnownEntry(screen.omitted[i]))
      && (forall i :: 0 <= i < |screen.visibleWindows| ==> NamedWindow(screen.visibleWindows[i]))
      && (forall i :: 0 <= i < |screen.transient| ==> KnownTransient(screen.transient[i]))
  {
    var blocking := screen.surface.blockingGroup;
    if blocking.Some? {
      var group := blocking.value;
      assert group in BLOCKING_GROUPS <==> group == Dialog || group == Keyboard || group == System;
    }
  }

  // The groups of a valid screen.
  lemma GroupsAreValidIff(screen: Screen, names: seq<Group>)
    requires |names| == |screen.groups| && forall i :: 0 <= i < |names| ==> names[i] == screen.groups[i].name
    ensures ValidGroups(screen) <==>
      && InOrder(names, screen.surface.blockingGroup)
      && forall i, k :: 0 <= i < |screen.groups| && 0 <= k < |screen.groups[i].nodes| ==>
           Valid(screen.groups[i].nodes[k])
  {
    InOrderIff(names, screen.surface.blockingGroup);
  }

  // ---------- What is written ----------

  predicate IsNameOf(text: string, group: Group) {
    text == match group
            case Targets => "targets"
            case Keyboard => "keyboard"
            case System => "system"
            case Context => "context"
            case Dialog => "dialog"
  }

  predicate WritesApp(app: PublicApp, fields: map<Name, Json>) {
    && Look(fields, PackageNameName) == Written(app.packageName)
    && Look(fields, ActivityNameName) == Written(app.activityName)
    && Look(fields, RequestedPackageNameName) == Written(app.requestedPackageName)
    && Look(fields, ResolvedPackageNameName) == Written(app.resolvedPackageName)
    && Look(fields, MatchTypeName) == Written(app.matchType)
  }

  predicate WritesSurface(surface: PublicSurface, fields: map<Name, Json>) {
    && Look(fields, KeyboardVisibleName) == Some(if surface.keyboardVisible then Bool(true) else Bool(false))
    && (BlockingGroupName in fields <==> surface.blockingGroup.Some?)
    && (BlockingGroupName in fields ==>
          fields[BlockingGroupName].Str? && IsNameOf(fields[BlockingGroupName].text, surface.blockingGroup.value))
    && FocusName in fields && fields[FocusName].Obj?
    && Look(fields[FocusName].fields, InputRefName) == Written(surface.inputRef)
  }

  predicate WritesGroup(group: PublicGroup, fields: map<Name, Json>) {
    && NameName in fields && fields[NameName].Str? && IsNameOf(fields[NameName].text, group.name)
    && NodesName in fields && fields[NodesName].Arr? && |fields[NodesName].items| == |group.nodes|
    && forall i :: 0 <= i < |group.nodes| ==> fields[NodesName].items[i] == Dump(group.nodes[i])
  }

  predicate WritesOmitted(entry: OmittedEntry, fields: map<Name, Json>) {
    && GroupName in fields && fields[GroupName].Str? && IsNameOf(fields[GroupName].text, entry.group)
    && Look(fields, ReasonName) == Some(Str(entry.reason))
    && Look(fields, CountName) == match entry.count case Some(count) => Some(Int(count)) case None => None
  }

  predicate WritesWindow(window: VisibleWindow, fields: map<Name, Json>) {
    && Look(fields, WindowRefName) == Some(Str(window.windowRef)) && Look(fields, RoleName) == Some(Str(window.role))
    && Look(fields, FocusedName) == Some(Bool(window.focused))
    && Look(fields, BlockingName) == Some(Bool(window.blocking))
  }

  predicate WritesTransient(item: TransientItem, fields: map<Name, Json>) {
    Look(fields, TextName) == Some(Str(item.text)) && Look(fields, KindName) == Written(item.kind)
  }

  lemma AppIsWritten(app: PublicApp)
    ensures DumpApp(app).Obj? && WritesApp(app, DumpApp(app).fields)
  {
  }

  lemma SurfaceIsWritten(surface: PublicSurface)
    ensures DumpSurface(surface).Obj? && WritesSurface(surface, DumpSurface(surface).fields)
  {
  }

  lemma GroupIsWritten(group: PublicGroup)
    ensures DumpGroup(group).Obj? && WritesGroup(group, DumpGroup(group).fields)
  {
  }

  lemma OmittedIsWritten(entry: OmittedEntry)
    ensures DumpOmitted(entry).Obj? && WritesOmitted(entry, DumpOmitted(entry).fields)
  {
  }

  lemma WindowIsWritten(window: VisibleWindow)
    ensures DumpWindow(window).Obj? && WritesWindow(window, DumpWindow(window).fields)
  {
  }

  lemma TransientIsWritten(item: TransientItem)
    ensures DumpTransient(item).Obj? && WritesTransient(item, DumpTransient(item).fields)
  {
  }

  lemma ListIsWritten<T>(items: seq<T>, dump: T -> Json)
    ensures DumpList(items, dump).Arr? && |DumpList(items, dump).items| == |items|
    ensures forall i :: 0 <= i < |items| ==> DumpList(items, dump).items[i] == dump(items[i])
  {
  }

  predicate WritesGroups(groups: seq<PublicGroup>, j: Json) {
    && j.Arr? && |j.items| == |groups|
    && forall i :: 0 <= i < |groups| ==> j.items[i].Obj? && WritesGroup(groups[i], j.items[i].fields)
  }

  predicate WritesAllOmitted(entries: seq<OmittedEntry>, j: Json) {
    && j.Arr? && |j.items| == |entries|
    && forall i :: 0 <= i < |entries| ==> j.items[i].Obj? && WritesOmitted(entries[i], j.items[i].fields)
  }

  predicate WritesWindows(windows: seq<VisibleWindow>, j: Json) {
    && j.Arr? && |j.items| == |windows|
    && forall i :: 0 <= i < |windows| ==> j.items[i].Obj? && WritesWindow(windows[i], j.items[i].fields)
  }

  predicate WritesTransients(items: seq<TransientItem>, j: Json) {
    && j.Arr? && |j.items| == |items|
    && forall i :: 0 <= i < |items| ==> j.items[i].Obj? && WritesTransient(items[i], j.items[i].fields)
  }

  lemma GroupsAreWritten(groups: seq<PublicGroup>)
    ensures WritesGroups(groups, DumpList(groups, DumpGroup))
  {
    ListIsWritten(groups, DumpGroup);
    forall i | 0 <= i < |groups|
      ensures DumpGroup(groups[i]).Obj? && WritesGroup(groups[i], DumpGroup(groups[i]).fields)
    {
      GroupIsWritten(groups[i]);
    }
  }

  lemma AllOmittedAreWritten(entries: seq<OmittedEntry>)
    ensures WritesAllOmitted(entries, DumpList(entries, DumpOmitted))
  {
    ListIsWritten(entries, DumpOmitted);
    forall i | 0 <= i < |entries|
      ensures DumpOmitted(entries[i]).Obj? && WritesOmitted(entries[i], DumpOmitted(entries[i]).fields)
    {
      OmittedIsWritten(entries[i]);
    }
  }

  lemma WindowsAreWritten(windows: seq<VisibleWindow>)
    ensures WritesWindows(windows, DumpList(windows, DumpWindow))
  {
    ListIsWritten(windows, DumpWindow);
    forall i | 0 <= i < |windows|
      ensures DumpWindow(windows[i]).Obj? && WritesWindow(windows[i], DumpWindow(windows[i]).fields)
    {
      WindowIsWritten(windows[i]);
    }
  }

  lemma TransientsAreWritten(items: seq<TransientItem>)
    ensures WritesTransients(items, DumpList(items, DumpTransient))
  {
    ListIsWritten(items, DumpTransient);
    forall i | 0 <= i < |items|
      ensures DumpTransient(items[i]).Obj? && WritesTransient(items[i], DumpTransient(items[i]).fields)
    {
      TransientIsWritten(items[i]);
    }
  }

  // The dump of a screen holds every part of it, lists in their order.
  lemma ScreenIsWritten(screen: Screen, fields: map<Name, Json>)
    requires DumpScreen(screen) == Obj(fields)
    ensures Look(fields, ScreenIdName) == Some(Str(screen.screenId))
    ensures AppName in fields && fields[AppName].Obj? && WritesApp(screen.app, fields[AppName].fields)
    ensures SurfaceName in fields && fields[SurfaceName].Obj?
         && WritesSurface(screen.surface, fields[SurfaceName].fields)
    ensures GroupsName in fields && WritesGroups(screen.groups, fields[GroupsName])
    ensures OmittedName in fields && WritesAllOmitted(screen.omitted, fields[OmittedName])
    ensures VisibleWindowsName in fields && WritesWindows(screen.visibleWindows, fields[VisibleWindowsName])
    ensures TransientName in fields && WritesTransients(screen.transient, fields[TransientName])
  {
    AppIsWritten(screen.app);
    SurfaceIsWritten(screen.surface);
    GroupsAreWritten(screen.groups);
    AllOmittedAreWritten(screen.omitted);
    WindowsAreWritten(screen.visibleWindows);
    TransientsAreWritten(screen.transient);
    FieldsOfScreen(screen, fields);
  }

  lemma FieldsOfScreen(screen: Screen, fields: map<Name, Json>)
    requires DumpScreen(screen) == Obj(fields)
    ensures Look(fields, ScreenIdName) == Some(Str(screen.screenId))
    ensures Look(fields, AppName) == Some(DumpApp(screen.app))
    ensures Look(fields, SurfaceName) == Some(DumpSurface(screen.surface))
    ensures Look(fields, GroupsName) == Some(DumpList(screen.groups, DumpGroup))
    ensures Look(fields, OmittedName) == Some(DumpList(screen.omitted, DumpOmitted))
    ensures Look(fields, VisibleWindowsName) == Some(DumpList(screen.visibleWindows, DumpWindow))
    ensures Look(fields, TransientName) == Some(DumpList(screen.transient, DumpTransient))
  {
  }
}
