// What the client makes of a payload that need not be a valid screen: which entries it shows, and in
// which text.
module ProjectionRules {
  import opened Common
  import opened PublicScreen
  import opened XmlTree
  import opened XmlProjection

  // ---------- Texts ----------

  // The text of a list's item is Python's.
  lemma ItemTextIs(j: Json)
    ensures j.Str? ==> ItemText(j) == j.text
    ensures j == Bool(true) ==> ItemText(j) == "True"
    ensures j == Bool(false) ==> ItemText(j) == "False"
    ensures j == Null ==> ItemText(j) == "None"
    ensures j.Int? && j.number >= 0 ==> ItemText(j) == Decimal(j.number)
    ensures j.Int? && j.number < 0 ==> ItemText(j) == "-" + Decimal(-j.number)
  {
  }

  // That of an attribute is XML's: no attribute for null and for objects, small letters for flags.
  lemma AttributeTextIs(j: Json)
    ensures ScalarAttr(j) == None <==> j == Null || j.Obj?
    ensures j.Str? ==> ScalarAttr(j) == Some(j.text)
    ensures j == Bool(true) ==> ScalarAttr(j) == Some("true") && BoolAttr(j) == Some("true")
    ensures j == Bool(false) ==> ScalarAttr(j) == Some("false") && BoolAttr(j) == Some("false")
    ensures !j.Bool? ==> BoolAttr(j) == None
    ensures j == Arr([]) ==> ScalarAttr(j) == Some("") && NonEmptySequenceAttr(j) == None
  {
  }

  // A count is shown unless it is negative.
  lemma CountIsShownIff(j: Json)
    ensures CountAttr(j).Some? <==> j.Int? && j.number >= 0
    ensures CountAttr(j).Some? ==> CountAttr(j) == Some(Decimal(j.number))
  {
  }

  // A list of texts stands for the first one that is there.
  lemma {:induction false} FirstThatIsThere(items: seq<Json>, k: nat)
    requires k <= |items| && forall i :: 0 <= i < k ==> items[i] == Null
    ensures k == |items| ==> TextValue(Some(Arr(items))) == None
    ensures k < |items| && items[k] != Null ==> TextValue(Some(Arr(items))) == Some(ItemText(items[k]))
  {
    if k > 0 {
      FirstThatIsThere(items[1..], k - 1);
    }
  }

  lemma NoTextOfOthers(j: Json)
    ensures TextValue(None) == None
    ensures j.Str? ==> TextValue(Some(j)) == Some(j.text)
    ensures j.Null? || j.Bool? || j.Int? || j.Obj? ==> TextValue(Some(j)) == None
  {
  }

  // A screen without an id is shown with Python's text for nothing.
  lemma MissingScreenId(j: Json)
    requires !j.Obj? || ScreenIdName !in j.fields
    ensures ProjectScreen(j).screenId == "None"
  {
  }

  // ---------- Groups ----------

  lemma GroupIs(j: Json, group: Group)
    ensures GroupOf(j) == Some(group) <==>
      j == Str(match group
               case Targets => "targets"
               case Keyboard => "keyboard"
               case System => "system"
               case Context => "context"
               case Dialog => "dialog")
  {
  }

  // Only three groups block the others.
  lemma BlockingGroupIs(j: Json, group: Group)
    ensures BlockingGroupOf(j) == Some(group) <==>
      || (j == Str("dialog") && group == Dialog)
      || (j == Str("keyboard") && group == Keyboard)
      || (j == Str("system") && group == System)
  {
  }

  // ---------- Entries that are shown ----------

  predicate IsRole(text: string) {
    text in {"button", "input", "switch", "checkbox", "radio", "tab", "keyboard-key", "image", "list-item", "text",
             "container", "dialog", "scroll-container"}
  }

  // A node is shown if its role is a role and there is something to show of it; its role is its tag.
  lemma NodeIsShownIff(fields: map<Name, Json>, children: seq<Xml>)
    ensures ProjectNode(fields, children).Some? <==>
      && RoleName in fields && fields[RoleName].Str? && IsRole(fields[RoleName].text)
      && (NodeItemAttrs(fields) != map[] || children != [])
    ensures ProjectNode(fields, children).Some? ==>
      ProjectNode(fields, children).value == Xml(fields[RoleName].text, NodeItemAttrs(fields), None, children)
  {
  }

  // A text is shown if it has one.
  lemma TextIsShownIff(fields: map<Name, Json>)
    requires KindName in fields && fields[KindName] == Str("text")
    ensures ProjectItem(Obj(fields)).Some? <==> TextValue(Look(fields, TextName)).Some?
    ensures ProjectItem(Obj(fields)).Some? ==>
      ProjectItem(Obj(fields)).value.tag == "literal"
      && ProjectItem(Obj(fields)).value.text == TextValue(Look(fields, TextName))
      && ProjectItem(Obj(fields)).value.children == []
  {
  }

  // What is no object is not shown.
  lemma OthersAreNotShown(j: Json)
    requires !j.Obj?
    ensures ProjectItem(j) == None && ProjectOmitted(j) == None
    ensures ProjectWindow(j) == None && ProjectTransient(j) == None
  {
    NothingToProject(VISIBLE_WINDOW_ATTRS, ScalarAttr);
  }

  lemma {:induction false} NothingToProject(names: seq<Name>, rule: Json -> Option<string>)
    ensures Project(map[], names, rule) == map[]
  {
    if names != [] {
      NothingToProject(names[..|names| - 1], rule);
    }
  }

  lemma OmittedIsShownIff(fields: map<Name, Json>)
    ensures var shown := ProjectOmitted(Obj(fields));
      && (shown.Some? <==>
            && GroupName in fields && GroupOf(fields[GroupName]).Some?
            && ReasonName in fields && fields[ReasonName].Str?
            && fields[ReasonName].text in {"offscreen", "virtualized", "structureCollapsed"})
      && (shown.Some? ==>
            Some(shown.value.group) == GroupOf(fields[GroupName]) && shown.value.reason == fields[ReasonName].text
            && shown.value.count == if CountName in fields then CountAttr(fields[CountName]) else None)
  {
  }

  lemma TransientIsShownIff(fields: map<Name, Json>)
    ensures var shown := ProjectTransient(Obj(fields));
      && (shown.Some? <==> TextName in fields && fields[TextName].Str? && |fields[TextName].text| > 0)
      && (shown.Some? ==> shown.value.text == fields[TextName].text)
      && (shown.Some? ==>
            shown.value.kind
              == if KindName in fields && fields[KindName] in {Str("toast"), Str("snackbar"), Str("banner")}
                 then Some(fields[KindName].text) else None)
  {
  }

  lemma WindowIsShownIff(fields: map<Name, Json>)
    ensures ProjectWindow(Obj(fields)).Some? <==>
      exists name :: name in {WindowRefName, RoleName, FocusedName, BlockingName}
                     && name in fields && fields[name] != Null && !fields[name].Obj?
  {
    forall name ensures name in Project(fields, VISIBLE_WINDOW_ATTRS, ScalarAttr) <==>
      name in {WindowRefName, RoleName, FocusedName, BlockingName} && name in fields
      && fields[name] != Null && !fields[name].Obj?
    {
      ProjectedIff(fields, VISIBLE_WINDOW_ATTRS, ScalarAttr, name);
    }
    var attrs := Project(fields, VISIBLE_WINDOW_ATTRS, ScalarAttr);
    assert attrs == map[] <==> forall name :: name !in attrs;
  }

  // An attribute is there if it is one of the named fields and the rule makes a text of it.
  lemma {:induction false} ProjectedIff(fields: map<Name, Json>, names: seq<Name>, rule: Json -> Option<string>,
                                        name: Name)
    ensures AttrAt(Project(fields, names, rule), name)
      == if name in names && name in fields then rule(fields[name]) else None
  {
    if names != [] {
      ProjectedIff(fields, names[..|names| - 1], rule, name);
    }
  }
}
