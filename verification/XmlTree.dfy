// XML elements as trees with attribute maps, and the text forms that both renderers share.
module XmlTree {
  import opened Common
  import opened PublicScreen

  type Attrs = map<Name, string>

  datatype Xml = Xml(tag: string, attrs: Attrs, text: Option<string>, children: seq<Xml>)

  function AttrAt(attrs: Attrs, name: Name): Option<string> {
    if name in attrs then Some(attrs[name]) else None
  }

  lemma SameAttrs(a: Attrs, b: Attrs)
    requires forall name :: AttrAt(a, name) == AttrAt(b, name)
    ensures a == b
  {
    forall name ensures name in a <==> name in b {
      assert AttrAt(a, name) == AttrAt(b, name);
    }
    forall name | name in a ensures a[name] == b[name] {
      assert AttrAt(a, name) == AttrAt(b, name);
    }
  }

  function Join(items: seq<string>): string {
    if items == [] then ""
    else if |items| == 1 then items[0]
    else items[0] + " " + Join(items[1..])
  }

  function BoolText(b: bool): string {
    if b then "true" else "false"
  }

  function NonEmpty(o: Option<string>): Option<string> {
    if o.Some? && o.value != "" then o else None
  }

  function JoinNonEmpty(items: seq<string>): Option<string> {
    if items == [] then None else Some(Join(items))
  }
}
