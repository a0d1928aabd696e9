/**
 Step two of the normalizer: a sodipodi named-view element (the editor's page,
 zoom and window settings) is put in front of the root's children when the
 existence test says so. The test asks for the first direct child tagged
 `sodipodi:namedview` and then takes the truth value of the element it found,
 which for an ElementTree element means "has at least one child". So an
 existing named-view without children does not stop the insertion.
 */
module NamedView {
  import opened XmlTree

  /** The eighteen attributes of the inserted named-view, under their literal colon keys. */
  const NamedViewAttrs: map<string, string> := map[
    "id" := "namedview1",
    "pagecolor" := "#ffffff",
    "bordercolor" := "#000000",
    "borderopacity" := "0.25",
    "inkscape:showpageshadow" := "2",
    "inkscape:pageopacity" := "0.0",
    "inkscape:pagecheckerboard" := "0",
    "inkscape:deskcolor" := "#d1d1d1",
    "inkscape:document-units" := "cm",
    "inkscape:zoom" := "0.20813889",
    "inkscape:cx" := "566.92913",
    "inkscape:cy" := "28.826905",
    "inkscape:window-width" := "1344",
    "inkscape:window-height" := "449",
    "inkscape:window-x" := "0",
    "inkscape:window-y" := "37",
    "inkscape:window-maximized" := "0",
    "inkscape:current-layer" := "svg1"
  ]

  /** The element that is inserted: no children, so it is itself falsy. */
  const NamedViewElement: Element := Element(NamedViewTag, NamedViewAttrs, [])

  /** Index of the first element of `cs` tagged `tag`, or None: a child-only search. */
  function FindChild(cs: seq<Element>, tag: Tag): (r: Option<nat>)
    ensures r.Some? ==> r.value < |cs| && cs[r.value].tag == tag
    ensures r.Some? ==> forall j :: 0 <= j < r.value ==> cs[j].tag != tag
    ensures r.None? ==> forall j :: 0 <= j < |cs| ==> cs[j].tag != tag
  {
    if cs == [] then None
    else if cs[0].tag == tag then Some(0)
    else match FindChild(cs[1..], tag)
      case None => None
      case Some(i) => Some(i + 1)
  }

  /** The truth value of an element: it is true exactly when the element has children. */
  predicate Truthy(e: Element)
  {
    |e.children| != 0
  }

  /** The existence test: the search finds nothing, or what it finds is falsy. */
  predicate NeedsNamedView(root: Element)
  {
    match FindChild(root.children, NamedViewTag)
    case None => true
    case Some(i) => !Truthy(root.children[i])
  }

  /** The test fires exactly when no direct child is a named-view, or the first one has no children. */
  lemma NeedsNamedViewIff(root: Element)
    ensures NeedsNamedView(root) <==>
      (forall j :: 0 <= j < |root.children| ==> root.children[j].tag != NamedViewTag)
      || (exists i :: 0 <= i < |root.children| && root.children[i].tag == NamedViewTag
            && |root.children[i].children| == 0
            && forall j :: 0 <= j < i ==> root.children[j].tag != NamedViewTag)
  {
  }

  /** The root after the test and the optional insertion at child index 0. */
  function InsertNamedView(root: Element): (r: Element)
    ensures r.tag == root.tag && r.attrs == root.attrs
    ensures NeedsNamedView(root) ==> r.children == [NamedViewElement] + root.children
    ensures !NeedsNamedView(root) ==> r.children == root.children
  {
    if NeedsNamedView(root) then root.(children := [NamedViewElement] + root.children) else root
  }

  /** After an insertion the new child sits in front, and the former children follow in order. */
  lemma InsertedShape(root: Element)
    requires NeedsNamedView(root)
    ensures var r := InsertNamedView(root);
      && |r.children| == |root.children| + 1
      && r.children[0].tag == NamedViewTag
      && r.children[0].attrs == NamedViewAttrs
      && r.children[0].children == []
      && (forall i :: 0 <= i < |root.children| ==> r.children[i + 1] == root.children[i])
      && CountTag(r.children, NamedViewTag) == CountTag(root.children, NamedViewTag) + 1
  {
  }

  /** The test looks only at the tags of the direct children and at whether they have children:
      nested named-views and every other detail further down are ignored. */
  lemma OnlyDirectChildrenInspected(a: Element, b: Element)
    requires |a.children| == |b.children|
    requires forall i :: 0 <= i < |a.children| ==> a.children[i].tag == b.children[i].tag
    requires forall i :: 0 <= i < |a.children| ==> Truthy(a.children[i]) == Truthy(b.children[i])
    ensures FindChild(a.children, NamedViewTag) == FindChild(b.children, NamedViewTag)
    ensures NeedsNamedView(a) == NeedsNamedView(b)
  {
  }

  /** The test fires on the output of an insertion exactly when it fired on the input: the inserted
      element is found first and is falsy, so inserting is never a one-time event. */
  lemma InsertionRepeats(root: Element)
    ensures NeedsNamedView(InsertNamedView(root)) == NeedsNamedView(root)
  {
  }
}
