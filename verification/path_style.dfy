/**
 Step three of the normalizer: every `svg:path` strictly below the root gets
 five presentation attributes overwritten with fixed values. The search is a
 descendant search from the root, so the root itself is never restyled, and a
 path nested inside another path is restyled too. Nothing else changes.
 */
module PathStyle {
  import opened XmlTree

  /** The five attributes every path receives. `fill` is written and then overruled by `style`. */
  const PathStyleAttrs: map<string, string> := map[
    "fill" := "rgb(0,0,0)",
    "stroke-linecap" := "round",
    "stroke-linejoin" := "round",
    "id" := "path1",
    "style" := "fill:none;stroke:#ff0000;stroke-opacity:1;stroke-width:0.001;stroke-dasharray:none"
  ]

  /** The five `set` calls on one path, in source order. */
  function StylePath(attrs: map<string, string>): (r: map<string, string>)
    ensures r == attrs + PathStyleAttrs
    ensures r.Keys == attrs.Keys + PathStyleAttrs.Keys
    ensures forall k :: k in PathStyleAttrs ==> r[k] == PathStyleAttrs[k]
    ensures forall k :: k in attrs && k !in PathStyleAttrs ==> r[k] == attrs[k]
  {
    attrs["fill" := "rgb(0,0,0)"]
         ["stroke-linecap" := "round"]
         ["stroke-linejoin" := "round"]
         ["id" := "path1"]
         ["style" := "fill:none;stroke:#ff0000;stroke-opacity:1;stroke-width:0.001;stroke-dasharray:none"]
  }

  /** What the restyle does to one element, leaving its children as they are. */
  function RestyleNode(e: Element): (r: Element)
    ensures r.tag == e.tag && r.children == e.children
    ensures r.attrs == (if e.tag == PathTag then e.attrs + PathStyleAttrs else e.attrs)
  {
    if e.tag == PathTag then e.(attrs := StylePath(e.attrs)) else e
  }

  /** The reference relation between an element before and after the restyle pass, node by node. */
  ghost predicate NodeRestyled(before: Element, after: Element)
  {
    && after.tag == before.tag
    && |after.children| == |before.children|
    && after.attrs == (if before.tag == PathTag then before.attrs + PathStyleAttrs else before.attrs)
  }

  /** Restyle `e` (when it is a path) and every element below it. */
  function Restyle(e: Element): (r: Element)
    ensures NodeRestyled(e, r)
    decreases e, 1
  {
    var n := RestyleNode(e);
    Element(n.tag, n.attrs, RestyleAll(e.children))
  }

  /** Restyle every element of `cs`, each with everything below it, keeping their order. */
  function RestyleAll(cs: seq<Element>): (rs: seq<Element>)
    ensures |rs| == |cs|
    ensures forall i :: 0 <= i < |cs| ==> rs[i] == Restyle(cs[i])
    decreases cs, 0
  {
    if cs == [] then [] else [Restyle(cs[0])] + RestyleAll(cs[1..])
  }

  /** The pass over all strict descendants of the root. */
  function RestyleDescendants(root: Element): (r: Element)
    ensures r.tag == root.tag && r.attrs == root.attrs
    ensures |r.children| == |root.children|
  {
    root.(children := RestyleAll(root.children))
  }

  /** Positions, relative to `e`, of `e` and of every element below it whose tag is `svg:path`. */
  function PathPositions(e: Element): set<seq<nat>>
    decreases e
  {
    (if e.tag == PathTag then {[]} else {})
    + set i, q | 0 <= i < |e.children| && q in PathPositions(e.children[i]) :: [i] + q
  }

  /** The descendant search `.//svg:path` from the root: the root itself is not a candidate. */
  function FindAllPaths(root: Element): (r: set<seq<nat>>)
    ensures [] !in r
    ensures r == PathPositions(root) - {[]}
  {
    set q | q in PathPositions(root) && q != []
  }

  /** The search finds exactly the paths of the tree. */
  lemma {:induction false} PathPositionsIff(e: Element, p: seq<nat>)
    ensures p in PathPositions(e) <==> ValidPos(e, p) && At(e, p).tag == PathTag
    decreases |p|
  {
    if p != [] {
      if p[0] < |e.children| {
        PathPositionsIff(e.children[p[0]], p[1..]);
        assert [p[0]] + p[1..] == p;
      }
      if p in PathPositions(e) {
        var i, q :| 0 <= i < |e.children| && q in PathPositions(e.children[i]) && p == [i] + q;
        assert p[0] == i && p[1..] == q;
      }
    }
  }

  /** `FindAllPaths` holds exactly the strict descendants of the root tagged `svg:path`. */
  lemma FindAllPathsIff(root: Element, p: seq<nat>)
    ensures p in FindAllPaths(root) <==> ValidPos(root, p) && p != [] && At(root, p).tag == PathTag
  {
    PathPositionsIff(root, p);
  }

  /** The restyled tree has the same positions as the input, and the sub-tree at each position is the
      restyle of the input's sub-tree there. */
  lemma {:induction false} RestyleAt(e: Element, p: seq<nat>)
    ensures ValidPos(Restyle(e), p) <==> ValidPos(e, p)
    ensures ValidPos(e, p) ==> At(Restyle(e), p) == Restyle(At(e, p))
    decreases |p|
  {
    if p != [] && p[0] < |e.children| {
      RestyleAt(e.children[p[0]], p[1..]);
    }
  }

  /** The pass keeps every position of the tree, leaves the root's attributes alone, and relates
      every strict descendant to its input counterpart by `NodeRestyled`. */
  lemma RestyleDescendantsSpec(root: Element)
    ensures var r := RestyleDescendants(root);
      && (forall p :: ValidPos(r, p) <==> ValidPos(root, p))
      && At(r, []).attrs == root.attrs
      && (forall p :: ValidPos(root, p) && p != [] ==> NodeRestyled(At(root, p), At(r, p)))
  {
    var r := RestyleDescendants(root);
    forall p
      ensures ValidPos(r, p) <==> ValidPos(root, p)
      ensures ValidPos(root, p) && p != [] ==> NodeRestyled(At(root, p), At(r, p))
    {
      if p != [] && p[0] < |root.children| {
        RestyleAt(root.children[p[0]], p[1..]);
      }
    }
  }

  /** Every path the search finds carries the five fixed values; all its other attributes,
      and all attributes of every non-path element, are what they were. */
  lemma PathsStyled(root: Element, p: seq<nat>)
    requires ValidPos(root, p) && p != []
    ensures ValidPos(RestyleDescendants(root), p)
    ensures var before := At(root, p);
      var after := At(RestyleDescendants(root), p);
      && after.tag == before.tag
      && (p in FindAllPaths(root) ==>
            && "fill" in after.attrs && after.attrs["fill"] == "rgb(0,0,0)"
            && "stroke-linecap" in after.attrs && after.attrs["stroke-linecap"] == "round"
            && "stroke-linejoin" in after.attrs && after.attrs["stroke-linejoin"] == "round"
            && "id" in after.attrs && after.attrs["id"] == "path1"
            && "style" in after.attrs && after.attrs["style"]
               == "fill:none;stroke:#ff0000;stroke-opacity:1;stroke-width:0.001;stroke-dasharray:none"
            && (forall k :: k in before.attrs && k !in PathStyleAttrs ==> k in after.attrs && after.attrs[k] == before.attrs[k]))
      && (p !in FindAllPaths(root) ==> after.attrs == before.attrs)
  {
    RestyleDescendantsSpec(root);
    FindAllPathsIff(root, p);
  }

  /** Two different paths end up with the same `id`: the pass does not keep ids unique. */
  lemma DuplicateIds(root: Element, p: seq<nat>, q: seq<nat>)
    requires p in FindAllPaths(root) && q in FindAllPaths(root) && p != q
    ensures ValidPos(RestyleDescendants(root), p) && ValidPos(RestyleDescendants(root), q)
    ensures "id" in At(RestyleDescendants(root), p).attrs && "id" in At(RestyleDescendants(root), q).attrs
    ensures At(RestyleDescendants(root), p).attrs["id"] == "path1"
    ensures At(RestyleDescendants(root), p).attrs["id"] == At(RestyleDescendants(root), q).attrs["id"]
  {
    FindAllPathsIff(root, p);
    FindAllPathsIff(root, q);
    PathsStyled(root, p);
    PathsStyled(root, q);
  }

  /** The root is never restyled, even when it is itself an `svg:path`. */
  lemma RootNeverRestyled(root: Element)
    requires root.tag == PathTag
    ensures [] !in FindAllPaths(root)
    ensures RestyleDescendants(root).attrs == root.attrs
  {
  }

  /** Restyling a restyled tree changes nothing. */
  lemma {:induction false} RestyleIdempotent(e: Element)
    ensures Restyle(Restyle(e)) == Restyle(e)
    decreases e
  {
    var r := Restyle(e);
    forall i | 0 <= i < |e.children|
      ensures Restyle(r.children[i]) == r.children[i]
    {
      RestyleIdempotent(e.children[i]);
    }
    assert Restyle(r).children == r.children;
  }

  lemma RestyleDescendantsIdempotent(root: Element)
    ensures RestyleDescendants(RestyleDescendants(root)) == RestyleDescendants(root)
  {
    var r := RestyleDescendants(root);
    forall i | 0 <= i < |root.children|
      ensures Restyle(r.children[i]) == r.children[i]
    {
      RestyleIdempotent(root.children[i]);
    }
    assert RestyleDescendants(r).children == r.children;
  }
}
