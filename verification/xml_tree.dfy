/**
 An already-parsed XML element tree, as the normalizer sees it: every element
 has a namespace-qualified tag, a string-keyed attribute map and an ordered
 sequence of children. Text and tail content are not represented, because the
 normalizer never reads or writes them.
 */
module XmlTree {

  datatype Option<T> = None | Some(value: T)

  /** A qualified name `{ns}local`; the empty namespace stands for an unqualified tag. */
  datatype Tag = Tag(ns: string, local: string)

  datatype Element = Element(tag: Tag, attrs: map<string, string>, children: seq<Element>)

  /** The fixed prefix-to-URI table the normalizer qualifies its names with. */
  const Namespaces: map<string, string> := map[
    "inkscape" := "http://www.inkscape.org/namespaces/inkscape",
    "sodipodi" := "http://sodipodi.sourceforge.net/DTD/sodipodi-0.dtd",
    "svg" := "http://www.w3.org/2000/svg",
    "shaper" := "http://www.shapertools.com/namespaces/shaper"
  ]

  /** `svg:path` resolved through the namespace table. */
  const PathTag: Tag := Tag(Namespaces["svg"], "path")

  /** `{http://sodipodi.sourceforge.net/DTD/sodipodi-0.dtd}namedview`. */
  const NamedViewTag: Tag := Tag(Namespaces["sodipodi"], "namedview")

  /** A position is a route of child indices from an element down to one of its descendants. */
  predicate ValidPos(e: Element, p: seq<nat>)
    decreases |p|
  {
    p == [] || (p[0] < |e.children| && ValidPos(e.children[p[0]], p[1..]))
  }

  /** The sub-element found at a valid position; `[]` is the element itself. */
  function At(e: Element, p: seq<nat>): Element
    requires ValidPos(e, p)
    decreases |p|
  {
    if p == [] then e else At(e.children[p[0]], p[1..])
  }

  /** Number of elements of `cs` whose tag is `tag`. */
  function CountTag(cs: seq<Element>, tag: Tag): nat
  {
    if cs == [] then 0 else (if cs[0].tag == tag then 1 else 0) + CountTag(cs[1..], tag)
  }

  lemma {:induction false} CountTagAppend(a: seq<Element>, b: seq<Element>, tag: Tag)
    ensures CountTag(a + b, tag) == CountTag(a, tag) + CountTag(b, tag)
    decreases |a|
  {
    if a == [] {
      assert a + b == b;
    } else {
      assert (a + b)[0] == a[0];
      assert (a + b)[1..] == a[1..] + b;
      CountTagAppend(a[1..], b, tag);
    }
  }

  /** Sequences with the same tags, position by position, have the same count of every tag. */
  lemma {:induction false} CountTagSameTags(a: seq<Element>, b: seq<Element>, tag: Tag)
    requires |a| == |b|
    requires forall i :: 0 <= i < |a| ==> a[i].tag == b[i].tag
    ensures CountTag(a, tag) == CountTag(b, tag)
    decreases |a|
  {
    if a != [] {
      CountTagSameTags(a[1..], b[1..], tag);
    }
  }

  /** A sequence whose elements from index `k` on carry the tags of `b` counts the tags of its first
      `k` elements plus those of `b`. */
  lemma CountTagShifted(a: seq<Element>, b: seq<Element>, k: nat, tag: Tag)
    requires |a| == |b| + k
    requires forall i :: 0 <= i < |b| ==> a[i + k].tag == b[i].tag
    ensures CountTag(a, tag) == CountTag(a[..k], tag) + CountTag(b, tag)
  {
    var tail := a[k..];
    forall i | 0 <= i < |tail|
      ensures tail[i].tag == b[i].tag
    {
      assert tail[i] == a[i + k];
    }
    CountTagSameTags(tail, b, tag);
    assert a[..k] + tail == a;
    CountTagAppend(a[..k], tail, tag);
  }
}
