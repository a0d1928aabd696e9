/**
 The whole in-memory rewrite of the normalizer: root attribute defaulting,
 then the conditional named-view insertion, then the restyle of every path
 below the root, applied to an already-parsed tree.
 */
module Converter {
  import opened XmlTree
  import opened RootAttributes
  import opened NamedView
  import opened PathStyle

  /** How far the former children of the root move: one when a named-view is put in front. */
  function Offset(root: Element): nat
  {
    if NeedsNamedView(root) then 1 else 0
  }

  /** The inserted named-view is not a path and has no children, so the restyle pass leaves it alone. */
  lemma NamedViewNotRestyled()
    ensures NamedViewTag != PathTag
    ensures Restyle(NamedViewElement) == NamedViewElement
  {
  }

  /** The three steps in source order. */
  function EditSvg(root: Element): (r: Element)
    ensures r.tag == root.tag
    ensures r.attrs == ApplyRootDefaults(root.attrs)
    ensures |r.children| == |root.children| + Offset(root)
    ensures NeedsNamedView(root) ==> r.children[0] == NamedViewElement
  {
    var defaulted := root.(attrs := ApplyRootDefaults(root.attrs));
    NamedViewNotRestyled();
    RestyleDescendants(InsertNamedView(defaulted))
  }

  /** The `i`-th child of the input reappears, restyled, as child `i + Offset(root)` of the output. */
  lemma EditSvgChild(root: Element, i: nat)
    requires i < |root.children|
    ensures i + Offset(root) < |EditSvg(root).children|
    ensures EditSvg(root).children[i + Offset(root)] == Restyle(root.children[i])
  {
  }

  /** Every element below the `i`-th child of the input is found at the same route below the
      output child that child moved to, with its restyle applied; the output has no other routes
      there. Together with the child-level contract of `EditSvg` this accounts for every position. */
  lemma EditSvgPositions(root: Element, i: nat, rest: seq<nat>)
    requires i < |root.children|
    ensures i + Offset(root) < |EditSvg(root).children|
    ensures ValidPos(root.children[i], rest) <==> ValidPos(EditSvg(root).children[i + Offset(root)], rest)
    ensures ValidPos(root.children[i], rest) ==>
      NodeRestyled(At(root.children[i], rest), At(EditSvg(root).children[i + Offset(root)], rest))
  {
    EditSvgChild(root, i);
    RestyleAt(root.children[i], rest);
  }

  /** The output triggers the named-view test exactly when the input did. */
  lemma EditSvgKeepsNeed(root: Element)
    ensures NeedsNamedView(EditSvg(root)) == NeedsNamedView(root)
  {
  }

  /** Running the rewrite on its own output: when the first run inserted a named-view, the second run
      inserts another one in front and changes nothing else; otherwise the second run changes nothing. */
  lemma EditSvgTwice(root: Element)
    ensures NeedsNamedView(root) ==>
      EditSvg(EditSvg(root)) == EditSvg(root).(children := [NamedViewElement] + EditSvg(root).children)
    ensures !NeedsNamedView(root) ==> EditSvg(EditSvg(root)) == EditSvg(root)
  {
    var r := EditSvg(root);
    var rr := EditSvg(r);
    EditSvgKeepsNeed(root);
    ApplyRootDefaultsIdempotent(root.attrs);
    OutputChildrenRestyled(root);
    var k := Offset(root);
    assert Offset(r) == k;
    forall i | 0 <= i < |r.children|
      ensures rr.children[i + k] == r.children[i]
    {
      EditSvgChild(r, i);
    }
    assert rr.tag == r.tag;
    assert rr.attrs == r.attrs;
    if k == 1 {
      assert rr.children == [NamedViewElement] + r.children;
    } else {
      assert rr.children == r.children;
    }
  }

  /** Every child of the output is left as it is by a further restyle. */
  lemma OutputChildrenRestyled(root: Element)
    ensures forall i :: 0 <= i < |EditSvg(root).children| ==>
      Restyle(EditSvg(root).children[i]) == EditSvg(root).children[i]
  {
    var r := EditSvg(root);
    forall i | 0 <= i < |r.children|
      ensures Restyle(r.children[i]) == r.children[i]
    {
      if NeedsNamedView(root) && i == 0 {
        NamedViewNotRestyled();
      } else {
        EditSvgChild(root, i - Offset(root));
        RestyleIdempotent(root.children[i - Offset(root)]);
      }
    }
  }

  /** Each run adds one direct named-view child when the test fires, and none otherwise. */
  lemma NamedViewCountOneRun(root: Element)
    ensures CountTag(EditSvg(root).children, NamedViewTag) == CountTag(root.children, NamedViewTag) + Offset(root)
  {
    var r := EditSvg(root);
    var k := Offset(root);
    forall i | 0 <= i < |root.children|
      ensures r.children[i + k].tag == root.children[i].tag
    {
      EditSvgChild(root, i);
    }
    CountTagShifted(r.children, root.children, k, NamedViewTag);
    if k == 1 {
      var head := r.children[..1];
      assert head[0].tag == NamedViewTag && head[1..] == [];
      assert CountTag(head, NamedViewTag) == 1;
    } else {
      assert r.children[..0] == [];
    }
  }

  /** Since the output fires the test again, two runs add two named-views. */
  lemma NamedViewCount(root: Element)
    requires NeedsNamedView(root)
    ensures CountTag(EditSvg(EditSvg(root)).children, NamedViewTag) == CountTag(root.children, NamedViewTag) + 2
  {
    NamedViewCountOneRun(root);
    NamedViewCountOneRun(EditSvg(root));
    EditSvgKeepsNeed(root);
  }

  function ExamplePath(): Element
  {
    Element(PathTag, map["d" := "M0 0"], [])
  }

  function ExampleRoot(): Element
  {
    Element(Tag(Namespaces["svg"], "svg"), map["width" := "10cm"], [ExamplePath()])
  }

  /** The worked example, a root with only `width="10cm"` and one path carrying `d="M0 0"`:
      the width is kept and the height defaulted, ... */
  lemma ExampleRootAttributes()
    ensures var r := EditSvg(ExampleRoot());
      && r.attrs["width"] == "10cm"
      && r.attrs["height"] == "1.5cm"
  {
    RootValues(ExampleRoot().attrs);
  }

  /** ... the named-view is inserted in front of the path, ... */
  lemma ExampleNamedViewFirst()
    ensures var r := EditSvg(ExampleRoot());
      && |r.children| == 2
      && r.children[0] == NamedViewElement
  {
  }

  /** ... and the path, now second, is restyled with its `d` kept. */
  lemma ExamplePathRestyled()
    ensures var r := EditSvg(ExampleRoot());
      && |r.children| == 2
      && r.children[1].attrs == map["d" := "M0 0"] + PathStyleAttrs
      && r.children[1].attrs["d"] == "M0 0"
      && r.children[1].attrs["id"] == "path1"
  {
    var root := ExampleRoot();
    assert FindChild(root.children, NamedViewTag) == None;
    EditSvgChild(root, 0);
    assert EditSvg(root).children[1].attrs == ExamplePath().attrs + PathStyleAttrs;
  }

  /** An existing named-view without children does not stop the insertion; one with a child does. */
  lemma ExampleEmptyNamedView(kept: Element)
    ensures var root := Element(Tag(Namespaces["svg"], "svg"), map[], [Element(NamedViewTag, map[], [])]);
      |EditSvg(root).children| == 2
    ensures var root := Element(Tag(Namespaces["svg"], "svg"), map[], [Element(NamedViewTag, map[], [kept])]);
      |EditSvg(root).children| == 1
  {
  }
}
