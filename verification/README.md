# SVG normalizer: a Dafny model of the in-memory rewrite

The repository holds a small script, `3/converte.py`. It reads an SVG file and
normalizes it for a vector editor. Its one function, `edit_svg`, parses the file
into an ElementTree and rewrites the tree in three steps before writing it back:

1. **Root attribute defaulting.** Eight root attributes (`width`, `height`, `version`,
   `x`, `y`, `viewBox`, `enable-background`, `xml:space`) keep the value the input
   gives them. Each missing one gets a fixed default. The eight are then written back
   with a dictionary update, and no other root attribute is touched.
2. **Conditional named-view insertion.** The script looks for the first direct child
   tagged `{sodipodi}namedview` and takes the truth value of what it finds. An
   ElementTree element is "true" exactly when it has children. When the test fires,
   a named-view with eighteen fixed editor attributes and no children goes in front
   of all the root's children.
3. **Path restyling.** Every `svg:path` strictly below the root gets five attributes
   overwritten: `fill`, `stroke-linecap`, `stroke-linejoin`, `id` and `style`.

The model works on an already-parsed tree. An `Element` has a `Tag(ns, local)`, a
`map<string, string>` of attributes and a `seq<Element>` of children. Attribute keys
are plain strings. So the literal key `"xml:space"` that the script writes is a
different key from the `{http://www.w3.org/XML/1998/namespace}space` key a parser
produces. Each step is a total function with key-by-key, shape and frame facts.
`EditSvg` chains the three steps.

Modules, one per file:

- `XmlTree` (`xml_tree.dfy`) defines the tree, the namespace table, the `svg:path` and
  `sodipodi:namedview` tags, and routes into the tree (`ValidPos`, `At`). It also
  counts tags among siblings.
- `RootAttributes` (`root_attributes.dfy`) covers step 1.
- `NamedView` (`named_view.dfy`) covers step 2, including the truthiness test.
- `PathStyle` (`path_style.dfy`) covers step 3. It also models the descendant search
  `.//svg:path` as a set of positions.
- `Converter` (`edit_svg.dfy`) holds the whole rewrite, what running it twice does, and
  the worked example.

Two details of the code are easy to misread; the model follows the code in both.

- The comment on line 45 says the named-view is added only if it is not present. Line 46,
  however, takes the truth value of the element the search found, and that value is false
  when the element has no children. The named-view the script inserts has no children.
  So running the script on its own output always inserts another one in front
  (`EditSvgTwice`, `NamedViewCount`), and an existing named-view without children does
  not stop the insertion either (`ExampleEmptyNamedView`).
- Line 39 reads and writes `xml:space` as a literal colon key. A parser stores that
  attribute under `{http://www.w3.org/XML/1998/namespace}space`, so an input root that
  carries it is not seen, and a second, literal `xml:space` key is added next to it
  (`XmlSpaceIsLiteralKey`).

## Model

| member | source | states |
|---|---|---|
| RootAttributes.GetOr | 3/converte.py:32-39 | the `.get(key, default)` lookup; its meaning for the eight keys is given by ApplyRootDefaults and RootValues |
| RootAttributes.Background | 3/converte.py:31-40 | the background table has exactly the eight table keys; its values are characterised through ApplyRootDefaults |
| RootAttributes.ApplyRootDefaults | 3/converte.py:31-43 | the root's key set becomes the input keys plus the eight table keys; each table key keeps its input value when present and otherwise gets its default; every other key keeps its value |
| RootAttributes.RootValues | 3/converte.py:32-39 | the eight names with their literal defaults: "30cm", "1.5cm", "1.1", "0cm", "0cm", "0 0 30 1.5", "new 0 0 30 1.5", "preserve" |
| RootAttributes.ApplyRootDefaultsIdempotent | 3/converte.py:31-43 | updating an already-updated root attribute map changes nothing |
| RootAttributes.XmlSpaceIsLiteralKey | 3/converte.py:39 | `xml:space` is a literal key: a root with only the parsed XML-namespace `space` key still gets "preserve" under `xml:space`, and keeps the parsed key unchanged |
| NamedView.FindChild | 3/converte.py:46 | the search returns the index of the first direct child with the tag, with no earlier match, or None exactly when no direct child has the tag |
| NamedView.Truthy | 3/converte.py:46 | an element is true exactly when it has children; used by the test, characterised by NeedsNamedViewIff |
| NamedView.NeedsNamedView | 3/converte.py:46 | the `not root.find(...)` test; characterised by NeedsNamedViewIff |
| NamedView.NeedsNamedViewIff | 3/converte.py:46 | the test fires exactly when no direct child is a named-view, or when the first one has no children |
| NamedView.InsertNamedView | 3/converte.py:46-70 | root tag and attributes are unchanged; when the test fires the children are the new named-view followed by the old children, otherwise they are unchanged |
| NamedView.InsertedShape | 3/converte.py:47-70 | after an insertion: one more child; the child at index 0 has the sodipodi named-view tag, the eighteen table attributes and no children; old child i is now at i+1; one more direct named-view |
| NamedView.OnlyDirectChildrenInspected | 3/converte.py:46 | two roots whose children agree in tag and in having children get the same search result and the same test outcome, so nested named-views are ignored |
| NamedView.InsertionRepeats | 3/converte.py:46-70 | the test fires on the result of an insertion exactly when it fired on the input |
| PathStyle.StylePath | 3/converte.py:75-84 | the five sequential `set` calls equal overriding with the five-entry style table: those five keys take the table values and every other key keeps its value |
| PathStyle.RestyleNode | 3/converte.py:75-84 | one element keeps its tag and children; a path gets the five-entry style table over its attributes, any other element keeps its attributes |
| PathStyle.Restyle | 3/converte.py:73-84 | restyling keeps an element's tag and child count; a path gets the style table over its attributes, and any other element keeps its attributes |
| PathStyle.RestyleAll | 3/converte.py:73 | a list of siblings is restyled element by element, keeping length and order |
| PathStyle.RestyleDescendants | 3/converte.py:73 | the pass over the root keeps the root's tag, attributes and child count |
| PathStyle.PathPositions | 3/converte.py:73 | the routes of an element and its descendants tagged `svg:path`; characterised by PathPositionsIff |
| PathStyle.FindAllPaths | 3/converte.py:73 | the `.//svg:path` search never contains the root's own route and is the path routes minus it; characterised by FindAllPathsIff |
| PathStyle.PathPositionsIff | 3/converte.py:73 | a route is found by the path search from an element exactly when it leads to an element tagged `svg:path` |
| PathStyle.FindAllPathsIff | 3/converte.py:73 | `.//svg:path` finds exactly the strict descendants of the root tagged `svg:path`; the root is never included |
| PathStyle.RestyleAt | 3/converte.py:73-84 | restyling keeps every route of the tree, and the sub-tree at each route is the restyle of the input's sub-tree there |
| PathStyle.RestyleDescendantsSpec | 3/converte.py:73-84 | the pass keeps every route, leaves the root's attributes alone, and changes each strict descendant only as the restyle relation allows |
| PathStyle.PathsStyled | 3/converte.py:73-84 | every element the search finds ends with `fill`="rgb(0,0,0)", `stroke-linecap`="round", `stroke-linejoin`="round", `id`="path1" and the fixed `style`, and keeps its other attributes; every element not found keeps its attributes |
| PathStyle.DuplicateIds | 3/converte.py:78 | two different paths both end with `id`="path1", so ids are not kept unique |
| PathStyle.RootNeverRestyled | 3/converte.py:73 | a root that is itself an `svg:path` is not among the search results and keeps its attributes |
| PathStyle.RestyleIdempotent | 3/converte.py:75-84 | restyling a restyled sub-tree changes nothing |
| PathStyle.RestyleDescendantsIdempotent | 3/converte.py:73-84 | running the pass over a pass's result changes nothing |
| Converter.NamedViewNotRestyled | 3/converte.py:47-48 | the named-view tag is not the path tag, so the restyle pass leaves the inserted named-view alone |
| Converter.EditSvg | 3/converte.py:31-84 | the output root keeps its tag, has the defaulted root attributes and one more child exactly when the test fired; that extra child is the named-view at index 0 |
| Converter.EditSvgChild | 3/converte.py:70-84 | input child i reappears, restyled, at output index i, or at i+1 when a named-view was inserted |
| Converter.EditSvgPositions | 3/converte.py:70-84 | every route below input child i exists below that child's new position in the output, with the restyle relation between the two elements there, and no other routes exist there |
| Converter.EditSvgKeepsNeed | 3/converte.py:46-84 | the named-view test fires on the output exactly when it fired on the input |
| Converter.EditSvgTwice | 3/converte.py:31-84 | a second run adds another named-view in front and changes nothing else when the first run inserted one; otherwise it changes nothing |
| Converter.OutputChildrenRestyled | 3/converte.py:73-84 | a further restyle leaves every child of the output unchanged |
| Converter.NamedViewCountOneRun | 3/converte.py:46-70 | one run adds exactly one direct named-view child when the test fires, and none otherwise |
| Converter.NamedViewCount | 3/converte.py:46-70 | when the test fires, two runs add two direct named-view children |
| Converter.ExampleRootAttributes | 3/converte.py:31-43 | for a root with `width="10cm"` and a path child, the width is kept and the height is "1.5cm" |
| Converter.ExampleNamedViewFirst | 3/converte.py:46-70 | in that example the named-view is inserted as the first of two children |
| Converter.ExamplePathRestyled | 3/converte.py:73-84 | in that example the path keeps `d="M0 0"` and gets exactly the five style attributes besides it |
| Converter.ExampleEmptyNamedView | 3/converte.py:46 | a root whose only child is an empty named-view gets a second one; a root whose named-view has a child does not |

## Left out

- Parsing the input file and writing the output (3/converte.py:15, 3/converte.py:87): file I/O and XML text handling belong to the XML library. The model starts from a parsed tree and ends with the rewritten tree. This also leaves out whether a literal `xml:space` key next to a parsed XML-namespace `space` key serializes as a duplicate attribute.
- `ET.register_namespace` (3/converte.py:26-28): it only chooses the prefixes used when serializing. The namespace table (3/converte.py:19-24) is kept as a constant and used to resolve `svg:path` and the named-view tag.
- Command-line handling and `print` (3/converte.py:89-94): process plumbing.
- Text and tail content of elements: the rewrite never reads or writes it, so `Element` does not carry it.
- The order of the `findall` results: each path's update touches only that path, so the model restyles structurally and treats the search result as a set of routes, not a list in document order.
- Attribute order: `map<string, string>` has no order, while `root.attrib.update` (3/converte.py:43) keeps existing keys in place and appends missing table keys in table order, which is the order serialization emits. The rewrite never reads that order.
- NamedView.NamedViewAttrs: that the table has eighteen distinct keys is stated by the constant itself; its size is not proved, because comparing all eighteen literal keys pairwise costs more solver effort than is practical here.
