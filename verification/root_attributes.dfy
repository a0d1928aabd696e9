/**
 Step one of the normalizer: the eight document-level attributes of the root
 element keep the value the input gives them, or receive a fixed default.
 */
module RootAttributes {

  /** The root attribute table: attribute name to the value used when the input lacks it. */
  const RootDefaults: map<string, string> := map[
    "width" := "30cm",
    "height" := "1.5cm",
    "version" := "1.1",
    "x" := "0cm",
    "y" := "0cm",
    "viewBox" := "0 0 30 1.5",
    "enable-background" := "new 0 0 30 1.5",
    "xml:space" := "preserve"
  ]

  /** A dictionary lookup with a fallback value. */
  function GetOr(attrs: map<string, string>, key: string, default: string): string
  {
    if key in attrs then attrs[key] else default
  }

  /** The "background" table: one entry per root attribute name, read from `attrs` or defaulted. */
  function Background(attrs: map<string, string>): (b: map<string, string>)
    ensures b.Keys == RootDefaults.Keys
  {
    map k | k in RootDefaults :: GetOr(attrs, k, RootDefaults[k])
  }

  /** The root's attribute map after it is updated with the background table. */
  function ApplyRootDefaults(attrs: map<string, string>): (r: map<string, string>)
    ensures r.Keys == attrs.Keys + RootDefaults.Keys
    ensures forall k :: k in RootDefaults && k in attrs ==> r[k] == attrs[k]
    ensures forall k :: k in RootDefaults && k !in attrs ==> r[k] == RootDefaults[k]
    ensures forall k :: k in attrs && k !in RootDefaults ==> r[k] == attrs[k]
  {
    attrs + Background(attrs)
  }

  /** The eight names and their defaults, written out literally. */
  lemma RootValues(attrs: map<string, string>)
    ensures var r := ApplyRootDefaults(attrs);
      && r["width"] == GetOr(attrs, "width", "30cm")
      && r["height"] == GetOr(attrs, "height", "1.5cm")
      && r["version"] == GetOr(attrs, "version", "1.1")
      && r["x"] == GetOr(attrs, "x", "0cm")
      && r["y"] == GetOr(attrs, "y", "0cm")
      && r["viewBox"] == GetOr(attrs, "viewBox", "0 0 30 1.5")
      && r["enable-background"] == GetOr(attrs, "enable-background", "new 0 0 30 1.5")
      && r["xml:space"] == GetOr(attrs, "xml:space", "preserve")
  {
  }

  /** A root attribute map that already went through the update is left as it is. */
  lemma ApplyRootDefaultsIdempotent(attrs: map<string, string>)
    ensures ApplyRootDefaults(ApplyRootDefaults(attrs)) == ApplyRootDefaults(attrs)
  {
  }

  /** The literal colon key `xml:space` is not the parsed `{XML namespace}space` key: a root
      carrying only the latter still receives the default under the former, and keeps both. */
  lemma XmlSpaceIsLiteralKey(attrs: map<string, string>)
    requires "xml:space" !in attrs
    requires "{http://www.w3.org/XML/1998/namespace}space" in attrs
    ensures ApplyRootDefaults(attrs)["xml:space"] == "preserve"
    ensures ApplyRootDefaults(attrs)["{http://www.w3.org/XML/1998/namespace}space"]
         == attrs["{http://www.w3.org/XML/1998/namespace}space"]
  {
  }
}
