/** Boundary extraction from a downloaded FeatureCollection: the first feature whose
    name matches the site name in either direction supplies the geometry. */
module FetchReal {
  import opened Wrappers
  import opened Text
  import opened GeoJson
  import opened Seqs

  /** The property keys probed for a feature's name, in priority order. */
  const NameKeys: seq<string> := ["name", "NAME", "UNIT_NAME", "Unit_Nm", "FORESTNAME", "Forest_Name", "ORGNAME", "Org_Name"]

  /** The name as found, before lower-casing: the first non-empty key, else `''`.
      Missing `properties` read as `{}`. */
  function RawName(f: Feature): string
  {
    FirstNonEmpty(f.properties.GetOr(map[]), NameKeys)
  }

  /** The lower-cased feature name contains the lower-cased site name, or is contained in it. */
  predicate NameMatches(f: Feature, siteName: string)
  {
    var featureName := ToLower(RawName(f));
    var site := ToLower(siteName);
    Includes(featureName, site) || Includes(site, featureName)
  }

  /** `extractBoundary(geojsonData, siteName)`: the geometry of the first matching
      feature in file order; None (`null`) when nothing matches, and in particular
      when `features` is absent. */
  function ExtractBoundary(features: Option<seq<Feature>>, siteName: string): (r: Option<Geometry>)
    ensures var fs := features.GetOr([]);
      r.None? <==> forall i :: 0 <= i < |fs| ==> !NameMatches(fs[i], siteName)
    ensures features.None? ==> r.None?
    ensures var fs := features.GetOr([]);
      r.Some? ==> exists i :: (0 <= i < |fs| && r.value == fs[i].geometry && NameMatches(fs[i], siteName)
        && forall j :: 0 <= j < i ==> !NameMatches(fs[j], siteName))
  {
    var fs := features.GetOr([]);
    match Find(fs, f => NameMatches(f, siteName))
    case None => None
    case Some(f) => Some(f.geometry)
  }

  /** The match is the shared case-insensitive two-way containment test on the raw name. */
  lemma NameMatchesIff(f: Feature, siteName: string)
    ensures NameMatches(f, siteName) <==> TwoWayMatch(RawName(f), siteName)
  {
    ToLowerIdempotent(RawName(f));
  }

  /** A feature with none of the name keys, or with no `properties` at all, has the
      name `''` and so matches every site name; a leading nameless feature wins. */
  lemma NamelessFeatureWins(f: Feature, rest: seq<Feature>, siteName: string)
    requires f.properties.None? || forall i :: 0 <= i < |NameKeys| ==> Prop(f.properties.value, NameKeys[i]) == ""
    ensures NameMatches(f, siteName)
    ensures ExtractBoundary(Some([f] + rest), siteName) == Some(f.geometry)
  {
    assert RawName(f) == "";
    IncludesTrivial(ToLower(siteName));
    var fs := [f] + rest;
    assert fs[0] == f;
  }
}
