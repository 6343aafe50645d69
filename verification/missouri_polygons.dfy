/** The Missouri updater that reads the already simplified conservation polygons:
    each site takes ALL features whose `name` matches one of its search names, a
    single match verbatim and several merged into one MultiPolygon; sites without
    a file or without a match are listed as not found. */
module MissouriPolygons {
  import opened Wrappers
  import opened Text
  import opened GeoJson
  import opened Seqs
  import opened Sites
  import opened Merge

  const Source := "PADUS 3.0 Missouri Dataset (processed)"

  /** Every feature carries `properties`; the filter reads `feature.properties.name`
      of every feature unguarded, so it throws on any feature without them. */
  predicate HasProperties(features: seq<Feature>)
  {
    forall i :: 0 <= i < |features| ==> features[i].properties.Some?
  }

  /** `(feature.properties.name || '').toLowerCase()`. */
  function FeatureName(f: Feature): string
    requires f.properties.Some?
  {
    ToLower(Prop(f.properties.value, "name"))
  }

  /** Some lower-cased search name equals the feature name, is contained in it, or contains it. */
  predicate MatchesAny(f: Feature, searchNames: seq<string>)
  {
    f.properties.Some? &&
    exists i :: 0 <= i < |searchNames| &&
      var search := ToLower(searchNames[i]);
      FeatureName(f) == search || Includes(FeatureName(f), search) || Includes(search, FeatureName(f))
  }

  /** The equality test is subsumed: the filter is the shared two-way match on the raw name. */
  lemma MatchesAnyIff(f: Feature, searchNames: seq<string>)
    requires f.properties.Some?
    ensures MatchesAny(f, searchNames) <==>
      exists i :: 0 <= i < |searchNames| && TwoWayMatch(Prop(f.properties.value, "name"), searchNames[i])
  {
    var raw := Prop(f.properties.value, "name");
    ToLowerIdempotent(raw);
    forall i | 0 <= i < |searchNames| && FeatureName(f) == ToLower(searchNames[i])
      ensures TwoWayMatch(raw, searchNames[i])
    {
      IncludesTrivial(FeatureName(f));
    }
  }

  /** `data.features.filter(...)`: every matching feature, in file order. */
  function AllMatches(features: seq<Feature>, searchNames: seq<string>): (r: seq<Feature>)
    ensures forall f :: f in r <==> f in features && MatchesAny(f, searchNames)
    ensures IsSubsequence(r, features)
  {
    FilterIsSubsequence(features, f => MatchesAny(f, searchNames));
    Filter(features, f => MatchesAny(f, searchNames))
  }

  /** The new geometry: a single match verbatim, several merged. */
  function NewGeometry(matches: seq<Feature>): (r: Geometry)
    requires |matches| > 0
    ensures |matches| == 1 ==> r == matches[0].geometry
    ensures |matches| > 1 ==> r == MergeMissouri(Geometries(matches))
  {
    if |matches| == 1 then matches[0].geometry else MergeMissouri(Geometries(matches))
  }

  /** The store after the loop, the `updated` counter, the `notFound` list, and
      whether an unreadable site file stopped the script. */
  datatype Progress = Progress(store: Store, updated: nat, notFound: seq<SiteId>, crashed: bool)

  /** Site ids of the table whose file is missing or that no feature matches. */
  predicate NotFound(store: Store, features: seq<Feature>, e: (SiteId, seq<string>))
  {
    e.0 !in store || (HasProperties(features) && AllMatches(features, e.1) == [])
  }

  /** One site: a missing file lists it as not found; with a file, the filter
      stops the script when some feature lacks `properties`; no match lists it as
      not found; otherwise the record is stamped with `high` and the fixed source
      (no freeze check, `approximateArea` untouched) and counted, or the script
      stops on an unreadable file. */
  function UpdateSite(id: SiteId, searchNames: seq<string>, features: seq<Feature>, acc: Progress, today: string): (r: Progress)
    ensures r.store.Keys == acc.store.Keys
    ensures forall other :: other in acc.store && other != id ==> r.store[other] == acc.store[other]
    ensures NotFound(acc.store, features, (id, searchNames)) ==>
      r == acc.(notFound := acc.notFound + [id])
    ensures id in acc.store && !HasProperties(features) ==> r == acc.(crashed := true)
    ensures !NotFound(acc.store, features, (id, searchNames)) && acc.store[id].Corrupt? ==>
      r == acc.(crashed := true)
    ensures !NotFound(acc.store, features, (id, searchNames)) && HasProperties(features) && acc.store[id].Valid? ==>
      r == acc.(store := acc.store[id := Valid(Stamp(acc.store[id].rec, NewGeometry(AllMatches(features, searchNames)), High, Source, today, KeepApprox))],
                updated := acc.updated + 1)
  {
    if id !in acc.store then acc.(notFound := acc.notFound + [id])
    else if !HasProperties(features) then acc.(crashed := true)
    else
      var matches := AllMatches(features, searchNames);
      if matches == [] then acc.(notFound := acc.notFound + [id])
      else match acc.store[id]
        case Corrupt => acc.(crashed := true)
        case Valid(rec) =>
          acc.(store := acc.store[id := Valid(Stamp(rec, NewGeometry(matches), High, Source, today, KeepApprox))],
               updated := acc.updated + 1)
  }

  /** The loop over the table in order, stopping at the first crash. Every site
      that runs to completion is either updated or listed, so
      `updated + notFound.length` is the table size unless the script stopped. */
  function UpdateSites(sites: seq<(SiteId, seq<string>)>, features: seq<Feature>, acc: Progress, today: string): (r: Progress)
    requires !acc.crashed
    ensures r.store.Keys == acc.store.Keys
    ensures !r.crashed ==> r.updated + |r.notFound| == acc.updated + |acc.notFound| + |sites|
    ensures r.crashed ==> r.updated + |r.notFound| < acc.updated + |acc.notFound| + |sites|
    ensures acc.updated <= r.updated
    ensures forall x :: x in acc.notFound ==> x in r.notFound
    ensures forall id :: id in acc.store && KeyAbsent(sites, id) ==> r.store[id] == acc.store[id]
    ensures !HasProperties(features) ==>
      r.store == acc.store && r.updated == acc.updated && (r.crashed <==> exists i :: 0 <= i < |sites| && sites[i].0 in acc.store)
    decreases |sites|
  {
    if sites == [] then acc
    else
      var one := UpdateSite(sites[0].0, sites[0].1, features, acc, today);
      if one.crashed then one
      else
        KeyAbsentTailAll(sites);
        var r := UpdateSites(sites[1..], features, one, today);
        assert forall i :: 1 <= i < |sites| ==> sites[i] == sites[1..][i - 1];
        r
  }

  /** The whole run from an empty start. A feature without `properties` stops it,
      before any write, at the first site of the table that has a file. */
  function Run(sites: seq<(SiteId, seq<string>)>, features: seq<Feature>, store: Store, today: string): (r: Progress)
    ensures r.store.Keys == store.Keys
    ensures !r.crashed ==> r.updated + |r.notFound| == |sites|
    ensures r.updated <= |sites|
    ensures !HasProperties(features) ==>
      r.store == store && r.updated == 0 && (r.crashed <==> exists i :: 0 <= i < |sites| && sites[i].0 in store)
  {
    UpdateSites(sites, features, Progress(store, 0, [], false), today)
  }

  /** With `properties` on every feature and every table file readable the run
      completes, and each site of the table
      is either stamped with its new geometry or listed as not found and left as it was. */
  lemma {:induction false} UpdateSitesEffect(sites: seq<(SiteId, seq<string>)>, features: seq<Feature>, acc: Progress, today: string, k: nat)
    requires !acc.crashed && DistinctKeys(sites) && k < |sites| && HasProperties(features)
    requires forall i :: 0 <= i < |sites| && sites[i].0 in acc.store ==> acc.store[sites[i].0].Valid?
    ensures var r := UpdateSites(sites, features, acc, today);
      var (id, names) := sites[k];
      && !r.crashed
      && (!NotFound(acc.store, features, sites[k]) ==>
            r.store[id] == Valid(Stamp(acc.store[id].rec, NewGeometry(AllMatches(features, names)), High, Source, today, KeepApprox)))
      && (NotFound(acc.store, features, sites[k]) ==> id in r.notFound && (id in acc.store ==> r.store[id] == acc.store[id]))
    decreases |sites|
  {
    var one := UpdateSite(sites[0].0, sites[0].1, features, acc, today);
    DistinctKeysTail(sites);
    assert forall i :: 0 <= i < |sites[1..]| && sites[1..][i].0 in one.store ==> one.store[sites[1..][i].0].Valid? by {
      forall i | 0 <= i < |sites[1..]| && sites[1..][i].0 in one.store
        ensures one.store[sites[1..][i].0].Valid?
      {
        assert sites[1..][i] == sites[i + 1];
      }
    }
    if k == 0 {
      var r := UpdateSites(sites[1..], features, one, today);
      if |sites| > 1 {
        UpdateSitesEffect(sites[1..], features, one, today, 0);
      }
      if NotFound(acc.store, features, sites[0]) {
        assert sites[0].0 in one.notFound;
      }
    } else {
      assert sites[1..][k - 1] == sites[k];
      UpdateSitesEffect(sites[1..], features, one, today, k - 1);
      assert NotFound(acc.store, features, sites[k]) == NotFound(one.store, features, sites[k]);
    }
  }
}
