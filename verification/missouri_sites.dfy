/** The Missouri updater that reads reprojected PADUS features: each site of its
    table takes the geometry of the first feature whose `Unit_Nm` matches the
    site's name in either direction. */
module MissouriSites {
  import opened Wrappers
  import opened Text
  import opened GeoJson
  import opened Seqs
  import opened Sites

  const Source := "PADUS 3.0 Missouri Dataset"

  /** One entry of the site table. */
  datatype SiteCriteria = SiteCriteria(name: string, designation: string)

  /** Every feature of the reprojected file carries a `properties` object. */
  ghost predicate HasProperties(features: seq<Feature>)
  {
    forall i :: 0 <= i < |features| ==> features[i].properties.Some?
  }

  /** `(feature.properties.Unit_Nm || '').toLowerCase()`. */
  function UnitName(f: Feature): string
    requires f.properties.Some?
  {
    ToLower(Prop(f.properties.value, "Unit_Nm"))
  }

  /** The lower-cased unit name contains the lower-cased criteria name or is contained in it. */
  predicate Matches(f: Feature, c: SiteCriteria)
    requires f.properties.Some?
  {
    var criteriaName := ToLower(c.name);
    Includes(UnitName(f), criteriaName) || Includes(criteriaName, UnitName(f))
  }

  /** The outcome of `data.features.find(...)`: the first matching feature, none, or
      the `TypeError` thrown when the search reaches a feature without `properties`. */
  datatype Search = Match(feature: Feature) | NoMatch | Thrown

  /** The first `n` features carry `properties` and none of them matches. */
  ghost predicate PassedOver(features: seq<Feature>, c: SiteCriteria, n: nat)
  {
    forall j :: 0 <= j < n && j < |features| ==> features[j].properties.Some? && !Matches(features[j], c)
  }

  /** `data.features.find(...)`: the features are read in file order up to the
      first match; the features after it are never read. */
  function FindFeature(features: seq<Feature>, c: SiteCriteria): (r: Search)
    ensures r == NoMatch <==> PassedOver(features, c, |features|)
    ensures r.Match? ==> exists i :: (0 <= i < |features| && features[i] == r.feature
      && features[i].properties.Some? && Matches(features[i], c) && PassedOver(features, c, i))
    ensures r == Thrown ==> exists i :: (0 <= i < |features| && features[i].properties.None? && PassedOver(features, c, i))
  {
    if features == [] then NoMatch
    else if features[0].properties.None? then Thrown
    else if Matches(features[0], c) then
      assert PassedOver(features, c, 0);
      Match(features[0])
    else
      var r := FindFeature(features[1..], c);
      assert forall n: nat :: n <= |features[1..]| && PassedOver(features[1..], c, n) ==> PassedOver(features, c, n + 1) by {
        forall n: nat | n <= |features[1..]| && PassedOver(features[1..], c, n) ensures PassedOver(features, c, n + 1) {
          forall j | 0 <= j < n + 1 && j < |features| ensures features[j].properties.Some? && !Matches(features[j], c) {
            if j > 0 {
              assert features[j] == features[1..][j - 1];
            }
          }
        }
      }
      assert PassedOver(features, c, |features|) ==> PassedOver(features[1..], c, |features[1..]|) by {
        if PassedOver(features, c, |features|) {
          forall j | 0 <= j < |features[1..]| ensures features[1..][j].properties.Some? && !Matches(features[1..][j], c) {
            assert features[1..][j] == features[j + 1];
          }
        }
      }
      r
  }

  /** With `properties` on every feature the search never throws. */
  lemma FindFeatureNeverThrows(features: seq<Feature>, c: SiteCriteria)
    requires HasProperties(features)
    ensures FindFeature(features, c) != Thrown
  {
  }

  /** The search over `a + b` is the search over `a` unless that reads all of `a`
      without a match; in particular nothing after the first match is read. */
  lemma {:induction false} FindFeatureAppend(a: seq<Feature>, b: seq<Feature>, c: SiteCriteria)
    ensures FindFeature(a + b, c) == (if FindFeature(a, c) == NoMatch then FindFeature(b, c) else FindFeature(a, c))
  {
    if a == [] {
      assert a + b == b;
    } else {
      assert (a + b)[0] == a[0] && (a + b)[1..] == a[1..] + b;
      if a[0].properties.Some? && !Matches(a[0], c) {
        FindFeatureAppend(a[1..], b, c);
      }
    }
  }

  /** A feature without `Unit_Nm` has the name `''` and matches every site. */
  lemma MissingUnitNameMatchesAll(f: Feature, c: SiteCriteria)
    requires f.properties.Some? && "Unit_Nm" !in f.properties.value
    ensures Matches(f, c)
    ensures Matches(f, c) <==> TwoWayMatch(Prop(f.properties.value, "Unit_Nm"), c.name)
  {
    IncludesTrivial(ToLower(c.name));
    EmptyNameMatchesAll(c.name);
  }

  /** The store after the loop, the `updated` counter, and whether an uncaught
      exception stopped the script (`JSON.parse` and the search are not guarded). */
  datatype Progress = Progress(store: Store, updated: nat, crashed: bool)

  /** The sites whose file exists but cannot be parsed. */
  function CorruptIds(store: Store): set<SiteId>
  {
    set id | id in store && store[id].Corrupt?
  }

  /** The table entries, among the sites in `ids`, that the search matches. */
  function Hit(ids: set<SiteId>, features: seq<Feature>): ((SiteId, SiteCriteria)) -> bool
  {
    (e: (SiteId, SiteCriteria)) => e.0 in ids && FindFeature(features, e.1).Match?
  }

  /** The table entries that stop the script: the site has a file, and the search
      throws, or it matches and the file (one of `corrupt`) cannot be parsed. */
  function Fatal(keys: set<SiteId>, corrupt: set<SiteId>, features: seq<Feature>): ((SiteId, SiteCriteria)) -> bool
  {
    (e: (SiteId, SiteCriteria)) => e.0 in keys
      && (FindFeature(features, e.1) == Thrown || (FindFeature(features, e.1).Match? && e.0 in corrupt))
  }

  /** One site: without a file or without a match nothing happens and nothing is
      counted; otherwise the record is stamped (`high`, fixed source, no freeze
      check, `approximateArea` untouched) and counted, or the script stops, on a
      search that throws or an unreadable file. */
  function UpdateSite(id: SiteId, c: SiteCriteria, features: seq<Feature>, store: Store, today: string): (r: Progress)
    ensures r.store.Keys == store.Keys
    ensures CorruptIds(r.store) == CorruptIds(store)
    ensures forall other :: other in store && other != id ==> r.store[other] == store[other]
    ensures r.updated <= 1 && (r.crashed ==> r.updated == 0)
    ensures id !in store || FindFeature(features, c) == NoMatch ==> r == Progress(store, 0, false)
    ensures r.crashed <==> Fatal(store.Keys, CorruptIds(store), features)((id, c))
    ensures !r.crashed ==> (r.updated == 1 <==> Hit(store.Keys, features)((id, c)))
    ensures id in store && store[id].Valid? && FindFeature(features, c).Match? ==>
      r.store[id] == Valid(Stamp(store[id].rec, FindFeature(features, c).feature.geometry, High, Source, today, KeepApprox))
  {
    if id !in store then Progress(store, 0, false)
    else match FindFeature(features, c)
      case NoMatch => Progress(store, 0, false)
      case Thrown => Progress(store, 0, true)
      case Match(m) =>
        match store[id]
        case Corrupt => Progress(store, 0, true)
        case Valid(rec) =>
          var r := Progress(store[id := Valid(Stamp(rec, m.geometry, High, Source, today, KeepApprox))], 1, false);
          assert CorruptIds(r.store) == CorruptIds(store);
          r
  }

  /** The loop over the table in order; it stops at the first crash. It crashes
      exactly when some entry of the table is fatal, and a run that completes
      counts exactly the entries with a file and a match. */
  function UpdateSites(sites: seq<(SiteId, SiteCriteria)>, features: seq<Feature>, store: Store, today: string): (r: Progress)
    ensures r.store.Keys == store.Keys
    ensures CorruptIds(r.store) == CorruptIds(store)
    ensures r.updated <= |sites|
    ensures forall id :: id in store && KeyAbsent(sites, id) ==> r.store[id] == store[id]
    ensures r.crashed <==> Filter(sites, Fatal(store.Keys, CorruptIds(store), features)) != []
    ensures !r.crashed ==> r.updated == |Filter(sites, Hit(store.Keys, features))|
    decreases |sites|
  {
    if sites == [] then Progress(store, 0, false)
    else
      var one := UpdateSite(sites[0].0, sites[0].1, features, store, today);
      assert sites == [sites[0]] + sites[1..];
      FilterCons(sites[0], sites[1..], Fatal(store.Keys, CorruptIds(store), features));
      FilterCons(sites[0], sites[1..], Hit(store.Keys, features));
      if one.crashed then one
      else
        var rest := UpdateSites(sites[1..], features, one.store, today);
        KeyAbsentTailAll(sites);
        Progress(rest.store, one.updated + rest.updated, rest.crashed)
  }

  /** Site ids of the table whose file is missing or has no matching feature. */
  predicate Unmatched(store: Store, features: seq<Feature>, e: (SiteId, SiteCriteria))
  {
    e.0 !in store || FindFeature(features, e.1) == NoMatch
  }

  /** With `properties` on every feature and every table file readable, the run
      does not stop, and each site with a file and a match holds the stamped
      geometry of its first matching feature. */
  lemma {:induction false} UpdateSitesEffect(sites: seq<(SiteId, SiteCriteria)>, features: seq<Feature>, store: Store, today: string, k: nat)
    requires HasProperties(features) && DistinctKeys(sites) && k < |sites|
    requires forall i :: 0 <= i < |sites| && sites[i].0 in store ==> store[sites[i].0].Valid?
    ensures var r := UpdateSites(sites, features, store, today);
      var (id, c) := sites[k];
      && !r.crashed
      && (id in store && FindFeature(features, c).Match? ==>
            r.store[id] == Valid(Stamp(store[id].rec, FindFeature(features, c).feature.geometry, High, Source, today, KeepApprox)))
      && (Unmatched(store, features, sites[k]) ==> id !in store || r.store[id] == store[id])
    decreases |sites|
  {
    UpdateSitesNoCrash(sites, features, store, today);
    var id := sites[k].0;
    var one := UpdateSite(sites[0].0, sites[0].1, features, store, today);
    FindFeatureNeverThrows(features, sites[0].1);
    var rest := UpdateSites(sites[1..], features, one.store, today);
    assert UpdateSites(sites, features, store, today).store == rest.store;
    DistinctKeysTail(sites);
    if k > 0 {
      assert sites[1..][k - 1] == sites[k];
      ReadableTail(sites, store, one.store);
      UpdateSitesEffect(sites[1..], features, one.store, today, k - 1);
    }
  }

  /** With `properties` on every feature and every table file readable, no entry
      of the table is fatal, so the run does not stop. */
  lemma UpdateSitesNoCrash(sites: seq<(SiteId, SiteCriteria)>, features: seq<Feature>, store: Store, today: string)
    requires HasProperties(features)
    requires forall i :: 0 <= i < |sites| && sites[i].0 in store ==> store[sites[i].0].Valid?
    ensures !UpdateSites(sites, features, store, today).crashed
  {
    var fatal := Fatal(store.Keys, CorruptIds(store), features);
    forall i | 0 <= i < |sites| ensures !fatal(sites[i]) {
      FindFeatureNeverThrows(features, sites[i].1);
    }
    FilterNone(sites, fatal);
  }

  /** After the first site, the files of the rest of the table are still readable. */
  lemma ReadableTail(sites: seq<(SiteId, SiteCriteria)>, store: Store, after: Store)
    requires sites != [] && KeyAbsent(sites[1..], sites[0].0)
    requires forall i :: 0 <= i < |sites| && sites[i].0 in store ==> store[sites[i].0].Valid?
    requires after.Keys == store.Keys
    requires forall other :: other in store && other != sites[0].0 ==> after[other] == store[other]
    ensures forall i :: 0 <= i < |sites[1..]| && sites[1..][i].0 in after ==> after[sites[1..][i].0].Valid?
  {
    forall i | 0 <= i < |sites[1..]| && sites[1..][i].0 in after
      ensures after[sites[1..][i].0].Valid?
    {
      assert sites[1..][i] == sites[i + 1];
    }
  }
}
