/** The Missouri conservation-polygon generator: PADUS features are classified by
    designation type and unit name, filtered by acreage, projected onto a small
    property set, sorted largest first and simplified. */
module MoConservation {
  import opened Wrappers
  import opened Text
  import opened GeoJson
  import opened Seqs
  import opened Cli
  import Simplifier

  /** Designation types that make a unit a conservation area. */
  const ConservationTypes: seq<string> := [
    "State Conservation Area", "Wilderness Area", "National Monument",
    "Research or Educational Area", "Wild and Scenic River", "Conservation Easement",
    "Wetlands Reserve Program", "Agricultural Easement", "Historic or Cultural Easement",
    "Approved or Proclamation Boundary", "National Forest", "Wildlife Refuge",
    "National Wildlife Refuge", "Scenic Riverway"]

  /** Lower-case words in a unit name that make it a conservation area. */
  const ConservationKeywords: seq<string> := [
    "wildlife", "wilderness", "conservation", "national forest", "nature", "preserve",
    "sanctuary", "refuge", "scenic river", "easement", "wetlands reserve"]

  /** Designation types that are never conservation areas (recreation, military, ...). */
  const ExcludedTypes: seq<string> := [
    "State Recreation Area", "Recreation Management Area", "Local Recreation Area",
    "Local Park", "State Historic or Cultural Area", "Private Recreation or Education",
    "Military Land", "Other Easement", "Recreation or Education Easement"]

  /** Lower-case words in a unit name that exclude it. */
  const ExcludedKeywords: seq<string> := [
    "lake", "recreation", "park", "military", "fort ", "experimental forest"]

  /** One PADUS feature: its string properties, the numeric `GIS_Acres` (None when
      absent) and its geometry. */
  datatype PadusFeature = PadusFeature(props: PropertyBag, gisAcres: Option<real>, geometry: Geometry)

  /** `keywords.some(k => s.includes(k))`. */
  predicate ContainsAny(s: string, keywords: seq<string>)
  {
    exists i :: 0 <= i < |keywords| && Includes(s, keywords[i])
  }

  /** The lower-cased unit name, `(props.Unit_Nm || '').toLowerCase()`. */
  function UnitName(props: PropertyBag): string
  {
    ToLower(Prop(props, "Unit_Nm"))
  }

  /** `isConservationArea(feature)`: the two exclusions are checked first, then the
      type list (exact and case-sensitive), then the keywords in the unit name. */
  function IsConservationArea(props: PropertyBag): (r: bool)
    ensures Prop(props, "d_Des_Tp") in ExcludedTypes ==> !r
    ensures ContainsAny(UnitName(props), ExcludedKeywords) ==> !r
    ensures r <==> && Prop(props, "d_Des_Tp") !in ExcludedTypes
                   && !ContainsAny(UnitName(props), ExcludedKeywords)
                   && (Prop(props, "d_Des_Tp") in ConservationTypes
                       || ContainsAny(UnitName(props), ConservationKeywords))
  {
    var desType := Prop(props, "d_Des_Tp");
    var unitName := UnitName(props);
    if desType in ExcludedTypes then false
    else if ContainsAny(unitName, ExcludedKeywords) then false
    else if desType in ConservationTypes then true
    else ContainsAny(unitName, ConservationKeywords)
  }

  /** A unit named after a lake is excluded even when its type is a conservation type. */
  lemma LakeConservationAreaExcluded()
    ensures !IsConservationArea(map["d_Des_Tp" := "State Conservation Area", "Unit_Nm" := "Lake Area"])
  {
    var props := map["d_Des_Tp" := "State Conservation Area", "Unit_Nm" := "Lake Area"];
    assert UnitName(props) == "lake area";
    assert IsPrefix("lake", "lake area");
    assert Includes(UnitName(props), ExcludedKeywords[0]);
  }

  /** A conservation type with no unit name is included: the empty name holds no keyword. */
  lemma NamelessConservationTypeIncluded(t: string)
    requires t in ConservationTypes
    ensures IsConservationArea(map["d_Des_Tp" := t])
  {
    var props := map["d_Des_Tp" := t];
    assert UnitName(props) == "";
    forall i | 0 <= i < |ExcludedKeywords|
      ensures !Includes("", ExcludedKeywords[i])
    {
    }
  }

  /** `feature.properties.GIS_Acres || 0`. */
  function Acres(f: PadusFeature): real
  {
    f.gisAcres.GetOr(0.0)
  }

  /** The selection test: at least `minAcres` acres and a conservation area. */
  predicate Selected(f: PadusFeature, minAcres: real)
  {
    Acres(f) >= minAcres && IsConservationArea(f.props)
  }

  /** The projected output feature. */
  datatype ConservationArea = ConservationArea(
    name: string, designation: string, owner: string, manager: string, acres: int,
    state: string, access: string, gapStatus: string, category: string, geometry: Geometry)

  /** `props.k1 || props.k2 || ... || fallback`. */
  function PropOr(props: PropertyBag, keys: seq<string>, fallback: string): (r: string)
    ensures r == fallback || (r != "" && exists i :: 0 <= i < |keys| && r == Prop(props, keys[i]))
    ensures keys != [] && Prop(props, keys[0]) != "" ==> r == Prop(props, keys[0])
    ensures (forall i :: 0 <= i < |keys| ==> Prop(props, keys[i]) == "") ==> r == fallback
  {
    if keys == [] then fallback
    else if Prop(props, keys[0]) != "" then Prop(props, keys[0])
    else PropOr(props, keys[1..], fallback)
  }

  /** `Math.round(x)`: the nearest integer, halves rounded up. */
  function Round(x: real): (r: int)
    ensures x - 0.5 < r as real <= x + 0.5
  {
    (x + 0.5).Floor
  }

  /** The output properties of one selected feature. */
  function Project(f: PadusFeature): (r: ConservationArea)
    ensures Prop(f.props, "Unit_Nm") != "" ==> r.name == Prop(f.props, "Unit_Nm")
    ensures Prop(f.props, "Unit_Nm") == "" && Prop(f.props, "Loc_Nm") != "" ==> r.name == Prop(f.props, "Loc_Nm")
    ensures Prop(f.props, "Unit_Nm") == "" && Prop(f.props, "Loc_Nm") == "" ==> r.name == "Unknown"
    ensures Prop(f.props, "State_Nm") == "" ==> r.state == "MO"
    ensures Acres(f) - 0.5 < r.acres as real <= Acres(f) + 0.5
    ensures r.geometry == f.geometry
  {
    var p := f.props;
    var names := ["Unit_Nm", "Loc_Nm"];
    assert PropOr(p, names, "Unknown") == PropOr(p, names[1..], "Unknown") || Prop(p, names[0]) != "";
    ConservationArea(
      PropOr(p, names, "Unknown"),
      PropOr(p, ["d_Des_Tp", "FeatClass"], "Unknown"),
      PropOr(p, ["d_Own_Name"], "Unknown"),
      PropOr(p, ["d_Mang_Nam"], "Unknown"),
      Round(Acres(f)),
      PropOr(p, ["State_Nm"], "MO"),
      PropOr(p, ["d_Pub_Acce"], "Unknown"),
      PropOr(p, ["d_GAP_Sts"], "Unknown"),
      PropOr(p, ["d_Category", "Category"], "Unknown"),
      f.geometry)
  }

  /** The selection test as a function value, for `Filter`. */
  function SelectedBy(minAcres: real): PadusFeature -> bool
  {
    f => Selected(f, minAcres)
  }

  /** The features of one run that pass the selection, projected, in input order:
      the list `allFeatures` before sorting. */
  function Select(features: seq<PadusFeature>, minAcres: real): (r: seq<ConservationArea>)
    ensures |r| == |Filter(features, SelectedBy(minAcres))| <= |features|
    ensures forall i :: 0 <= i < |r| ==> r[i] == Project(Filter(features, SelectedBy(minAcres))[i])
    ensures minAcres >= 0.0 ==> forall i :: 0 <= i < |r| ==> r[i].acres >= 0
  {
    var kept := Filter(features, SelectedBy(minAcres));
    assert forall i :: 0 <= i < |kept| ==> Acres(kept[i]) >= minAcres by {
      forall i | 0 <= i < |kept| ensures Acres(kept[i]) >= minAcres {
        assert kept[i] in kept;
      }
    }
    seq(|kept|, i requires 0 <= i < |kept| => Project(kept[i]))
  }

  /** A feature contributes an output entry exactly when it passes the selection. */
  lemma SelectMembership(features: seq<PadusFeature>, minAcres: real, f: PadusFeature)
    requires f in features
    ensures Selected(f, minAcres) ==> Project(f) in Select(features, minAcres)
  {
    var kept := Filter(features, SelectedBy(minAcres));
    if Selected(f, minAcres) {
      var j :| 0 <= j < |features| && features[j] == f;
      assert f in kept;
      var i :| 0 <= i < |kept| && kept[i] == f;
      assert Select(features, minAcres)[i] == Project(f);
    }
  }

  /** Every output entry comes from a selected input feature. */
  lemma SelectSound(features: seq<PadusFeature>, minAcres: real, i: nat)
    requires i < |Select(features, minAcres)|
    ensures exists f :: f in features && Selected(f, minAcres) && Select(features, minAcres)[i] == Project(f)
  {
    var kept := Filter(features, SelectedBy(minAcres));
    assert kept[i] in kept;
  }

  function AcresKey(a: ConservationArea): int
  {
    a.acres
  }

  /** `r` is `areas` with every geometry simplified and everything else unchanged. */
  predicate SimplifiedCopy(r: seq<ConservationArea>, areas: seq<ConservationArea>, tol: real)
  {
    && tol >= 0.0
    && |r| == |areas|
    && forall i :: 0 <= i < |r| ==> (!areas[i].geometry.MultiPolygonWithNulls?
      && r[i] == areas[i].(geometry := Simplifier.SimplifyGeometry(areas[i].geometry, tol)))
  }

  /** `allFeatures.map(f => ({...f, geometry: simplifyGeometry(f.geometry, tolerance)}))`. */
  function SimplifyAreas(areas: seq<ConservationArea>, tol: real): (r: seq<ConservationArea>)
    requires tol >= 0.0
    requires forall i :: 0 <= i < |areas| ==> !areas[i].geometry.MultiPolygonWithNulls?
    ensures SimplifiedCopy(r, areas, tol)
    ensures forall i :: 0 <= i < |r| ==> r[i].acres == areas[i].acres && r[i].name == areas[i].name
  {
    seq(|areas|, i requires 0 <= i < |areas| => areas[i].(geometry := Simplifier.SimplifyGeometry(areas[i].geometry, tol)))
  }

  /** Selected entries carry the geometry of an input feature, so none holds a `null` polygon. */
  lemma SelectNoNulls(features: seq<PadusFeature>, minAcres: real)
    requires forall f :: f in features ==> !f.geometry.MultiPolygonWithNulls?
    ensures forall a :: a in Select(features, minAcres) ==> !a.geometry.MultiPolygonWithNulls?
  {
    var selected := Select(features, minAcres);
    forall a | a in selected ensures !a.geometry.MultiPolygonWithNulls? {
      var i :| 0 <= i < |selected| && selected[i] == a;
      SelectSound(features, minAcres, i);
    }
  }

  /** `sorted` is `areas` in a stable largest-first order: a permutation, sorted by
      acreage, in which the areas of any one acreage keep their order. Exactly one
      sequence is such an order. */
  ghost predicate StableOrder(sorted: seq<ConservationArea>, areas: seq<ConservationArea>)
  {
    && multiset(sorted) == multiset(areas)
    && SortedDesc(sorted, AcresKey)
    && forall v :: WithKey(sorted, AcresKey, v) == WithKey(areas, AcresKey, v)
  }

  /** `SortDesc` produces the stable largest-first order. */
  lemma SortDescIsStableOrder(areas: seq<ConservationArea>)
    ensures StableOrder(SortDesc(areas, AcresKey), areas)
  {
    forall v ensures WithKey(SortDesc(areas, AcresKey), AcresKey, v) == WithKey(areas, AcresKey, v) {
      SortDescStable(areas, AcresKey, v);
    }
  }

  /** Sort largest first, then simplify every geometry: the output is a simplified
      copy of the stable largest-first order of the input. */
  function SortAndSimplify(selected: seq<ConservationArea>, tol: real): (r: seq<ConservationArea>)
    requires tol >= 0.0
    requires forall a :: a in selected ==> !a.geometry.MultiPolygonWithNulls?
    ensures |r| == |selected|
    ensures forall i, j :: 0 <= i < j < |r| ==> r[i].acres >= r[j].acres
    ensures exists sorted: seq<ConservationArea> :: StableOrder(sorted, selected) && SimplifiedCopy(r, sorted, tol)
  {
    var sorted := SortDesc(selected, AcresKey);
    SortDescIsStableOrder(selected);
    assert forall i :: 0 <= i < |sorted| ==> !sorted[i].geometry.MultiPolygonWithNulls? by {
      forall i | 0 <= i < |sorted| ensures !sorted[i].geometry.MultiPolygonWithNulls? {
        assert sorted[i] in multiset(selected);
      }
    }
    var r := SimplifyAreas(sorted, tol);
    assert forall i, j :: 0 <= i < j < |r| ==> r[i].acres >= r[j].acres by {
      forall i, j | 0 <= i < j < |r| ensures r[i].acres >= r[j].acres {
        assert AcresKey(sorted[i]) >= AcresKey(sorted[j]);
      }
    }
    assert StableOrder(sorted, selected) && SimplifiedCopy(r, sorted, tol);
    r
  }

  /** The whole run: the three converted files read in order, selected, sorted
      largest first and simplified. The input files are assumed to hold no `null`
      polygon (the simplifier would throw on one). */
  function CreatePolygons(files: seq<seq<PadusFeature>>, minAcres: real, tol: real): (r: seq<ConservationArea>)
    requires tol >= 0.0
    requires forall f :: f in Flatten(files) ==> !f.geometry.MultiPolygonWithNulls?
    ensures |r| == |Filter(Flatten(files), SelectedBy(minAcres))|
    ensures forall i, j :: 0 <= i < j < |r| ==> r[i].acres >= r[j].acres
    ensures exists sorted: seq<ConservationArea> ::
      StableOrder(sorted, Select(Flatten(files), minAcres)) && SimplifiedCopy(r, sorted, tol)
  {
    SelectNoNulls(Flatten(files), minAcres);
    SortAndSimplify(Select(Flatten(files), minAcres), tol)
  }

  /** Simplifying a non-empty list simplifies its head and then its tail. */
  lemma SimplifyAreasCons(areas: seq<ConservationArea>, tol: real)
    requires tol >= 0.0 && |areas| > 0
    requires forall i :: 0 <= i < |areas| ==> !areas[i].geometry.MultiPolygonWithNulls?
    ensures SimplifyAreas(areas, tol) == SimplifyAreas([areas[0]], tol) + SimplifyAreas(areas[1..], tol)
  {
  }

  /** Simplifying keeps acreages, so it commutes with picking one acreage. */
  lemma {:induction false} WithKeySimplify(areas: seq<ConservationArea>, tol: real, v: int)
    requires tol >= 0.0
    requires forall i :: 0 <= i < |areas| ==> !areas[i].geometry.MultiPolygonWithNulls?
    ensures forall a :: a in WithKey(areas, AcresKey, v) ==> !a.geometry.MultiPolygonWithNulls?
    ensures WithKey(SimplifyAreas(areas, tol), AcresKey, v) == SimplifyAreas(WithKey(areas, AcresKey, v), tol)
  {
    WithKeySubset(areas, AcresKey, v);
    if areas != [] {
      var x, xs := areas[0], areas[1..];
      HeadTail(areas);
      var sx := SimplifyAreas([x], tol);
      assert sx == [sx[0]] && AcresKey(sx[0]) == AcresKey(x);
      var tail := SimplifyAreas(xs, tol);
      var w := WithKey(xs, AcresKey, v);
      WithKeySimplify(xs, tol, v);
      SimplifyAreasCons(areas, tol);
      WithKeyCons(sx[0], tail, AcresKey, v);
      WithKeyCons(x, xs, AcresKey, v);
      if AcresKey(x) == v {
        WithKeyConsSimplify(x, w, tol);
        calc {
          WithKey(SimplifyAreas(areas, tol), AcresKey, v);
          WithKey([sx[0]] + tail, AcresKey, v);
          sx + WithKey(tail, AcresKey, v);
          sx + SimplifyAreas(w, tol);
          SimplifyAreas([x] + w, tol);
          SimplifyAreas(WithKey(areas, AcresKey, v), tol);
        }
      } else {
        assert [] + WithKey(tail, AcresKey, v) == WithKey(tail, AcresKey, v);
        assert [] + w == w;
      }
    }
  }

  /** Simplifying `[x] + w` simplifies `x` and then `w`. */
  lemma WithKeyConsSimplify(x: ConservationArea, w: seq<ConservationArea>, tol: real)
    requires tol >= 0.0 && !x.geometry.MultiPolygonWithNulls?
    requires forall a :: a in w ==> !a.geometry.MultiPolygonWithNulls?
    ensures forall i :: 0 <= i < |[x] + w| ==> !([x] + w)[i].geometry.MultiPolygonWithNulls?
    ensures SimplifyAreas([x] + w, tol) == SimplifyAreas([x], tol) + SimplifyAreas(w, tol)
  {
    assert forall i :: 0 <= i < |[x] + w| ==> ([x] + w)[i] == x || ([x] + w)[i] in w;
    SimplifyAreasCons([x] + w, tol);
    ConsTail(x, w);
  }

  /** In the output, the areas of any one acreage are the selected areas of that
      acreage, simplified, in the order in which the files listed them. */
  lemma CreatePolygonsStable(files: seq<seq<PadusFeature>>, minAcres: real, tol: real, v: int)
    requires tol >= 0.0
    requires forall f :: f in Flatten(files) ==> !f.geometry.MultiPolygonWithNulls?
    ensures forall a :: a in WithKey(Select(Flatten(files), minAcres), AcresKey, v) ==> !a.geometry.MultiPolygonWithNulls?
    ensures WithKey(CreatePolygons(files, minAcres, tol), AcresKey, v)
         == SimplifyAreas(WithKey(Select(Flatten(files), minAcres), AcresKey, v), tol)
  {
    var selected := Select(Flatten(files), minAcres);
    SelectNoNulls(Flatten(files), minAcres);
    WithKeySubset(selected, AcresKey, v);
    var sorted := SortDesc(selected, AcresKey);
    assert forall i :: 0 <= i < |sorted| ==> !sorted[i].geometry.MultiPolygonWithNulls? by {
      forall i | 0 <= i < |sorted| ensures !sorted[i].geometry.MultiPolygonWithNulls? {
        assert sorted[i] in multiset(selected);
      }
    }
    WithKeySimplify(sorted, tol, v);
    SortDescStable(selected, AcresKey, v);
  }

  /** The command line `[min-acres] [tolerance]`: the minimum acreage defaults to 100
      (`parseInt`), the tolerance to 0.001 (`parseFloat`); NaN or a negative
      minimum, and NaN or a non-positive tolerance, are rejected. */
  function ParseArgs(args: seq<string>, parseInt: string -> Number, parseFloat: string -> Number): (r: Result<(real, real)>)
    ensures r.Success? ==> r.value.0 >= 0.0 && r.value.1 > 0.0
    ensures |args| == 0 ==> r == Success((100.0, 0.001))
    ensures r.Success? <==> (&& ParsedOr(Arg(args, 0), parseInt, 100.0).Num?
                            && ParsedOr(Arg(args, 0), parseInt, 100.0).v >= 0.0
                            && ParsedOr(Arg(args, 1), parseFloat, 0.001).Num?
                            && ParsedOr(Arg(args, 1), parseFloat, 0.001).v > 0.0)
    ensures r.Success? && |args| >= 1 && args[0] != "" ==> r.value.0 == parseInt(args[0]).v
    ensures r.Success? && (|args| == 0 || args[0] == "") ==> r.value.0 == 100.0
    ensures r.Success? && |args| >= 2 && args[1] != "" ==> r.value.1 == parseFloat(args[1]).v
    ensures r.Success? && (|args| <= 1 || args[1] == "") ==> r.value.1 == 0.001
  {
    var minAcres := ParsedOr(Arg(args, 0), parseInt, 100.0);
    var tolerance := ParsedOr(Arg(args, 1), parseFloat, 0.001);
    if minAcres.NaN? || minAcres.v < 0.0 then Failure("Invalid minimum acres value")
    else if tolerance.NaN? || tolerance.v <= 0.0 then Failure("Invalid tolerance value")
    else Success((minAcres.v, tolerance.v))
  }
}
