/** Combining the geometries of several matched features into one MultiPolygon,
    in the two variants the update scripts use. The merged coordinate list is
    built slot by slot; a slot is `None` where the script leaves `undefined`. */
module Merge {
  import opened Wrappers
  import opened GeoJson
  import opened Seqs

  /** The geometries of the matched features, in match order (`matches.map(m => m.geometry)`). */
  function Geometries(fs: seq<Feature>): (r: seq<Geometry>)
    ensures |r| == |fs| && forall i :: 0 <= i < |fs| ==> r[i] == fs[i].geometry
  {
    seq(|fs|, i requires 0 <= i < |fs| => fs[i].geometry)
  }

  /** A MultiPolygon with these coordinate slots: a plain MultiPolygon when no slot
      is empty, otherwise the variant that carries `null` entries. */
  function MultiPolygonOf(slots: seq<Option<PolygonCoords>>): (r: Geometry)
    ensures (forall i :: 0 <= i < |slots| ==> slots[i].Some?) ==>
      r.MultiPolygon? && |r.polygons| == |slots| && forall i :: 0 <= i < |slots| ==> r.polygons[i] == slots[i].value
    ensures (exists i :: 0 <= i < |slots| && slots[i].None?) ==> r == MultiPolygonWithNulls(slots)
  {
    if forall i :: 0 <= i < |slots| ==> slots[i].Some? then
      MultiPolygon(seq(|slots|, i requires 0 <= i < |slots| => slots[i].value))
    else
      MultiPolygonWithNulls(slots)
  }

  /** The coordinate slots of a geometry's own `coordinates`, where the geometry is a
      Polygon or has the type `MultiPolygon`. */
  function PolygonSlots(ps: seq<PolygonCoords>): (r: seq<Option<PolygonCoords>>)
    ensures |r| == |ps| && forall i :: 0 <= i < |ps| ==> r[i] == Some(ps[i])
  {
    seq(|ps|, i requires 0 <= i < |ps| => Some(ps[i]))
  }

  /** What one geometry pushes in the Missouri merge: a Polygon pushes its
      coordinates, a MultiPolygon spreads its list, any other type pushes nothing. */
  function MissouriPart(g: Geometry): seq<Option<PolygonCoords>>
  {
    match g
    case Polygon(rings) => [Some(rings)]
    case MultiPolygon(ps) => PolygonSlots(ps)
    case MultiPolygonWithNulls(slots) => slots
    case Point(_) => []
    case OtherGeometry(_) => []
  }

  /** What one geometry yields in the national-park merge before `.flat()`: a
      Polygon is wrapped as `[coordinates]`, a MultiPolygon gives its list, and any
      other type gives `undefined`, which `.flat()` keeps as one entry. */
  function ParkPart(g: Geometry): seq<Option<PolygonCoords>>
  {
    match g
    case Polygon(rings) => [Some(rings)]
    case MultiPolygon(ps) => PolygonSlots(ps)
    case MultiPolygonWithNulls(slots) => slots
    case Point(_) => [None]
    case OtherGeometry(_) => [None]
  }

  /** The number of polygons a geometry contributes to the Missouri merge. */
  function MissouriCount(g: Geometry): nat
  {
    match g
    case Polygon(_) => 1
    case MultiPolygon(ps) => |ps|
    case MultiPolygonWithNulls(slots) => |slots|
    case Point(_) => 0
    case OtherGeometry(_) => 0
  }

  /** The coordinate list `allCoords` of the Missouri merge, in match order. */
  function MissouriSlots(gs: seq<Geometry>): (r: seq<Option<PolygonCoords>>)
    ensures |r| == SumNat(seq(|gs|, i requires 0 <= i < |gs| => MissouriCount(gs[i])))
  {
    if gs == [] then []
    else
      var counts := seq(|gs|, i requires 0 <= i < |gs| => MissouriCount(gs[i]));
      assert counts[1..] == seq(|gs[1..]|, i requires 0 <= i < |gs[1..]| => MissouriCount(gs[1..][i]));
      MissouriPart(gs[0]) + MissouriSlots(gs[1..])
  }

  /** A geometry whose `type` is Polygon or MultiPolygon. */
  predicate HasPolygons(g: Geometry)
  {
    g.Polygon? || g.MultiPolygon? || g.MultiPolygonWithNulls?
  }

  /** The merged Missouri geometry. */
  function MergeMissouri(gs: seq<Geometry>): (r: Geometry)
    ensures r.MultiPolygon? || r.MultiPolygonWithNulls?
  {
    MultiPolygonOf(MissouriSlots(gs))
  }

  /** The Missouri merge is the concatenation, in match order, of what each
      geometry contributes. */
  lemma {:induction false} MissouriSlotsFlatten(gs: seq<Geometry>)
    ensures MissouriSlots(gs) == Flatten(seq(|gs|, i requires 0 <= i < |gs| => MissouriPart(gs[i])))
  {
    if gs != [] {
      MissouriSlotsFlatten(gs[1..]);
      var parts := seq(|gs|, i requires 0 <= i < |gs| => MissouriPart(gs[i]));
      assert parts[1..] == seq(|gs[1..]|, i requires 0 <= i < |gs[1..]| => MissouriPart(gs[1..][i]));
    }
  }

  /** Matched geometries that are neither Polygon nor MultiPolygon contribute nothing:
      dropping them does not change the merge. */
  lemma {:induction false} MissouriIgnoresOtherTypes(gs: seq<Geometry>)
    ensures MissouriSlots(gs) == MissouriSlots(Filter(gs, HasPolygons))
  {
    if gs != [] {
      MissouriIgnoresOtherTypes(gs[1..]);
      if HasPolygons(gs[0]) {
        assert Filter(gs, HasPolygons) == [gs[0]] + Filter(gs[1..], HasPolygons);
        assert ([gs[0]] + Filter(gs[1..], HasPolygons))[1..] == Filter(gs[1..], HasPolygons);
      } else {
        assert Filter(gs, HasPolygons) == Filter(gs[1..], HasPolygons);
        assert MissouriPart(gs[0]) == [];
      }
    }
  }

  /** Merging Polygons and MultiPolygons gives a plain MultiPolygon with
      #Polygon + sum of the MultiPolygon lengths polygons. */
  lemma {:induction false} MissouriMergeOfPolygons(gs: seq<Geometry>)
    requires forall i :: 0 <= i < |gs| ==> gs[i].IsPolygonal()
    ensures MergeMissouri(gs).MultiPolygon?
    ensures |MergeMissouri(gs).polygons| == SumNat(seq(|gs|, i requires 0 <= i < |gs| => MissouriCount(gs[i])))
  {
    NoNullSlots(gs);
  }

  lemma {:induction false} NoNullSlots(gs: seq<Geometry>)
    requires forall i :: 0 <= i < |gs| ==> gs[i].IsPolygonal()
    ensures forall i :: 0 <= i < |MissouriSlots(gs)| ==> MissouriSlots(gs)[i].Some?
  {
    if gs != [] {
      NoNullSlots(gs[1..]);
    }
  }

  /** The number of entries a geometry contributes to the national-park merge:
      as in the Missouri merge, except that every other type gives one entry. */
  function ParkCount(g: Geometry): nat
  {
    if HasPolygons(g) then MissouriCount(g) else 1
  }

  /** `names.map(...).flat()` of the national-park merge. */
  function ParkSlots(gs: seq<Geometry>): (r: seq<Option<PolygonCoords>>)
    ensures |r| == SumNat(seq(|gs|, i requires 0 <= i < |gs| => ParkCount(gs[i])))
  {
    if gs == [] then []
    else
      var counts := seq(|gs|, i requires 0 <= i < |gs| => ParkCount(gs[i]));
      assert counts[1..] == seq(|gs[1..]|, i requires 0 <= i < |gs[1..]| => ParkCount(gs[1..][i]));
      ParkPart(gs[0]) + ParkSlots(gs[1..])
  }

  /** The merged national-park geometry. */
  function MergeParks(gs: seq<Geometry>): (r: Geometry)
    ensures r.MultiPolygon? || r.MultiPolygonWithNulls?
  {
    MultiPolygonOf(ParkSlots(gs))
  }

  /** On Polygons and MultiPolygons the two merges agree. */
  lemma {:induction false} MergesAgreeOnPolygons(gs: seq<Geometry>)
    requires forall i :: 0 <= i < |gs| ==> gs[i].IsPolygonal()
    ensures ParkSlots(gs) == MissouriSlots(gs)
    ensures MergeParks(gs) == MergeMissouri(gs)
  {
    if gs != [] {
      MergesAgreeOnPolygons(gs[1..]);
    }
  }

  /** Unlike the Missouri merge, the national-park merge does not filter: a matched
      Point or other geometry leaves a `null` polygon in the result. */
  lemma {:induction false} ParkMergeKeepsNulls(gs: seq<Geometry>, k: nat)
    requires k < |gs| && (gs[k].Point? || gs[k].OtherGeometry?)
    ensures MergeParks(gs).MultiPolygonWithNulls?
  {
    var j := NullSlot(gs, k);
  }

  lemma {:induction false} NullSlot(gs: seq<Geometry>, k: nat) returns (j: nat)
    requires k < |gs| && (gs[k].Point? || gs[k].OtherGeometry?)
    ensures j < |ParkSlots(gs)| && ParkSlots(gs)[j].None?
  {
    if k == 0 {
      j := 0;
    } else {
      var j' := NullSlot(gs[1..], k - 1);
      j := |ParkPart(gs[0])| + j';
    }
  }
}
