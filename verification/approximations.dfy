/** The generator of approximate boundaries for sites that still carry a Point:
    an irregular closed ring around the centre, or several such rings for very
    large areas, written with `medium` quality and `approximateArea` set. */
module Approximations {
  import opened Wrappers
  import opened Text
  import opened GeoJson
  import opened Seqs
  import opened Sites

  /** The uninterpreted mathematics: sine, cosine, pi, and the radii in degrees of
      latitude and longitude of a circle of the given area at the given latitude. */
  datatype Math = Math(sin: real -> real, cos: real -> real, pi: real, radii: (real, real) -> (real, real))

  /** `Math.ceil`. */
  function Ceil(x: real): (r: int)
    ensures r as real >= x && (r - 1) as real < x
  {
    -((-x).Floor)
  }

  /** `numPoints = Math.min(Math.max(24, Math.floor(area / 100)), 100)`. */
  function NumPoints(area: real): (r: nat)
    ensures 24 <= r <= 100
    ensures 2400.0 <= area < 10100.0 ==> r as real <= area / 100.0 < r as real + 1.0
  {
    var f := (area / 100.0).Floor;
    if f < 24 then 24 else if f > 100 then 100 else f
  }

  /** `x - Math.floor(x)`: the fractional part. */
  function Frac(x: real): (r: real)
    ensures 0.0 <= r < 1.0
  {
    x - x.Floor as real
  }

  /** `pseudoRandom(index)` for a seed. */
  function PseudoRandom(m: Math, seed: int, index: int): (r: real)
    ensures 0.0 <= r < 1.0
  {
    Frac(m.sin(seed as real + index as real * 12.9898) * 43758.5453)
  }

  /** The radius factor of vertex `i`: 0.8 plus up to 40 percent. */
  function RadiusVariation(m: Math, seed: int, i: int): (r: real)
    ensures 0.8 <= r < 1.2
  {
    0.8 + PseudoRandom(m, seed, i) * 0.4
  }

  /** The angular wobble of vertex `i`, within 0.15 radians either way. */
  function AngleWobble(m: Math, seed: int, i: int): (r: real)
    ensures -0.15 <= r < 0.15
  {
    (PseudoRandom(m, seed, i + 1000) - 0.5) * 0.3
  }

  /** Vertex `i` of `n`: at angle `2 pi i / n` plus the wobble, at the varied radius, as `[lng, lat]`. */
  function Vertex(m: Math, centerLat: real, centerLng: real, radiusLat: real, radiusLng: real, seed: int, i: nat, n: nat): Position
    requires n > 0
  {
    var angle := (i as real / n as real) * 2.0 * m.pi + AngleWobble(m, seed, i);
    var rv := RadiusVariation(m, seed, i);
    Position(centerLng + radiusLng * rv * m.cos(angle), centerLat + radiusLat * rv * m.sin(angle))
  }

  /** `generateRealisticPolygon`: `numPoints` vertices in angle order, closed by a
      copy of the first, as the only ring of a Polygon. */
  function RealisticPolygon(m: Math, centerLat: real, centerLng: real, area: real, seed: int): (r: PolygonCoords)
    ensures |r| == 1 && |r[0]| == NumPoints(area) + 1
    ensures IsLinearRing(r[0])
    ensures var (radiusLat, radiusLng) := m.radii(centerLat, area);
      forall i :: 0 <= i < NumPoints(area) ==>
        r[0][i] == Vertex(m, centerLat, centerLng, radiusLat, radiusLng, seed, i, NumPoints(area))
  {
    var n := NumPoints(area);
    var (radiusLat, radiusLng) := m.radii(centerLat, area);
    var points := seq(n, i requires 0 <= i < n => Vertex(m, centerLat, centerLng, radiusLat, radiusLng, seed, i, n));
    [points + [points[0]]]
  }

  /** `numParts = Math.min(Math.ceil(area / 5000), 5)` for an area above 5000. */
  function NumParts(area: real): (r: nat)
    requires area > 5000.0
    ensures 2 <= r <= 5
  {
    var c := Ceil(area / 5000.0);
    if c > 5 then 5 else c
  }

  /** `generateMultiPartPolygon`: above 5000 square kilometres, `numParts` parts, each
      an irregular polygon of an equal share of the area around a shifted centre
      and with the seed advanced by the part index; otherwise one polygon. */
  function MultiPartPolygon(m: Math, centerLat: real, centerLng: real, area: real, seed: int): (r: Geometry)
    ensures area > 5000.0 ==> r.MultiPolygon? && |r.polygons| == NumParts(area)
    ensures area > 5000.0 ==> forall i :: 0 <= i < |r.polygons| ==>
      var offset := (i as real - NumParts(area) as real / 2.0) * 0.5;
      r.polygons[i] == RealisticPolygon(m, centerLat + offset, centerLng + offset, area / NumParts(area) as real, seed + i)
    ensures area <= 5000.0 ==> r == Polygon(RealisticPolygon(m, centerLat, centerLng, area, seed))
  {
    if area > 5000.0 then
      var n := NumParts(area);
      MultiPolygon(seq(n, i requires 0 <= i < n =>
        var offset := (i as real - n as real / 2.0) * 0.5;
        RealisticPolygon(m, centerLat + offset, centerLng + offset, area / n as real, seed + i)))
    else
      Polygon(RealisticPolygon(m, centerLat, centerLng, area, seed))
  }

  /** Every generated polygon has exactly one ring, and that ring is a linear ring. */
  lemma GeneratedRingsAreLinear(m: Math, centerLat: real, centerLng: real, area: real, seed: int)
    ensures var g := MultiPartPolygon(m, centerLat, centerLng, area, seed);
      && (g.Polygon? ==> |g.rings| == 1 && IsLinearRing(g.rings[0]))
      && (g.MultiPolygon? ==> forall i :: 0 <= i < |g.polygons| ==> |g.polygons[i]| == 1 && IsLinearRing(g.polygons[i][0]))
  {
  }

  /** The shoelace sum `sum of (lng2 - lng1) * (lat2 + lat1) / 2` over consecutive positions. */
  function Shoelace(ring: Ring): real
  {
    if |ring| < 2 then 0.0
    else (ring[1].x - ring[0].x) * (ring[1].y + ring[0].y) / 2.0 + Shoelace(ring[1..])
  }

  function Abs(x: real): (r: real)
    ensures r >= 0.0 && (r == x || r == -x)
  {
    if x < 0.0 then -x else x
  }

  /** Square kilometres per square degree, `111.32 * 111.32`. */
  const KmPerDegreeSquared: real := 111.32 * 111.32

  /** `calculatePolygonArea(coordinates)`: the absolute shoelace sum of the first
      ring, scaled to square kilometres. Reading `coordinates[0].length` needs a ring. */
  function PolygonArea(coordinates: PolygonCoords): (r: real)
    requires |coordinates| > 0
    ensures r >= 0.0
  {
    Abs(Shoelace(coordinates[0])) * KmPerDegreeSquared
  }

  /** A ring all of whose positions coincide has no area. */
  lemma {:induction false} DegenerateRingHasNoArea(ring: Ring)
    requires forall i :: 0 <= i < |ring| ==> ring[i] == ring[0]
    ensures Shoelace(ring) == 0.0
  {
    if |ring| >= 2 {
      assert forall i :: 0 <= i < |ring[1..]| ==> ring[1..][i] == ring[1..][0] by {
        forall i | 0 <= i < |ring[1..]| ensures ring[1..][i] == ring[1..][0] {
          assert ring[1..][i] == ring[i + 1];
        }
      }
      DegenerateRingHasNoArea(ring[1..]);
    }
  }

  /** `coordinates.reduce((sum, coords) => sum + calculatePolygonArea(coords), 0)`. */
  function MultiArea(polygons: seq<PolygonCoords>): (r: real)
    requires forall i :: 0 <= i < |polygons| ==> |polygons[i]| > 0
    ensures r >= 0.0
  {
    if polygons == [] then 0.0 else PolygonArea(polygons[0]) + MultiArea(polygons[1..])
  }

  /** The MultiPolygon area adds up over its parts. */
  lemma {:induction false} MultiAreaAppend(a: seq<PolygonCoords>, b: seq<PolygonCoords>)
    requires forall i :: 0 <= i < |a| ==> |a[i]| > 0
    requires forall i :: 0 <= i < |b| ==> |b[i]| > 0
    ensures MultiArea(a + b) == MultiArea(a) + MultiArea(b)
  {
    if a == [] {
      assert a + b == b;
    } else {
      assert (a + b)[1..] == a[1..] + b;
      MultiAreaAppend(a[1..], b);
    }
  }

  /** The seed: the sum of the site id's character codes. */
  function Seed(id: string): (r: nat)
  {
    if id == [] then 0 else id[0] as nat + Seed(id[1..])
  }

  /** The seed of a concatenation is the sum of the seeds, so ids that are
      rearrangements of the same blocks get the same shape. */
  lemma {:induction false} SeedAppend(a: string, b: string)
    ensures Seed(a + b) == Seed(a) + Seed(b)
  {
    if a == [] {
      assert a + b == b;
    } else {
      assert (a + b)[1..] == a[1..] + b;
      SeedAppend(a[1..], b);
    }
  }

  const ApproxSource := "Generated approximation based on area and center point"

  /** `updateSiteWithPolygon`'s status. */
  datatype Status = StatusUpdated | StatusSkipped | StatusError

  /** `generateMultiPartPolygon` of an undefined area (an `area` object without
      `km2`): the point count is NaN, so no vertex is generated and the ring is
      only the closing copy of the undefined `points[0]`. The model writes that
      ring empty. */
  const UndefinedAreaPolygon: Geometry := Polygon([[]])

  /** `updateSiteWithPolygon(siteId)` on the file as read: an unreadable file and a
      Point record without `location` or `area` are errors; a record without a
      Point is skipped unchanged; otherwise the generated geometry is written with
      `medium`, the fixed source and `approximateArea = true`, even when the
      `area` object has no `km2`. */
  function UpdateSiteWithPolygon(id: SiteId, file: FileState, m: Math, today: string): (r: (Status, FileState))
    ensures r.0 != StatusUpdated ==> r.1 == file
    ensures r.0 == StatusSkipped <==> file.Valid? && !(file.rec.geometry.Some? && file.rec.geometry.value.Point?)
    ensures r.0 == StatusUpdated <==>
      (file.Valid? && file.rec.geometry.Some? && file.rec.geometry.value.Point?
       && file.rec.location.Some? && file.rec.area.Some?)
    ensures r.0 == StatusError <==>
      (file.Corrupt? || (file.rec.geometry.Some? && file.rec.geometry.value.Point?
       && (file.rec.location.None? || file.rec.area.None?)))
    ensures r.0 == StatusUpdated && file.rec.area.value.km2.Some? ==>
      r.1 == Valid(Stamp(file.rec, MultiPartPolygon(m, file.rec.location.value.lat, file.rec.location.value.lng,
                                                    file.rec.area.value.km2.value, Seed(id)),
                         Medium, ApproxSource, today, MarkApprox))
    ensures r.0 == StatusUpdated && file.rec.area.value.km2.None? ==>
      r.1 == Valid(Stamp(file.rec, UndefinedAreaPolygon, Medium, ApproxSource, today, MarkApprox))
    ensures r.0 == StatusUpdated ==> r.1.rec.metadata.Some? && r.1.rec.metadata.value.approximateArea == Some(true)
  {
    match file
    case Corrupt => (StatusError, file)
    case Valid(rec) =>
      if !(rec.geometry.Some? && rec.geometry.value.Point?) then (StatusSkipped, file)
      else if rec.location.None? || rec.area.None? then (StatusError, file)
      else
        var g := match rec.area.value.km2
          case Some(km2) => MultiPartPolygon(m, rec.location.value.lat, rec.location.value.lng, km2, Seed(id))
          case None => UndefinedAreaPolygon;
        (StatusUpdated, Valid(Stamp(rec, g, Medium, ApproxSource, today, MarkApprox)))
  }

  /** The counters; every file adds `processed` and exactly one of the others. */
  datatype Totals = Totals(processed: nat, updated: nat, skipped: nat, errors: nat)

  predicate IsUpdated(s: Status) { s == StatusUpdated }

  predicate IsSkipped(s: Status) { s == StatusSkipped }

  predicate IsError(s: Status) { s == StatusError }

  /** Each counter is the number of statuses of its kind. */
  function Count(statuses: seq<Status>): (r: Totals)
    ensures r.processed == |statuses|
    ensures r.updated == CountWhere(statuses, IsUpdated)
    ensures r.skipped == CountWhere(statuses, IsSkipped)
    ensures r.errors == CountWhere(statuses, IsError)
    ensures r.processed == r.updated + r.skipped + r.errors
  {
    if statuses == [] then Totals(0, 0, 0, 0)
    else
      var rest := Count(statuses[1..]);
      match statuses[0]
      case StatusUpdated => Totals(rest.processed + 1, rest.updated + 1, rest.skipped, rest.errors)
      case StatusSkipped => Totals(rest.processed + 1, rest.updated, rest.skipped + 1, rest.errors)
      case StatusError => Totals(rest.processed + 1, rest.updated, rest.skipped, rest.errors + 1)
  }

  /** The status of every file, in listing order. */
  function Statuses(files: seq<(string, FileState)>, m: Math, today: string): (r: seq<Status>)
    ensures |r| == |files|
    ensures forall i :: 0 <= i < |files| ==> r[i] == UpdateSiteWithPolygon(SiteIdOf(files[i].0), files[i].1, m, today).0
  {
    seq(|files|, i requires 0 <= i < |files| => UpdateSiteWithPolygon(SiteIdOf(files[i].0), files[i].1, m, today).0)
  }

  /** `processAllSites()` over the `*.json` entries of the listing: the i-th file
      afterwards is the i-th entry as `updateSiteWithPolygon` left it under its own
      id, and the counters tally exactly those entries' statuses. */
  function ProcessAllSites(dir: seq<(string, FileState)>, m: Math, today: string): (r: (seq<(string, FileState)>, Totals))
    ensures var files := Filter(dir, IsJsonEntry);
      && |r.0| == |files|
      && (forall i :: 0 <= i < |files| ==>
            r.0[i] == (files[i].0, UpdateSiteWithPolygon(SiteIdOf(files[i].0), files[i].1, m, today).1))
      && r.1 == Count(Statuses(files, m, today))
    ensures |r.0| <= |dir|
    ensures r.1.processed == |r.0|
    ensures r.1.processed == r.1.updated + r.1.skipped + r.1.errors
    ensures forall i :: 0 <= i < |r.0| ==> IsSuffix(".json", r.0[i].0)
  {
    var files := Filter(dir, IsJsonEntry);
    assert forall i :: 0 <= i < |files| ==> files[i] in files;
    (seq(|files|, i requires 0 <= i < |files| =>
       (files[i].0, UpdateSiteWithPolygon(SiteIdOf(files[i].0), files[i].1, m, today).1)),
     Count(Statuses(files, m, today)))
  }
}
