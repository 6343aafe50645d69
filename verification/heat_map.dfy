/** The heat-map point generator: around every conservation area, a centre point
    and rings of points at fixed distances, each ring with its own intensity. The
    spherical destination-point formula is a parameter. */
module HeatMap {

  /** Metres per mile. */
  const MetersPerMile: real := 1609.34

  /** `milesToMeters(miles)`. */
  function MilesToMeters(miles: real): (r: real)
    ensures r / MetersPerMile == miles
    ensures miles >= 0.0 ==> r >= 0.0
  {
    miles * MetersPerMile
  }

  /** One entry of the ring table. */
  datatype DistanceRing = DistanceRing(miles: real, intensity: real, pointsPerRing: nat)

  /** `distanceRings`: the centre, then every five miles out to fifty. */
  const DistanceRings: seq<DistanceRing> := [
    DistanceRing(0.0, 1.0, 1),
    DistanceRing(5.0, 0.95, 8),
    DistanceRing(10.0, 0.85, 12),
    DistanceRing(15.0, 0.75, 16),
    DistanceRing(20.0, 0.65, 20),
    DistanceRing(25.0, 0.55, 24),
    DistanceRing(30.0, 0.45, 28),
    DistanceRing(35.0, 0.35, 32),
    DistanceRing(40.0, 0.30, 36),
    DistanceRing(45.0, 0.27, 40),
    DistanceRing(50.0, 0.25, 44)
  ]

  /** Rings further out are no brighter. */
  predicate IntensitiesNonIncreasing(rings: seq<DistanceRing>)
  {
    forall i, j :: 0 <= i < j < |rings| ==> rings[i].intensity >= rings[j].intensity
  }

  /** The table grows in distance, fades in intensity and starts with the single centre point. */
  lemma DistanceRingsShape()
    ensures IntensitiesNonIncreasing(DistanceRings)
    ensures forall i, j :: 0 <= i < j < |DistanceRings| ==> DistanceRings[i].miles < DistanceRings[j].miles
    ensures DistanceRings[0].pointsPerRing == 1 && DistanceRings[0].intensity == 1.0
  {
  }

  /** An area as the heat map reads it. */
  datatype Area = Area(lat: real, lng: real)

  /** A heat point `[lat, lng, intensity]`. */
  datatype HeatPoint = HeatPoint(lat: real, lng: real, intensity: real)

  /** `calculatePointAtDistance(lat, lng, meters, bearing)`, returning `[lat, lng]`. */
  type PointAt = (real, real, real, real) -> (real, real)

  /** The bearing of point `i` of a ring of `n`: `i * (360 / n)`. */
  function Bearing(i: nat, n: nat): real
    requires n > 0
  {
    i as real * (360.0 / n as real)
  }

  /** The points one ring contributes for one area: the centre itself when the ring
      has one point, otherwise its points at equal bearings, all with the ring's intensity. */
  function RingPoints(area: Area, ring: DistanceRing, pointAt: PointAt): (r: seq<HeatPoint>)
    ensures |r| == ring.pointsPerRing
    ensures forall k :: 0 <= k < |r| ==> r[k].intensity == ring.intensity
    ensures ring.pointsPerRing == 1 ==> r == [HeatPoint(area.lat, area.lng, ring.intensity)]
    ensures ring.pointsPerRing != 1 ==> forall k :: 0 <= k < |r| ==>
      var p := pointAt(area.lat, area.lng, MilesToMeters(ring.miles), Bearing(k, ring.pointsPerRing));
      r[k] == HeatPoint(p.0, p.1, ring.intensity)
  {
    var n := ring.pointsPerRing;
    if n == 1 then [HeatPoint(area.lat, area.lng, ring.intensity)]
    else
      seq(n, k requires 0 <= k < n =>
        var p := pointAt(area.lat, area.lng, MilesToMeters(ring.miles), Bearing(k, n));
        HeatPoint(p.0, p.1, ring.intensity))
  }

  /** The total number of points of a ring table. */
  function PointsPerArea(rings: seq<DistanceRing>): nat
  {
    if rings == [] then 0 else rings[0].pointsPerRing + PointsPerArea(rings[1..])
  }

  /** All rings of one area, in table order. */
  function AreaPoints(area: Area, rings: seq<DistanceRing>, pointAt: PointAt): (r: seq<HeatPoint>)
    ensures |r| == PointsPerArea(rings)
  {
    if rings == [] then [] else RingPoints(area, rings[0], pointAt) + AreaPoints(area, rings[1..], pointAt)
  }

  /** No point is brighter than the brightest ring. */
  lemma {:induction false} AreaPointsBounded(area: Area, rings: seq<DistanceRing>, pointAt: PointAt, bound: real)
    requires forall k :: 0 <= k < |rings| ==> rings[k].intensity <= bound
    ensures forall j :: 0 <= j < |AreaPoints(area, rings, pointAt)| ==> AreaPoints(area, rings, pointAt)[j].intensity <= bound
  {
    if rings != [] {
      AreaPointsBounded(area, rings[1..], pointAt, bound);
    }
  }

  /** With a fading ring table, the points of an area fade in output order. */
  lemma {:induction false} AreaPointsFade(area: Area, rings: seq<DistanceRing>, pointAt: PointAt)
    requires IntensitiesNonIncreasing(rings)
    ensures forall i, j :: 0 <= i <= j < |AreaPoints(area, rings, pointAt)| ==>
      AreaPoints(area, rings, pointAt)[i].intensity >= AreaPoints(area, rings, pointAt)[j].intensity
  {
    if rings != [] {
      var head := RingPoints(area, rings[0], pointAt);
      var tail := AreaPoints(area, rings[1..], pointAt);
      assert IntensitiesNonIncreasing(rings[1..]) by {
        forall i, j | 0 <= i < j < |rings[1..]| ensures rings[1..][i].intensity >= rings[1..][j].intensity {
          assert rings[1..][i] == rings[i + 1] && rings[1..][j] == rings[j + 1];
        }
      }
      AreaPointsFade(area, rings[1..], pointAt);
      assert forall k :: 0 <= k < |rings[1..]| ==> rings[1..][k].intensity <= rings[0].intensity by {
        forall k | 0 <= k < |rings[1..]| ensures rings[1..][k].intensity <= rings[0].intensity {
          assert rings[1..][k] == rings[k + 1];
        }
      }
      AreaPointsBounded(area, rings[1..], pointAt, rings[0].intensity);
      var r := AreaPoints(area, rings, pointAt);
      assert r == head + tail;
      forall i, j | 0 <= i <= j < |r| ensures r[i].intensity >= r[j].intensity {
        if j < |head| {
          assert r[i] == head[i] && r[j] == head[j];
        } else if i < |head| {
          assert r[i] == head[i] && r[j] == tail[j - |head|];
        } else {
          assert r[i] == tail[i - |head|] && r[j] == tail[j - |head|];
        }
      }
    }
  }

  /** The number of points per area under the ring table: 1 + 8 + 12 + ... + 44. */
  const PointsPerSite: nat := 261

  lemma DistanceRingsTotal()
    ensures PointsPerArea(DistanceRings) == PointsPerSite
  {
    var t := DistanceRings;
    assert t[11..] == [];
    PointsPerAreaFrom(t, 10);
    PointsPerAreaFrom(t, 9);
    PointsPerAreaFrom(t, 8);
    PointsPerAreaFrom(t, 7);
    PointsPerAreaFrom(t, 6);
    PointsPerAreaFrom(t, 5);
    PointsPerAreaFrom(t, 4);
    PointsPerAreaFrom(t, 3);
    PointsPerAreaFrom(t, 2);
    PointsPerAreaFrom(t, 1);
    PointsPerAreaFrom(t, 0);
    assert t[0..] == t;
  }

  /** The points of the rings from `i` on: ring `i`'s, then those after it. */
  lemma PointsPerAreaFrom(rings: seq<DistanceRing>, i: nat)
    requires i < |rings|
    ensures PointsPerArea(rings[i..]) == rings[i].pointsPerRing + PointsPerArea(rings[i + 1..])
  {
    assert rings[i..][1..] == rings[i + 1..];
  }

  /** The points of one area under the ring table: 261 of them, the first the centre at full intensity. */
  function SitePoints(area: Area, pointAt: PointAt): (r: seq<HeatPoint>)
    ensures |r| == PointsPerSite
    ensures r[0] == HeatPoint(area.lat, area.lng, 1.0)
    ensures forall i, j :: 0 <= i <= j < |r| ==> r[i].intensity >= r[j].intensity
  {
    DistanceRingsTotal();
    DistanceRingsShape();
    AreaPointsFade(area, DistanceRings, pointAt);
    AreaPoints(area, DistanceRings, pointAt)
  }

  /** `generateHeatMapData(conservationAreas)`: the areas in input order, each
      contributing its block of 261 points. */
  function GenerateHeatMapData(areas: seq<Area>, pointAt: PointAt): (r: seq<HeatPoint>)
    ensures |r| == PointsPerSite * |areas|
  {
    if areas == [] then [] else SitePoints(areas[0], pointAt) + GenerateHeatMapData(areas[1..], pointAt)
  }

  /** Behind a prefix of one block's length, block `k` is block `k - 1` of the rest. */
  lemma ShiftBlock<T>(head: seq<T>, rest: seq<T>, size: nat, k: nat)
    requires |head| == size && 0 < k && size * k <= |head + rest| - size
    ensures (head + rest)[size * k..size * (k + 1)] == rest[size * (k - 1)..size * k]
  {
    var lo := size * k;
    assert size * (k + 1) == lo + size;
    assert size * (k - 1) == lo - size;
  }

  /** Block `k` of the output is the `k`-th area's points: areas keep their input
      order and each block keeps the ring table's order. */
  lemma {:induction false} Blocks(areas: seq<Area>, pointAt: PointAt, k: nat)
    requires k < |areas|
    ensures GenerateHeatMapData(areas, pointAt)[PointsPerSite * k..PointsPerSite * (k + 1)] == SitePoints(areas[k], pointAt)
  {
    var head := SitePoints(areas[0], pointAt);
    var rest := GenerateHeatMapData(areas[1..], pointAt);
    assert GenerateHeatMapData(areas, pointAt) == head + rest;
    if k > 0 {
      Blocks(areas[1..], pointAt, k - 1);
      ShiftBlock(head, rest, PointsPerSite, k);
    }
  }

  /** The first point of every area's block is its centre at intensity 1.0, and an
      empty list of areas gives no points. */
  lemma CentresFirst(areas: seq<Area>, pointAt: PointAt, k: nat)
    requires k < |areas|
    ensures GenerateHeatMapData(areas, pointAt)[PointsPerSite * k] == HeatPoint(areas[k].lat, areas[k].lng, 1.0)
  {
    Blocks(areas, pointAt, k);
    assert GenerateHeatMapData(areas, pointAt)[PointsPerSite * k] ==
      GenerateHeatMapData(areas, pointAt)[PointsPerSite * k..PointsPerSite * (k + 1)][0];
  }
}
