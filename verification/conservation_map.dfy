/** The pure helpers of the map component: the edge-to-edge gap of two areas, its
    colour bucket, the lines between every pair of areas close enough to colour,
    the list of all areas, deleting a user-added area, and the default name of a
    new one. The great-circle distance is a parameter. */
module ConservationMap {
  import opened Wrappers
  import opened Text
  import opened Seqs
  import HeatMap

  /** A conservation area: existing ones come from the data file, new ones from map clicks. */
  datatype Area = Area(id: string, name: string, lat: real, lng: real, radius: real)

  /** `calculateDistance(lat1, lng1, lat2, lng2)` in metres. */
  type Distance = (real, real, real, real) -> real

  /** `calculateGap(area1, area2)`: the centre distance less both radii, never below zero. */
  function CalculateGap(a: Area, b: Area, distance: Distance): (r: real)
    ensures r >= 0.0
    ensures r >= distance(a.lat, a.lng, b.lat, b.lng) - a.radius - b.radius
    ensures r == 0.0 || r == distance(a.lat, a.lng, b.lat, b.lng) - a.radius - b.radius
  {
    var d := distance(a.lat, a.lng, b.lat, b.lng) - a.radius - b.radius;
    if d > 0.0 then d else 0.0
  }

  const Green := "#00ff00"
  const Blue := "#0000ff"
  const Orange := "#ffa500"

  /** `getHeatMapColor(gap)`: the bucket of the gap in miles; none beyond 100 miles. */
  function GetHeatMapColor(gap: real): (r: Option<string>)
    ensures var miles := gap / HeatMap.MetersPerMile;
      && (r == Some(Green) <==> miles <= 25.0)
      && (r == Some(Blue) <==> 25.0 < miles <= 50.0)
      && (r == Some(Orange) <==> 50.0 < miles <= 100.0)
      && (r.None? <==> miles > 100.0)
  {
    var miles := gap / HeatMap.MetersPerMile;
    if miles <= 25.0 then Some(Green)
    else if miles <= 50.0 then Some(Blue)
    else if miles <= 100.0 then Some(Orange)
    else None
  }

  /** Measured in miles, the buckets are 25, 50 and 100 miles: the conversion in
      `milesToMeters` and the division here undo each other. */
  lemma ColorOfMiles(miles: real)
    ensures GetHeatMapColor(HeatMap.MilesToMeters(miles)).Some? <==> miles <= 100.0
    ensures GetHeatMapColor(HeatMap.MilesToMeters(miles)) == Some(Green) <==> miles <= 25.0
  {
  }

  /** One line between two areas: their centres `[lat, lng]`, colour, gap and names. */
  datatype Line = Line(from: (real, real), to: (real, real), color: string, gap: real, area1: string, area2: string)

  /** The line the loop builds for the pair `(i, j)`. */
  function MakeLine(areas: seq<Area>, i: nat, j: nat, distance: Distance): Line
    requires i < |areas| && j < |areas|
  {
    var gap := CalculateGap(areas[i], areas[j], distance);
    Line((areas[i].lat, areas[i].lng), (areas[j].lat, areas[j].lng),
         GetHeatMapColor(gap).GetOr(""), gap, areas[i].name, areas[j].name)
  }

  /** The pair gets a line: its gap has a colour. */
  predicate Coloured(areas: seq<Area>, i: nat, j: nat, distance: Distance)
    requires i < |areas| && j < |areas|
  {
    GetHeatMapColor(CalculateGap(areas[i], areas[j], distance)).Some?
  }

  /** The inner loop: the pairs `(i, j)` for `j` from the given start. */
  function Inner(areas: seq<Area>, i: nat, j: nat, distance: Distance): (r: seq<Line>)
    requires i < j <= |areas|
    ensures |r| <= |areas| - j
    ensures forall l :: l in r ==> exists b :: j <= b < |areas| && Coloured(areas, i, b, distance) && l == MakeLine(areas, i, b, distance)
    decreases |areas| - j
  {
    if j == |areas| then []
    else
      (if Coloured(areas, i, j, distance) then [MakeLine(areas, i, j, distance)] else [])
      + Inner(areas, i, j + 1, distance)
  }

  /** `n * (n - 1) / 2`, the number of pairs of `n` things. */
  function Pairs(n: nat): (r: nat)
    ensures 2 * r == n * (n - 1)
  {
    if n == 0 then 0 else n - 1 + Pairs(n - 1)
  }

  /** The outer loop from `i`: at most one line per pair, each for a coloured pair `a < b`. */
  function Outer(areas: seq<Area>, i: nat, distance: Distance): (r: seq<Line>)
    requires i <= |areas|
    ensures |r| <= Pairs(|areas| - i)
    ensures forall l :: l in r ==> exists a, b :: i <= a < b < |areas| && Coloured(areas, a, b, distance) && l == MakeLine(areas, a, b, distance)
    decreases |areas| - i
  {
    if i == |areas| then []
    else Inner(areas, i, i + 1, distance) + Outer(areas, i + 1, distance)
  }

  /** The `heatMapLines` memo: none when the heat map is hidden or there are fewer
      than two areas; otherwise a line for each coloured pair `i < j`, at most
      `n (n - 1) / 2` of them. */
  function HeatMapLines(areas: seq<Area>, showHeatMap: bool, distance: Distance): (r: seq<Line>)
    ensures !showHeatMap || |areas| < 2 ==> r == []
    ensures 2 * |r| <= |areas| * (|areas| - 1)
    ensures forall l :: l in r ==> exists a, b :: 0 <= a < b < |areas| && Coloured(areas, a, b, distance) && l == MakeLine(areas, a, b, distance)
    ensures forall l :: l in r ==> GetHeatMapColor(l.gap) == Some(l.color) && l.gap / HeatMap.MetersPerMile <= 100.0
  {
    if !showHeatMap || |areas| < 2 then [] else Outer(areas, 0, distance)
  }

  /** Every coloured pair `a < b` from `j` on is drawn by the inner loop. */
  lemma {:induction false} InnerComplete(areas: seq<Area>, i: nat, j: nat, b: nat, distance: Distance)
    requires i < j <= b < |areas| && Coloured(areas, i, b, distance)
    ensures MakeLine(areas, i, b, distance) in Inner(areas, i, j, distance)
    decreases |areas| - j
  {
    var here := if Coloured(areas, i, j, distance) then [MakeLine(areas, i, j, distance)] else [];
    var rest := Inner(areas, i, j + 1, distance);
    assert Inner(areas, i, j, distance) == here + rest;
    if j < b {
      InnerComplete(areas, i, j + 1, b, distance);
    } else {
      assert MakeLine(areas, i, b, distance) in here;
    }
    InAppend(MakeLine(areas, i, b, distance), here, rest);
  }

  /** Every coloured pair `a < b` with `a` from `i` on is drawn by the outer loop. */
  lemma {:induction false} OuterComplete(areas: seq<Area>, i: nat, a: nat, b: nat, distance: Distance)
    requires i <= a < b < |areas| && Coloured(areas, a, b, distance)
    ensures MakeLine(areas, a, b, distance) in Outer(areas, i, distance)
    decreases |areas| - i
  {
    var inner, rest := Inner(areas, i, i + 1, distance), Outer(areas, i + 1, distance);
    assert Outer(areas, i, distance) == inner + rest;
    if i == a {
      InnerComplete(areas, a, a + 1, b, distance);
    } else {
      OuterComplete(areas, i + 1, a, b, distance);
    }
    InAppend(MakeLine(areas, a, b, distance), inner, rest);
  }

  /** With the heat map on, a pair gets a line exactly when its gap is within 100 miles. */
  lemma LinesComplete(areas: seq<Area>, a: nat, b: nat, distance: Distance)
    requires a < b < |areas| && Coloured(areas, a, b, distance)
    ensures MakeLine(areas, a, b, distance) in HeatMapLines(areas, true, distance)
  {
    OuterComplete(areas, 0, a, b, distance);
  }

  /** `allAreas`: the loaded areas, then the user-added ones. */
  function AllAreas(existing: seq<Area>, added: seq<Area>): (r: seq<Area>)
    ensures |r| == |existing| + |added|
    ensures forall i :: 0 <= i < |existing| ==> r[i] == existing[i]
    ensures forall i :: 0 <= i < |added| ==> r[|existing| + i] == added[i]
  {
    existing + added
  }

  /** `handleDeleteNewArea(id)`: the added areas without those carrying `id`, the
      rest in their order. */
  function DeleteNewArea(added: seq<Area>, id: string): (r: seq<Area>)
    ensures forall a :: a in r ==> a in added && a.id != id
    ensures forall a :: a in added && a.id != id ==> a in r
    ensures IsSubsequence(r, added)
  {
    FilterIsSubsequence(added, (a: Area) => a.id != id);
    Filter(added, (a: Area) => a.id != id)
  }

  /** The name of a new area: the typed name, or `New Area <count + 1>`. */
  function NewAreaName(typed: string, count: nat): (r: string)
    ensures typed != "" ==> r == typed
    ensures typed == "" ==> (IsPrefix("New Area ", r)
      && (forall i :: 9 <= i < |r| ==> IsDigit(r[i])) && DigitsValue(r[9..]) == count + 1)
  {
    if typed != "" then typed
    else
      var digits := NatToString(count + 1);
      assert ("New Area " + digits)[9..] == digits;
      "New Area " + digits
  }

  /** `handleMapClick(latlng)`: outside adding mode nothing changes; otherwise one
      new area at the clicked point is appended, named by `NewAreaName`, with the
      id `new-<now>` and the chosen radius. */
  function HandleMapClick(adding: bool, added: seq<Area>, typed: string, radius: real, lat: real, lng: real, now: nat): (r: seq<Area>)
    ensures !adding ==> r == added
    ensures adding ==> (|r| == |added| + 1 && r[..|added|] == added
      && r[|added|] == Area("new-" + NatToString(now), NewAreaName(typed, |added|), lat, lng, radius))
  {
    if !adding then added
    else added + [Area("new-" + NatToString(now), NewAreaName(typed, |added|), lat, lng, radius)]
  }
}
