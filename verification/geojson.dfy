/** The GeoJSON values the boundary scripts read and write: positions, rings,
    Polygon and MultiPolygon geometries, and features with a property bag. */
module GeoJson {
  import opened Wrappers

  /** A GeoJSON position `[x, y]`; in the site files x is longitude and y latitude. */
  datatype Position = Position(x: real, y: real)

  /** A ring is the list of positions of one boundary; a polygon is its list of rings. */
  type Ring = seq<Position>
  type PolygonCoords = seq<Ring>

  /** The geometry types the scripts distinguish by their `type` field.
      `MultiPolygonWithNulls` is a `MultiPolygon` whose coordinate list holds
      `undefined` entries (written to disk as `null`); one script can produce it. */
  datatype Geometry =
    | Point(coordinates: Position)
    | Polygon(rings: seq<Ring>)
    | MultiPolygon(polygons: seq<PolygonCoords>)
    | MultiPolygonWithNulls(slots: seq<Option<PolygonCoords>>)
    | OtherGeometry(kind: string)
  {
    /** Polygon or MultiPolygon: the two types the merge and simplify code handle. */
    predicate IsPolygonal()
    {
      Polygon? || MultiPolygon?
    }
  }

  /** The string-valued properties of a feature; a missing key reads as `undefined`. */
  type PropertyBag = map<string, string>

  /** One feature of a FeatureCollection. `properties` may be absent. */
  datatype Feature = Feature(properties: Option<PropertyBag>, geometry: Geometry)

  /** `props.key`, with `undefined` read as the falsy empty string. */
  function Prop(bag: PropertyBag, key: string): string
  {
    if key in bag then bag[key] else ""
  }

  /** `props[k1] || props[k2] || ... || ''`: the first truthy value among `keys`. */
  function FirstNonEmpty(bag: PropertyBag, keys: seq<string>): (r: string)
    ensures r == "" <==> forall i :: 0 <= i < |keys| ==> Prop(bag, keys[i]) == ""
    ensures r != "" ==> exists i :: (0 <= i < |keys| && r == Prop(bag, keys[i])
      && forall j :: 0 <= j < i ==> Prop(bag, keys[j]) == "")
  {
    if keys == [] then ""
    else if Prop(bag, keys[0]) != "" then Prop(bag, keys[0])
    else
      var r := FirstNonEmpty(bag, keys[1..]);
      assert forall i :: 1 <= i < |keys| ==> keys[i] == keys[1..][i - 1];
      r
  }

  /** Total number of positions over a list of rings. */
  function RingsPoints(rings: seq<Ring>): nat
  {
    if rings == [] then 0 else |rings[0]| + RingsPoints(rings[1..])
  }

  /** Total number of positions over a list of polygons. */
  function PolygonsPoints(polygons: seq<PolygonCoords>): nat
  {
    if polygons == [] then 0 else RingsPoints(polygons[0]) + PolygonsPoints(polygons[1..])
  }

  /** The point counter of the simplification scripts: ring lengths summed over
      Polygon and MultiPolygon geometries; every other type counts zero. The
      counter would throw on a `null` polygon, so that variant is excluded. */
  function PointCount(g: Geometry): nat
    requires !g.MultiPolygonWithNulls?
  {
    match g
    case Polygon(rings) => RingsPoints(rings)
    case MultiPolygon(polygons) => PolygonsPoints(polygons)
    case Point(_) => 0
    case OtherGeometry(_) => 0
  }

  /** A linear ring as section 3.1.6 of RFC 7946 defines it: closed, with at least four positions. */
  predicate IsLinearRing(r: Ring)
  {
    |r| >= 4 && r[0] == r[|r| - 1]
  }
}
