/** The boundary fetcher for sites that still carry a Point: each such site takes
    the first OpenStreetMap element near it, else the Protected Planet geometry,
    else a hexagon approximating its area around its centre. */
module FetchAllBoundaries {
  import opened Wrappers
  import opened Text
  import opened GeoJson
  import opened Seqs
  import opened Sites

  /** Sine and cosine of an angle given in whole degrees; left uninterpreted. */
  datatype Trig = Trig(sinDeg: int -> real, cosDeg: int -> real)

  /** `generateApproximatePolygon`: six vertices at 0, 60, ..., 300 degrees on the
      ellipse with the given radii, as `[lng, lat]`, closed by a copy of the first.
      The radii (a square root, pi and a cosine of the centre latitude) are inputs. */
  function Hexagon(centerLat: real, centerLng: real, radiusLat: real, radiusLng: real, trig: Trig): (r: Geometry)
    ensures r.Polygon? && |r.rings| == 1 && |r.rings[0]| == 7
    ensures IsLinearRing(r.rings[0])
    ensures forall i :: 0 <= i < 6 ==>
      r.rings[0][i] == Position(centerLng + radiusLng * trig.cosDeg(i * 60), centerLat + radiusLat * trig.sinDeg(i * 60))
  {
    var points := seq(6, i requires 0 <= i < 6 =>
      Position(centerLng + radiusLng * trig.cosDeg(i * 60), centerLat + radiusLat * trig.sinDeg(i * 60)));
    Polygon([points + [points[0]]])
  }

  /** An Overpass node; only its coordinates are read. */
  datatype Node = Node(lat: real, lon: real)

  /** A relation member, with or without an inline geometry. */
  datatype Member = Member(geometry: Option<seq<Node>>)

  /** An Overpass element: its `type`, and the `geometry` and `members` lists when present. */
  datatype Element = Element(kind: string, geometry: Option<seq<Node>>, members: Option<seq<Member>>)

  /** The Overpass reply: the request or its parsing failed, or a body whose
      `elements` list may be absent. */
  datatype OsmReply = OsmFailed | OsmBody(elements: Option<seq<Element>>)

  /** `node => [node.lon, node.lat]` over a node list. */
  function NodeRing(nodes: seq<Node>): (r: Ring)
    ensures |r| == |nodes| && forall i :: 0 <= i < |nodes| ==> r[i] == Position(nodes[i].lon, nodes[i].lat)
  {
    seq(|nodes|, i requires 0 <= i < |nodes| => Position(nodes[i].lon, nodes[i].lat))
  }

  /** The rings of the members that carry a geometry, in member order. */
  function MemberRings(members: seq<Member>): (r: seq<Ring>)
    ensures |r| <= |members|
    ensures r == [] <==> forall i :: 0 <= i < |members| ==> members[i].geometry.None?
  {
    if members == [] then []
    else
      assert forall i :: 1 <= i < |members| ==> members[i] == members[1..][i - 1];
      (if members[0].geometry.Some? then [NodeRing(members[0].geometry.value)] else []) + MemberRings(members[1..])
  }

  /** The conversion of the first element: a `way` with geometry becomes a Polygon with
      one ring; a `relation` with members becomes a MultiPolygon of exactly one
      polygon whose rings are the members' geometries; anything else is null. */
  function Convert(e: Element): (r: Option<Geometry>)
    ensures e.kind == "way" && e.geometry.Some? ==> r == Some(Polygon([NodeRing(e.geometry.value)]))
    ensures r.Some? && r.value.MultiPolygon? ==>
      e.kind == "relation" && e.members.Some? && r.value.polygons == [MemberRings(e.members.value)]
    ensures e.kind == "relation" && e.members.Some? && MemberRings(e.members.value) == [] ==> r.None?
    ensures e.kind != "way" && e.kind != "relation" ==> r.None?
    ensures e.kind == "relation" && e.members.Some? && MemberRings(e.members.value) != [] ==>
      r == Some(MultiPolygon([MemberRings(e.members.value)]))
    ensures r.None? <==>
      (!(e.kind == "way" && e.geometry.Some?) && !(e.kind == "relation" && e.members.Some? && MemberRings(e.members.value) != []))
  {
    if e.kind == "way" && e.geometry.Some? then Some(Polygon([NodeRing(e.geometry.value)]))
    else if e.kind == "relation" && e.members.Some? then
      var coords := MemberRings(e.members.value);
      if |coords| > 0 then Some(MultiPolygon([coords])) else None
    else None
  }

  /** `fetchFromOverpass`: the conversion of the first element, or null. */
  function FromOverpass(reply: OsmReply): (r: Option<Geometry>)
    ensures r.Some? ==> (reply.OsmBody? && reply.elements.Some? && |reply.elements.value| > 0
      && r == Convert(reply.elements.value[0]))
    ensures reply.OsmBody? && reply.elements.Some? && |reply.elements.value| > 0 ==>
      r == Convert(reply.elements.value[0])
    ensures !(reply.OsmBody? && reply.elements.Some? && |reply.elements.value| > 0) ==> r.None?
  {
    match reply
    case OsmFailed => None
    case OsmBody(elements) =>
      if elements.Some? && |elements.value| > 0 then Convert(elements.value[0]) else None
  }

  /** The outside world: the Overpass reply for a name and centre, the Protected
      Planet geometry for a name, and the trigonometry and radii of the fallback.
      The radii are those of the centre latitude and of `area.km2`, which may be
      undefined. */
  datatype World = World(
    osm: (string, real, real) -> OsmReply,
    protectedPlanet: string -> Option<Geometry>,
    radii: (real, Option<real>) -> (real, real),
    trig: Trig)

  const OsmSource := "OpenStreetMap via Overpass API"
  const PlanetSource := "Protected Planet (WDPA)"
  const ApproxSource := "Approximated from area and center point"

  /** A found boundary; `quality` is set only by the approximation. */
  datatype Found = Found(geometry: Geometry, source: string, quality: Option<string>)

  /** `fetchBoundary(siteData)`: OpenStreetMap, then Protected Planet, then the
      hexagon. It never yields null; it throws (None here) only when the record has
      no `location` or no `area` object, which it reads before any request. An
      `area` without `km2` is no error: the hexagon is built from the undefined area. */
  function FetchBoundary(rec: SiteRecord, world: World): (r: Option<Found>)
    ensures r.None? <==> rec.location.None? || rec.area.None?
    ensures r.Some? ==> var loc := rec.location.value;
      && (FromOverpass(world.osm(rec.name, loc.lat, loc.lng)).Some? ==>
            r.value == Found(FromOverpass(world.osm(rec.name, loc.lat, loc.lng)).value, OsmSource, None))
      && (FromOverpass(world.osm(rec.name, loc.lat, loc.lng)).None? && world.protectedPlanet(rec.name).Some? ==>
            r.value == Found(world.protectedPlanet(rec.name).value, PlanetSource, None))
      && (FromOverpass(world.osm(rec.name, loc.lat, loc.lng)).None? && world.protectedPlanet(rec.name).None? ==>
            var radii := world.radii(loc.lat, rec.area.value.km2);
            r.value == Found(Hexagon(loc.lat, loc.lng, radii.0, radii.1, world.trig), ApproxSource, Some(Medium)))
    ensures r.Some? ==> (r.value.quality.Some? <==> r.value.source == ApproxSource)
  {
    if rec.location.None? || rec.area.None? then None
    else
      var loc := rec.location.value;
      match FromOverpass(world.osm(rec.name, loc.lat, loc.lng))
      case Some(g) => Some(Found(g, OsmSource, None))
      case None =>
        match world.protectedPlanet(rec.name)
        case Some(g) => Some(Found(g, PlanetSource, None))
        case None =>
          var (radiusLat, radiusLng) := world.radii(loc.lat, rec.area.value.km2);
          Some(Found(Hexagon(loc.lat, loc.lng, radiusLat, radiusLng, world.trig), ApproxSource, Some(Medium)))
  }

  /** `updateSiteFile(siteId, geometry, source, result.quality || 'high')`:
      `approximateArea` is not touched. */
  function Apply(rec: SiteRecord, found: Found, today: string): (r: SiteRecord)
    ensures r.metadata.Some? && r.metadata.value.dataQuality == Some(found.quality.GetOr(High))
    ensures r.metadata.value.dataQuality == Some(Medium) <==> found.quality == Some(Medium)
  {
    Stamp(rec, found.geometry, found.quality.GetOr(High), found.source, today, KeepApprox)
  }

  /** What happened to one site file. */
  datatype Outcome = NotPoint | ParseFailed | FetchThrew | Updated

  /** Only a record whose geometry is a Point is processed. */
  predicate HasPoint(rec: SiteRecord)
  {
    rec.geometry.Some? && rec.geometry.value.Point?
  }

  /** One file: the outcome and the contents afterwards. */
  function ProcessFile(file: FileState, world: World, today: string): (r: (Outcome, FileState))
    ensures file.Corrupt? <==> r.0 == ParseFailed
    ensures r.0 != Updated ==> r.1 == file
    ensures r.0 == NotPoint <==> file.Valid? && !HasPoint(file.rec)
    ensures r.0 == FetchThrew <==> file.Valid? && HasPoint(file.rec) && FetchBoundary(file.rec, world).None?
    ensures r.0 == Updated <==> file.Valid? && HasPoint(file.rec) && FetchBoundary(file.rec, world).Some?
    ensures r.0 == Updated ==> r.1 == Valid(Apply(file.rec, FetchBoundary(file.rec, world).value, today))
  {
    match file
    case Corrupt => (ParseFailed, file)
    case Valid(rec) =>
      if !HasPoint(rec) then (NotPoint, file)
      else match FetchBoundary(rec, world)
        case None => (FetchThrew, file)
        case Some(found) => (Updated, Valid(Apply(rec, found, today)))
  }

  /** The counters: `processed` counts Point sites, `failed` counts parse failures
      and thrown errors; a fetch never comes back empty, so nothing else fails. */
  datatype Totals = Totals(processed: nat, updated: nat, failed: nat)

  /** A Point site: its fetch ran, whether it threw or not. */
  predicate Fetched(o: Outcome)
  {
    o.FetchThrew? || o.Updated?
  }

  predicate IsUpdated(o: Outcome) { o.Updated? }

  /** A file counted as failed: unparseable, or its fetch threw. */
  predicate Failed(o: Outcome)
  {
    o.ParseFailed? || o.FetchThrew?
  }

  /** Each counter is the number of outcomes of its kind. */
  function Count(tags: seq<Outcome>): (r: Totals)
    ensures r.processed == CountWhere(tags, Fetched)
    ensures r.updated == CountWhere(tags, IsUpdated)
    ensures r.failed == CountWhere(tags, Failed)
    ensures r.updated <= r.processed
    ensures r.updated + r.failed <= |tags|
    ensures r.processed - r.updated <= r.failed
  {
    if tags == [] then Totals(0, 0, 0)
    else
      var rest := Count(tags[1..]);
      match tags[0]
      case NotPoint => rest
      case ParseFailed => rest.(failed := rest.failed + 1)
      case FetchThrew => rest.(processed := rest.processed + 1, failed := rest.failed + 1)
      case Updated => rest.(processed := rest.processed + 1, updated := rest.updated + 1)
  }

  /** The outcome of every file, in listing order. */
  function Outcomes(files: seq<(string, FileState)>, world: World, today: string): (r: seq<Outcome>)
    ensures |r| == |files|
    ensures forall i :: 0 <= i < |files| ==> r[i] == ProcessFile(files[i].1, world, today).0
  {
    seq(|files|, i requires 0 <= i < |files| => ProcessFile(files[i].1, world, today).0)
  }

  /** `processAllSites()` over the `*.json` entries of the directory listing: the
      i-th file afterwards is the i-th entry, same name, as `ProcessFile` left it,
      and the counters tally exactly those entries' outcomes. */
  function ProcessAllSites(dir: seq<(string, FileState)>, world: World, today: string): (r: (seq<(string, FileState)>, Totals))
    ensures var files := Filter(dir, IsJsonEntry);
      && |r.0| == |files|
      && (forall i :: 0 <= i < |files| ==> r.0[i] == (files[i].0, ProcessFile(files[i].1, world, today).1))
      && r.1 == Count(Outcomes(files, world, today))
    ensures |r.0| <= |dir|
    ensures forall i :: 0 <= i < |r.0| ==> IsSuffix(".json", r.0[i].0)
    ensures r.1.updated <= r.1.processed
  {
    var files := Filter(dir, IsJsonEntry);
    assert forall i :: 0 <= i < |files| ==> files[i] in files;
    (seq(|files|, i requires 0 <= i < |files| => (files[i].0, ProcessFile(files[i].1, world, today).1)),
     Count(Outcomes(files, world, today)))
  }
}
