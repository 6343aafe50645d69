/** The per-site record store the scripts read and rewrite: one JSON file per site
    id holding a geometry, location, reference area and a metadata block. */
module Sites {
  import opened Wrappers
  import opened GeoJson
  import opened Text

  /** The metadata block; every field may be absent. */
  datatype Metadata = Metadata(
    dataQuality: Option<string>,
    geometrySource: Option<string>,
    lastUpdated: Option<string>,
    approximateArea: Option<bool>)

  /** `{}`: what `siteData.metadata || {}` supplies when the block is absent. */
  const EmptyMetadata := Metadata(None, None, None, None)

  datatype Location = Location(lat: real, lng: real)

  /** The `area` object; `km2` is None when the object has no number there. */
  datatype Area = Area(km2: Option<real>)

  /** The fields of a site record that the scripts read or write; `area` is None
      when the record has no `area` object. */
  datatype SiteRecord = SiteRecord(
    name: string,
    geometry: Option<Geometry>,
    location: Option<Location>,
    area: Option<Area>,
    metadata: Option<Metadata>)

  /** A site file as read from disk: parsed, or unreadable. A missing file is a missing key. */
  datatype FileState = Valid(rec: SiteRecord) | Corrupt

  type SiteId = string
  type Store = map<SiteId, FileState>

  /** A directory entry whose name ends in `.json`: the scripts' site-file filter. */
  predicate IsJsonEntry(e: (string, FileState))
  {
    IsSuffix(".json", e.0)
  }

  /** The id a site file is processed under: `filename.replace('.json', '')`. */
  function SiteIdOf(filename: string): SiteId
  {
    RemoveFirst(filename, ".json")
  }

  const High := "high"
  const Medium := "medium"

  /** `siteData.metadata && siteData.metadata.dataQuality === 'high'`: the freeze test. */
  predicate IsHigh(rec: SiteRecord)
  {
    rec.metadata.Some? && rec.metadata.value.dataQuality == Some(High)
  }

  /** The freeze test on a stored file: readable and already high quality. */
  predicate FileIsHigh(f: FileState)
  {
    f.Valid? && IsHigh(f.rec)
  }

  /** What an update does to `metadata.approximateArea`. */
  datatype ApproxEdit = KeepApprox | DeleteApprox | MarkApprox

  /** The update shared by every script: replace the geometry, default the metadata
      block to `{}`, set quality, source and date, and edit `approximateArea`. */
  function Stamp(rec: SiteRecord, g: Geometry, quality: string, source: string, today: string, edit: ApproxEdit): (r: SiteRecord)
    ensures r.geometry == Some(g) && r.metadata.Some?
    ensures r.metadata.value.dataQuality == Some(quality)
    ensures r.metadata.value.geometrySource == Some(source)
    ensures r.metadata.value.lastUpdated == Some(today)
    ensures r.name == rec.name && r.location == rec.location && r.area == rec.area
    ensures edit == KeepApprox ==> r.metadata.value.approximateArea == rec.metadata.GetOr(EmptyMetadata).approximateArea
    ensures edit == DeleteApprox ==> r.metadata.value.approximateArea == None
    ensures edit == MarkApprox ==> r.metadata.value.approximateArea == Some(true)
  {
    var m := rec.metadata.GetOr(EmptyMetadata);
    var approx := match edit
      case KeepApprox => m.approximateArea
      case DeleteApprox => None
      case MarkApprox => Some(true);
    rec.(geometry := Some(g), metadata := Some(Metadata(Some(quality), Some(source), Some(today), approx)))
  }

  /** Stamping twice with the same arguments is the same as stamping once. */
  lemma StampIdempotent(rec: SiteRecord, g: Geometry, quality: string, source: string, today: string, edit: ApproxEdit)
    ensures Stamp(Stamp(rec, g, quality, source, today, edit), g, quality, source, today, edit)
         == Stamp(rec, g, quality, source, today, edit)
  {
  }
}
