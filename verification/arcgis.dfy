/** What the three ArcGIS scripts share: the site configuration, the choice of a
    geometry from a query reply, the `updateSiteFile` rewrite, and the outcome of
    one site with the counters built from it. The network is an oracle that maps
    a site's configuration to the service's reply. */
module ArcGis {
  import opened Wrappers
  import opened Seqs
  import opened GeoJson
  import opened Sites

  /** One entry of `SITE_CONFIG`: the service name and the `where` clause. */
  datatype SiteConfig = SiteConfig(api: string, where: string)

  /** The keys of the `APIs` endpoint table; any other service name is unknown. */
  const Apis: set<string> := {"USFS", "USFWS", "NPS"}

  /** A reply: the request or the parsing of its body failed, or the parsed body with
      its `features` list (None when absent), each feature's geometry possibly null. */
  datatype Reply = RequestFailed | Body(features: Option<seq<Option<Geometry>>>)

  /** The oracle standing for `queryArcGIS(APIs[config.api], config.where)`'s request. */
  type Oracle = SiteConfig -> Reply

  /** `queryArcGIS`: the first feature's geometry; null on a failed request, an absent
      or empty feature list, or a first feature without geometry. */
  function QueryArcGis(reply: Reply): (r: Option<Geometry>)
    ensures r.Some? <==> reply.Body? && reply.features.Some? && |reply.features.value| > 0
                         && reply.features.value[0].Some?
    ensures r.Some? ==> r == reply.features.value[0]
  {
    match reply
    case RequestFailed => None
    case Body(features) =>
      if features.Some? && |features.value| > 0 then features.value[0] else None
  }

  /** `${config.api} REST API - Official U.S. Government Data`. */
  function SourceFor(api: string): string
  {
    api + " REST API - Official U.S. Government Data"
  }

  /** `updateSiteFile(siteId, geometry, source)`: the rewritten record, or None
      (`false`) when the file is missing or cannot be parsed. */
  function UpdateSiteFile(file: Option<FileState>, g: Geometry, source: string, today: string, edit: ApproxEdit): (r: Option<SiteRecord>)
    ensures r.Some? <==> file.Some? && file.value.Valid?
    ensures r.Some? ==> r.value == Stamp(file.value.rec, g, High, source, today, edit)
  {
    match file
    case Some(Valid(rec)) => Some(Stamp(rec, g, High, source, today, edit))
    case _ => None
  }

  /** What happened to one site of the loop. */
  datatype Outcome =
    | Skipped      // already `high`; not queried
    | Unreadable   // passed over without counting (one script only)
    | UnknownApi   // the service name is not in `APIs`
    | NoGeometry   // the query produced no geometry
    | WriteFailed  // `updateSiteFile` returned false
    | Updated

  /** Outcomes that follow a query. */
  predicate Queried(o: Outcome)
  {
    o.NoGeometry? || o.WriteFailed? || o.Updated?
  }

  /** Outcomes the scripts count as `failed`. */
  predicate Failed(o: Outcome)
  {
    o.UnknownApi? || o.NoGeometry? || o.WriteFailed?
  }

  predicate IsUpdated(o: Outcome) { o.Updated? }

  predicate IsSkipped(o: Outcome) { o.Skipped? }

  predicate IsUnreadable(o: Outcome) { o.Unreadable? }

  /** The counters of a loop: `processed` counts queries, `failed` every failure. */
  datatype Totals = Totals(processed: nat, updated: nat, failed: nat, skipped: nat, unreadable: nat)

  /** What the counters say about the outcomes they count. */
  ghost predicate Tallies(r: Totals, tags: seq<Outcome>)
  {
    && r.processed == CountWhere(tags, Queried)
    && r.updated == CountWhere(tags, IsUpdated)
    && r.failed == CountWhere(tags, Failed)
    && r.skipped == CountWhere(tags, IsSkipped)
    && r.unreadable == CountWhere(tags, IsUnreadable)
    && r.updated + r.failed + r.skipped + r.unreadable == |tags|
    && (r.updated == 0 <==> forall i :: 0 <= i < |tags| ==> !tags[i].Updated?)
    && (r.skipped == 0 <==> forall i :: 0 <= i < |tags| ==> !tags[i].Skipped?)
    && (r.unreadable == 0 <==> forall i :: 0 <= i < |tags| ==> !tags[i].Unreadable?)
    && r.processed <= r.updated + r.failed
    && ((forall i :: 0 <= i < |tags| ==> !tags[i].UnknownApi?) ==> r.processed == r.updated + r.failed)
  }

  /** One outcome added to the counters of the outcomes after it. */
  function Add(t: Outcome, rest: Totals): Totals
  {
    Totals(rest.processed + (if Queried(t) then 1 else 0),
           rest.updated + (if t.Updated? then 1 else 0),
           rest.failed + (if Failed(t) then 1 else 0),
           rest.skipped + (if t.Skipped? then 1 else 0),
           rest.unreadable + (if t.Unreadable? then 1 else 0))
  }

  lemma AddTallies(tags: seq<Outcome>, rest: Totals)
    requires tags != [] && Tallies(rest, tags[1..])
    ensures Tallies(Add(tags[0], rest), tags)
  {
    assert forall i :: 1 <= i < |tags| ==> tags[i] == tags[1..][i - 1];
  }

  /** The counters after the given outcomes: each counter is the number of outcomes
      of its kind, so a query adds to `processed`, an unknown service only to
      `failed`, and a missing geometry or a failed write to both. */
  function Count(tags: seq<Outcome>): (r: Totals)
    ensures r.processed == CountWhere(tags, Queried)
    ensures r.updated == CountWhere(tags, IsUpdated)
    ensures r.failed == CountWhere(tags, Failed)
    ensures r.skipped == CountWhere(tags, IsSkipped)
    ensures r.unreadable == CountWhere(tags, IsUnreadable)
    ensures r.updated + r.failed + r.skipped + r.unreadable == |tags|
    ensures r.updated == 0 <==> forall i :: 0 <= i < |tags| ==> !tags[i].Updated?
    ensures r.skipped == 0 <==> forall i :: 0 <= i < |tags| ==> !tags[i].Skipped?
    ensures r.unreadable == 0 <==> forall i :: 0 <= i < |tags| ==> !tags[i].Unreadable?
    ensures r.processed <= r.updated + r.failed
    ensures (forall i :: 0 <= i < |tags| ==> !tags[i].UnknownApi?) ==> r.processed == r.updated + r.failed
  {
    if tags == [] then Totals(0, 0, 0, 0, 0)
    else
      var rest := Count(tags[1..]);
      AddTallies(tags, rest);
      Add(tags[0], rest)
  }

  /** The number of sites the loop attempted: every visited site not skipped. */
  function Attempts(tags: seq<Outcome>): (r: nat)
    ensures r == |tags| - Count(tags).skipped
  {
    if tags == [] then 0
    else
      assert forall i :: 1 <= i < |tags| ==> tags[i] == tags[1..][i - 1];
      Attempts(tags[1..]) + (if tags[0].Skipped? then 0 else 1)
  }

  /** The query-and-write part common to the three loops: unknown service, no
      geometry, failed write, or the update with the service's source text. */
  function QueryAndWrite(file: Option<FileState>, config: SiteConfig, oracle: Oracle, today: string, edit: ApproxEdit): (r: (Option<SiteRecord>, Outcome))
    ensures Queried(r.1) || r.1.UnknownApi?
    ensures r.1.UnknownApi? <==> config.api !in Apis
    ensures r.0.Some? <==> r.1.Updated?
    ensures r.1.Updated? <==> config.api in Apis && QueryArcGis(oracle(config)).Some? && file.Some? && file.value.Valid?
    ensures r.1.Updated? ==>
      r.0.value == Stamp(file.value.rec, QueryArcGis(oracle(config)).value, High, SourceFor(config.api), today, edit)
  {
    if config.api !in Apis then (None, UnknownApi)
    else match QueryArcGis(oracle(config))
      case None => (None, NoGeometry)
      case Some(g) =>
        match UpdateSiteFile(file, g, SourceFor(config.api), today, edit)
        case None => (None, WriteFailed)
        case Some(rec) => (Some(rec), Updated)
  }
}
