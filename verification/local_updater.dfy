/** The local batch updater over the ArcGIS services: like the batch fetcher, but a
    site whose file is missing or unreadable is passed over without being counted,
    and there is no per-run limit. */
module LocalUpdater {
  import opened Wrappers
  import opened GeoJson
  import opened Seqs
  import opened Sites
  import opened Batch
  import opened ArcGis

  /** One site: a missing or unreadable file is passed over, a `high` record is
      skipped, anything else is queried and rewritten without `approximateArea`. */
  function Step(oracle: Oracle, today: string): (SiteId, SiteConfig, Option<FileState>) -> Effect<Outcome>
  {
    (id: SiteId, config: SiteConfig, file: Option<FileState>) =>
      if file.None? || file.value.Corrupt? then Effect(None, Unreadable)
      else if IsHigh(file.value.rec) then Effect(None, Skipped)
      else
        var qw := QueryAndWrite(file, config, oracle, today, DeleteApprox);
        Effect(qw.0, qw.1)
  }

  /** `processAllSites()`: every configured site is visited; `total` is the table size. */
  function ProcessAllSites(sites: seq<(SiteId, SiteConfig)>, oracle: Oracle, store: Store, today: string): (r: Run<Outcome>)
    ensures r.store.Keys == store.Keys
    ensures |r.tags| == |sites|
    ensures var t := Count(r.tags); t.updated + t.failed + t.skipped <= |sites|
    ensures var t := Count(r.tags); t.updated + t.failed + t.skipped + t.unreadable == |sites|
  {
    RunSitesComplete(sites, Step(oracle, today), Run(store, []));
    RunSites(sites, Step(oracle, today), NeverStop(), Run(store, []))
  }

  /** A missing or unreadable file is counted in none of updated, failed, skipped,
      and nothing is queried or written for it. */
  lemma UnreadableUncounted(id: SiteId, config: SiteConfig, file: Option<FileState>, oracle1: Oracle, oracle2: Oracle, today: string)
    requires file.None? || file.value.Corrupt?
    ensures Step(oracle1, today)(id, config, file) == Step(oracle2, today)(id, config, file) == Effect(None, Unreadable)
  {
  }

  /** A readable `high` record is skipped whatever the service would reply. */
  lemma HighSkippedWithoutQuery(id: SiteId, config: SiteConfig, rec: SiteRecord, oracle1: Oracle, oracle2: Oracle, today: string)
    requires IsHigh(rec)
    ensures Step(oracle1, today)(id, config, Some(Valid(rec))) == Step(oracle2, today)(id, config, Some(Valid(rec))) == Effect(None, Skipped)
  {
  }

  /** With distinct ids, each site's outcome and final file: unknown service or no
      geometry is a failure that writes nothing; a geometry is written with `high`,
      the service's source text and `approximateArea` removed. */
  lemma ProcessAllSitesEffect(sites: seq<(SiteId, SiteConfig)>, oracle: Oracle, store: Store, today: string, k: nat)
    requires DistinctKeys(sites) && k < |sites|
    requires sites[k].0 in store && store[sites[k].0].Valid? && !IsHigh(store[sites[k].0].rec)
    ensures var r := ProcessAllSites(sites, oracle, store, today);
      var (id, config) := sites[k];
      && (config.api !in Apis ==> r.tags[k] == UnknownApi && r.store[id] == store[id])
      && (config.api in Apis && QueryArcGis(oracle(config)).None? ==> r.tags[k] == NoGeometry && r.store[id] == store[id])
      && (config.api in Apis && QueryArcGis(oracle(config)).Some? ==>
            r.tags[k] == Updated
            && r.store[id] == Valid(Stamp(store[id].rec, QueryArcGis(oracle(config)).value, High, SourceFor(config.api), today, DeleteApprox)))
  {
    var (id, config) := sites[k];
    var file := Lookup(store, id);
    var qw := QueryAndWrite(file, config, oracle, today, DeleteApprox);
    assert Step(oracle, today)(id, config, file) == Effect(qw.0, qw.1);
    RunSitesComplete(sites, Step(oracle, today), Run(store, []));
    RunSitesEffect(sites, Step(oracle, today), NeverStop(), Run(store, []), k);
  }
}
