/** The batch fetcher over the ArcGIS services: records already `high` are
    skipped, every other configured site is queried and rewritten, and the loop
    breaks once ten sites were attempted and at least one was updated. */
module FetchAllReal {
  import opened Wrappers
  import opened GeoJson
  import opened Seqs
  import opened Sites
  import opened Batch
  import opened ArcGis

  /** `MAX_SITES_PER_RUN`. */
  const MaxSitesPerRun: nat := 10

  /** One site: a readable `high` record is skipped before any query; an unreadable
      or missing file only draws a warning and goes on to the query; the update
      removes `approximateArea`. */
  function Step(oracle: Oracle, today: string): (SiteId, SiteConfig, Option<FileState>) -> Effect<Outcome>
  {
    (id: SiteId, config: SiteConfig, file: Option<FileState>) =>
      if file.Some? && FileIsHigh(file.value) then Effect(None, Skipped)
      else
        var (write, outcome) := QueryAndWrite(file, config, oracle, today, DeleteApprox);
        Effect(write, outcome)
  }

  /** The `break` test, asked before each site. */
  function Stop(): seq<Outcome> -> bool
  {
    tags => Attempts(tags) >= MaxSitesPerRun && Count(tags).updated > 0
  }

  /** `processAllSites()`: the store afterwards and the outcome of every visited
      site. The loop stops before the first site at which ten sites were attempted
      with an update among them, and not earlier; without any update every site
      is attempted. */
  function ProcessAllSites(sites: seq<(SiteId, SiteConfig)>, oracle: Oracle, store: Store, today: string): (r: Run<Outcome>)
    ensures r.store.Keys == store.Keys
    ensures |r.tags| <= |sites|
    ensures |r.tags| < |sites| ==> Attempts(r.tags) >= MaxSitesPerRun && Count(r.tags).updated > 0
    ensures Count(r.tags).updated == 0 ==> |r.tags| == |sites|
    ensures forall n :: 0 <= n < |r.tags| ==> !(Attempts(r.tags[..n]) >= MaxSitesPerRun && Count(r.tags[..n]).updated > 0)
  {
    var r := RunSites(sites, Step(oracle, today), Stop(), Run(store, []));
    assert forall n :: 0 <= n < |r.tags| ==> !Stop()(r.tags[..n]);
    r
  }

  /** A readable `high` record is skipped whatever the service would reply, and
      its file is not written. */
  lemma HighSkippedWithoutQuery(id: SiteId, config: SiteConfig, rec: SiteRecord, oracle1: Oracle, oracle2: Oracle, today: string)
    requires IsHigh(rec)
    ensures Step(oracle1, today)(id, config, Some(Valid(rec))) == Step(oracle2, today)(id, config, Some(Valid(rec)))
    ensures Step(oracle1, today)(id, config, Some(Valid(rec))) == Effect(None, Skipped)
  {
  }

  /** A missing or unreadable file is not skipped: it goes to the query (the write
      then fails), and a known service makes it an attempt. */
  lemma UnreadableIsQueried(id: SiteId, config: SiteConfig, file: Option<FileState>, oracle: Oracle, today: string)
    requires file.None? || file.value.Corrupt?
    ensures var e := Step(oracle, today)(id, config, file);
      && e.write.None?
      && (config.api in Apis ==> Queried(e.tag) && !e.tag.Updated?)
      && (config.api !in Apis ==> e.tag == UnknownApi)
  {
    var qw := QueryAndWrite(file, config, oracle, today, DeleteApprox);
    assert Step(oracle, today)(id, config, file) == Effect(qw.0, qw.1);
  }

  /** With distinct ids, a site the loop reaches that is not already `high` and whose
      service returns a geometry gets it, with `approximateArea` removed. */
  lemma ProcessAllSitesEffect(sites: seq<(SiteId, SiteConfig)>, oracle: Oracle, store: Store, today: string, k: nat)
    requires DistinctKeys(sites) && k < |sites|
    requires sites[k].0 in store && store[sites[k].0].Valid? && !IsHigh(store[sites[k].0].rec)
    requires sites[k].1.api in Apis && QueryArcGis(oracle(sites[k].1)).Some?
    ensures var r := ProcessAllSites(sites, oracle, store, today);
      |r.tags| > k ==>
        && r.tags[k] == Updated
        && r.store[sites[k].0] == Valid(Stamp(store[sites[k].0].rec, QueryArcGis(oracle(sites[k].1)).value, High,
                                             SourceFor(sites[k].1.api), today, DeleteApprox))
  {
    var (id, config) := sites[k];
    var file := Lookup(store, id);
    var qw := QueryAndWrite(file, config, oracle, today, DeleteApprox);
    assert qw.1 == Updated;
    assert Step(oracle, today)(id, config, file) == Effect(qw.0, qw.1);
    RunSitesEffect(sites, Step(oracle, today), Stop(), Run(store, []), k);
  }
}
