/** The plain ArcGIS query script: every configured site is queried, with no
    freeze check, and rewritten keeping `approximateArea`. */
module QueryArcgis {
  import opened Wrappers
  import opened GeoJson
  import opened Seqs
  import opened Sites
  import opened Batch
  import opened ArcGis

  /** One site: unknown service, or query and rewrite; `approximateArea` is kept. */
  function Step(oracle: Oracle, today: string): (SiteId, SiteConfig, Option<FileState>) -> Effect<Outcome>
  {
    (id: SiteId, config: SiteConfig, file: Option<FileState>) =>
      var qw := QueryAndWrite(file, config, oracle, today, KeepApprox);
      Effect(qw.0, qw.1)
  }

  /** A table entry whose service is in `APIs`. */
  predicate KnownApi(e: (SiteId, SiteConfig))
  {
    e.1.api in Apis
  }

  /** An entry the script updates: a known service, a geometry in its reply, and a
      readable site file. */
  function Answered(oracle: Oracle, store: Store): ((SiteId, SiteConfig)) -> bool
  {
    (e: (SiteId, SiteConfig)) => e.1.api in Apis && QueryArcGis(oracle(e.1)).Some? && e.0 in store && store[e.0].Valid?
  }

  /** `processAllSites()`: each site adds exactly one of updated or failed. A site
      with an unknown service adds only to `failed`; every other site is queried
      and adds to `processed`. With distinct ids, each site's outcome is what the
      query and rewrite of its original file give, so `updated` counts the sites
      with a known service, a geometry and a readable file. */
  function ProcessAllSites(sites: seq<(SiteId, SiteConfig)>, oracle: Oracle, store: Store, today: string): (r: Run<Outcome>)
    ensures r.store.Keys == store.Keys
    ensures |r.tags| == |sites|
    ensures Count(r.tags).updated + Count(r.tags).failed == |sites|
    ensures forall k :: 0 <= k < |sites| ==> (Queried(r.tags[k]) <==> KnownApi(sites[k])) && (r.tags[k].UnknownApi? <==> !KnownApi(sites[k]))
    ensures Count(r.tags).processed == CountWhere(sites, KnownApi)
    ensures Count(r.tags).processed <= |sites|
    ensures (forall k :: 0 <= k < |sites| ==> sites[k].1.api in Apis) ==> Count(r.tags).processed == |sites|
    ensures DistinctKeys(sites) ==> forall k :: 0 <= k < |sites| ==>
      r.tags[k] == QueryAndWrite(Lookup(store, sites[k].0), sites[k].1, oracle, today, KeepApprox).1
    ensures DistinctKeys(sites) ==> Count(r.tags).updated == CountWhere(sites, Answered(oracle, store))
  {
    RunSitesComplete(sites, Step(oracle, today), Run(store, []));
    var r := RunSites(sites, Step(oracle, today), NeverStop(), Run(store, []));
    NoSkips(sites, oracle, store, today);
    CountQueried(r.tags);
    CountWhereMatch(r.tags, Queried, sites, KnownApi);
    UpdatedSites(sites, oracle, store, today);
    r
  }

  /** With distinct ids, the outcome of every site is that of its original file,
      and the updates are exactly the answered sites. */
  lemma UpdatedSites(sites: seq<(SiteId, SiteConfig)>, oracle: Oracle, store: Store, today: string)
    ensures var r := RunSites(sites, Step(oracle, today), NeverStop(), Run(store, []));
      DistinctKeys(sites) ==>
        && (forall k :: 0 <= k < |sites| ==>
              k < |r.tags| && r.tags[k] == QueryAndWrite(Lookup(store, sites[k].0), sites[k].1, oracle, today, KeepApprox).1)
        && Count(r.tags).updated == CountWhere(sites, Answered(oracle, store))
  {
    var r := RunSites(sites, Step(oracle, today), NeverStop(), Run(store, []));
    RunSitesComplete(sites, Step(oracle, today), Run(store, []));
    if DistinctKeys(sites) {
      forall k | 0 <= k < |sites|
        ensures r.tags[k] == QueryAndWrite(Lookup(store, sites[k].0), sites[k].1, oracle, today, KeepApprox).1
        ensures r.tags[k].Updated? <==> Answered(oracle, store)(sites[k])
      {
        var (id, config) := sites[k];
        var qw := QueryAndWrite(Lookup(store, id), config, oracle, today, KeepApprox);
        assert Step(oracle, today)(id, config, Lookup(store, id)) == Effect(qw.0, qw.1);
        RunSitesEffect(sites, Step(oracle, today), NeverStop(), Run(store, []), k);
      }
      CountWhereMatch(r.tags, IsUpdated, sites, Answered(oracle, store));
    }
  }

  /** Counters of outcomes that are all queries or unknown services. */
  lemma CountQueried(tags: seq<Outcome>)
    requires forall i :: 0 <= i < |tags| ==> Queried(tags[i]) || tags[i].UnknownApi?
    ensures Count(tags).updated + Count(tags).failed == |tags| && Count(tags).processed <= |tags|
    ensures (forall i :: 0 <= i < |tags| ==> Queried(tags[i])) ==> Count(tags).processed == |tags|
  {
    assert forall i :: 0 <= i < |tags| ==> !tags[i].Skipped? && !tags[i].Unreadable?;
    if forall i :: 0 <= i < |tags| ==> Queried(tags[i]) {
      assert forall i :: 0 <= i < |tags| ==> !tags[i].UnknownApi?;
    }
  }

  /** No site is skipped or passed over, and a known service always leads to a query. */
  lemma NoSkips(sites: seq<(SiteId, SiteConfig)>, oracle: Oracle, store: Store, today: string)
    ensures var r := RunSites(sites, Step(oracle, today), NeverStop(), Run(store, []));
      && (forall i :: 0 <= i < |r.tags| ==> Queried(r.tags[i]) || r.tags[i].UnknownApi?)
      && (forall i :: 0 <= i < |r.tags| ==> (Queried(r.tags[i]) <==> KnownApi(sites[i])) && (r.tags[i].UnknownApi? <==> !KnownApi(sites[i])))
      && ((forall k :: 0 <= k < |sites| ==> sites[k].1.api in Apis) ==> forall i :: 0 <= i < |r.tags| ==> Queried(r.tags[i]))
  {
    var r := RunSites(sites, Step(oracle, today), NeverStop(), Run(store, []));
    RunSitesComplete(sites, Step(oracle, today), Run(store, []));
    forall i | 0 <= i < |r.tags|
      ensures Queried(r.tags[i]) || r.tags[i].UnknownApi?
      ensures r.tags[i].UnknownApi? <==> !KnownApi(sites[i])
      ensures sites[i].1.api in Apis ==> Queried(r.tags[i])
    {
      TagOf(sites, oracle, store, today, i);
    }
  }

  /** The tag of the `i`-th site is what `QueryAndWrite` reports for it. */
  lemma {:induction false} TagOf(sites: seq<(SiteId, SiteConfig)>, oracle: Oracle, store: Store, today: string, i: nat)
    requires i < |sites|
    ensures var r := RunSites(sites, Step(oracle, today), NeverStop(), Run(store, []));
      && |r.tags| == |sites| && (Queried(r.tags[i]) || r.tags[i].UnknownApi?)
      && (r.tags[i].UnknownApi? <==> sites[i].1.api !in Apis)
      && (sites[i].1.api in Apis ==> Queried(r.tags[i]))
  {
    RunSitesComplete(sites, Step(oracle, today), Run(store, []));
    TagOfFrom(sites, oracle, Run(store, []), today, i);
  }

  lemma {:induction false} TagOfFrom(sites: seq<(SiteId, SiteConfig)>, oracle: Oracle, acc: Run<Outcome>, today: string, i: nat)
    requires i < |sites|
    ensures var r := RunSites(sites, Step(oracle, today), NeverStop(), acc);
      |r.tags| == |acc.tags| + |sites|
      && (Queried(r.tags[|acc.tags| + i]) || r.tags[|acc.tags| + i].UnknownApi?)
      && (r.tags[|acc.tags| + i].UnknownApi? <==> sites[i].1.api !in Apis)
      && (sites[i].1.api in Apis ==> Queried(r.tags[|acc.tags| + i]))
    decreases |sites|
  {
    RunSitesComplete(sites, Step(oracle, today), acc);
    var (id, config) := sites[0];
    var e := Step(oracle, today)(id, config, Lookup(acc.store, id));
    var next := Run(Commit(acc.store, id, e), acc.tags + [e.tag]);
    var qw := QueryAndWrite(Lookup(acc.store, id), config, oracle, today, KeepApprox);
    assert e == Effect(qw.0, qw.1);
    if i > 0 {
      TagOfFrom(sites[1..], oracle, next, today, i - 1);
      assert sites[1..][i - 1] == sites[i];
    }
  }

  /** There is no freeze: a `high` record is queried and overwritten like any other,
      and its `approximateArea` flag survives. */
  lemma HighOverwritten(sites: seq<(SiteId, SiteConfig)>, oracle: Oracle, store: Store, today: string, k: nat)
    requires DistinctKeys(sites) && k < |sites|
    requires sites[k].0 in store && store[sites[k].0].Valid?
    requires sites[k].1.api in Apis && QueryArcGis(oracle(sites[k].1)).Some?
    ensures var r := ProcessAllSites(sites, oracle, store, today);
      var (id, config) := sites[k];
      && r.tags[k] == Updated
      && r.store[id] == Valid(Stamp(store[id].rec, QueryArcGis(oracle(config)).value, High, SourceFor(config.api), today, KeepApprox))
      && r.store[id].rec.metadata.value.approximateArea == store[id].rec.metadata.GetOr(EmptyMetadata).approximateArea
  {
    var (id, config) := sites[k];
    var file := Lookup(store, id);
    var qw := QueryAndWrite(file, config, oracle, today, KeepApprox);
    assert Step(oracle, today)(id, config, file) == Effect(qw.0, qw.1);
    RunSitesComplete(sites, Step(oracle, today), Run(store, []));
    RunSitesEffect(sites, Step(oracle, today), NeverStop(), Run(store, []), k);
  }
}
