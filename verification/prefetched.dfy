/** Applying boundaries fetched by hand: each entry of the pre-fetched table is
    written into its site file unless the record is already `high`. */
module Prefetched {
  import opened Wrappers
  import opened GeoJson
  import opened Seqs
  import opened Sites
  import opened Batch

  /** One pre-fetched entry: the geometry and its source text. */
  datatype Entry = Entry(geometry: Geometry, source: string)

  /** `updateSiteFile`'s result string. */
  datatype ApplyResult = ResUpdated | ResSkipped | ResFailed

  /** `updateSiteFile(siteId, geometry, source)`: a missing or unreadable file fails,
      a `high` record is skipped unchanged, anything else is rewritten with `high`,
      the entry's source and the date, and `approximateArea` removed. */
  function UpdateSiteFile(file: Option<FileState>, entry: Entry, today: string): (r: Effect<ApplyResult>)
    ensures r.tag == ResFailed <==> file.None? || file.value.Corrupt?
    ensures r.tag == ResSkipped <==> file.Some? && FileIsHigh(file.value)
    ensures r.write.Some? <==> r.tag == ResUpdated
    ensures r.tag == ResUpdated ==>
      r.write.value == Stamp(file.value.rec, entry.geometry, High, entry.source, today, DeleteApprox)
  {
    match file
    case None => Effect(None, ResFailed)
    case Some(Corrupt) => Effect(None, ResFailed)
    case Some(Valid(rec)) =>
      if IsHigh(rec) then Effect(None, ResSkipped)
      else Effect(Some(Stamp(rec, entry.geometry, High, entry.source, today, DeleteApprox)), ResUpdated)
  }

  /** The first application marks the record `high`, so applying the same entry
      again is skipped and leaves the record as the first application wrote it. */
  lemma UpdateSiteFileIdempotent(rec: SiteRecord, entry: Entry, today: string)
    requires !IsHigh(rec)
    ensures var first := UpdateSiteFile(Some(Valid(rec)), entry, today);
      && first.tag == ResUpdated
      && UpdateSiteFile(Some(Valid(first.write.value)), entry, today) == Effect(None, ResSkipped)
  {
  }

  function Step(today: string): (SiteId, Entry, Option<FileState>) -> Effect<ApplyResult>
  {
    (id: SiteId, entry: Entry, file: Option<FileState>) => UpdateSiteFile(file, entry, today)
  }

  /** The counters: each entry adds to exactly one of them. */
  datatype Totals = Totals(updated: nat, skipped: nat, failed: nat)

  predicate IsUpdated(t: ApplyResult) { t == ResUpdated }

  predicate IsSkipped(t: ApplyResult) { t == ResSkipped }

  predicate IsFailed(t: ApplyResult) { t == ResFailed }

  /** Each counter is the number of results of its kind. */
  function Count(tags: seq<ApplyResult>): (r: Totals)
    ensures r.updated == CountWhere(tags, IsUpdated)
    ensures r.skipped == CountWhere(tags, IsSkipped)
    ensures r.failed == CountWhere(tags, IsFailed)
    ensures r.updated + r.skipped + r.failed == |tags|
    ensures r.updated == 0 <==> forall i :: 0 <= i < |tags| ==> tags[i] != ResUpdated
  {
    if tags == [] then Totals(0, 0, 0)
    else
      var rest := Count(tags[1..]);
      assert forall i :: 1 <= i < |tags| ==> tags[i] == tags[1..][i - 1];
      match tags[0]
      case ResUpdated => rest.(updated := rest.updated + 1)
      case ResSkipped => rest.(skipped := rest.skipped + 1)
      case ResFailed => rest.(failed := rest.failed + 1)
  }

  /** The main block: an empty table exits before anything is read (None);
      otherwise every entry is applied in order. */
  function Apply(entries: seq<(SiteId, Entry)>, store: Store, today: string): (r: Option<(Store, Totals)>)
    ensures r.None? <==> entries == []
    ensures r.Some? ==> r.value.0.Keys == store.Keys
    ensures r.Some? ==> r.value.1.updated + r.value.1.skipped + r.value.1.failed == |entries|
  {
    if entries == [] then None
    else
      RunSitesComplete(entries, Step(today), Run(store, []));
      var run := RunSites(entries, Step(today), NeverStop(), Run(store, []));
      Some((run.store, Count(run.tags)))
  }

  /** With distinct ids, a `high` record keeps its contents, and any other readable
      record receives its entry. */
  lemma ApplyEffect(entries: seq<(SiteId, Entry)>, store: Store, today: string, k: nat)
    requires DistinctKeys(entries) && k < |entries|
    requires entries[k].0 in store && store[entries[k].0].Valid?
    ensures var r := Apply(entries, store, today);
      var (id, entry) := entries[k];
      && r.Some?
      && (IsHigh(store[id].rec) ==> r.value.0[id] == store[id])
      && (!IsHigh(store[id].rec) ==>
            r.value.0[id] == Valid(Stamp(store[id].rec, entry.geometry, High, entry.source, today, DeleteApprox)))
  {
    RunSitesComplete(entries, Step(today), Run(store, []));
    RunSitesEffect(entries, Step(today), NeverStop(), Run(store, []), k);
  }
}
