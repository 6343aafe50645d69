/** The loop shared by the site-update scripts: walk a table of site ids in order,
    let a step read the site's file, possibly rewrite it, and report an outcome
    tag; the scripts' counters are counts of these tags. A `stop` test on the
    tags so far models an early `break`. */
module Batch {
  import opened Wrappers
  import opened Seqs
  import opened Sites

  /** What a step does to one site: the record to write, if any, and its outcome. */
  datatype Effect<T> = Effect(write: Option<SiteRecord>, tag: T)

  /** The site's file as the step finds it; None when there is no file. */
  function Lookup(store: Store, id: SiteId): (r: Option<FileState>)
    ensures r.Some? <==> id in store
    ensures id in store ==> r.value == store[id]
  {
    if id in store then Some(store[id]) else None
  }

  /** Writes the step's record, when there is one, over an existing file. */
  function Commit<T>(store: Store, id: SiteId, e: Effect<T>): (r: Store)
    ensures r.Keys == store.Keys
    ensures forall other :: other in store && other != id ==> r[other] == store[other]
    ensures id in store && e.write.Some? ==> r[id] == Valid(e.write.value)
    ensures id in store && e.write.None? ==> r[id] == store[id]
  {
    if id in store && e.write.Some? then store[id := Valid(e.write.value)] else store
  }

  /** The store so far and the outcome tags of the sites visited, in table order. */
  datatype Run<T> = Run(store: Store, tags: seq<T>)

  /** The loop: before each site the `stop` test is asked about the tags so far,
      and the loop ends at the first site where it holds. */
  function RunSites<C, T>(sites: seq<(SiteId, C)>, step: (SiteId, C, Option<FileState>) -> Effect<T>,
                          stop: seq<T> -> bool, acc: Run<T>): (r: Run<T>)
    ensures r.store.Keys == acc.store.Keys
    ensures |acc.tags| <= |r.tags| <= |acc.tags| + |sites|
    ensures forall i :: 0 <= i < |acc.tags| ==> r.tags[i] == acc.tags[i]
    ensures |r.tags| < |acc.tags| + |sites| ==> stop(r.tags)
    ensures forall n :: |acc.tags| <= n < |r.tags| ==> !stop(r.tags[..n])
    ensures forall id :: id in acc.store && KeyAbsent(sites, id) ==> r.store[id] == acc.store[id]
    decreases |sites|
  {
    if sites == [] || stop(acc.tags) then acc
    else
      var (id, c) := sites[0];
      var e := step(id, c, Lookup(acc.store, id));
      KeyAbsentTailAll(sites);
      var r := RunSites(sites[1..], step, stop, Run(Commit(acc.store, id, e), acc.tags + [e.tag]));
      assert r.tags[..|acc.tags|] == acc.tags;
      r
  }

  /** A loop without `break`. */
  function NeverStop<T>(): seq<T> -> bool
  {
    _ => false
  }

  /** Without a `break` every site is visited. */
  lemma RunSitesComplete<C, T>(sites: seq<(SiteId, C)>, step: (SiteId, C, Option<FileState>) -> Effect<T>, acc: Run<T>)
    ensures |RunSites(sites, step, NeverStop(), acc).tags| == |acc.tags| + |sites|
  {
  }

  /** With distinct ids, the `k`-th site, when the loop reaches it, gets the tag its
      step computes from the site's ORIGINAL file, and ends up holding what that
      step writes; a site the loop stops before is left as it was. */
  lemma {:induction false} RunSitesEffect<C, T>(sites: seq<(SiteId, C)>, step: (SiteId, C, Option<FileState>) -> Effect<T>,
                                                stop: seq<T> -> bool, acc: Run<T>, k: nat)
    requires DistinctKeys(sites) && k < |sites|
    ensures var r := RunSites(sites, step, stop, acc);
      var (id, c) := sites[k];
      var e := step(id, c, Lookup(acc.store, id));
      && (|r.tags| > |acc.tags| + k ==> r.tags[|acc.tags| + k] == e.tag)
      && (|r.tags| > |acc.tags| + k && id in acc.store ==> r.store[id] == Commit(acc.store, id, e)[id])
      && (|r.tags| <= |acc.tags| + k && id in acc.store ==> r.store[id] == acc.store[id])
    decreases |sites|
  {
    if stop(acc.tags) {
      return;
    }
    var (id0, c0) := sites[0];
    var e0 := step(id0, c0, Lookup(acc.store, id0));
    var next := Run(Commit(acc.store, id0, e0), acc.tags + [e0.tag]);
    var r := RunSites(sites[1..], step, stop, next);
    assert RunSites(sites, step, stop, acc) == r;
    DistinctKeysTail(sites);
    if k == 0 {
      assert next.tags[|acc.tags|] == e0.tag;
    } else {
      var (id, c) := sites[k];
      assert sites[1..][k - 1] == sites[k];
      assert id != id0;
      assert Lookup(next.store, id) == Lookup(acc.store, id);
      RunSitesEffect(sites[1..], step, stop, next, k - 1);
    }
  }
}
