/** Extraction of site boundaries from downloaded source files: every site of the
    matching table is looked up in every `.geojson` file of the sources directory,
    and the first matching feature's geometry is written into the site's file. */
module ExtractSources {
  import opened Wrappers
  import opened Text
  import opened GeoJson
  import opened Seqs
  import opened Sites

  /** The property keys probed for a feature's name, in priority order. */
  const NameKeys: seq<string> := ["name", "FORESTNAME", "UNIT_NAME", "Unit_Nm", "ORGNAME", "NAME"]

  /** One entry of the matching table: the expected names and the designation. */
  datatype Criteria = Criteria(names: seq<string>, designation: string)

  /** `(props.name || props.FORESTNAME || ... || '').toLowerCase()`, with missing
      properties read as `{}`. Nothing is trimmed. */
  function FeatureName(f: Feature): string
  {
    ToLower(FirstNonEmpty(f.properties.GetOr(map[]), NameKeys))
  }

  /** `matchFeature(feature, criteria)`: some lower-cased expected name contains the
      feature name or is contained in it. */
  predicate MatchFeature(f: Feature, c: Criteria)
  {
    exists i :: 0 <= i < |c.names| && (Includes(FeatureName(f), ToLower(c.names[i]))
      || Includes(ToLower(c.names[i]), FeatureName(f)))
  }

  /** The match is the case-insensitive two-way containment test between the raw
      feature name and some expected name. */
  lemma MatchFeatureIff(f: Feature, c: Criteria)
    ensures MatchFeature(f, c) <==>
      exists i :: 0 <= i < |c.names| && TwoWayMatch(FirstNonEmpty(f.properties.GetOr(map[]), NameKeys), c.names[i])
  {
    ToLowerIdempotent(FirstNonEmpty(f.properties.GetOr(map[]), NameKeys));
  }

  /** A feature with none of the name keys matches every site that lists a name. */
  lemma NamelessFeatureMatchesAll(f: Feature, c: Criteria)
    requires forall i :: 0 <= i < |NameKeys| ==> Prop(f.properties.GetOr(map[]), NameKeys[i]) == ""
    requires |c.names| > 0
    ensures MatchFeature(f, c)
  {
    assert FeatureName(f) == "";
    IncludesTrivial(ToLower(c.names[0]));
  }

  function Matcher(c: Criteria): Feature -> bool
  {
    f => MatchFeature(f, c)
  }

  /** `features.find(f => matchFeature(f, criteria))`. */
  function FindMatch(features: seq<Feature>, c: Criteria): (r: Option<Feature>)
    ensures r.None? <==> forall i :: 0 <= i < |features| ==> !MatchFeature(features[i], c)
    ensures r.Some? ==> exists i :: (0 <= i < |features| && features[i] == r.value
      && MatchFeature(features[i], c) && forall j :: 0 <= j < i ==> !MatchFeature(features[j], c))
  {
    Find(features, Matcher(c))
  }

  /** The lookup of one parsed file. */
  function FileLookup(features: seq<Feature>): Criteria -> Option<Feature>
  {
    c => FindMatch(features, c)
  }

  /** `${designation} boundaries from authoritative source`. */
  function SourceText(c: Criteria): string
  {
    c.designation + " boundaries from authoritative source"
  }

  /** A per-site failure or a whole-file failure. */
  datatype ErrorEntry = SiteError(site: SiteId) | FileError(file: string)

  /** The store after a run, and the `processed`, `updated` and `errors` results. */
  datatype Outcome = Outcome(store: Store, processed: nat, updated: nat, errors: seq<ErrorEntry>)

  /** The table entries whose site id is in `ids` and for which `lookup` finds a
      feature. */
  function Hit(lookup: Criteria -> Option<Feature>, ids: set<SiteId>): ((SiteId, Criteria)) -> bool
  {
    (e: (SiteId, Criteria)) => e.0 in ids && lookup(e.1).Some?
  }

  /** The sites whose file can be read and parsed. */
  function ReadableIds(store: Store): set<SiteId>
  {
    set id | id in store && store[id].Valid?
  }

  /** One `SiteError` per table entry, in order. */
  function SiteErrors(es: seq<(SiteId, Criteria)>): (r: seq<ErrorEntry>)
    ensures |r| == |es|
    ensures forall i :: 0 <= i < |es| ==> r[i] == SiteError(es[i].0)
  {
    if es == [] then [] else [SiteError(es[0].0)] + SiteErrors(es[1..])
  }

  /** A site's file after its table entry: a readable file with a match receives
      the match's geometry; any other file is left as it is. */
  function SiteResult(before: FileState, found: Option<Feature>, c: Criteria, today: string): FileState
  {
    if found.Some? && before.Valid? then Valid(Stamp(before.rec, found.value.geometry, High, SourceText(c), today, KeepApprox))
    else before
  }

  /** One site of the loop: a site without a file is skipped uncounted; with no
      matching feature nothing happens; a match is counted processed, and either
      updates a readable file (geometry, `high`, source, date; `approximateArea`
      untouched) or records an error for an unreadable one. */
  function ProcessSite(id: SiteId, c: Criteria, lookup: Criteria -> Option<Feature>, acc: Outcome, today: string): (r: Outcome)
    ensures r.store.Keys == acc.store.Keys
    ensures ReadableIds(r.store) == ReadableIds(acc.store)
    ensures forall other :: other in acc.store && other != id ==> r.store[other] == acc.store[other]
    ensures r.errors == acc.errors || r.errors == acc.errors + [SiteError(id)]
    ensures r.processed - r.updated == acc.processed - acc.updated + |r.errors| - |acc.errors|
    ensures acc.processed <= r.processed <= acc.processed + 1
    ensures acc.updated <= r.updated
    ensures id !in acc.store || lookup(c).None? ==> r == acc
    ensures id in acc.store && lookup(c).Some? ==>
      && r.processed == acc.processed + 1
      && (acc.store[id].Valid? <==> r.updated == acc.updated + 1)
      && (acc.store[id].Corrupt? <==> r.errors == acc.errors + [SiteError(id)])
    ensures id in acc.store ==> r.store == acc.store[id := SiteResult(acc.store[id], lookup(c), c, today)]
  {
    if id !in acc.store then acc
    else match lookup(c)
      case None => acc
      case Some(m) =>
        match acc.store[id]
        case Corrupt =>
          acc.(processed := acc.processed + 1, errors := acc.errors + [SiteError(id)])
        case Valid(rec) =>
          var rec' := Stamp(rec, m.geometry, High, SourceText(c), today, KeepApprox);
          var r := acc.(store := acc.store[id := Valid(rec')], processed := acc.processed + 1, updated := acc.updated + 1);
          assert ReadableIds(r.store) == ReadableIds(acc.store);
          r
  }

  /** `processed` after one more table entry: the entry counts when its site has
      a file and a match. */
  lemma CountsStepProcessed(x: (SiteId, Criteria), rest: seq<(SiteId, Criteria)>, lookup: Criteria -> Option<Feature>, acc: Outcome, today: string, r: Outcome)
    requires var step := ProcessSite(x.0, x.1, lookup, acc, today);
      r.processed == step.processed + CountWhere(rest, Hit(lookup, step.store.Keys))
    ensures r.processed == acc.processed + CountWhere([x] + rest, Hit(lookup, acc.store.Keys))
  {
    var step := ProcessSite(x.0, x.1, lookup, acc, today);
    var all := Hit(lookup, acc.store.Keys);
    assert Hit(lookup, step.store.Keys) == all;
    ConsTail(x, rest);
  }

  /** `updated` after one more table entry: the entry counts when, besides, its
      file is readable. */
  lemma CountsStepUpdated(x: (SiteId, Criteria), rest: seq<(SiteId, Criteria)>, lookup: Criteria -> Option<Feature>, acc: Outcome, today: string, r: Outcome)
    requires var step := ProcessSite(x.0, x.1, lookup, acc, today);
      r.updated == step.updated + CountWhere(rest, Hit(lookup, ReadableIds(step.store)))
    ensures r.updated == acc.updated + CountWhere([x] + rest, Hit(lookup, ReadableIds(acc.store)))
  {
    var step := ProcessSite(x.0, x.1, lookup, acc, today);
    var readable := Hit(lookup, ReadableIds(acc.store));
    assert Hit(lookup, ReadableIds(step.store)) == readable;
    ConsTail(x, rest);
    if readable(x) {
      assert x.0 in acc.store && acc.store[x.0].Valid?;
    }
  }

  /** `errors` after one more table entry: the entry adds a site error when its
      file is unreadable. */
  lemma CountsStepErrors(x: (SiteId, Criteria), rest: seq<(SiteId, Criteria)>, lookup: Criteria -> Option<Feature>, acc: Outcome, today: string, r: Outcome)
    requires var step := ProcessSite(x.0, x.1, lookup, acc, today);
      r.errors == step.errors + SiteErrors(Filter(rest, Hit(lookup, step.store.Keys - ReadableIds(step.store))))
    ensures r.errors == acc.errors + SiteErrors(Filter([x] + rest, Hit(lookup, acc.store.Keys - ReadableIds(acc.store))))
  {
    var step := ProcessSite(x.0, x.1, lookup, acc, today);
    var unreadable := Hit(lookup, acc.store.Keys - ReadableIds(acc.store));
    assert step.store.Keys - ReadableIds(step.store) == acc.store.Keys - ReadableIds(acc.store);
    var corrupt := Filter(rest, unreadable);
    assert r.errors == step.errors + SiteErrors(corrupt);
    FilterCons(x, rest, unreadable);
    if unreadable(x) {
      assert x.0 in acc.store && lookup(x.1).Some? && acc.store[x.0].Corrupt?;
      assert step.errors == acc.errors + [SiteError(x.0)];
      assert SiteErrors([x] + corrupt) == [SiteError(x.0)] + SiteErrors(corrupt) by {
        assert ([x] + corrupt)[1..] == corrupt;
      }
      assert Filter([x] + rest, unreadable) == [x] + corrupt;
      AppendAssoc(acc.errors, [SiteError(x.0)], SiteErrors(corrupt));
    } else {
      assert x.0 !in acc.store || lookup(x.1).None? || acc.store[x.0].Valid?;
      assert step.errors == acc.errors;
      assert Filter([x] + rest, unreadable) == corrupt;
    }
  }

  /** The site loop of `processSourceFile`, in table order. `lookup` finds the
      feature for a site; the script's is `FindMatch` over the file's features. */
  function ProcessSites(sites: seq<(SiteId, Criteria)>, lookup: Criteria -> Option<Feature>, acc: Outcome, today: string): (r: Outcome)
    requires acc.processed == acc.updated + |acc.errors|
    ensures r.store.Keys == acc.store.Keys
    ensures r.processed == r.updated + |r.errors|
    ensures acc.processed <= r.processed <= acc.processed + |sites|
    ensures acc.updated <= r.updated
    ensures forall e :: e in r.errors ==> e in acc.errors || e.SiteError?
    ensures forall id :: id in acc.store && KeyAbsent(sites, id) ==> r.store[id] == acc.store[id]
    ensures ReadableIds(r.store) == ReadableIds(acc.store)
    ensures r.processed == acc.processed + CountWhere(sites, Hit(lookup, acc.store.Keys))
    ensures r.updated == acc.updated + CountWhere(sites, Hit(lookup, ReadableIds(acc.store)))
    ensures r.errors == acc.errors + SiteErrors(Filter(sites, Hit(lookup, acc.store.Keys - ReadableIds(acc.store))))
    decreases |sites|
  {
    if sites == [] then acc
    else
      var step := ProcessSite(sites[0].0, sites[0].1, lookup, acc, today);
      var r := ProcessSites(sites[1..], lookup, step, today);
      HeadTail(sites);
      CountsStepProcessed(sites[0], sites[1..], lookup, acc, today, r);
      CountsStepUpdated(sites[0], sites[1..], lookup, acc, today, r);
      CountsStepErrors(sites[0], sites[1..], lookup, acc, today, r);
      KeyAbsentTailAll(sites);
      r
  }

  /** What happens to one site of the table, when the ids are distinct: the first
      matching feature's geometry is stamped into a readable file, an unreadable
      file is left as it is, and with no match or no file nothing changes. */
  lemma {:induction false} ProcessSitesEffect(sites: seq<(SiteId, Criteria)>, lookup: Criteria -> Option<Feature>, acc: Outcome, today: string, k: nat)
    requires acc.processed == acc.updated + |acc.errors|
    requires DistinctKeys(sites) && k < |sites|
    ensures sites[k].0 in acc.store ==>
      ProcessSites(sites, lookup, acc, today).store[sites[k].0] == SiteResult(acc.store[sites[k].0], lookup(sites[k].1), sites[k].1, today)
    decreases |sites|
  {
    var (id, c) := sites[k];
    var step := ProcessSite(sites[0].0, sites[0].1, lookup, acc, today);
    var r := ProcessSites(sites[1..], lookup, step, today);
    assert ProcessSites(sites, lookup, acc, today) == r;
    DistinctKeysTail(sites);
    if id in acc.store {
      if k == 0 {
        assert step.store[id] == SiteResult(acc.store[id], lookup(c), c, today);
        assert r.store[id] == step.store[id];
      } else {
        assert sites[1..][k - 1] == sites[k];
        assert step.store[id] == acc.store[id];
        ProcessSitesEffect(sites[1..], lookup, step, today, k - 1);
      }
    }
  }

  /** A source file as the script finds it. `features` is None when the parsed
      object has no `features` member (read as `[]`). */
  datatype SourceFile = MissingFile | Unparseable | Parsed(features: Option<seq<Feature>>)

  /** `processSourceFile(filename, sites)`: a missing file counts nothing; a file
      that cannot be parsed counts nothing and reports one file error. */
  function ProcessSourceFile(name: string, file: SourceFile, sites: seq<(SiteId, Criteria)>, store: Store, today: string): (r: Outcome)
    ensures r.store.Keys == store.Keys
    ensures r.processed == r.updated + |r.errors| || (file.Unparseable? && r.errors == [FileError(name)])
    ensures r.processed <= |sites|
    ensures !file.Parsed? ==> r.store == store && r.processed == 0 && r.updated == 0
    ensures file.MissingFile? ==> r.errors == []
    ensures file.Unparseable? ==> r.errors == [FileError(name)]
    ensures file.Parsed? ==> forall e :: e in r.errors ==> e.SiteError?
    ensures ReadableIds(r.store) == ReadableIds(store)
    ensures file.Parsed? ==> var lookup := FileLookup(file.features.GetOr([]));
      && r.processed == CountWhere(sites, Hit(lookup, store.Keys))
      && r.updated == CountWhere(sites, Hit(lookup, ReadableIds(store)))
      && r.errors == SiteErrors(Filter(sites, Hit(lookup, store.Keys - ReadableIds(store))))
  {
    match file
    case MissingFile => Outcome(store, 0, 0, [])
    case Unparseable => Outcome(store, 0, 0, [FileError(name)])
    case Parsed(features) =>
      ProcessSites(sites, FileLookup(features.GetOr([])), Outcome(store, 0, 0, []), today)
  }

  /** In a parsed file, a site with a readable record receives the geometry of the
      first feature in file order that matches it; without a match its file is
      left as it was. */
  lemma SourceFileEffect(name: string, features: seq<Feature>, sites: seq<(SiteId, Criteria)>, store: Store, today: string, k: nat)
    requires DistinctKeys(sites) && k < |sites| && sites[k].0 in store && store[sites[k].0].Valid?
    ensures var r := ProcessSourceFile(name, Parsed(Some(features)), sites, store, today);
      var (id, c) := sites[k];
      && (FindMatch(features, c).Some? ==>
            r.store[id] == Valid(Stamp(store[id].rec, FindMatch(features, c).value.geometry, High, SourceText(c), today, KeepApprox)))
      && (FindMatch(features, c).None? ==> r.store[id] == store[id])
  {
    var lookup := FileLookup(features);
    assert lookup(sites[k].1) == FindMatch(features, sites[k].1);
    ProcessSitesEffect(sites, lookup, Outcome(store, 0, 0, []), today, k);
  }

  /** The totals of the whole run. */
  datatype Totals = Totals(store: Store, processed: nat, updated: nat, errors: seq<ErrorEntry>)

  /** One file's outcome followed by the totals of the files after it. */
  function Join(one: Outcome, rest: Totals): Totals
  {
    Totals(rest.store, one.processed + rest.processed, one.updated + rest.updated, one.errors + rest.errors)
  }

  /** The totals of one run of files followed by those of another, started from
      the store the first left. */
  function Then(x: Totals, y: Totals): Totals
  {
    Totals(y.store, x.processed + y.processed, x.updated + y.updated, x.errors + y.errors)
  }

  lemma JoinThen(one: Outcome, x: Totals, y: Totals)
    ensures Join(one, Then(x, y)) == Then(Join(one, x), y)
  {
    AppendAssoc(one.errors, x.errors, y.errors);
  }

  /** Every file processed on its own against the same store. */
  function PerFile(files: seq<(string, SourceFile)>, sites: seq<(SiteId, Criteria)>, store: Store, today: string): (r: seq<Outcome>)
    ensures |r| == |files|
  {
    if files == [] then []
    else [ProcessSourceFile(files[0].0, files[0].1, sites, store, today)] + PerFile(files[1..], sites, store, today)
  }

  /** The `k`-th outcome is the `k`-th file processed against the store. */
  lemma {:induction false} PerFileAt(files: seq<(string, SourceFile)>, sites: seq<(SiteId, Criteria)>, store: Store, today: string, k: nat)
    requires k < |files|
    ensures PerFile(files, sites, store, today)[k] == ProcessSourceFile(files[k].0, files[k].1, sites, store, today)
  {
    if k > 0 {
      PerFileAt(files[1..], sites, store, today, k - 1);
    }
  }

  /** The sum of the `processed` counters. */
  function TotalProcessed(os: seq<Outcome>): nat
  {
    if os == [] then 0 else os[0].processed + TotalProcessed(os[1..])
  }

  /** The sum of the `updated` counters. */
  function TotalUpdated(os: seq<Outcome>): nat
  {
    if os == [] then 0 else os[0].updated + TotalUpdated(os[1..])
  }

  /** The error lists, concatenated in order. */
  function AllErrors(os: seq<Outcome>): seq<ErrorEntry>
  {
    if os == [] then [] else os[0].errors + AllErrors(os[1..])
  }

  /** A file's counters depend on the store only through which sites have a file
      and which of those files are readable. */
  lemma {:induction false} SameCounts(files: seq<(string, SourceFile)>, sites: seq<(SiteId, Criteria)>, s1: Store, s2: Store, today: string)
    requires s1.Keys == s2.Keys && ReadableIds(s1) == ReadableIds(s2)
    ensures TotalProcessed(PerFile(files, sites, s1, today)) == TotalProcessed(PerFile(files, sites, s2, today))
    ensures TotalUpdated(PerFile(files, sites, s1, today)) == TotalUpdated(PerFile(files, sites, s2, today))
    ensures AllErrors(PerFile(files, sites, s1, today)) == AllErrors(PerFile(files, sites, s2, today))
  {
    if files != [] {
      SameCounts(files[1..], sites, s1, s2, today);
      var o1 := ProcessSourceFile(files[0].0, files[0].1, sites, s1, today);
      var o2 := ProcessSourceFile(files[0].0, files[0].1, sites, s2, today);
      ConsTail(o1, PerFile(files[1..], sites, s1, today));
      ConsTail(o2, PerFile(files[1..], sites, s2, today));
      assert o1.processed == o2.processed && o1.updated == o2.updated && o1.errors == o2.errors;
    }
  }

  /** `sourceFiles.forEach(...)`: every file processed in directory order against
      the store left by the previous one, counters summed, errors concatenated.
      `ProcessFilesTotals` gives the counters file by file. */
  function ProcessFiles(files: seq<(string, SourceFile)>, sites: seq<(SiteId, Criteria)>, store: Store, today: string): (r: Totals)
    ensures r.store.Keys == store.Keys
    ensures ReadableIds(r.store) == ReadableIds(store)
    ensures r.updated <= r.processed
    ensures (forall k :: 0 <= k < |files| ==> !files[k].1.Unparseable?) ==> r.processed == r.updated + |r.errors|
    decreases |files|
  {
    if files == [] then Totals(store, 0, 0, [])
    else
      var one := ProcessSourceFile(files[0].0, files[0].1, sites, store, today);
      var rest := ProcessFiles(files[1..], sites, one.store, today);
      assert (forall k :: 0 <= k < |files| ==> !files[k].1.Unparseable?) ==>
        (forall k :: 0 <= k < |files[1..]| ==> !files[1..][k].1.Unparseable?) by {
        if forall k :: 0 <= k < |files| ==> !files[k].1.Unparseable? {
          forall k | 0 <= k < |files[1..]| ensures !files[1..][k].1.Unparseable? {
            assert files[1..][k] == files[k + 1];
          }
        }
      }
      Join(one, rest)
  }

  /** As no file changes which sites have a readable file, the totals of the run
      are the sums of each file's counters taken against the starting store. */
  lemma {:induction false} ProcessFilesTotals(files: seq<(string, SourceFile)>, sites: seq<(SiteId, Criteria)>, store: Store, today: string)
    ensures var r := ProcessFiles(files, sites, store, today);
      var each := PerFile(files, sites, store, today);
      && r.processed == TotalProcessed(each)
      && r.updated == TotalUpdated(each)
      && r.errors == AllErrors(each)
    decreases |files|
  {
    if files != [] {
      var one := ProcessSourceFile(files[0].0, files[0].1, sites, store, today);
      ProcessFilesTotals(files[1..], sites, one.store, today);
      SameCounts(files[1..], sites, one.store, store, today);
      ConsTail(one, PerFile(files[1..], sites, store, today));
    }
  }

  lemma ProcessFilesCons(files: seq<(string, SourceFile)>, sites: seq<(SiteId, Criteria)>, store: Store, today: string)
    requires files != []
    ensures var one := ProcessSourceFile(files[0].0, files[0].1, sites, store, today);
      ProcessFiles(files, sites, store, today) == Join(one, ProcessFiles(files[1..], sites, one.store, today))
  {
  }

  /** A single file's totals are that file's outcome. */
  lemma ProcessFilesSingle(f: (string, SourceFile), sites: seq<(SiteId, Criteria)>, store: Store, today: string)
    ensures var one := ProcessSourceFile(f.0, f.1, sites, store, today);
      ProcessFiles([f], sites, store, today) == Totals(one.store, one.processed, one.updated, one.errors)
  {
    var one := ProcessSourceFile(f.0, f.1, sites, store, today);
    assert [f][1..] == [];
    JoinNone(one, ProcessFiles([], sites, one.store, today));
  }

  /** Joining an outcome with the empty run's totals gives that outcome. */
  lemma JoinNone(one: Outcome, none: Totals)
    requires none == Totals(one.store, 0, 0, [])
    ensures Join(one, none) == Totals(one.store, one.processed, one.updated, one.errors)
  {
    assert one.errors + [] == one.errors;
  }

  /** Processing `a + b` is processing `a`, then `b` from the store `a` left;
      counters add up and errors are concatenated. */
  lemma {:induction false} ProcessFilesAppend(a: seq<(string, SourceFile)>, b: seq<(string, SourceFile)>, sites: seq<(SiteId, Criteria)>, store: Store, today: string)
    ensures var x := ProcessFiles(a, sites, store, today);
      ProcessFiles(a + b, sites, store, today) == Then(x, ProcessFiles(b, sites, x.store, today))
  {
    if a == [] {
      assert a + b == b;
      var y := ProcessFiles(b, sites, store, today);
      assert [] + y.errors == y.errors;
    } else {
      var ab := a + b;
      TailAppend(a, b);
      var one := ProcessSourceFile(a[0].0, a[0].1, sites, store, today);
      var x' := ProcessFiles(a[1..], sites, one.store, today);
      var y := ProcessFiles(b, sites, x'.store, today);
      calc {
        ProcessFiles(ab, sites, store, today);
        { ProcessFilesCons(ab, sites, store, today); }
        Join(one, ProcessFiles(a[1..] + b, sites, one.store, today));
        { ProcessFilesAppend(a[1..], b, sites, one.store, today); }
        Join(one, Then(x', y));
        { JoinThen(one, x', y); }
        Then(Join(one, x'), y);
        { ProcessFilesCons(a, sites, store, today); }
        Then(ProcessFiles(a, sites, store, today), y);
      }
    }
  }

  /** A directory entry named `*.geojson`. */
  predicate IsSourceEntry(e: (string, SourceFile))
  {
    IsSuffix(".geojson", e.0)
  }

  /** The directory listing filtered to `*.geojson` names; an empty list ends the
      run with an error before any file is touched. */
  function Run(dir: seq<(string, SourceFile)>, sites: seq<(SiteId, Criteria)>, store: Store, today: string): (r: Result<Totals>)
    ensures r.Failure? <==> forall k :: 0 <= k < |dir| ==> !IsSuffix(".geojson", dir[k].0)
    ensures r.Success? ==> r.value.store.Keys == store.Keys && r.value.updated <= r.value.processed
    ensures r.Success? ==> var each := PerFile(Filter(dir, IsSourceEntry), sites, store, today);
      && r.value.processed == TotalProcessed(each)
      && r.value.updated == TotalUpdated(each)
      && r.value.errors == AllErrors(each)
    ensures r.Success? ==> r.value == ProcessFiles(Filter(dir, IsSourceEntry), sites, store, today)
  {
    var files := Filter(dir, IsSourceEntry);
    if files == [] then
      assert forall k :: 0 <= k < |dir| ==> !IsSuffix(".geojson", dir[k].0) by {
        forall k | 0 <= k < |dir| ensures !IsSuffix(".geojson", dir[k].0) {
          assert !IsSourceEntry(dir[k]);
        }
      }
      Failure("No source files found")
    else
      assert files[0] in files;
      ProcessFilesTotals(files, sites, store, today);
      Success(ProcessFiles(files, sites, store, today))
  }
}
