/** The national-park updater: every `*.json` site file whose id ends in `-np`
    and has an entry in the name mapping takes the geometry of the park polygons
    found under the mapped names, looked up by exact `properties.name`. */
module SiteGeometries {
  import opened Wrappers
  import opened Text
  import opened GeoJson
  import opened Seqs
  import opened Sites
  import opened Merge

  const Source := "National Park Service via PADUS 3.0"

  /** A name-mapping entry: one park name, or a list of parks combined into one site. */
  datatype NameSpec = One(name: string) | Several(names: seq<string>)

  /** `Array.isArray(parkNames) ? parkNames : [parkNames]`. */
  function Names(spec: NameSpec): (r: seq<string>)
    ensures spec.One? ==> r == [spec.name]
    ensures spec.Several? ==> r == spec.names
  {
    match spec
    case One(n) => [n]
    case Several(ns) => ns
  }

  /** Every park feature carries `properties`; building the name index reads
      `feature.properties.name` unguarded. */
  ghost predicate HasProperties(features: seq<Feature>)
  {
    forall i :: 0 <= i < |features| ==> features[i].properties.Some?
  }

  /** The feature is indexed under exactly this name (a missing `name` is never a string key). */
  predicate NamedExactly(f: Feature, name: string)
  {
    f.properties.Some? && "name" in f.properties.value && f.properties.value["name"] == name
  }

  /** `parksByName.get(name)`, where the index was filled in file order, so a later
      feature with the same name replaces an earlier one. */
  function ByName(features: seq<Feature>, name: string): (r: Option<Feature>)
    ensures r.None? <==> forall i :: 0 <= i < |features| ==> !NamedExactly(features[i], name)
    ensures r.Some? ==> exists i :: (0 <= i < |features| && features[i] == r.value && NamedExactly(features[i], name)
      && forall j :: i < j < |features| ==> !NamedExactly(features[j], name))
  {
    if features == [] then None
    else
      var rest := ByName(features[1..], name);
      if rest.Some? then
        var i :| 0 <= i < |features[1..]| && features[1..][i] == rest.value && NamedExactly(features[1..][i], name)
          && forall j :: i < j < |features[1..]| ==> !NamedExactly(features[1..][j], name);
        assert features[i + 1] == rest.value;
        assert forall j :: i + 1 < j < |features| ==> features[j] == features[1..][j - 1];
        rest
      else if NamedExactly(features[0], name) then
        assert forall j :: 0 < j < |features| ==> features[j] == features[1..][j - 1];
        Some(features[0])
      else
        assert forall j :: 0 < j < |features| ==> features[j] == features[1..][j - 1];
        None
  }

  /** `names.map(name => parksByName.get(name)).filter(f => f !== undefined)`. */
  function Found(features: seq<Feature>, names: seq<string>): (r: seq<Feature>)
    ensures |r| <= |names|
    ensures forall f :: f in r ==> exists i :: 0 <= i < |names| && ByName(features, names[i]) == Some(f)
    ensures r == [] <==> forall i :: 0 <= i < |names| ==> ByName(features, names[i]).None?
  {
    if names == [] then []
    else
      var rest := Found(features, names[1..]);
      assert forall i :: 1 <= i < |names| ==> names[i] == names[1..][i - 1];
      match ByName(features, names[0])
      case Some(f) => [f] + rest
      case None => rest
  }

  /** One name contributes the park indexed under it, or nothing. */
  lemma FoundSingle(features: seq<Feature>, name: string)
    ensures Found(features, [name]) == (if ByName(features, name).Some? then [ByName(features, name).value] else [])
  {
    assert [name][1..] == [];
  }

  /** The parks are found name by name: a list of names finds the parks of its
      first part followed by those of its second, duplicates kept. */
  lemma {:induction false} FoundAppend(features: seq<Feature>, a: seq<string>, b: seq<string>)
    ensures Found(features, a + b) == Found(features, a) + Found(features, b)
  {
    if a == [] {
      assert a + b == b;
    } else {
      assert (a + b)[0] == a[0] && (a + b)[1..] == a[1..] + b;
      FoundAppend(features, a[1..], b);
      AppendAssoc(if ByName(features, a[0]).Some? then [ByName(features, a[0]).value] else [], Found(features, a[1..]), Found(features, b));
    }
  }

  /** What the script does with one readable site file. */
  datatype Step = Updated(rec: SiteRecord) | Skipped

  /** The decision for one readable record: ids not ending in `-np`, ids without a
      mapping and mappings with no park found are skipped; otherwise the record
      gets the single park's geometry or the merge of several, `high` quality and
      the fixed source (no freeze check, `approximateArea` untouched). */
  function Decide(id: SiteId, rec: SiteRecord, mapping: map<SiteId, NameSpec>, features: seq<Feature>, today: string): (r: Step)
    ensures r.Updated? <==> IsSuffix("-np", id) && id in mapping && Found(features, Names(mapping[id])) != []
    ensures r.Updated? ==>
      var found := Found(features, Names(mapping[id]));
      && (|found| == 1 ==> r.rec == Stamp(rec, found[0].geometry, High, Source, today, KeepApprox))
      && (|found| > 1 ==> r.rec == Stamp(rec, MergeParks(Geometries(found)), High, Source, today, KeepApprox))
  {
    if !IsSuffix("-np", id) || id !in mapping then Skipped
    else
      var found := Found(features, Names(mapping[id]));
      if found == [] then Skipped
      else if |found| == 1 then Updated(Stamp(rec, found[0].geometry, High, Source, today, KeepApprox))
      else Updated(Stamp(rec, MergeParks(Geometries(found)), High, Source, today, KeepApprox))
  }

  /** The file's contents after the run: rewritten when updated, otherwise as read. */
  function After(filename: string, state: FileState, mapping: map<SiteId, NameSpec>, features: seq<Feature>, today: string): FileState
  {
    match state
    case Corrupt => Corrupt
    case Valid(rec) =>
      match Decide(SiteIdOf(filename), rec, mapping, features, today)
      case Updated(rec') => Valid(rec')
      case Skipped => state
  }

  /** The summary counters and the names of the files that failed to parse. */
  datatype Tally = Tally(processed: nat, updated: nat, skipped: nat, errors: seq<string>)

  /** A site file that parses. */
  predicate Parsed(f: (string, FileState))
  {
    f.1.Valid?
  }

  /** A site file that fails to parse. */
  predicate Unparsed(f: (string, FileState))
  {
    f.1.Corrupt?
  }

  /** A site file that parses and is rewritten. */
  function Rewrites(mapping: map<SiteId, NameSpec>, features: seq<Feature>, today: string): ((string, FileState)) -> bool
  {
    (f: (string, FileState)) => f.1.Valid? && Decide(SiteIdOf(f.0), f.1.rec, mapping, features, today).Updated?
  }

  /** The names of the given files, in order. */
  function FileNames(fs: seq<(string, FileState)>): (r: seq<string>)
    ensures |r| == |fs| && forall i :: 0 <= i < |fs| ==> r[i] == fs[i].0
  {
    seq(|fs|, i requires 0 <= i < |fs| => fs[i].0)
  }

  /** What the counters say about the files they count. */
  ghost predicate Counts(r: Tally, files: seq<(string, FileState)>, mapping: map<SiteId, NameSpec>, features: seq<Feature>, today: string)
  {
    && r.processed == CountWhere(files, Parsed)
    && r.updated == CountWhere(files, Rewrites(mapping, features, today))
    && r.errors == FileNames(Filter(files, Unparsed))
    && r.processed == r.updated + r.skipped
    && r.processed + |r.errors| == |files|
    && forall e :: e in r.errors ==> exists i :: 0 <= i < |files| && files[i].0 == e && files[i].1.Corrupt?
  }

  /** The counters over the site files in directory order: a file that cannot be
      parsed adds an error and nothing else; a parsed file adds `processed` and
      then exactly one of `skipped` or `updated`. */
  function Count(files: seq<(string, FileState)>, mapping: map<SiteId, NameSpec>, features: seq<Feature>, today: string): (r: Tally)
    ensures r.processed == CountWhere(files, Parsed)
    ensures r.updated == CountWhere(files, Rewrites(mapping, features, today))
    ensures r.errors == FileNames(Filter(files, Unparsed))
    ensures r.processed == r.updated + r.skipped
    ensures r.processed + |r.errors| == |files|
    ensures forall e :: e in r.errors ==> exists i :: 0 <= i < |files| && files[i].0 == e && files[i].1.Corrupt?
    decreases |files|
  {
    if files == [] then Tally(0, 0, 0, [])
    else
      var rest := Count(files[1..], mapping, features, today);
      var r := match files[0].1
        case Corrupt => rest.(errors := [files[0].0] + rest.errors)
        case Valid(rec) =>
          match Decide(SiteIdOf(files[0].0), rec, mapping, features, today)
          case Updated(_) => rest.(processed := rest.processed + 1, updated := rest.updated + 1)
          case Skipped => rest.(processed := rest.processed + 1, skipped := rest.skipped + 1);
      CountStep(files, mapping, features, today, rest, r);
      r
  }

  /** One file in front of the counted rest. */
  lemma CountStep(files: seq<(string, FileState)>, mapping: map<SiteId, NameSpec>, features: seq<Feature>, today: string, rest: Tally, r: Tally)
    requires files != [] && Counts(rest, files[1..], mapping, features, today)
    requires files[0].1.Corrupt? ==> r == rest.(errors := [files[0].0] + rest.errors)
    requires Rewrites(mapping, features, today)(files[0]) ==> r == rest.(processed := rest.processed + 1, updated := rest.updated + 1)
    requires files[0].1.Valid? && !Rewrites(mapping, features, today)(files[0]) ==>
      r == rest.(processed := rest.processed + 1, skipped := rest.skipped + 1)
    ensures Counts(r, files, mapping, features, today)
  {
    var x := files[0];
    if x.1.Corrupt? {
      FileNamesCons(x, Filter(files[1..], Unparsed));
      forall e | e in r.errors
        ensures exists i :: 0 <= i < |files| && files[i].0 == e && files[i].1.Corrupt?
      {
        if e == x.0 {
          assert files[0].0 == e && files[0].1.Corrupt?;
        } else {
          assert e in rest.errors;
          var i :| 0 <= i < |files[1..]| && files[1..][i].0 == e && files[1..][i].1.Corrupt?;
          assert files[i + 1] == files[1..][i];
        }
      }
    } else {
      forall e | e in r.errors
        ensures exists i :: 0 <= i < |files| && files[i].0 == e && files[i].1.Corrupt?
      {
        var i :| 0 <= i < |files[1..]| && files[1..][i].0 == e && files[1..][i].1.Corrupt?;
        assert files[i + 1] == files[1..][i];
      }
    }
  }

  lemma FileNamesCons(x: (string, FileState), fs: seq<(string, FileState)>)
    ensures FileNames([x] + fs) == [x.0] + FileNames(fs)
  {
    var l, r := FileNames([x] + fs), [x.0] + FileNames(fs);
    forall i | 0 <= i < |l|
      ensures l[i] == r[i]
    {
      if i > 0 {
        assert ([x] + fs)[i] == fs[i - 1];
      }
    }
  }

  /** The files after the run and the counters. */
  datatype RunResult = RunResult(files: seq<(string, FileState)>, tally: Tally)

  /** A site file of the run: a `*.json` name other than `README.md`. */
  predicate IsSiteFile(e: (string, FileState))
  {
    IsSuffix(".json", e.0) && e.0 != "README.md"
  }

  /** The whole run: the directory listing is narrowed to the site files, the i-th
      file afterwards is the i-th site file as `After` leaves it, and the counters
      are those of the same files. */
  function Run(dir: seq<(string, FileState)>, mapping: map<SiteId, NameSpec>, features: seq<Feature>, today: string): (r: RunResult)
    requires HasProperties(features)
    ensures var files := Filter(dir, IsSiteFile);
      && |r.files| == |files|
      && (forall i :: 0 <= i < |files| ==> r.files[i] == (files[i].0, After(files[i].0, files[i].1, mapping, features, today)))
      && r.tally == Count(files, mapping, features, today)
    ensures |r.files| <= |dir|
    ensures forall i :: 0 <= i < |r.files| ==> IsSuffix(".json", r.files[i].0) && r.files[i].0 != "README.md"
    ensures r.tally.processed == r.tally.updated + r.tally.skipped
    ensures r.tally.processed + |r.tally.errors| == |r.files|
  {
    var files := Filter(dir, IsSiteFile);
    var after := seq(|files|, i requires 0 <= i < |files| =>
      (files[i].0, After(files[i].0, files[i].1, mapping, features, today)));
    assert forall i :: 0 <= i < |files| ==> files[i] in files;
    RunResult(after, Count(files, mapping, features, today))
  }

  /** A site whose id does not end in `-np` is never rewritten. */
  lemma OnlyNationalParks(filename: string, state: FileState, mapping: map<SiteId, NameSpec>, features: seq<Feature>, today: string)
    requires !IsSuffix("-np", SiteIdOf(filename))
    ensures After(filename, state, mapping, features, today) == state
  {
  }

  /** The site file `<id>.json` of an id without a dot is processed under the id itself. */
  lemma SiteIdOfFileName(id: string)
    requires '.' !in id
    ensures SiteIdOf(id + ".json") == id
  {
    RemoveFirstSuffix(id, ".json");
  }

  /** A park that occurs twice in the file is taken from its last occurrence. */
  lemma LastDuplicateWins(a: Feature, b: Feature, name: string)
    requires NamedExactly(a, name) && NamedExactly(b, name)
    ensures ByName([a, b], name) == Some(b)
  {
    assert [a, b][1..] == [b];
    assert [b][1..] == [];
  }
}
