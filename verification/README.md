# Conservation boundaries: a Dafny model

This project models the boundary tooling of the ConservationConnector
repository in Dafny 4.11. Three parts of the repository are covered.

- **The site-update scripts (`scripts/`).** Each script rewrites the
  per-site JSON files, one file per conservation site, with a better
  boundary. The boundary comes from one of these places:
  - an ArcGIS REST service;
  - OpenStreetMap or Protected Planet;
  - downloaded PADUS or source files;
  - a hand-made table;
  - a generated approximation.

  Two more scripts shrink polygon files with Douglas-Peucker. One parses
  the markdown site inventory into site files.
- **The heat-map point generator (`src/utils/heatMapUtils.js`).**
- **The pure helpers of the map component (`src/components/ConservationMap.jsx`).**
  These are the gap between two areas, its colour bucket, the connection
  lines, and the list of user-added areas.

## How the model is built

The site files are a `Store`: a map from site id to a `FileState`. A
`FileState` is either a parsed record (`Valid`) or a file that fails to
parse (`Corrupt`). A missing file is a missing key.

Every script ends its update with the same step, `Sites.Stamp`:
- replace the geometry;
- default the metadata block to `{}`;
- set the data quality, the source and the date;
- keep, delete or set `approximateArea`.

Several scripts loop over a table of sites. They share one loop,
`Batch.RunSites`. In that loop each site's step reports an outcome tag,
and the scripts' counters are counts of these tags. An early `break` is a
`stop` test on the tags seen so far.

Things the model cannot compute are passed in as parameters:
- the network (an oracle from a site's configuration to the reply);
- trigonometry, π and the Haversine distance;
- `parseFloat` and `parseInt` on arbitrary text;
- rounding to two decimals;
- the current date and `Date.now()`.

JavaScript values are modelled as follows:
- `NaN` is an explicit case of `Number`.
- A missing object key is `None`, or the empty string where the source
  writes `x || ''`.
- Regular expressions are written out as leftmost-match predicates on the
  string.

## Model

| member | source | states |
|---|---|---|
| Simplifier.SqDist | scripts/simplify-geojson.cjs:48-67 | the squared distance between two points is non-negative, and zero for equal points |
| Simplifier.DevNum | scripts/simplify-geojson.cjs:48-67 | the squared numerator of the perpendicular distance is non-negative |
| Simplifier.DevDen | scripts/simplify-geojson.cjs:48-67 | the squared denominator is non-negative; when the two anchors coincide it is 1, so the distance becomes the plain point distance (the `lenSq === 0` branch) |
| Simplifier.Threshold | scripts/simplify-geojson.cjs:48-67 | the division-free bound `tolerance² · den` is non-negative, and equals `tolerance²` for coinciding anchors; the sign is proved from both factors being non-negative |
| Simplifier.Farthest | scripts/simplify-geojson.cjs:20-30 | the scan for `maxIndex` returns an interior index; index 0 means distance 0, and any other index carries its own positive distance |
| Simplifier.FarthestIsFirstMaximum | scripts/simplify-geojson.cjs:20-30 | the scan returns the FIRST interior point of maximal distance (the strict `>` comparison) |
| Simplifier.Split | scripts/simplify-geojson.cjs:20-30 | the split index and distance, with the same guarantees as the scan |
| Simplifier.SplitIsFirstMaximum | scripts/simplify-geojson.cjs:20-30 | no interior point is farther than the split point, and none before it is as far |
| Simplifier.SplitAtZeroIffCollinear | scripts/simplify-geojson.cjs:20-30 | `maxIndex` stays 0 exactly when every interior point lies on the anchor line |
| Simplifier.Reduce | scripts/simplify-geojson.cjs:15-45 | the recursion keeps inputs of at most two points as they are; otherwise it keeps the first and last point and never lengthens the list |
| Simplifier.DouglasPeucker | scripts/simplify-geojson.cjs:32-44 | the split decision always splits strictly inside the range |
| Simplifier.DouglasPeuckerSound | scripts/simplify-geojson.cjs:32-44 | the decision collapses a range only when every interior point is within the tolerance of the chord |
| Simplifier.Simplify | scripts/simplify-geojson.cjs:15-45 | `simplifyDouglasPeucker` keeps both endpoints, never lengthens, and returns short inputs unchanged |
| Simplifier.ChordInPrefix | scripts/simplify-geojson.cjs:36-38 | a chord bound proved on the left half holds in the whole range |
| Simplifier.ChordInSuffix | scripts/simplify-geojson.cjs:36-38 | a chord bound proved on the right half holds in the whole range, shifted by the split index |
| Simplifier.JoinEmbedding | scripts/simplify-geojson.cjs:36-41 | joining the two halves' kept points (dropping the duplicated split point) still picks points out of the input in order |
| Simplifier.JoinTolerance | scripts/simplify-geojson.cjs:36-41 | the tolerance bound of the halves carries over to the joined result |
| Simplifier.JoinHalves | scripts/simplify-geojson.cjs:36-41 | the joined halves satisfy the whole faithfulness predicate |
| Simplifier.ReduceUnfold | scripts/simplify-geojson.cjs:36-41 | a split range's result is the left result without its last point, followed by the right result |
| Simplifier.ReduceSplitStep | scripts/simplify-geojson.cjs:36-41 | a split range is faithful when both halves are |
| Simplifier.ReduceCollapseStep | scripts/simplify-geojson.cjs:43-44 | a collapsed range `[first, last]` is faithful when the decision is sound |
| Simplifier.ReduceFaithful | scripts/simplify-geojson.cjs:15-45 | for any valid and sound decision, the result is a subsequence of the input that keeps both ends, and every dropped point is within tolerance of the chord between its kept neighbours |
| Simplifier.ReduceFaithfulAt | scripts/simplify-geojson.cjs:15-45 | the indices the recursion keeps (both ends of each collapsed range, the halves joined at the split point) witness that the result is faithful to the input |
| Simplifier.SimplifyFaithful | scripts/simplify-geojson.cjs:15-45 | every point Douglas-Peucker drops lies within the tolerance of the chord joining the kept points around it |
| Simplifier.SimplifyIsSubsequence | scripts/simplify-geojson.cjs:15-45 | the output is a subsequence of the input: no point is invented or reordered |
| Simplifier.ClosedRingCollapses | scripts/simplify-geojson.cjs:70-72 | a closed ring within the tolerance of its first point collapses to two equal points, which is no longer a linear ring (nothing guards ring size) |
| Simplifier.UnitSquareCollapses | scripts/simplify-geojson.cjs:70-72 | with tolerance 2 the unit square ring simplifies to two copies of its start |
| Simplifier.SimplifyPolygon | scripts/simplify-geojson.cjs:70-72 | every ring is simplified on its own; the ring count is kept and the point count never grows |
| Simplifier.SimplifyMultiPolygon | scripts/simplify-geojson.cjs:75-77 | every polygon is simplified on its own; the counts are kept and the point count never grows |
| Simplifier.SimplifyGeometry | scripts/simplify-geojson.cjs:80-95 | Polygon and MultiPolygon keep their type and shape, any other geometry is returned unchanged, and the point count never grows |
| Simplifier.SimplifyFeatures | scripts/simplify-geojson.cjs:106-155 | each feature keeps its properties, and the simplified point total never exceeds the original total |
| Simplifier.CheckTolerance | scripts/simplify-geojson.cjs:199-203 | a tolerance is accepted exactly when it is a number above 0 |
| Simplifier.ParseArgs | scripts/simplify-geojson.cjs:175-203 | fewer than two arguments fail; two arguments, or an empty third, give the default 0.001; a given tolerance succeeds exactly when it parses to a positive number, and the result is that number |
| Cli.Arg | scripts/create-mo-conservation-polygons.cjs:353-355 | `args[i]` is present exactly when `i` is within the argument list |
| Cli.ParsedOr | scripts/create-mo-conservation-polygons.cjs:354-355 | a missing or empty argument takes the default; any other is parsed |
| MoConservation.IsConservationArea | scripts/create-mo-conservation-polygons.cjs:78-105 | an excluded designation type or excluded name keyword always rejects; otherwise a conservation type or keyword accepts, in both directions |
| MoConservation.LakeConservationAreaExcluded | scripts/create-mo-conservation-polygons.cjs:89-92 | a unit named after a lake is excluded even with a conservation designation |
| MoConservation.NamelessConservationTypeIncluded | scripts/create-mo-conservation-polygons.cjs:94-97 | a conservation designation with no unit name is included |
| MoConservation.PropOr | scripts/create-mo-conservation-polygons.cjs:250-258 | `a \|\| b \|\| fallback`: the first non-empty property in key order, else the fallback |
| MoConservation.Round | scripts/create-mo-conservation-polygons.cjs:254 | `Math.round` lies within one half of its argument |
| MoConservation.Project | scripts/create-mo-conservation-polygons.cjs:247-261 | the output name is `Unit_Nm`, else `Loc_Nm`, else `Unknown`; the state defaults to MO; acres are rounded; the geometry is kept |
| MoConservation.Select | scripts/create-mo-conservation-polygons.cjs:231-265 | the output is the selected features, projected, in input order; acres are non-negative for a non-negative minimum |
| MoConservation.SelectMembership | scripts/create-mo-conservation-polygons.cjs:239-242 | every feature that passes the filter appears in the output |
| MoConservation.SelectSound | scripts/create-mo-conservation-polygons.cjs:239-242 | every output entry comes from a feature that passes the filter |
| MoConservation.SimplifyAreas | scripts/create-mo-conservation-polygons.cjs:302-305 | only geometries change: name and acres are kept, and each geometry is the simplified one |
| MoConservation.SelectNoNulls | scripts/create-mo-conservation-polygons.cjs:247-261 | selected entries carry their input geometry, so none holds a null polygon |
| MoConservation.SortDescIsStableOrder | scripts/create-mo-conservation-polygons.cjs:272 | the sort gives the stable largest-first order: a permutation, sorted by acreage, with equal acreages in input order |
| MoConservation.SortAndSimplify | scripts/create-mo-conservation-polygons.cjs:272-305 | the output is a simplified copy of the stable largest-first order of the input, the one order that is a sorted permutation keeping equal acreages in input order |
| MoConservation.CreatePolygons | scripts/create-mo-conservation-polygons.cjs:208-350 | the output has one entry per selected feature of all files and is a simplified copy of the stable largest-first order of the selected features |
| MoConservation.WithKeySimplify | scripts/create-mo-conservation-polygons.cjs:297-305 | simplifying keeps acreages, so taking the areas of one acreage before or after simplifying gives the same list |
| MoConservation.CreatePolygonsStable | scripts/create-mo-conservation-polygons.cjs:272 | in the output, the areas of any one acreage are the selected areas of that acreage, simplified, in the order the files listed them |
| MoConservation.ParseArgs | scripts/create-mo-conservation-polygons.cjs:352-365 | no arguments give (100, 0.001); success means a non-negative minimum and a positive tolerance, and holds exactly when both parse that way; on success each value is the parsed argument when one is given and non-empty, and its default (100 or 0.001) otherwise |
| Seqs.SortDesc | scripts/create-mo-conservation-polygons.cjs:272 | the comparator sort `b - a` yields a permutation that is non-increasing by key |
| Seqs.SortDescStable | scripts/create-mo-conservation-polygons.cjs:272 | the sort is stable: elements with equal keys keep their input order |
| Seqs.Filter | scripts/update-missouri-from-polygons.cjs:52-59 | `filter` keeps exactly the elements that satisfy the test |
| Seqs.Find | scripts/update-missouri-sites.cjs:87-91 | `find` returns the first element that satisfies the test, or nothing when none does |
| Text.ToLower | scripts/update-missouri-sites.cjs:88-89 | lower-casing keeps the length and lower-cases each character independently |
| Text.ToLowerIdempotent | scripts/update-missouri-from-polygons.cjs:53-57 | lower-casing twice is lower-casing once |
| Text.RemoveFirst | scripts/update-site-geometries.cjs:76 | `replace('.json', '')` leaves a name without the pattern unchanged, and otherwise removes the first occurrence of it and nothing else |
| Text.RemoveFirstSuffix | scripts/update-site-geometries.cjs:76 | the file name `id.json` of an id without a dot gives back the id |
| Text.EmptyNameMatchesAll | scripts/fetch-real-boundaries.cjs:93 | an empty feature name matches every site name |
| Text.Trim | scripts/crawl-conservation-sites.cjs:30 | `trim()` returns a slice of the line that starts and ends with no whitespace, dropping only whitespace around it |
| Text.Split | scripts/crawl-conservation-sites.cjs:24 | `split('\n')` yields one more piece than there are separators, none holding the separator |
| Text.SplitJoin | scripts/crawl-conservation-sites.cjs:24 | joining the split pieces with the separator gives the input back |
| Text.NatToString | src/components/ConservationMap.jsx:120 | the decimal rendering consists of digits that read back as the number, with no leading zero: it starts with `0` only for 0 itself, rendered as `0` |
| GeoJson.FirstNonEmpty | scripts/extract-boundaries-from-sources.cjs:116-124 | the first non-empty value among the name keys, or `''` when all are empty |
| Sites.Stamp | scripts/fetch-all-real-boundaries.cjs:239-259 | the update replaces the geometry and sets quality, source and date; name, location and area are kept; `approximateArea` is kept, deleted or set as asked |
| Sites.StampIdempotent | scripts/apply-prefetched-boundaries.cjs:36-45 | stamping twice with the same arguments is stamping once |
| ExtractSources.MatchFeatureIff | scripts/extract-boundaries-from-sources.cjs:112-131 | `matchFeature` is the case-insensitive two-way containment test on the first non-empty name key |
| ExtractSources.NamelessFeatureMatchesAll | scripts/extract-boundaries-from-sources.cjs:116-130 | a feature without any name key matches every site that lists a name |
| ExtractSources.FindMatch | scripts/extract-boundaries-from-sources.cjs:161 | the first matching feature in file order, or none when no feature matches |
| ExtractSources.ProcessSite | scripts/extract-boundaries-from-sources.cjs:155-191 | a site without a file or a match changes nothing; a matched site with a file adds one to processed, and one to updated exactly when its file is readable, one site error exactly when it is not; a readable matched file is stamped with the match's geometry at `high` quality and an unreadable one is left as it was; which files are readable never changes |
| ExtractSources.ProcessSites | scripts/extract-boundaries-from-sources.cjs:155-191 | processed, updated and the site errors count exactly the table entries with a file and a match, those of them with a readable file, and (in table order) those with an unreadable one; sites outside the table are untouched |
| ExtractSources.CountsStepProcessed | scripts/extract-boundaries-from-sources.cjs:158-190 | one more table entry adds one to processed exactly when its site has a file and a match |
| ExtractSources.CountsStepUpdated | scripts/extract-boundaries-from-sources.cjs:158-190 | one more table entry adds one to updated exactly when, besides, its file is readable |
| ExtractSources.CountsStepErrors | scripts/extract-boundaries-from-sources.cjs:158-190 | one more table entry appends its site error exactly when its file is unreadable |
| ExtractSources.ProcessSitesEffect | scripts/extract-boundaries-from-sources.cjs:161-187 | with distinct ids, a matched site with a readable record holds the stamped geometry of its first match, and any other site's file is left as it was |
| ExtractSources.ProcessSourceFile | scripts/extract-boundaries-from-sources.cjs:136-201 | a missing file counts nothing; an unparseable file adds exactly one file error and changes nothing; a parsed file's counters and site errors are those of the table entries its features match |
| ExtractSources.SourceFileEffect | scripts/extract-boundaries-from-sources.cjs:158-190 | in a parsed file every matched, readable site receives its match's geometry |
| ExtractSources.ProcessFiles | scripts/extract-boundaries-from-sources.cjs:227-232 | the run keeps the set of site files and the set of readable ones; `updated` never exceeds `processed`; without an unparseable file every processed site is either updated or reported |
| ExtractSources.ProcessFilesTotals | scripts/extract-boundaries-from-sources.cjs:227-232 | the totals are the sums of every file's counters taken against the starting store, and the errors are the files' errors in directory order |
| ExtractSources.PerFile | scripts/extract-boundaries-from-sources.cjs:227-232 | one outcome per file, each against the same store |
| ExtractSources.SameCounts | scripts/extract-boundaries-from-sources.cjs:155-191 | a file's counters depend on the store only through which sites have a file and which of those are readable |
| ExtractSources.ProcessFilesSingle | scripts/extract-boundaries-from-sources.cjs:227-232 | the totals of one file are that file's outcome |
| ExtractSources.ProcessFilesAppend | scripts/extract-boundaries-from-sources.cjs:227-232 | processing `a + b` is processing `a`, then `b` from the store `a` left; counters add and errors concatenate |
| ExtractSources.Run | scripts/extract-boundaries-from-sources.cjs:206-232 | the run fails exactly when no `.geojson` file is listed; otherwise its result is the processing of exactly the `.geojson` entries, in listing order, and its totals are their summed counters |
| FetchReal.ExtractBoundary | scripts/fetch-real-boundaries.cjs:72-99 | the geometry of the first feature whose name matches, or null when none matches or the list is absent |
| FetchReal.NameMatchesIff | scripts/fetch-real-boundaries.cjs:80-93 | the name test is the shared two-way containment on the first non-empty name key |
| FetchReal.NamelessFeatureWins | scripts/fetch-real-boundaries.cjs:79-94 | a leading feature with no name, or no properties at all, is returned for any site |
| MissouriSites.FindFeature | scripts/update-missouri-sites.cjs:87-91 | the first feature whose `Unit_Nm` matches the site name either way; no match exactly when every feature has `properties` and none matches; a throw only at a feature without `properties` before any match |
| MissouriSites.FindFeatureNeverThrows | scripts/update-missouri-sites.cjs:87-91 | with `properties` on every feature the search never throws |
| MissouriSites.FindFeatureAppend | scripts/update-missouri-sites.cjs:87-91 | the search over `a + b` reads `b` only when it reads all of `a` without a match, so features after the first match are never read |
| MissouriSites.MissingUnitNameMatchesAll | scripts/update-missouri-sites.cjs:88-90 | a feature without `Unit_Nm` matches every site |
| MissouriSites.UpdateSite | scripts/update-missouri-sites.cjs:78-109 | no file or no match changes and counts nothing; a search that throws or a matched unreadable file stops the script; a matched readable file is stamped and counted |
| MissouriSites.UpdateSites | scripts/update-missouri-sites.cjs:78-111 | the script stops exactly when some table entry has a file and either a search that throws or a match with an unreadable file; a completed run's `updated` is the number of entries with a file and a match |
| MissouriSites.UpdateSitesEffect | scripts/update-missouri-sites.cjs:78-109 | with `properties` on every feature and readable files the run completes, and each matched site holds its first match's stamped geometry while unmatched ones stay as they were |
| MissouriPolygons.MatchesAnyIff | scripts/update-missouri-from-polygons.cjs:52-59 | the equality test is subsumed: a feature matches exactly when some search name matches two-way |
| MissouriPolygons.AllMatches | scripts/update-missouri-from-polygons.cjs:52-59 | every matching feature and nothing else, in file order |
| Merge.Geometries | scripts/update-missouri-from-polygons.cjs:76 | the matches' geometries, one per match, in order |
| MissouriPolygons.NewGeometry | scripts/update-missouri-from-polygons.cjs:71-91 | one match is taken as it is; several are merged |
| MissouriPolygons.UpdateSite | scripts/update-missouri-from-polygons.cjs:42-102 | no file lists the site as not found; with a file, a feature without `properties` stops the script, no match lists the site, an unreadable file stops the script, and otherwise the site is stamped and counted |
| MissouriPolygons.UpdateSites | scripts/update-missouri-from-polygons.cjs:42-102 | `updated + notFound` grows by the table size unless the script stopped; with a feature lacking `properties` it stops, writing nothing, exactly when some table site has a file |
| MissouriPolygons.Run | scripts/update-missouri-from-polygons.cjs:42-117 | a completed run has `updated + notFound.length` equal to the table size; a feature without `properties` stops the run before any write exactly when some table site has a file |
| MissouriPolygons.UpdateSitesEffect | scripts/update-missouri-from-polygons.cjs:42-102 | with readable files, each site is either stamped with its new geometry or listed as not found and left as it was |
| Merge.MultiPolygonOf | scripts/update-missouri-from-polygons.cjs:86-91 | a slot list with no null is a plain MultiPolygon; one with a null is the null-holding form |
| Merge.PolygonSlots | scripts/update-missouri-from-polygons.cjs:82-84 | a MultiPolygon's polygons become filled slots, in order |
| Merge.MissouriSlots | scripts/update-missouri-from-polygons.cjs:78-85 | `allCoords` has one entry per polygon each geometry contributes |
| Merge.MergeMissouri | scripts/update-missouri-from-polygons.cjs:76-91 | the merge yields a MultiPolygon |
| Merge.MissouriSlotsFlatten | scripts/update-missouri-from-polygons.cjs:78-85 | the merge is the concatenation, in match order, of each geometry's part |
| Merge.MissouriIgnoresOtherTypes | scripts/update-missouri-from-polygons.cjs:79-84 | geometries that are neither Polygon nor MultiPolygon contribute nothing |
| Merge.MissouriMergeOfPolygons | scripts/update-missouri-from-polygons.cjs:76-91 | merging polygonal geometries gives a plain MultiPolygon with one polygon per contributed part |
| Merge.NoNullSlots | scripts/update-missouri-from-polygons.cjs:79-84 | the Missouri merge never holds a null slot |
| Merge.ParkSlots | scripts/update-site-geometries.cjs:116-126 | the national-park merge has one entry per polygon, with one null entry per non-polygonal geometry |
| Merge.MergeParks | scripts/update-site-geometries.cjs:113-130 | the national-park merge yields a MultiPolygon, possibly holding nulls |
| Merge.MergesAgreeOnPolygons | scripts/update-site-geometries.cjs:116-126 | on polygonal geometries the two merges agree |
| Merge.ParkMergeKeepsNulls | scripts/update-site-geometries.cjs:116-126 | unlike the Missouri merge, a non-polygonal match leaves a null polygon in the output |
| Merge.NullSlot | scripts/update-site-geometries.cjs:116-126 | the null slot is found at a concrete index |
| SiteGeometries.Names | scripts/update-site-geometries.cjs:99-100 | a single park name becomes a one-element list; a list is kept |
| SiteGeometries.ByName | scripts/update-site-geometries.cjs:58-61 | the name index returns the LAST feature with that exact name, or nothing when none has it |
| SiteGeometries.Found | scripts/update-site-geometries.cjs:99-104 | the found parks: empty exactly when no mapped name is indexed, each one indexed under a mapped name |
| SiteGeometries.FoundSingle | scripts/update-site-geometries.cjs:99-104 | one name contributes the park indexed under it, or nothing |
| SiteGeometries.FoundAppend | scripts/update-site-geometries.cjs:99-104 | parks are found name by name, in name order and with duplicates kept |
| SiteGeometries.Decide | scripts/update-site-geometries.cjs:80-143 | a site is updated exactly when its id ends in `-np`, is mapped, and a park is found; one park is taken as it is, several are merged |
| SiteGeometries.Count | scripts/update-site-geometries.cjs:75-147 | `processed` is the number of readable files, `updated` the number of readable files whose site the decision rewrites, and the errors are the names of the unreadable files in listing order; `processed = updated + skipped` |
| SiteGeometries.CountStep | scripts/update-site-geometries.cjs:75-147 | one more file keeps the counters exact: a readable file adds to processed and, when rewritten, to updated; an unreadable one appends its name to the errors |
| SiteGeometries.Run | scripts/update-site-geometries.cjs:72-147 | the i-th output file is the i-th `*.json` file other than README.md as `After` leaves it, and the counters are those of exactly these files |
| SiteGeometries.OnlyNationalParks | scripts/update-site-geometries.cjs:85-88 | a site whose id does not end in `-np` is never rewritten |
| SiteGeometries.SiteIdOfFileName | scripts/update-site-geometries.cjs:76 | the file `id.json` is processed under its id |
| SiteGeometries.LastDuplicateWins | scripts/update-site-geometries.cjs:58-61 | of two parks with the same name, the later one is indexed |
| Batch.Lookup | scripts/fetch-all-real-boundaries.cjs:239-245 | the site's file is found exactly when it exists |
| Batch.Commit | scripts/fetch-all-real-boundaries.cjs:239-259 | a write replaces only the site's own file; no file is created or removed |
| Batch.RunSites | scripts/fetch-all-real-boundaries.cjs:264-335 | the loop keeps the file set, adds one tag per visited site, ends at the first site where the stop test on the tags so far holds and at no earlier one, and leaves sites outside the table untouched |
| Batch.RunSitesComplete | scripts/query-arcgis-boundaries.cjs:173-215 | without a break every site is visited |
| Batch.RunSitesEffect | scripts/fetch-all-real-boundaries.cjs:274-330 | with distinct ids, each reached site gets the tag its step computes from its original file and ends up holding what that step writes |
| ArcGis.QueryArcGis | scripts/query-arcgis-boundaries.cjs:70-78 | the first feature's geometry; null when the request fails, the list is absent or empty, or the first feature has no geometry |
| ArcGis.UpdateSiteFile | scripts/query-arcgis-boundaries.cjs:149-168 | the rewrite succeeds exactly when the file exists and parses, giving the `high`-quality stamp |
| ArcGis.Count | scripts/fetch-all-real-boundaries.cjs:314-330 | each counter is the number of outcomes of its kind: `processed` the queries, `updated` the rewrites, `failed` the unknown services, empty replies and unwritable files, `skipped` and `unreadable` theirs; each outcome adds to exactly one of updated, failed, skipped or passed over |
| ArcGis.Attempts | scripts/fetch-all-real-boundaries.cjs:271-296 | the sites attempted are those visited and not skipped |
| ArcGis.QueryAndWrite | scripts/fetch-all-real-boundaries.cjs:298-330 | an unknown service fails without a query; otherwise the site is updated exactly when a geometry comes back and the file can be rewritten |
| FetchAllReal.ProcessAllSites | scripts/fetch-all-real-boundaries.cjs:264-335 | the loop breaks before the first site at which ten sites were attempted with at least one update, and at no earlier site; with no update every site is visited |
| FetchAllReal.HighSkippedWithoutQuery | scripts/fetch-all-real-boundaries.cjs:284-292 | a `high` record is skipped whatever the service would reply |
| FetchAllReal.UnreadableIsQueried | scripts/fetch-all-real-boundaries.cjs:284-292 | a missing or unreadable file is not skipped: it is queried, and its write fails |
| FetchAllReal.ProcessAllSitesEffect | scripts/fetch-all-real-boundaries.cjs:274-330 | a reached site that is not `high` and whose service answers holds the stamped geometry |
| LocalUpdater.ProcessAllSites | scripts/local-boundary-updater.cjs:230-291 | every site is visited; updated, failed, skipped and passed-over add up to the table size |
| LocalUpdater.UnreadableUncounted | scripts/local-boundary-updater.cjs:243-253 | a missing or unreadable file is counted in none of updated, failed or skipped |
| LocalUpdater.HighSkippedWithoutQuery | scripts/local-boundary-updater.cjs:243-253 | a `high` record is skipped whatever the service would reply |
| LocalUpdater.ProcessAllSitesEffect | scripts/local-boundary-updater.cjs:239-285 | each site's outcome and final file follow from its own file and its service's reply |
| QueryArcgis.ProcessAllSites | scripts/query-arcgis-boundaries.cjs:173-215 | each site adds exactly one of updated or failed; a site is queried exactly when its service is known, an unknown service only adds to failed, and `processed` is the number of known-service sites; with distinct ids the i-th outcome is the i-th site's query and `updated` is the number of sites with a known service, a geometry in the reply and a readable file |
| QueryArcgis.UpdatedSites | scripts/query-arcgis-boundaries.cjs:173-215 | with distinct ids, the updated sites are exactly those with a known service, a geometry in the reply and a readable file |
| QueryArcgis.NoSkips | scripts/query-arcgis-boundaries.cjs:178-205 | no site is skipped or passed over, and a known service always leads to a query |
| QueryArcgis.TagOf | scripts/query-arcgis-boundaries.cjs:178-205 | the outcome of the `i`-th site is what the query-and-write step reports for it |
| QueryArcgis.TagOfFrom | scripts/query-arcgis-boundaries.cjs:178-205 | the same, from any starting state of the loop |
| QueryArcgis.HighOverwritten | scripts/query-arcgis-boundaries.cjs:149-168 | there is no freeze: a `high` record is queried and overwritten like any other |
| Prefetched.UpdateSiteFile | scripts/apply-prefetched-boundaries.cjs:25-51 | a missing or unreadable file fails; a `high` record is skipped unchanged; otherwise it is rewritten as `high` with `approximateArea` removed |
| Prefetched.UpdateSiteFileIdempotent | scripts/apply-prefetched-boundaries.cjs:32-46 | applying the same entry again is skipped and leaves the first result |
| Prefetched.Count | scripts/apply-prefetched-boundaries.cjs:86-93 | each counter is the number of entries with that result, and each entry adds to exactly one of updated, skipped or failed |
| Prefetched.Apply | scripts/apply-prefetched-boundaries.cjs:77-93 | an empty table reads nothing; otherwise the counters add up to the table size |
| Prefetched.ApplyEffect | scripts/apply-prefetched-boundaries.cjs:86-93 | with distinct ids a `high` record keeps its contents, and any other readable record is rewritten with its entry |
| FetchAllBoundaries.Hexagon | scripts/fetch-all-boundaries.cjs:105-127 | a Polygon with one closed ring of seven positions, the six vertices at 60-degree steps around the centre |
| FetchAllBoundaries.NodeRing | scripts/fetch-all-boundaries.cjs:159 | each node becomes `[lon, lat]`, in order |
| FetchAllBoundaries.MemberRings | scripts/fetch-all-boundaries.cjs:163-168 | the rings of members that carry a geometry; empty exactly when none does |
| FetchAllBoundaries.Convert | scripts/fetch-all-boundaries.cjs:154-178 | a `way` with geometry becomes a Polygon; a relation with member rings becomes a MultiPolygon of those rings; null exactly when neither holds |
| FetchAllBoundaries.FromOverpass | scripts/fetch-all-boundaries.cjs:132-183 | a parsed reply with elements gives the conversion of its first element; any other reply gives null |
| FetchAllBoundaries.FetchBoundary | scripts/fetch-all-boundaries.cjs:188-216 | OpenStreetMap, then Protected Planet, then the hexagon around the location with the radii given for its latitude and `area.km2`, at `medium` quality; no result exactly when the location or area is missing; only the hexagon carries a quality |
| FetchAllBoundaries.Apply | scripts/fetch-all-boundaries.cjs:221-234 | the quality written is the result's quality, else `high` |
| FetchAllBoundaries.ProcessFile | scripts/fetch-all-boundaries.cjs:247-273 | an unreadable file is a parse failure; a readable non-Point file is passed over; a Point site with no boundary (location or area missing) is a fetch failure; only a Point site with a found boundary is rewritten; everything else is left as read |
| FetchAllBoundaries.Count | scripts/fetch-all-boundaries.cjs:255-273 | `processed` is the number of fetch attempts, `updated` of rewrites, `failed` of parse and fetch failures; updated never exceeds processed, and every processed site that was not updated is a failure |
| FetchAllBoundaries.Outcomes | scripts/fetch-all-boundaries.cjs:247-277 | one outcome per file, in order, each that of `ProcessFile` |
| FetchAllBoundaries.ProcessAllSites | scripts/fetch-all-boundaries.cjs:239-277 | the i-th output file is the i-th `*.json` entry, same name, as `ProcessFile` leaves it; the counters tally exactly those entries' outcomes, and updated never exceeds processed |
| Approximations.Ceil | scripts/generate-polygon-approximations.cjs:82 | `Math.ceil` is the least integer at or above its argument |
| Approximations.NumPoints | scripts/generate-polygon-approximations.cjs:41 | the vertex count is clamped to 24..100 |
| Approximations.Frac | scripts/generate-polygon-approximations.cjs:47 | the fractional part lies in [0, 1) |
| Approximations.PseudoRandom | scripts/generate-polygon-approximations.cjs:45-48 | the pseudo-random value lies in [0, 1) |
| Approximations.RadiusVariation | scripts/generate-polygon-approximations.cjs:54 | the radius factor lies in [0.8, 1.2) |
| Approximations.AngleWobble | scripts/generate-polygon-approximations.cjs:57 | the angular wobble lies in [-0.15, 0.15) radians |
| Approximations.RealisticPolygon | scripts/generate-polygon-approximations.cjs:31-71 | one ring of `numPoints + 1` positions, closed by repeating the first, each vertex as generated |
| Approximations.NumParts | scripts/generate-polygon-approximations.cjs:81-83 | above 5000 km² there are 2 to 5 parts |
| Approximations.MultiPartPolygon | scripts/generate-polygon-approximations.cjs:79-105 | above 5000 km² a MultiPolygon of `numParts` generated parts, each with offset centre, share of area and seed; otherwise one realistic Polygon |
| Approximations.GeneratedRingsAreLinear | scripts/generate-polygon-approximations.cjs:31-105 | every generated polygon has one ring, and it is a linear ring |
| Approximations.Abs | scripts/generate-polygon-approximations.cjs:121 | `Math.abs` is non-negative and equals `x` or `-x` |
| Approximations.PolygonArea | scripts/generate-polygon-approximations.cjs:111-126 | the shoelace area is non-negative |
| Approximations.DegenerateRingHasNoArea | scripts/generate-polygon-approximations.cjs:111-126 | a ring whose positions all coincide has area 0 |
| Approximations.MultiArea | scripts/generate-polygon-approximations.cjs:152-157 | the MultiPolygon area is non-negative |
| Approximations.MultiAreaAppend | scripts/generate-polygon-approximations.cjs:152-157 | the MultiPolygon area adds up over its parts |
| Approximations.SeedAppend | scripts/generate-polygon-approximations.cjs:146 | the seed of a concatenation is the sum of the seeds |
| Approximations.UpdateSiteWithPolygon | scripts/generate-polygon-approximations.cjs:131-178 | a non-Point site is skipped unchanged; an error exactly when the file is unreadable or a Point record lacks location or area; every other Point record is updated with a `medium` generated polygon marked approximate, built from `area.km2` and the id's seed, or the polygon of an undefined area when `area` has no `km2` |
| Approximations.Count | scripts/generate-polygon-approximations.cjs:186-203 | `updated`, `skipped` and `errors` are the numbers of files with that status; every file adds to processed and to exactly one of them |
| Approximations.Statuses | scripts/generate-polygon-approximations.cjs:191-193 | one status per file, in order, each that of `updateSiteWithPolygon` under the file's id |
| Approximations.ProcessAllSites | scripts/generate-polygon-approximations.cjs:183-207 | the i-th output file is the i-th `*.json` entry as `updateSiteWithPolygon` leaves it under the id `name.replace('.json', '')`; the counters tally exactly those entries' statuses and add up |
| Crawl.StateCode | scripts/crawl-conservation-sites.cjs:33-36 | the two-letter code of a state header is two upper-case letters |
| Crawl.PropertyAt | scripts/crawl-conservation-sites.cjs:57 | a property match has a key with no `*`, and a value with no line terminator |
| Crawl.ApplyProperty | scripts/crawl-conservation-sites.cjs:59-86 | a property never renames the site; unknown keys change nothing; id and state are set from their lines; coordinates are set only from a value with exactly one comma |
| Crawl.OptSeq | scripts/crawl-conservation-sites.cjs:89-92 | the open site, when there is one, as a one-element list |
| Crawl.Step | scripts/crawl-conservation-sites.cjs:30-86 | a state header sets the state only; a site header closes the open site and opens a new one with the current state; a matched property line edits only the open site; any other line changes nothing |
| Crawl.HeaderName | scripts/crawl-conservation-sites.cjs:40-51 | a site header contributes its title as a name; any other line contributes none |
| Crawl.Names | scripts/crawl-conservation-sites.cjs:40-51 | the names of a list of sites, in order |
| Crawl.StepNames | scripts/crawl-conservation-sites.cjs:29-86 | one line adds the name it carries as a site header and leaves the other names alone |
| Crawl.ParseLinesNames | scripts/crawl-conservation-sites.cjs:29-86 | every site header adds exactly one site, named after it, and nothing else adds one |
| Crawl.Start | scripts/crawl-conservation-sites.cjs:23-27 | the parser starts with no sites |
| Crawl.ParseFromStart | scripts/crawl-conservation-sites.cjs:23-92 | parsed from the start, the sites are named after the headers |
| Crawl.ParseInventory | scripts/crawl-conservation-sites.cjs:22-95 | the sites are named after the site headers of the content, in order, one per header |
| Crawl.StateInherited | scripts/crawl-conservation-sites.cjs:33-51 | a site opened right after a state header carries that header's code |
| Crawl.StateLineOverrides | scripts/crawl-conservation-sites.cjs:65-67 | an explicit `State` property overrides the inherited state |
| Crawl.RunEnd | scripts/crawl-conservation-sites.cjs:101 | the greedy `[0-9,]+` run ends at the first non-digit, non-comma character |
| Crawl.SkipSpaces | scripts/crawl-conservation-sites.cjs:101 | the `\s*` run ends at the first non-space character |
| Crawl.Leftmost | scripts/crawl-conservation-sites.cjs:104-114 | the match position is the leftmost offset at which the pattern matches, and any offset with a match and none before it is that position |
| Crawl.StripCommas | scripts/crawl-conservation-sites.cjs:106 | `replace(/,/g, '')` keeps exactly the non-comma characters, in order |
| Crawl.StripCommasAppend | scripts/crawl-conservation-sites.cjs:106 | removing commas part by part removes them from the whole |
| Crawl.StripCommasNoCommas | scripts/crawl-conservation-sites.cjs:106 | a text without commas is unchanged |
| Crawl.StripCommasDropComma | scripts/crawl-conservation-sites.cjs:106 | a comma between two parts disappears |
| Crawl.ParseCount | scripts/crawl-conservation-sites.cjs:106 | a run with no digits reads as NaN; otherwise as the decimal value of its digits with the commas removed |
| Crawl.IsRunAppend | scripts/crawl-conservation-sites.cjs:101 | two runs of digits and commas joined are one run |
| Crawl.ParseCountIgnoresComma | scripts/crawl-conservation-sites.cjs:106 | a thousands separator anywhere in the run does not change the number read |
| Crawl.ParseCountOfDecimal | scripts/crawl-conservation-sites.cjs:106 | the decimal rendering of n reads back as n |
| Crawl.AcresFigure | scripts/crawl-conservation-sites.cjs:104-106 | the acres figure exists exactly when the acres pattern matches somewhere, and is the number of the run at the leftmost match |
| Crawl.SqMiFigure | scripts/crawl-conservation-sites.cjs:114-116 | the square-mile figure exists exactly when the square-mile pattern matches somewhere, and is the number of the run just after the parenthesis of the leftmost match |
| Crawl.FromAcres | scripts/crawl-conservation-sites.cjs:107-110 | from acres: km² at 0.00404686 and hectares at 0.404686 per acre, each rounded |
| Crawl.FromSqMi | scripts/crawl-conservation-sites.cjs:117-120 | from square miles: 640 acres, km² at 2.58999 per square mile, hectares at 0.404686 per acre, each rounded |
| Crawl.ParseArea | scripts/crawl-conservation-sites.cjs:100-124 | the area is empty exactly when neither pattern matches; the acres figure and its conversions when it is truthy or alone (a zero or NaN figure is kept); otherwise the square-mile figure times 640 with its conversions |
| Crawl.RunEndAt | scripts/crawl-conservation-sites.cjs:104 | the greedy run ends at the first character that is neither digit nor comma |
| Crawl.AcresNeedsA | scripts/crawl-conservation-sites.cjs:104 | a text without `a` or `A` has no acres figure |
| Crawl.SqMiNeedsParen | scripts/crawl-conservation-sites.cjs:114 | a text without `(` has no square-mile figure |
| Crawl.AcresFigureOfRun | scripts/crawl-conservation-sites.cjs:104-106 | a text opening with `<run> acres` has that run's number as its acres figure |
| Crawl.SqMiFigureOfRun | scripts/crawl-conservation-sites.cjs:114-116 | a text opening with `(<run> sq mi)` has that run's number as its square-mile figure |
| Crawl.DecimalHasNoLetters | scripts/crawl-conservation-sites.cjs:104 | a decimal rendering holds no `a`, `A` or `(` |
| Crawl.ParseAreaAcresOnly | scripts/crawl-conservation-sites.cjs:104-123 | a text with an acres figure and no square-mile figure gives the area built from the acres |
| Crawl.ParseAreaSqMiOnly | scripts/crawl-conservation-sites.cjs:104-123 | a text with a square-mile figure and no acres figure gives the area built from the square miles |
| Crawl.ParseAreaAcresRoundTrip | scripts/crawl-conservation-sites.cjs:100-124 | `<n> acres` parses back to n acres with both conversions |
| Crawl.ParseAreaSqMiRoundTrip | scripts/crawl-conservation-sites.cjs:100-124 | `(<n> sq mi)` alone parses back to 640·n acres with the square-mile conversions |
| Crawl.ConvertToSchema | scripts/crawl-conservation-sites.cjs:129-166 | id, name and state copied; description `<designation> in <state>`; a Point at `[lng, lat]` of `medium` quality; the parsed area only when the area text parses; the designation only when present |
| Crawl.ValidateSite | scripts/crawl-conservation-sites.cjs:171-201 | a site is valid exactly when its id, name and state are non-empty and latitude and longitude are within range |
| Crawl.CrawlSite | scripts/crawl-conservation-sites.cjs:229-273 | a site is written exactly when it has an id, truthy coordinates and a valid schema, to `id.json` |
| Crawl.Outcomes | scripts/crawl-conservation-sites.cjs:229-273 | one outcome per site, in order, each that of `CrawlSite` |
| Crawl.WrittenFiles | scripts/crawl-conservation-sites.cjs:259-264 | every written outcome's file is kept |
| Crawl.RejectedEntries | scripts/crawl-conservation-sites.cjs:231-256 | every rejected outcome's entry is kept, and written plus rejected make up all outcomes |
| Crawl.CrawlAll | scripts/crawl-conservation-sites.cjs:229-273 | the files are the written outcomes of the sites and the errors the rejected ones, in input order; every site is counted once, and every written file validates |
| Crawl.ZeroCoordinateRejected | scripts/crawl-conservation-sites.cjs:238-242 | a site on the equator or the prime meridian is rejected as having no coordinates |
| HeatMap.MilesToMeters | src/utils/heatMapUtils.js:4-6 | metres divided by 1609.34 give back the miles |
| HeatMap.DistanceRingsShape | src/utils/heatMapUtils.js:48-60 | the ring table grows in distance, fades in intensity, and starts with the single centre point |
| HeatMap.RingPoints | src/utils/heatMapUtils.js:63-85 | a ring adds `pointsPerRing` points at its intensity: the centre for one point, otherwise points at even bearings |
| HeatMap.AreaPoints | src/utils/heatMapUtils.js:62-86 | an area's points are its rings' points, in table order |
| HeatMap.AreaPointsBounded | src/utils/heatMapUtils.js:62-86 | no point is brighter than the brightest ring |
| HeatMap.AreaPointsFade | src/utils/heatMapUtils.js:62-86 | with a fading ring table, an area's points fade in output order |
| HeatMap.DistanceRingsTotal | src/utils/heatMapUtils.js:48-60 | the ring table gives 261 points per area |
| HeatMap.SitePoints | src/utils/heatMapUtils.js:62-86 | 261 points per area, the first its centre at intensity 1.0, fading outwards |
| HeatMap.GenerateHeatMapData | src/utils/heatMapUtils.js:42-87 | 261 points per area |
| HeatMap.ShiftBlock | src/utils/heatMapUtils.js:42-87 | behind a prefix of one block's length, block `k` is block `k - 1` of the rest |
| HeatMap.Blocks | src/utils/heatMapUtils.js:42-87 | block `k` of the output is the `k`-th area's points: areas keep their input order |
| HeatMap.CentresFirst | src/utils/heatMapUtils.js:64-66 | every area's block starts with its centre at intensity 1.0 |
| ConservationMap.CalculateGap | src/components/ConservationMap.jsx:32-35 | the gap is the centre distance less both radii, never below zero |
| ConservationMap.GetHeatMapColor | src/components/ConservationMap.jsx:42-54 | green up to 25 miles, blue up to 50, orange up to 100, and none beyond, in both directions |
| ConservationMap.ColorOfMiles | src/components/ConservationMap.jsx:42-54 | measured in miles, the buckets are exactly 25, 50 and 100 |
| ConservationMap.Inner | src/components/ConservationMap.jsx:94-111 | the inner loop draws only coloured pairs `(i, j)` with `i < j` |
| ConservationMap.Pairs | src/components/ConservationMap.jsx:93-94 | the number of pairs of `n` areas is `n(n-1)/2` |
| ConservationMap.Outer | src/components/ConservationMap.jsx:93-112 | at most one line per pair, each for a coloured pair `a < b` |
| ConservationMap.HeatMapLines | src/components/ConservationMap.jsx:87-115 | no lines when the heat map is hidden or there are fewer than two areas; at most one per pair; each line's gap is within 100 miles |
| ConservationMap.InnerComplete | src/components/ConservationMap.jsx:94-111 | every coloured pair reached by the inner loop is drawn |
| ConservationMap.OuterComplete | src/components/ConservationMap.jsx:93-112 | every coloured pair reached by the outer loop is drawn |
| ConservationMap.LinesComplete | src/components/ConservationMap.jsx:87-115 | with the heat map on, a pair gets a line exactly when its gap is within 100 miles |
| ConservationMap.AllAreas | src/components/ConservationMap.jsx:84 | the loaded areas followed by the user-added ones |
| ConservationMap.DeleteNewArea | src/components/ConservationMap.jsx:168-170 | exactly the added areas with another id remain, in order |
| ConservationMap.NewAreaName | src/components/ConservationMap.jsx:120 | the typed name, or `New Area` followed by the count plus one |
| ConservationMap.HandleMapClick | src/components/ConservationMap.jsx:117-134 | outside adding mode nothing changes; otherwise exactly one area is appended at the clicked point |

## Left out

- Network requests, HTTP redirects, retries with back-off and rate-limit sleeps: a reply is an oracle parameter (`ArcGis.Oracle`, `FetchAllBoundaries.World`). The Overpass query text and the Protected Planet request are part of that oracle.
- File-system I/O is a `Store` of parsed records. A write that fails after a successful read is not modelled: each `updateSiteFile` either returns false on a read or parse failure or succeeds.
- The `git add/commit/push` step of the local updater (`commitAndPush`): an external process.
- The `ogr2ogr` conversion of the Missouri generator: an external process. Its output is the input to `MoConservation.CreatePolygons`.
- Console logging, timing (`Date.now()` in the simplifier), output file size, and the "Top 20" listing.
- Trigonometry, π and square roots: `Math.sin`, `Math.cos`, the Haversine `calculateDistance`, `calculatePointAtDistance` and the degree radii of the generators are parameters. Every property is proved for every choice of them.
- Simplifier.Simplify: compares the squared perpendicular distance, `num² ≤ tol² · den`, instead of dividing and taking a square root, because real division and square root are not modelled. Floating-point rounding may decide borderline points differently.
- Floating-point arithmetic in general: every number is an exact real. `Math.round(x * 100) / 100` in the crawler is a `round2` parameter.
- `parseFloat` and `parseInt` on arbitrary text are parameters. `Crawl.ParseCount` is exact for digit strings; the source's `parseInt` loses precision above 2^53.
- Text.ToLower: maps only the ASCII letters A-Z. JavaScript's `toLowerCase` also maps other Unicode letters.
- Approximations.Seed: sums Dafny characters, where JavaScript sums UTF-16 code units. The two agree outside surrogate pairs.
- Property bags hold strings only. A non-string value such as a number in `name` is not modelled. Keys inherited from `Object.prototype` are not treated as present.
- SiteGeometries.Run: requires every park feature to carry `properties` (`HasProperties`). The source reads `properties.name` of every feature while building the name index, before any site file is read, so without them it throws and writes nothing; the model does not represent that crash.
- FetchAllBoundaries.ProcessAllSites: writes an update back to the entry it read. The source writes `<siteId>.json`, which is the same file unless the name holds `.json` before its end.
- An uncaught exception that stops a whole script is the `crashed` flag of `MissouriSites` and `MissouriPolygons`: an unguarded `JSON.parse` of a site file, or reading `properties` of a feature that has none. Where a `try` catches it, it is an error outcome.
- SiteGeometries.SiteIdOfFileName: proved only for ids without a dot. For any other name `Text.RemoveFirst` states which occurrence of `.json` the source removes.
- The per-site `areaError` log of the polygon generator.
- Approximations.UpdateSiteWithPolygon: for an `area` object without `km2` the source's point count is NaN, no vertex is generated, and the written Polygon's one ring holds a single `null` (the undefined `points[0]`). The model writes that ring empty (`UndefinedAreaPolygon`).
- FetchAllBoundaries.FetchBoundary: for an `area` object without `km2` the source's hexagon has NaN coordinates, written as `null`. The model takes the radii from the `radii` parameter applied to the missing value, and does not state what they are.
- Approximations.ProcessAllSites: writes an update back to the entry it read. The source writes `<siteId>.json`, which is the same file unless the name holds `.json` before its end.
- `MultiPolygonWithNulls`: a JavaScript array holding `null` entries is a separate geometry case. Simplification and point counting are defined only on the other cases, as the source would throw on them.
- Rendering, React state management, the submit and download buttons, and the feedback flow of the map component. Only the pure helpers and the list updates of `handleMapClick` and `handleDeleteNewArea` are modelled. The new area's `Date.now()` id is a parameter.
- `crawl-conservation-sites.cjs` writes site names exactly as the header gives them, without trimming past the line trim. The inventory's property regex is matched at the leftmost offset where it holds, which can be after the `- **` prefix.
- Crawl.ValidateSite: accepts a NaN latitude or longitude, because the source's `x < lo || x > hi` test is false for NaN.
