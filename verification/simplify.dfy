/** Douglas-Peucker simplification of rings, polygons and multipolygons.

    The source measures the perpendicular distance of a point from the line
    through the two anchors of a range as `|n| / sqrt(den)`, where `n` is the
    cross-product numerator and `den = dx^2 + dy^2` (or the plain Euclidean
    distance to the first anchor when both anchors coincide). The model keeps the
    same two quantities but never divides or takes a root: `DevNum` is the square
    of the numerator and `DevDen` the denominator. Because `den` is positive and
    shared by every point of one range, and `sqrt` is strictly increasing,
      - one point is farther than another exactly when its `DevNum` is larger, and
      - a distance exceeds `tolerance >= 0` exactly when `DevNum > tolerance^2 * DevDen`.
    Coordinates are exact reals. */
module Simplifier {
  import opened Wrappers
  import opened GeoJson
  import opened Seqs
  import opened Cli

  /** Squared Euclidean distance between two positions. */
  function SqDist(p: Position, q: Position): (d: real)
    ensures d >= 0.0
    ensures p == q ==> d == 0.0
  {
    (p.x - q.x) * (p.x - q.x) + (p.y - q.y) * (p.y - q.y)
  }

  /** Squared numerator of `perpendicularDistance(p, a, b)`; when `a == b` the
      distance is the Euclidean distance from `p` to `a`, with denominator 1. */
  function DevNum(p: Position, a: Position, b: Position): (r: real)
    ensures r >= 0.0
  {
    var dx := b.x - a.x;
    var dy := b.y - a.y;
    if dx == 0.0 && dy == 0.0 then SqDist(p, a)
    else
      var n := dy * p.x - dx * p.y + b.x * a.y - b.y * a.x;
      n * n
  }

  /** Squared denominator of `perpendicularDistance(p, a, b)`. */
  function DevDen(a: Position, b: Position): (r: real)
    ensures r >= 0.0
    ensures a == b ==> r == 1.0
  {
    var dx := b.x - a.x;
    var dy := b.y - a.y;
    if dx == 0.0 && dy == 0.0 then 1.0 else dx * dx + dy * dy
  }

  /** The bound a squared numerator is compared with: `tolerance^2 * den`. */
  function Threshold(tol: real, a: Position, b: Position): (r: real)
    ensures r >= 0.0
    ensures a == b ==> r == tol * tol
  {
    var t := tol * tol;
    MulNonNeg(if tol >= 0.0 then tol else -tol, if tol >= 0.0 then tol else -tol);
    MulNonNeg(t, DevDen(a, b));
    t * DevDen(a, b)
  }

  lemma MulNonNeg(x: real, y: real)
    requires x >= 0.0 && y >= 0.0
    ensures x * y >= 0.0
  {
  }

  /** Squared numerator of the distance of point `j` from the anchor line of the whole range. */
  function Dist(pts: seq<Position>, j: nat): real
    requires j < |pts|
  {
    DevNum(pts[j], pts[0], pts[|pts| - 1])
  }

  /** The scan for the farthest interior point (`maxIndex`, `maxDistance`): indices
      `i .. end-1` are still to be visited, and a later point replaces the best one
      only when strictly farther. `(0, 0)` means no interior point lies off the line. */
  function Farthest(pts: seq<Position>, i: nat, bestIdx: nat, bestD: real): (r: (nat, real))
    requires |pts| >= 2 && 1 <= i <= |pts| - 1 && bestIdx < i
    requires bestIdx == 0 ==> bestD == 0.0
    requires bestIdx > 0 ==> bestD == Dist(pts, bestIdx) && bestD > 0.0
    ensures r.0 < |pts| - 1
    ensures r.0 == 0 ==> r.1 == 0.0
    ensures r.0 > 0 ==> r.1 == Dist(pts, r.0) && r.1 > 0.0
    decreases |pts| - i
  {
    if i == |pts| - 1 then (bestIdx, bestD)
    else
      var d := Dist(pts, i);
      if d > bestD then Farthest(pts, i + 1, i, d)
      else Farthest(pts, i + 1, bestIdx, bestD)
  }

  /** The scan returns the first point of maximal distance: no interior point is
      farther, and every point before it is strictly nearer. */
  lemma {:induction false} FarthestIsFirstMaximum(pts: seq<Position>, i: nat, bestIdx: nat, bestD: real)
    requires |pts| >= 2 && 1 <= i <= |pts| - 1 && bestIdx < i
    requires bestIdx == 0 ==> bestD == 0.0
    requires bestIdx > 0 ==> bestD == Dist(pts, bestIdx) && bestD > 0.0
    requires forall j :: 1 <= j < i ==> Dist(pts, j) <= bestD
    requires forall j :: 1 <= j < bestIdx ==> Dist(pts, j) < bestD
    ensures forall j :: 1 <= j < |pts| - 1 ==> Dist(pts, j) <= Farthest(pts, i, bestIdx, bestD).1
    ensures forall j :: 1 <= j < Farthest(pts, i, bestIdx, bestD).0 ==> Dist(pts, j) < Farthest(pts, i, bestIdx, bestD).1
    decreases |pts| - i
  {
    if i < |pts| - 1 {
      var d := Dist(pts, i);
      if d > bestD {
        FarthestIsFirstMaximum(pts, i + 1, i, d);
      } else {
        FarthestIsFirstMaximum(pts, i + 1, bestIdx, bestD);
      }
    }
  }

  /** The split point and its squared numerator, as the loop of the source leaves them. */
  function Split(pts: seq<Position>): (r: (nat, real))
    requires |pts| >= 3
    ensures r.0 < |pts| - 1
    ensures r.0 == 0 ==> r.1 == 0.0
    ensures r.0 > 0 ==> r.1 == Dist(pts, r.0) && r.1 > 0.0
  {
    Farthest(pts, 1, 0, 0.0)
  }

  /** The split point is the first interior point of maximal distance. */
  lemma SplitIsFirstMaximum(pts: seq<Position>)
    requires |pts| >= 3
    ensures forall j :: 1 <= j < |pts| - 1 ==> Dist(pts, j) <= Split(pts).1
    ensures forall j :: 1 <= j < Split(pts).0 ==> Dist(pts, j) < Split(pts).1
  {
    FarthestIsFirstMaximum(pts, 1, 0, 0.0);
  }

  /** A split decision for a range of at least three positions: split at an index
      (`Some(k)`) or collapse the range to its two anchors (`None`). */
  type Decision = seq<Position> -> Option<nat>

  /** A decision only ever splits at an interior index, so both halves are shorter. */
  ghost predicate ValidDecision(dec: Decision)
  {
    forall p: seq<Position> :: |p| >= 3 && dec(p).Some? ==> 0 < dec(p).value < |p| - 1
  }

  /** A decision collapses a range only when every interior position lies within
      `tol` of the line through the two anchors. */
  ghost predicate SoundDecision(dec: Decision, tol: real)
  {
    forall p: seq<Position> :: |p| >= 3 && dec(p).None? ==> ChordWithin(p, 0, |p| - 1, tol)
  }

  /** The recursion of `simplifyDouglasPeucker`, with the split decision as a
      parameter: ranges of at most two positions are returned as they are; a split
      at `k` simplifies `[0..k]` and `[k..end]` and joins them, dropping the
      duplicated split position; a collapse keeps the two anchors. */
  function Reduce(pts: seq<Position>, dec: Decision): (r: seq<Position>)
    requires ValidDecision(dec)
    ensures |pts| <= 2 ==> r == pts
    ensures |pts| >= 2 ==> 2 <= |r| <= |pts| && r[0] == pts[0] && r[|r| - 1] == pts[|pts| - 1]
    decreases |pts|
  {
    if |pts| <= 2 then pts
    else match dec(pts)
      case None => [pts[0], pts[|pts| - 1]]
      case Some(k) =>
        var left := Reduce(pts[..k + 1], dec);
        var right := Reduce(pts[k..], dec);
        left[..|left| - 1] + right
  }

  /** The decision `simplifyDouglasPeucker` makes: split at the farthest interior
      position when its distance exceeds the tolerance. A tolerance below zero would
      let it "split" at index 0 of a straight range and recurse forever, which is why
      the source's command line rejects one. */
  function DouglasPeucker(tol: real): (dec: Decision)
    requires tol >= 0.0
    ensures ValidDecision(dec)
  {
    p => if |p| >= 3 && Split(p).1 > Threshold(tol, p[0], p[|p| - 1]) then Some(Split(p).0) else None
  }

  /** `simplifyDouglasPeucker(points, tolerance)`. */
  function Simplify(pts: seq<Position>, tol: real): (r: seq<Position>)
    requires tol >= 0.0
    ensures |pts| <= 2 ==> r == pts
    ensures |pts| >= 2 ==> 2 <= |r| <= |pts| && r[0] == pts[0] && r[|r| - 1] == pts[|pts| - 1]
  {
    Reduce(pts, DouglasPeucker(tol))
  }

  /** The Douglas-Peucker decision collapses only ranges whose interior lies within tolerance. */
  lemma DouglasPeuckerSound(tol: real)
    requires tol >= 0.0
    ensures SoundDecision(DouglasPeucker(tol), tol)
  {
    var dec := DouglasPeucker(tol);
    forall p: seq<Position> | |p| >= 3 && dec(p).None?
      ensures ChordWithin(p, 0, |p| - 1, tol)
    {
      SplitIsFirstMaximum(p);
      forall i | 0 < i < |p| - 1
        ensures DevNum(p[i], p[0], p[|p| - 1]) <= Threshold(tol, p[0], p[|p| - 1])
      {
        assert Dist(p, i) <= Split(p).1;
      }
    }
  }

  /** 0, 1, ..., n-1. */
  function Iota(n: nat): (r: seq<nat>)
    ensures |r| == n && forall j :: 0 <= j < n ==> r[j] == j
  {
    seq(n, j requires 0 <= j < n => j)
  }

  /** `a < b` index positions of `pts`, and every position strictly between them
      lies within `tol` of the line through `pts[a]` and `pts[b]`. */
  ghost predicate ChordWithin(pts: seq<Position>, a: nat, b: nat, tol: real)
  {
    && a < b < |pts|
    && forall i :: a < i < b ==> DevNum(pts[i], pts[a], pts[b]) <= Threshold(tol, pts[a], pts[b])
  }

  /** Every input position strictly between two consecutive kept positions lies
      within `tol` of the line through those two kept positions. */
  ghost predicate WithinTolerance(pts: seq<Position>, K: seq<nat>, tol: real)
  {
    forall j :: 0 <= j < |K| - 1 ==> ChordWithin(pts, K[j], K[j + 1], tol)
  }

  lemma ChordInPrefix(pts: seq<Position>, n: nat, a: nat, b: nat, tol: real)
    requires n <= |pts| && ChordWithin(pts[..n], a, b, tol)
    ensures ChordWithin(pts, a, b, tol)
  {
    assert forall i :: 0 <= i < n ==> pts[..n][i] == pts[i];
  }

  lemma ChordInSuffix(pts: seq<Position>, k: nat, a: nat, b: nat, tol: real)
    requires k <= |pts| && ChordWithin(pts[k..], a, b, tol)
    ensures ChordWithin(pts, a + k, b + k, tol)
  {
    forall i | a + k < i < b + k
      ensures DevNum(pts[i], pts[a + k], pts[b + k]) <= Threshold(tol, pts[a + k], pts[b + k])
    {
      assert pts[k..][i - k] == pts[i];
    }
  }

  /** Joining the kept indices of the two halves of a split (dropping the duplicated
      split index) gives an embedding of the joined result into the whole input. */
  lemma JoinEmbedding(pts: seq<Position>, k: nat, KL: seq<nat>, l: seq<Position>, KR: seq<nat>, rr: seq<Position>)
    requires 0 < k < |pts|
    requires Embedding(KL, l, pts[..k + 1]) && |KL| >= 2 && KL[|KL| - 1] == k
    requires Embedding(KR, rr, pts[k..])
    ensures Embedding(KL[..|KL| - 1] + Shift(KR, k), l[..|l| - 1] + rr, pts)
  {
    var m := |KL|;
    var K := KL[..m - 1] + Shift(KR, k);
    var r := l[..|l| - 1] + rr;
    forall j | 0 <= j < |K|
      ensures K[j] < |pts| && r[j] == pts[K[j]]
    {
      if j < m - 1 {
        assert K[j] == KL[j] && r[j] == l[j];
      } else {
        assert K[j] == KR[j - (m - 1)] + k && r[j] == rr[j - (m - 1)];
      }
    }
    forall j, j' | 0 <= j < j' < |K|
      ensures K[j] < K[j']
    {
      if j' < m - 1 {
        assert K[j] == KL[j] && K[j'] == KL[j'];
      } else if j < m - 1 {
        assert KL[j] < KL[m - 1];
        assert K[j'] == KR[j' - (m - 1)] + k;
      } else {
        assert K[j] == KR[j - (m - 1)] + k && K[j'] == KR[j' - (m - 1)] + k;
      }
    }
  }

  /** The tolerance bound of the two halves carries over to the joined indices. */
  lemma JoinTolerance(pts: seq<Position>, k: nat, KL: seq<nat>, KR: seq<nat>, tol: real)
    requires 0 < k < |pts|
    requires |KL| >= 2 && KL[|KL| - 1] == k && |KR| >= 1 && KR[0] == 0
    requires forall j :: 0 <= j < |KL| ==> KL[j] <= k
    requires WithinTolerance(pts[..k + 1], KL, tol) && WithinTolerance(pts[k..], KR, tol)
    ensures WithinTolerance(pts, KL[..|KL| - 1] + Shift(KR, k), tol)
  {
    var m := |KL|;
    var K := KL[..m - 1] + Shift(KR, k);
    forall j | 0 <= j < |K| - 1
      ensures ChordWithin(pts, K[j], K[j + 1], tol)
    {
      if j < m - 1 {
        assert K[j] == KL[j] && K[j + 1] == KL[j + 1];
        ChordInPrefix(pts, k + 1, KL[j], KL[j + 1], tol);
      } else {
        var jr := j - (m - 1);
        assert K[j] == KR[jr] + k && K[j + 1] == KR[jr + 1] + k;
        ChordInSuffix(pts, k, KR[jr], KR[jr + 1], tol);
      }
    }
  }

  /** `K` picks `r` out of `pts`, starts at the first index, ends at the last, and
      every position it skips lies within `tol` of the chord that replaces it. */
  ghost predicate Faithful(pts: seq<Position>, K: seq<nat>, r: seq<Position>, tol: real)
  {
    && Embedding(K, r, pts)
    && (|pts| >= 1 ==> |K| >= 1 && K[0] == 0 && K[|K| - 1] == |pts| - 1)
    && WithinTolerance(pts, K, tol)
  }

  /** The kept indices of the two halves, joined, satisfy everything `Faithful` asks. */
  lemma JoinHalves(pts: seq<Position>, k: nat, KL: seq<nat>, l: seq<Position>, KR: seq<nat>, rr: seq<Position>,
                   K: seq<nat>, r: seq<Position>, tol: real)
    requires 0 < k < |pts| - 1 && |KL| >= 2 && |l| >= 1
    requires Faithful(pts[..k + 1], KL, l, tol) && Faithful(pts[k..], KR, rr, tol)
    requires K == KL[..|KL| - 1] + Shift(KR, k) && r == l[..|l| - 1] + rr
    ensures Faithful(pts, K, r, tol)
  {
    assert forall j :: 0 <= j < |KL| ==> KL[j] <= k by {
      forall j | 0 <= j < |KL| ensures KL[j] <= k {
        if j < |KL| - 1 {
          assert KL[j] < KL[|KL| - 1];
        }
      }
    }
    JoinEmbedding(pts, k, KL, l, KR, rr);
    JoinTolerance(pts, k, KL, KR, tol);
    assert K[0] == KL[0];
    assert K[|K| - 1] == KR[|KR| - 1] + k;
  }

  /** How `Reduce` unfolds on a range the decision splits at `k`. */
  lemma ReduceUnfold(pts: seq<Position>, dec: Decision, k: nat)
    requires ValidDecision(dec) && |pts| >= 3 && dec(pts) == Some(k)
    ensures Reduce(pts, dec) == Reduce(pts[..k + 1], dec)[..|Reduce(pts[..k + 1], dec)| - 1] + Reduce(pts[k..], dec)
  {
  }

  /** A range the decision splits is faithful when both of its halves are: the
      witness is the left indices without their last one, then the right indices
      shifted by the split index. */
  lemma ReduceSplitStep(pts: seq<Position>, dec: Decision, tol: real, k: nat, KL: seq<nat>, KR: seq<nat>)
    requires ValidDecision(dec) && |pts| >= 3 && dec(pts) == Some(k)
    requires Faithful(pts[..k + 1], KL, Reduce(pts[..k + 1], dec), tol)
    requires Faithful(pts[k..], KR, Reduce(pts[k..], dec), tol)
    ensures Faithful(pts, KL[..|KL| - 1] + Shift(KR, k), Reduce(pts, dec), tol)
  {
    var l := Reduce(pts[..k + 1], dec);
    var rr := Reduce(pts[k..], dec);
    assert |KL| >= 2 && |l| >= 1 && 0 < k < |pts| - 1;
    ReduceUnfold(pts, dec, k);
    JoinHalves(pts, k, KL, l, KR, rr, KL[..|KL| - 1] + Shift(KR, k), Reduce(pts, dec), tol);
  }

  /** A range the decision collapses is faithful when the decision is sound. */
  lemma ReduceCollapseStep(pts: seq<Position>, dec: Decision, tol: real)
    requires ValidDecision(dec) && SoundDecision(dec, tol) && |pts| >= 3 && dec(pts) == None
    ensures Faithful(pts, [0, |pts| - 1], Reduce(pts, dec), tol)
  {
    assert ChordWithin(pts, 0, |pts| - 1, tol);
  }

  /** A ring of at most two positions is kept whole. */
  lemma ReduceShortFaithful(pts: seq<Position>, dec: Decision, tol: real)
    requires ValidDecision(dec) && |pts| <= 2
    ensures Faithful(pts, Iota(|pts|), Reduce(pts, dec), tol)
  {
  }

  /** The input indices `Reduce` keeps, in order. */
  ghost function KeptIndices(pts: seq<Position>, dec: Decision): (K: seq<nat>)
    requires ValidDecision(dec)
    ensures |pts| >= 1 ==> |K| >= 1
    ensures |pts| >= 2 ==> |K| >= 2
    decreases |pts|
  {
    if |pts| <= 2 then Iota(|pts|)
    else match dec(pts)
      case None => [0, |pts| - 1]
      case Some(k) =>
        var KL := KeptIndices(pts[..k + 1], dec);
        KL[..|KL| - 1] + Shift(KeptIndices(pts[k..], dec), k)
  }

  /** The kept indices witness that `Reduce` is faithful to its input. */
  lemma {:induction false} ReduceFaithfulAt(pts: seq<Position>, dec: Decision, tol: real)
    requires ValidDecision(dec) && SoundDecision(dec, tol)
    ensures Faithful(pts, KeptIndices(pts, dec), Reduce(pts, dec), tol)
    decreases |pts|
  {
    var K := KeptIndices(pts, dec);
    if |pts| <= 2 {
      assert K == Iota(|pts|);
      ReduceShortFaithful(pts, dec, tol);
    } else if dec(pts).None? {
      assert K == [0, |pts| - 1];
      ReduceCollapseStep(pts, dec, tol);
    } else {
      var k := dec(pts).value;
      var KL, KR := KeptIndices(pts[..k + 1], dec), KeptIndices(pts[k..], dec);
      assert K == KL[..|KL| - 1] + Shift(KR, k);
      ReduceFaithfulAt(pts[..k + 1], dec, tol);
      ReduceFaithfulAt(pts[k..], dec, tol);
      ReduceSplitStep(pts, dec, tol, k, KL, KR);
    }
  }

  /** For any valid and sound decision, the output of `Reduce` is the input positions
      at some list of indices that starts at the first index, ends at the last,
      increases strictly, and leaves every dropped position within `tol` of the
      chord that replaces it. */
  lemma ReduceFaithful(pts: seq<Position>, dec: Decision, tol: real)
    requires ValidDecision(dec) && SoundDecision(dec, tol)
    ensures exists K :: Faithful(pts, K, Reduce(pts, dec), tol)
  {
    ReduceFaithfulAt(pts, dec, tol);
  }

  /** Every position `Simplify` drops lies within the tolerance of the chord between
      the two kept positions around it, and the kept positions appear in input order. */
  lemma SimplifyFaithful(pts: seq<Position>, tol: real)
    requires tol >= 0.0
    ensures exists K :: Faithful(pts, K, Simplify(pts, tol), tol)
  {
    var dec := DouglasPeucker(tol);
    DouglasPeuckerSound(tol);
    ReduceFaithful(pts, dec, tol);
    var K :| Faithful(pts, K, Reduce(pts, dec), tol);
    assert Faithful(pts, K, Simplify(pts, tol), tol);
  }

  /** The simplified ring is a subsequence of the input: no position is invented or reordered. */
  lemma SimplifyIsSubsequence(pts: seq<Position>, tol: real)
    requires tol >= 0.0
    ensures IsSubsequence(Simplify(pts, tol), pts)
  {
    SimplifyFaithful(pts, tol);
  }

  /** A closed ring whose positions all lie within `tol` of its first position
      collapses to two copies of that position, which is no longer a linear ring:
      nothing in the simplifier keeps four positions. */
  lemma ClosedRingCollapses(ring: Ring, tol: real)
    requires tol >= 0.0 && |ring| >= 3 && ring[0] == ring[|ring| - 1]
    requires forall i :: 0 <= i < |ring| ==> SqDist(ring[i], ring[0]) <= tol * tol
    ensures Simplify(ring, tol) == [ring[0], ring[0]]
    ensures !IsLinearRing(Simplify(ring, tol))
  {
    var s := Split(ring);
    SplitIsFirstMaximum(ring);
    assert s.0 > 0 ==> s.1 == Dist(ring, s.0);
    assert DouglasPeucker(tol)(ring).None?;
  }

  /** The unit square as a closed five-position ring. */
  const UnitSquare: Ring := [Position(0.0, 0.0), Position(1.0, 0.0), Position(1.0, 1.0), Position(0.0, 1.0), Position(0.0, 0.0)]

  /** With tolerance 2 the closed unit square simplifies to a two-position "ring". */
  lemma UnitSquareCollapses()
    ensures Simplify(UnitSquare, 2.0) == [Position(0.0, 0.0), Position(0.0, 0.0)]
  {
    var sq := UnitSquare;
    forall i | 0 <= i < |sq|
      ensures SqDist(sq[i], sq[0]) <= 2.0 * 2.0
    {
    }
    ClosedRingCollapses(sq, 2.0);
  }

  /** The scan leaves `maxIndex = 0` exactly when every interior point lies on the
      anchor line. With a negative tolerance the source would then still split
      (`0 > tolerance`), and its right half `points.slice(0)` is the whole range
      again: this is why the simplifier needs `tolerance >= 0` to terminate. */
  lemma SplitAtZeroIffCollinear(pts: seq<Position>)
    requires |pts| >= 3
    ensures Split(pts).0 == 0 <==> forall j :: 1 <= j < |pts| - 1 ==> Dist(pts, j) == 0.0
    ensures Split(pts).0 == 0 ==> pts[Split(pts).0..] == pts
  {
    var s := Split(pts);
    SplitIsFirstMaximum(pts);
    if s.0 != 0 {
      assert Dist(pts, s.0) > 0.0;
    }
  }

  /** `simplifyPolygon`: each ring simplified independently. */
  function SimplifyPolygon(rings: seq<Ring>, tol: real): (r: seq<Ring>)
    requires tol >= 0.0
    ensures |r| == |rings|
    ensures forall i :: 0 <= i < |rings| ==> r[i] == Simplify(rings[i], tol)
    ensures RingsPoints(r) <= RingsPoints(rings)
  {
    if rings == [] then []
    else [Simplify(rings[0], tol)] + SimplifyPolygon(rings[1..], tol)
  }

  /** `simplifyMultiPolygon`: each polygon simplified independently. */
  function SimplifyMultiPolygon(polygons: seq<PolygonCoords>, tol: real): (r: seq<PolygonCoords>)
    requires tol >= 0.0
    ensures |r| == |polygons|
    ensures forall i :: 0 <= i < |polygons| ==> |r[i]| == |polygons[i]| && r[i] == SimplifyPolygon(polygons[i], tol)
    ensures PolygonsPoints(r) <= PolygonsPoints(polygons)
  {
    if polygons == [] then []
    else
      var h, t := SimplifyPolygon(polygons[0], tol), SimplifyMultiPolygon(polygons[1..], tol);
      PolygonsStep(polygons, h, t, tol);
      [h] + t
  }

  /** One step of `SimplifyMultiPolygon`: the simplified head polygon in front of the
      simplified tail. */
  lemma PolygonsStep(polygons: seq<PolygonCoords>, h: PolygonCoords, t: seq<PolygonCoords>, tol: real)
    requires tol >= 0.0 && polygons != [] && h == SimplifyPolygon(polygons[0], tol)
    requires |t| == |polygons| - 1
    requires forall i :: 0 <= i < |t| ==> |t[i]| == |polygons[1..][i]| && t[i] == SimplifyPolygon(polygons[1..][i], tol)
    requires PolygonsPoints(t) <= PolygonsPoints(polygons[1..])
    ensures |[h] + t| == |polygons|
    ensures forall i :: 0 <= i < |polygons| ==> |([h] + t)[i]| == |polygons[i]| && ([h] + t)[i] == SimplifyPolygon(polygons[i], tol)
    ensures PolygonsPoints([h] + t) <= PolygonsPoints(polygons)
  {
    ConsTail(h, t);
    assert forall i :: 1 <= i < |polygons| ==> polygons[i] == polygons[1..][i - 1] && ([h] + t)[i] == t[i - 1];
  }

  /** `simplifyGeometry`: Polygon and MultiPolygon are simplified, keeping their type,
      ring count and polygon count; every other type is returned unchanged. The
      source would throw on a `null` polygon, so that variant is not accepted. */
  function SimplifyGeometry(g: Geometry, tol: real): (r: Geometry)
    requires tol >= 0.0 && !g.MultiPolygonWithNulls?
    ensures !r.MultiPolygonWithNulls?
    ensures g.Polygon? <==> r.Polygon?
    ensures g.MultiPolygon? <==> r.MultiPolygon?
    ensures g.Polygon? ==> (|r.rings| == |g.rings|
      && forall i :: 0 <= i < |g.rings| ==> IsSubsequence(r.rings[i], g.rings[i]))
    ensures g.MultiPolygon? ==> (|r.polygons| == |g.polygons|
      && forall i :: 0 <= i < |g.polygons| ==> |r.polygons[i]| == |g.polygons[i]|)
    ensures !g.IsPolygonal() ==> r == g
    ensures PointCount(r) <= PointCount(g)
  {
    match g
    case Polygon(rings) =>
      var rs := SimplifyPolygon(rings, tol);
      assert forall i :: 0 <= i < |rings| ==> IsSubsequence(rs[i], rings[i]) by {
        forall i | 0 <= i < |rings| ensures IsSubsequence(rs[i], rings[i]) {
          SimplifyIsSubsequence(rings[i], tol);
        }
      }
      Polygon(rs)
    case MultiPolygon(polygons) => MultiPolygon(SimplifyMultiPolygon(polygons, tol))
    case Point(_) => g
    case OtherGeometry(_) => g
  }

  /** Sum of `PointCount` over a feature list: the `originalPoints` / `simplifiedPoints` counters. */
  function TotalPoints(features: seq<Feature>): nat
    requires forall i :: 0 <= i < |features| ==> !features[i].geometry.MultiPolygonWithNulls?
  {
    if features == [] then 0 else PointCount(features[0].geometry) + TotalPoints(features[1..])
  }

  /** The feature map of `simplifyGeoJSON`: every geometry simplified, properties kept,
      feature count unchanged, and the total point count never grows. */
  function SimplifyFeatures(features: seq<Feature>, tol: real): (r: seq<Feature>)
    requires tol >= 0.0
    requires forall i :: 0 <= i < |features| ==> !features[i].geometry.MultiPolygonWithNulls?
    ensures |r| == |features|
    ensures forall i :: 0 <= i < |r| ==> !r[i].geometry.MultiPolygonWithNulls?
    ensures forall i :: 0 <= i < |r| ==> (r[i].properties == features[i].properties
      && r[i].geometry == SimplifyGeometry(features[i].geometry, tol))
    ensures TotalPoints(r) <= TotalPoints(features)
  {
    if features == [] then []
    else
      var h, t := features[0].(geometry := SimplifyGeometry(features[0].geometry, tol)), SimplifyFeatures(features[1..], tol);
      FeaturesStep(features, h, t, tol);
      [h] + t
  }

  /** One step of `SimplifyFeatures`: the simplified head feature in front of the
      simplified tail. */
  lemma FeaturesStep(features: seq<Feature>, h: Feature, t: seq<Feature>, tol: real)
    requires tol >= 0.0 && features != []
    requires forall i :: 0 <= i < |features| ==> !features[i].geometry.MultiPolygonWithNulls?
    requires h == features[0].(geometry := SimplifyGeometry(features[0].geometry, tol))
    requires |t| == |features| - 1
    requires forall i :: 0 <= i < |t| ==> !t[i].geometry.MultiPolygonWithNulls?
    requires forall i :: 0 <= i < |t| ==> (t[i].properties == features[1..][i].properties
      && t[i].geometry == SimplifyGeometry(features[1..][i].geometry, tol))
    requires TotalPoints(t) <= TotalPoints(features[1..])
    ensures |[h] + t| == |features|
    ensures forall i :: 0 <= i < |[h] + t| ==> !([h] + t)[i].geometry.MultiPolygonWithNulls?
    ensures forall i :: 0 <= i < |[h] + t| ==> (([h] + t)[i].properties == features[i].properties
      && ([h] + t)[i].geometry == SimplifyGeometry(features[i].geometry, tol))
    ensures TotalPoints([h] + t) <= TotalPoints(features)
  {
    var r := [h] + t;
    ConsTail(h, t);
    forall i | 0 <= i < |features|
      ensures !r[i].geometry.MultiPolygonWithNulls?
      ensures r[i].properties == features[i].properties
      ensures r[i].geometry == SimplifyGeometry(features[i].geometry, tol)
    {
      if i > 0 {
        assert r[i] == t[i - 1] && features[i] == features[1..][i - 1];
      }
    }
    assert TotalPoints(r) == PointCount(h.geometry) + TotalPoints(t);
  }

  /** The command-line check: NaN or a non-positive tolerance is rejected; an accepted
      tolerance satisfies the simplifier's requirement. */
  function CheckTolerance(t: Number): (r: Result<real>)
    ensures r.Success? <==> t.Num? && t.v > 0.0
    ensures r.Success? ==> r.value == t.v && r.value >= 0.0
  {
    if t.NaN? || t.v <= 0.0 then Failure("Tolerance must be a positive number") else Success(t.v)
  }

  /** The command line `<input-file> <output-file> [tolerance]`: fewer than two
      arguments is a usage error; the tolerance defaults to 0.001 and must be a
      positive number. Whether the input file exists is file I/O. */
  function ParseArgs(args: seq<string>, parseFloat: string -> Number): (r: Result<real>)
    ensures |args| < 2 ==> r.Failure?
    ensures r.Success? ==> r.value > 0.0
    ensures |args| == 2 ==> r == Success(0.001)
    ensures |args| >= 3 && args[2] != "" ==> (r.Success? <==> parseFloat(args[2]).Num? && parseFloat(args[2]).v > 0.0)
    ensures |args| >= 3 && args[2] != "" && r.Success? ==> r.value == parseFloat(args[2]).v
    ensures |args| >= 3 && args[2] == "" ==> r == Success(0.001)
  {
    if |args| < 2 then Failure("Usage: node simplify-geojson.js <input-file> <output-file> [tolerance]")
    else CheckTolerance(ParsedOr(Arg(args, 2), parseFloat, 0.001))
  }
}
