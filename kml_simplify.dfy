/**
 * `KmlParser.simplifyCoordinates` and the Douglas-Peucker recursion behind it.
 *
 * Distances are compared through their squares: `perpendicularDistance`
 * returns |offset| / sqrt(den), and for a distance of at least 0 the test
 * `distance > tolerance` holds exactly when `distance * distance > Bound(tolerance)`
 * (`ExceedsIffAboveBound`), so the model never takes a square root. The
 * recursion is stated for any point-to-chord measure and a squared bound; the
 * app's instance is `DistanceSquared` with `Bound(tolerance)`.
 */
module KmlSimplify {
  import opened Geo

  /** The default tolerance of `simplifyCoordinates` (about 11 metres). */
  const DefaultTolerance: real := 0.0001

  /** The numerator of `perpendicularDistance` before `Math.abs`, with x = latitude and y = longitude. */
  function Offset(p: LatLng, a: LatLng, b: LatLng): real {
    (b.longitude - a.longitude) * p.latitude - (b.latitude - a.latitude) * p.longitude
      + b.latitude * a.longitude - b.longitude * a.latitude
  }

  /** The square of the denominator of `perpendicularDistance`. */
  function ChordSquared(a: LatLng, b: LatLng): real {
    (b.longitude - a.longitude) * (b.longitude - a.longitude) + (b.latitude - a.latitude) * (b.latitude - a.latitude)
  }

  /** The square of `perpendicularDistance(p, a, b)`; 0 when the two ends coincide. */
  function DistanceSquared(p: LatLng, a: LatLng, b: LatLng): (d: real)
    ensures d >= 0.0
    ensures a == b ==> d == 0.0
  {
    SquareOver(Offset(p, a, b), ChordSquared(a, b))
  }

  /** `(n / sqrt(c))` squared, and 0 when `c` is 0 (the source's `denominator == 0.0` case). */
  function SquareOver(n: real, c: real): (q: real)
    requires c >= 0.0
    ensures q >= 0.0
  {
    if c == 0.0 then 0.0 else n * n / c
  }

  /** The ends of the chord lie on it. */
  lemma ChordEndsOnLine(a: LatLng, b: LatLng)
    ensures DistanceSquared(a, a, b) == 0.0
    ensures DistanceSquared(b, a, b) == 0.0
  {
    assert Offset(a, a, b) == 0.0;
    assert Offset(b, a, b) == 0.0;
  }

  /** The distance does not depend on which end of the chord is the start. */
  lemma DistanceSymmetric(p: LatLng, a: LatLng, b: LatLng)
    ensures DistanceSquared(p, a, b) == DistanceSquared(p, b, a)
  {
    assert Offset(p, b, a) == -Offset(p, a, b);
    assert ChordSquared(b, a) == ChordSquared(a, b);
  }

  /** The squared threshold a squared distance is compared with; below 0 for a negative tolerance. */
  function Bound(tolerance: real): real {
    if tolerance < 0.0 then -1.0 else tolerance * tolerance
  }

  /** `distance > tolerance` holds exactly when the squared distance is above `Bound(tolerance)`. */
  lemma ExceedsIffAboveBound(distance: real, tolerance: real)
    requires distance >= 0.0
    ensures distance > tolerance <==> distance * distance > Bound(tolerance)
  {
    if tolerance >= 0.0 {
      if distance > tolerance {
        SquareBelow(tolerance, distance);
      } else {
        SquareAtMost(distance, tolerance);
      }
    } else {
      ProductNonNegative(distance, distance);
    }
  }

  lemma SquareBelow(small: real, large: real)
    requires 0.0 <= small < large
    ensures small * small < large * large
  {
    ProductPositive(large - small, large + small);
    assert (large - small) * (large + small) == large * large - small * small;
  }

  lemma SquareAtMost(small: real, large: real)
    requires 0.0 <= small <= large
    ensures small * small <= large * large
  {
    ProductNonNegative(large - small, large + small);
    assert (large - small) * (large + small) == large * large - small * small;
  }

  lemma ProductPositive(x: real, y: real)
    requires x > 0.0 && y > 0.0
    ensures x * y > 0.0
  {
  }

  lemma ProductNonNegative(x: real, y: real)
    requires x >= 0.0 && y >= 0.0
    ensures x * y >= 0.0
  {
  }

  /** A larger tolerance has a larger bound. */
  lemma BoundMonotone(small: real, large: real)
    requires 0.0 <= small <= large
    ensures Bound(small) <= Bound(large)
  {
    SquareAtMost(small, large);
  }


  /** A point's squared distance from a chord; the app's is `DistanceSquared`. */
  type Measure = (LatLng, LatLng, LatLng) -> real

  /*
   * `douglasPeucker` recurses on `subList` views of one backing list, so the
   * model names each call by the index range [lo, hi] of that list it sees:
   * the view's index 0 is `lo` and its last index `end` is `hi`.
   */

  /** The distance of `points[i]` from the chord between `points[lo]` and `points[hi]`. */
  function Dist(points: seq<LatLng>, lo: nat, hi: nat, i: nat, d: Measure): real
    requires lo <= hi < |points| && i < |points|
  {
    d(points[i], points[lo], points[hi])
  }

  /**
   * `maxDistance` and `maxIndex` after the scan loop of the call on [lo, hi]
   * has looked at the indices lo + 1 until k. `ScanFindsFirstMaximum` states what they are.
   */
  function Scan(points: seq<LatLng>, lo: nat, hi: nat, k: nat, d: Measure): (res: (real, nat))
    requires lo < k <= hi < |points|
    ensures lo <= res.1 < k && res.0 >= 0.0
    ensures res.1 == lo ==> res.0 == 0.0
    ensures res.1 > lo ==> res.0 == Dist(points, lo, hi, res.1, d) && res.0 > 0.0
    decreases k
  {
    if k == lo + 1 then (0.0, lo)
    else
      var prev := Scan(points, lo, hi, k - 1, d);
      var dk := Dist(points, lo, hi, k - 1, d);
      if dk > prev.0 then (dk, k - 1) else prev
  }

  /** The scan finds the first index of greatest positive distance, or (0, lo) when none is positive. */
  lemma {:induction false} ScanFindsFirstMaximum(points: seq<LatLng>, lo: nat, hi: nat, k: nat, d: Measure)
    requires lo < k <= hi < |points|
    ensures forall i :: lo < i < k ==> Dist(points, lo, hi, i, d) <= Scan(points, lo, hi, k, d).0
    ensures forall i :: lo < i < Scan(points, lo, hi, k, d).1 ==> Dist(points, lo, hi, i, d) < Scan(points, lo, hi, k, d).0
    decreases k
  {
    if k > lo + 1 {
      ScanFindsFirstMaximum(points, lo, hi, k - 1, d);
    }
  }

  /** The scan's result is the only pair with those properties. */
  lemma ScanUnique(points: seq<LatLng>, lo: nat, hi: nat, k: nat, d: Measure, m: real, j: nat)
    requires lo < k <= hi < |points|
    requires lo <= j < k
    requires j == lo ==> m == 0.0
    requires j > lo ==> m == Dist(points, lo, hi, j, d) && m > 0.0
    requires forall i :: lo < i < k ==> Dist(points, lo, hi, i, d) <= m
    requires forall i :: lo < i < j ==> Dist(points, lo, hi, i, d) < m
    ensures Scan(points, lo, hi, k, d) == (m, j)
  {
    ScanFindsFirstMaximum(points, lo, hi, k, d);
    var s := Scan(points, lo, hi, k, d);
    if s.1 > lo {
      assert Dist(points, lo, hi, s.1, d) <= m;
    }
    if j > lo {
      assert Dist(points, lo, hi, j, d) <= s.0;
    }
  }

  /**
   * Whether the call on [lo, hi] splits at the farthest point. The source
   * tests only `maxDistance > tolerance`; the extra `maxIndex > lo` (the view's
   * `maxIndex > 0`) changes nothing for a tolerance of at least 0
   * (`SplitsAsSource`) and stops the recursion on its own range that a
   * negative tolerance causes (`NegativeToleranceRepeatsCall`).
   */
  predicate Splits(maxSq: real, maxIndex: nat, lo: nat, bound: real) {
    maxSq > bound && maxIndex > lo
  }

  /**
   * The result of `douglasPeucker` on the view [lo, hi], for the squared bound
   * of the tolerance. It starts and ends with the ends of the view;
   * `SegmentLength` bounds its length and `SegmentKeeps` says which points it keeps.
   */
  function Segment(points: seq<LatLng>, lo: nat, hi: nat, bound: real, d: Measure): (r: seq<LatLng>)
    requires lo <= hi < |points|
    ensures r != [] && r[0] == points[lo] && r[|r| - 1] == points[hi]
    decreases hi - lo
  {
    if hi - lo <= 1 then points[lo..hi + 1]
    else
      var s := Scan(points, lo, hi, hi, d);
      if Splits(s.0, s.1, lo, bound) then
        var left := Segment(points, lo, s.1, bound, d);
        var right := Segment(points, s.1, hi, bound, d);
        left[..|left| - 1] + right
      else [points[lo], points[hi]]
  }

  /** `douglasPeucker` on the whole list. */
  function Simplification(points: seq<LatLng>, bound: real, d: Measure): (r: seq<LatLng>)
    ensures points != [] ==> r != [] && r[0] == points[0] && r[|r| - 1] == points[|points| - 1]
  {
    if points == [] then [] else Segment(points, 0, |points| - 1, bound, d)
  }

  /** One level of the recursion when it splits. */
  lemma SplitCase(points: seq<LatLng>, lo: nat, hi: nat, bound: real, d: Measure)
    requires lo + 2 <= hi < |points|
    requires Splits(Scan(points, lo, hi, hi, d).0, Scan(points, lo, hi, hi, d).1, lo, bound)
    ensures var k := Scan(points, lo, hi, hi, d).1;
      var left := Segment(points, lo, k, bound, d);
      Segment(points, lo, hi, bound, d) == left[..|left| - 1] + Segment(points, k, hi, bound, d)
  {
  }

  /** One level of the recursion when it does not split. */
  lemma ChordCase(points: seq<LatLng>, lo: nat, hi: nat, bound: real, d: Measure)
    requires lo + 2 <= hi < |points|
    requires !Splits(Scan(points, lo, hi, hi, d).0, Scan(points, lo, hi, hi, d).1, lo, bound)
    ensures Segment(points, lo, hi, bound, d) == [points[lo], points[hi]]
  {
  }

  /**
   * `douglasPeucker` on the view [lo, hi]: the scan loop, then the two
   * recursive calls on the views up to and from the farthest point, or the
   * chord. The tolerance arrives squared, as `bound == Bound(tolerance)`, and
   * `perpendicularDistance` as `d`.
   */
  method DouglasPeucker(points: seq<LatLng>, lo: nat, hi: nat, bound: real, d: Measure) returns (r: seq<LatLng>)
    requires lo <= hi < |points|
    ensures r == Segment(points, lo, hi, bound, d)
    decreases hi - lo
  {
    if hi - lo <= 1 {
      return points[lo..hi + 1];
    }
    var maxDistance := 0.0;  // squared
    var maxIndex := lo;
    for i := lo + 1 to hi
      invariant (maxDistance, maxIndex) == Scan(points, lo, hi, i, d)
    {
      var distance := d(points[i], points[lo], points[hi]);
      if distance > maxDistance {
        maxDistance := distance;
        maxIndex := i;
      }
    }
    if Splits(maxDistance, maxIndex, lo, bound) {
      var left := DouglasPeucker(points, lo, maxIndex, bound, d);
      var right := DouglasPeucker(points, maxIndex, hi, bound, d);
      r := left[..|left| - 1] + right;
      SplitCase(points, lo, hi, bound, d);
    } else {
      r := [points[lo], points[hi]];
    }
  }

  /** `simplifyCoordinates`: lists of at most two points come back unchanged. */
  method SimplifyCoordinates(coordinates: seq<LatLng>, tolerance: real) returns (r: seq<LatLng>)
    ensures |coordinates| <= 2 ==> r == coordinates
    ensures r == Simplification(coordinates, Bound(tolerance), DistanceSquared)
  {
    if |coordinates| <= 2 {
      return coordinates;
    }
    r := DouglasPeucker(coordinates, 0, |coordinates| - 1, Bound(tolerance), DistanceSquared);
  }

  // ---------------------------------------------------------------------------
  // Properties
  // ---------------------------------------------------------------------------

  /** For a bound of at least 0 the split test is exactly the source's `maxDistance > tolerance`. */
  lemma SplitsAsSource(points: seq<LatLng>, lo: nat, hi: nat, bound: real, d: Measure)
    requires lo + 2 <= hi < |points| && bound >= 0.0
    ensures var s := Scan(points, lo, hi, hi, d); Splits(s.0, s.1, lo, bound) <==> s.0 > bound
  {
  }

  /**
   * As written, a negative tolerance makes every scan exceed it; when no
   * interior point is off the chord, `maxIndex` stays at the view's start and
   * the right-hand call `douglasPeucker(points.subList(maxIndex, points.size))`
   * is on the same range [lo, hi] as the call itself.
   */
  lemma NegativeToleranceRepeatsCall(points: seq<LatLng>, lo: nat, hi: nat, tolerance: real, d: Measure)
    requires lo + 2 <= hi < |points| && tolerance < 0.0
    requires forall i :: lo < i < hi ==> Dist(points, lo, hi, i, d) == 0.0
    ensures var s := Scan(points, lo, hi, hi, d);
      s.0 > Bound(tolerance) && s.1 == lo
  {
    var s := Scan(points, lo, hi, hi, d);
    if s.1 > lo {
      assert false;
    }
  }

  /** A point on the line through two others at latitude 0 is at distance 0 from their chord. */
  lemma MiddleOnLine(p: LatLng, a: LatLng, b: LatLng)
    requires a.latitude == 0.0 && p.latitude == 0.0 && b.latitude == 0.0
    ensures DistanceSquared(p, a, b) == 0.0
  {
    assert Offset(p, a, b) == 0.0;
  }

  /** Three points whose middle one is on the chord: the scan of the whole list ends with `maxIndex == 0`. */
  lemma MiddleOnChordScan(points: seq<LatLng>)
    requires |points| == 3
    requires DistanceSquared(points[1], points[0], points[2]) == 0.0
    ensures Scan(points, 0, 2, 2, DistanceSquared) == (0.0, 0)
  {
    assert Scan(points, 0, 2, 1, DistanceSquared) == (0.0, 0);
  }

  /**
   * Any three points on the line latitude 0 (longitudes 0, 1 and 2, say) and
   * a tolerance of -1: the scan of the whole list ends with `maxIndex == 0`
   * although `maxDistance > tolerance`, so the source's right-hand call
   * `douglasPeucker(points.subList(0, 3))` repeats the whole call.
   */
  lemma CollinearWithNegativeTolerance(points: seq<LatLng>)
    requires |points| == 3
    requires points[0].latitude == 0.0 && points[1].latitude == 0.0 && points[2].latitude == 0.0
    ensures var s := Scan(points, 0, 2, 2, DistanceSquared);
      s.0 > Bound(-1.0) && s.1 == 0
  {
    MiddleOnLine(points[1], points[0], points[2]);
    OnChordNegativeTolerance(points);
  }

  /** Three points whose middle one is on the chord, with a tolerance of -1: the scan passes the test at `maxIndex == 0`. */
  lemma OnChordNegativeTolerance(points: seq<LatLng>)
    requires |points| == 3
    requires DistanceSquared(points[1], points[0], points[2]) == 0.0
    ensures var s := Scan(points, 0, 2, 2, DistanceSquared);
      s.0 > Bound(-1.0) && s.1 == 0
  {
    MiddleOnChordScan(points);
  }

  /** The simplification of a view is never longer than the view, and keeps at least two of at least two points. */
  lemma {:induction false} SegmentLength(points: seq<LatLng>, lo: nat, hi: nat, bound: real, d: Measure)
    requires lo <= hi < |points|
    ensures |Segment(points, lo, hi, bound, d)| <= hi - lo + 1
    ensures lo < hi ==> |Segment(points, lo, hi, bound, d)| >= 2
    decreases hi - lo
  {
    if hi - lo >= 2 {
      var s := Scan(points, lo, hi, hi, d);
      if Splits(s.0, s.1, lo, bound) {
        SplitCase(points, lo, hi, bound, d);
        SegmentLength(points, lo, s.1, bound, d);
        SegmentLength(points, s.1, hi, bound, d);
      } else {
        ChordCase(points, lo, hi, bound, d);
      }
    }
  }

  /** The simplification is never longer than its input, and keeps at least two of at least two points. */
  lemma SimplificationLength(points: seq<LatLng>, bound: real, d: Measure)
    ensures |Simplification(points, bound, d)| <= |points|
    ensures |points| >= 2 ==> |Simplification(points, bound, d)| >= 2
  {
    if points != [] {
      SegmentLength(points, 0, |points| - 1, bound, d);
    }
  }

  /** A larger bound never keeps more points. */
  lemma {:induction false} SegmentLengthMonotone(points: seq<LatLng>, lo: nat, hi: nat, small: real, large: real, d: Measure)
    requires lo <= hi < |points| && small <= large
    ensures |Segment(points, lo, hi, large, d)| <= |Segment(points, lo, hi, small, d)|
    decreases hi - lo
  {
    if hi - lo >= 2 {
      var s := Scan(points, lo, hi, hi, d);
      if Splits(s.0, s.1, lo, large) {
        SplitCase(points, lo, hi, large, d);
        SplitCase(points, lo, hi, small, d);
        SegmentLengthMonotone(points, lo, s.1, small, large, d);
        SegmentLengthMonotone(points, s.1, hi, small, large, d);
      } else {
        ChordCase(points, lo, hi, large, d);
        SegmentLength(points, lo, hi, small, d);
      }
    }
  }

  /** A larger tolerance never keeps more points. */
  lemma ToleranceMonotone(points: seq<LatLng>, small: real, large: real, d: Measure)
    requires 0.0 <= small <= large
    ensures |Simplification(points, Bound(large), d)| <= |Simplification(points, Bound(small), d)|
  {
    BoundMonotone(small, large);
    BoundLengthMonotone(points, Bound(small), Bound(large), d);
  }

  lemma BoundLengthMonotone(points: seq<LatLng>, small: real, large: real, d: Measure)
    requires small <= large
    ensures |Simplification(points, large, d)| <= |Simplification(points, small, d)|
  {
    if points != [] {
      var hi := |points| - 1;
      assert Simplification(points, large, d) == Segment(points, 0, hi, large, d);
      assert Simplification(points, small, d) == Segment(points, 0, hi, small, d);
      SegmentLengthMonotone(points, 0, hi, small, large, d);
    }
  }

  /** `idx` climbs strictly from `lo` to `hi`. */
  predicate IndexPath(idx: seq<nat>, lo: nat, hi: nat) {
    && idx != [] && idx[0] == lo && idx[|idx| - 1] == hi
    && (forall j :: 0 <= j < |idx| ==> lo <= idx[j] <= hi)
    && (forall i, j :: 0 <= i < j < |idx| ==> idx[i] < idx[j])
  }

  /** `r` is `points` at the indices `idx`. */
  predicate Picks(r: seq<LatLng>, points: seq<LatLng>, idx: seq<nat>)
    requires forall j :: 0 <= j < |idx| ==> idx[j] < |points|
  {
    |r| == |idx| && forall j :: 0 <= j < |idx| ==> r[j] == points[idx[j]]
  }

  /** Every point strictly between two consecutive kept indices lies within the bound of the chord between them. */
  predicate WithinBound(points: seq<LatLng>, idx: seq<nat>, bound: real, d: Measure)
    requires forall j :: 0 <= j < |idx| ==> idx[j] < |points|
  {
    forall j, i :: 0 < j < |idx| && idx[j - 1] < i < idx[j] ==>
      d(points[i], points[idx[j - 1]], points[idx[j]]) <= bound
  }

  lemma JoinedPath(il: seq<nat>, ir: seq<nat>, lo: nat, k: nat, hi: nat)
    requires lo < k && IndexPath(il, lo, k) && IndexPath(ir, k, hi)
    ensures |il| >= 2 && IndexPath(il[..|il| - 1] + ir, lo, hi)
  {
    var a := |il| - 1;
    var idx := il[..a] + ir;
    forall i, j | 0 <= i < j < |idx|
      ensures idx[i] < idx[j]
    {
      if j < a {
      } else if i < a {
        assert idx[i] == il[i] < il[a] == k <= idx[j];
      }
    }
  }

  lemma JoinedPicks(points: seq<LatLng>, left: seq<LatLng>, right: seq<LatLng>, il: seq<nat>, ir: seq<nat>, lo: nat, k: nat, hi: nat)
    requires lo < k && hi < |points| && IndexPath(il, lo, k) && IndexPath(ir, k, hi)
    requires Picks(left, points, il) && Picks(right, points, ir)
    ensures |il| >= 2 && Picks(left[..|left| - 1] + right, points, il[..|il| - 1] + ir)
  {
    JoinedPath(il, ir, lo, k, hi);
  }

  lemma JoinedWithin(points: seq<LatLng>, il: seq<nat>, ir: seq<nat>, lo: nat, k: nat, hi: nat, bound: real, d: Measure)
    requires lo < k && hi < |points| && IndexPath(il, lo, k) && IndexPath(ir, k, hi)
    requires WithinBound(points, il, bound, d) && WithinBound(points, ir, bound, d)
    ensures |il| >= 2 && WithinBound(points, il[..|il| - 1] + ir, bound, d)
  {
    JoinedPath(il, ir, lo, k, hi);
    var a := |il| - 1;
    var idx := il[..a] + ir;
    forall j, i | 0 < j < |idx| && idx[j - 1] < i < idx[j]
      ensures d(points[i], points[idx[j - 1]], points[idx[j]]) <= bound
    {
      if j < a {
        assert idx[j - 1] == il[j - 1] && idx[j] == il[j];
      } else if j == a {
        assert idx[j - 1] == il[a - 1] && idx[j] == il[a];
      } else {
        assert idx[j - 1] == ir[j - a - 1] && idx[j] == ir[j - a];
      }
    }
  }

  /**
   * The simplification of a view keeps points of the view in order, its first
   * and its last among them, and for a bound of at least 0 every dropped point
   * lies within the bound of the chord between the kept points around it.
   */
  lemma {:induction false} SegmentKeeps(points: seq<LatLng>, lo: nat, hi: nat, bound: real, d: Measure) returns (idx: seq<nat>)
    requires lo <= hi < |points|
    ensures IndexPath(idx, lo, hi)
    ensures Picks(Segment(points, lo, hi, bound, d), points, idx)
    ensures bound >= 0.0 ==> WithinBound(points, idx, bound, d)
    decreases hi - lo
  {
    if hi - lo <= 1 {
      idx := if lo == hi then [lo] else [lo, hi];
      return;
    }
    var s := Scan(points, lo, hi, hi, d);
    if Splits(s.0, s.1, lo, bound) {
      var il := SegmentKeeps(points, lo, s.1, bound, d);
      var ir := SegmentKeeps(points, s.1, hi, bound, d);
      idx := SplitKeeps(points, lo, hi, bound, d, il, ir);
    } else {
      idx := ChordKeeps(points, lo, hi, bound, d);
    }
  }

  /** The split case of `SegmentKeeps`: the kept indices of the two halves, joined at the split point. */
  lemma SplitKeeps(points: seq<LatLng>, lo: nat, hi: nat, bound: real, d: Measure, il: seq<nat>, ir: seq<nat>)
      returns (idx: seq<nat>)
    requires lo + 2 <= hi < |points|
    requires Splits(Scan(points, lo, hi, hi, d).0, Scan(points, lo, hi, hi, d).1, lo, bound)
    requires var k := Scan(points, lo, hi, hi, d).1;
      && IndexPath(il, lo, k) && Picks(Segment(points, lo, k, bound, d), points, il)
      && IndexPath(ir, k, hi) && Picks(Segment(points, k, hi, bound, d), points, ir)
      && (bound >= 0.0 ==> WithinBound(points, il, bound, d) && WithinBound(points, ir, bound, d))
    ensures IndexPath(idx, lo, hi)
    ensures Picks(Segment(points, lo, hi, bound, d), points, idx)
    ensures bound >= 0.0 ==> WithinBound(points, idx, bound, d)
  {
    var k := Scan(points, lo, hi, hi, d).1;
    SplitCase(points, lo, hi, bound, d);
    JoinedPath(il, ir, lo, k, hi);
    JoinedPicks(points, Segment(points, lo, k, bound, d), Segment(points, k, hi, bound, d), il, ir, lo, k, hi);
    if bound >= 0.0 {
      JoinedWithin(points, il, ir, lo, k, hi, bound, d);
    }
    idx := il[..|il| - 1] + ir;
  }

  /** The chord case of `SegmentKeeps`: only the ends are kept, and every point between is within the bound. */
  lemma ChordKeeps(points: seq<LatLng>, lo: nat, hi: nat, bound: real, d: Measure) returns (idx: seq<nat>)
    requires lo + 2 <= hi < |points|
    requires !Splits(Scan(points, lo, hi, hi, d).0, Scan(points, lo, hi, hi, d).1, lo, bound)
    ensures IndexPath(idx, lo, hi)
    ensures Picks(Segment(points, lo, hi, bound, d), points, idx)
    ensures bound >= 0.0 ==> WithinBound(points, idx, bound, d)
  {
    var s := Scan(points, lo, hi, hi, d);
    ChordCase(points, lo, hi, bound, d);
    idx := [lo, hi];
    if bound >= 0.0 {
      ScanFindsFirstMaximum(points, lo, hi, hi, d);
      forall i | lo < i < hi
        ensures d(points[i], points[lo], points[hi]) <= bound
      {
        assert Dist(points, lo, hi, i, d) <= s.0;
      }
    }
  }

  /**
   * `douglasPeucker` keeps a subsequence of the points, the first and the last
   * among them, and for a tolerance of at least 0 every dropped point lies
   * within the tolerance of the chord between the kept points around it.
   */
  lemma KeptPoints(points: seq<LatLng>, bound: real, d: Measure) returns (idx: seq<nat>)
    ensures points == [] ==> idx == []
    ensures points != [] ==> IndexPath(idx, 0, |points| - 1)
    ensures Picks(Simplification(points, bound, d), points, idx)
    ensures bound >= 0.0 ==> WithinBound(points, idx, bound, d)
  {
    if points == [] {
      idx := [];
    } else {
      idx := SegmentKeeps(points, 0, |points| - 1, bound, d);
    }
  }

  /** `q[a..]` starts with `left` and continues with `right` when it holds their join. */
  lemma Windows(q: seq<LatLng>, a: nat, pos: nat, e: nat, left: seq<LatLng>, right: seq<LatLng>)
    requires left != [] && right != [] && left[|left| - 1] == right[0]
    requires pos == a + |left| - 1 && e == pos + |right| - 1 && e < |q|
    requires q[a..e + 1] == left[..|left| - 1] + right
    ensures q[a..pos + 1] == left
    ensures q[pos..e + 1] == right
  {
    var n := |left| - 1;
    assert forall j :: 0 <= j < n ==> q[a + j] == left[j];
    assert forall j :: 0 <= j < |right| ==> q[a + n + j] == right[j];
  }

  /**
   * A list `q` that holds, from `a` to `e`, the points of `points` at the
   * climbing indices `idx` from `lo` to `hi`: the scan of `q` over [a, e] sees
   * the distances the scan of `points` over [lo, hi] saw at those indices, so
   * it finds the same greatest distance, at the position of index `k`.
   */
  lemma ScanOfPicked(points: seq<LatLng>, lo: nat, hi: nat, k: nat, m: real, d: Measure,
                     q: seq<LatLng>, a: nat, pos: nat, e: nat, idx: seq<nat>)
    requires lo < k < hi < |points| && a < pos < e < |q|
    requires IndexPath(idx, lo, hi) && |idx| == e - a + 1 && idx[pos - a] == k
    requires forall j :: 0 <= j < |idx| ==> q[a + j] == points[idx[j]]
    requires m == Dist(points, lo, hi, k, d) && m > 0.0
    requires forall i :: lo < i < hi ==> Dist(points, lo, hi, i, d) <= m
    requires forall i :: lo < i < k ==> Dist(points, lo, hi, i, d) < m
    ensures Scan(q, a, e, e, d) == (m, pos)
  {
    assert q[a] == points[lo] && q[e] == points[hi];
    forall i | a < i < e
      ensures Dist(q, a, e, i, d) <= m
      ensures i < pos ==> Dist(q, a, e, i, d) < m
    {
      var j := i - a;
      assert q[i] == points[idx[j]];
      assert idx[0] < idx[j] < idx[|idx| - 1];
      if i < pos {
        assert idx[j] < idx[pos - a];
      }
      assert Dist(q, a, e, i, d) == Dist(points, lo, hi, idx[j], d);
    }
    assert q[pos] == points[k];
    ScanUnique(q, a, e, e, d, m, pos);
  }

  /**
   * Wherever the simplification of a split view appears in a list `q`, the
   * scan over it finds the same greatest distance, at the kept split point.
   */
  lemma FarthestKept(points: seq<LatLng>, lo: nat, hi: nat, bound: real, d: Measure,
                     q: seq<LatLng>, a: nat, pos: nat, e: nat, left: seq<LatLng>, right: seq<LatLng>)
    requires lo + 2 <= hi < |points|
    requires Splits(Scan(points, lo, hi, hi, d).0, Scan(points, lo, hi, hi, d).1, lo, bound)
    requires left == Segment(points, lo, Scan(points, lo, hi, hi, d).1, bound, d)
    requires right == Segment(points, Scan(points, lo, hi, hi, d).1, hi, bound, d)
    requires |left| >= 2 && |right| >= 2
    requires pos == a + |left| - 1 && e == pos + |right| - 1 && e < |q|
    requires q[a..e + 1] == left[..|left| - 1] + right
    ensures Scan(q, a, e, e, d) == (Scan(points, lo, hi, hi, d).0, pos)
  {
    var s := Scan(points, lo, hi, hi, d);
    var m, k := s.0, s.1;
    ScanFindsFirstMaximum(points, lo, hi, hi, d);
    var il := SegmentKeeps(points, lo, k, bound, d);
    var ir := SegmentKeeps(points, k, hi, bound, d);
    var idx := JoinedIndices(points, q, a, e, left, right, il, ir, lo, k, hi);
    ScanOfPicked(points, lo, hi, k, m, d, q, a, pos, e, idx);
  }

  /** The indices of a join of two simplifications held in `q` from `a` to `e`. */
  lemma JoinedIndices(points: seq<LatLng>, q: seq<LatLng>, a: nat, e: nat, left: seq<LatLng>, right: seq<LatLng>,
                      il: seq<nat>, ir: seq<nat>, lo: nat, k: nat, hi: nat) returns (idx: seq<nat>)
    requires lo < k && hi < |points| && IndexPath(il, lo, k) && IndexPath(ir, k, hi)
    requires Picks(left, points, il) && Picks(right, points, ir)
    requires |left| >= 2 && a <= e < |q| && q[a..e + 1] == left[..|left| - 1] + right
    ensures IndexPath(idx, lo, hi) && |idx| == e - a + 1 && idx[|left| - 1] == k
    ensures forall j :: 0 <= j < |idx| ==> q[a + j] == points[idx[j]]
  {
    JoinedPath(il, ir, lo, k, hi);
    JoinedPicks(points, left, right, il, ir, lo, k, hi);
    idx := il[..|il| - 1] + ir;
    var S := left[..|left| - 1] + right;
    forall j | 0 <= j < |S|
      ensures q[a + j] == S[j]
    {
      assert q[a..e + 1][j] == q[a + j];
    }
  }

  /** Wherever the simplification of a view appears in a list, simplifying that stretch gives it back. */
  lemma {:induction false} SegmentStable(points: seq<LatLng>, lo: nat, hi: nat, bound: real, d: Measure, q: seq<LatLng>, a: nat, e: nat)
    requires lo <= hi < |points|
    requires e + 1 == a + |Segment(points, lo, hi, bound, d)| <= |q|
    requires q[a..e + 1] == Segment(points, lo, hi, bound, d)
    ensures Segment(q, a, e, bound, d) == Segment(points, lo, hi, bound, d)
    decreases hi - lo
  {
    SegmentLength(points, lo, hi, bound, d);
    if hi - lo <= 1 {
      return;
    }
    var s := Scan(points, lo, hi, hi, d);
    if !Splits(s.0, s.1, lo, bound) {
      ChordCase(points, lo, hi, bound, d);
      return;
    }
    var k := s.1;
    SplitCase(points, lo, hi, bound, d);
    var left := Segment(points, lo, k, bound, d);
    var right := Segment(points, k, hi, bound, d);
    SegmentLength(points, lo, k, bound, d);
    SegmentLength(points, k, hi, bound, d);
    var pos := a + |left| - 1;
    FarthestKept(points, lo, hi, bound, d, q, a, pos, e, left, right);
    assert e == pos + |right| - 1;
    Windows(q, a, pos, e, left, right);
    SegmentStable(points, lo, k, bound, d, q, a, pos);
    SegmentStable(points, k, hi, bound, d, q, pos, e);
    StableSplit(q, a, e, bound, d, s.0, pos, left, right);
  }

  /** The split step of `SegmentStable`, in a context of its own. */
  lemma StableSplit(q: seq<LatLng>, a: nat, e: nat, bound: real, d: Measure, m: real, pos: nat, left: seq<LatLng>, right: seq<LatLng>)
    requires a < pos < e < |q|
    requires Scan(q, a, e, e, d) == (m, pos) && m > bound
    requires Segment(q, a, pos, bound, d) == left && Segment(q, pos, e, bound, d) == right
    ensures Segment(q, a, e, bound, d) == left[..|left| - 1] + right
  {
    SplitCase(q, a, e, bound, d);
  }

  /** A non-empty list's simplification is the simplification of its whole view. */
  lemma SimplificationIsWholeSegment(points: seq<LatLng>, bound: real, d: Measure)
    requires points != []
    ensures Simplification(points, bound, d) == Segment(points, 0, |points| - 1, bound, d)
  {
  }

  /** The simplification of the whole list, simplified again, is unchanged. */
  lemma SegmentSelfStable(points: seq<LatLng>, bound: real, d: Measure)
    requires points != []
    ensures var r := Segment(points, 0, |points| - 1, bound, d); Simplification(r, bound, d) == r
  {
    var r := Segment(points, 0, |points| - 1, bound, d);
    assert r[0..|r|] == r;
    SegmentStable(points, 0, |points| - 1, bound, d, r, 0, |r| - 1);
    SimplificationIsWholeSegment(r, bound, d);
  }

  /** Simplifying a simplified path changes nothing. */
  lemma SimplificationIdempotent(points: seq<LatLng>, bound: real, d: Measure)
    ensures Simplification(Simplification(points, bound, d), bound, d) == Simplification(points, bound, d)
  {
    if points != [] {
      SimplificationIsWholeSegment(points, bound, d);
      SegmentSelfStable(points, bound, d);
    } else {
      assert Simplification(points, bound, d) == [];
    }
  }
}
