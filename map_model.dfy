/**
 * MapModel: a Google map as the list of calls made on it, in order, and the
 * directional-arrow placement both route screens share. Drawing, camera
 * animation and bearings are not computed; a call records its arguments.
 */
module MapModel {
  import opened Wrappers
  import opened Geo

  /** A marker icon: the default marker with a hue, or a drawable resource. */
  datatype Icon = DefaultMarker(hue: real) | FromResource(resId: int)

  datatype Marker =
    | Marker(position: LatLng, title: string, icon: Option<Icon>)
      /**
       * A flat arrow icon at `position`, rotated to the bearing from
       * `position` toward `toward`, anchored at its centre, above the route line.
       */
    | ArrowMarker(position: LatLng, toward: LatLng)

  datatype MapCall =
    | Clear
    | AddPolyline(points: seq<LatLng>, color: string, width: real, geodesic: bool)
    | AddMarker(marker: Marker)
    | MoveCamera(target: LatLng, zoom: real)
    | AnimateCameraToBounds(points: seq<LatLng>, padding: int)
    | SetMapToolbarEnabled(enabled: bool)
    | SetAllGesturesEnabled(enabled: bool)

  /** `GoogleMap`: what has been done to it so far. */
  class GoogleMap {
    var calls: seq<MapCall>

    constructor ()
      ensures calls == []
    {
      calls := [];
    }

    /** One call on the map, recorded after the earlier ones. */
    method Perform(call: MapCall)
      modifies this
      ensures calls == old(calls) + [call]
    {
      calls := calls + [call];
    }
  }

  /** A call that puts something on the map: a polyline or a marker. */
  predicate IsOverlay(call: MapCall) {
    call.AddPolyline? || call.AddMarker?
  }

  /** What the map shows after some calls: the overlays added since the last `clear()`, in order. */
  function Shown(calls: seq<MapCall>): (shown: seq<MapCall>)
    ensures forall j :: 0 <= j < |shown| ==> IsOverlay(shown[j])
  {
    if calls == [] then []
    else
      var last := calls[|calls| - 1];
      if last.Clear? then []
      else Shown(calls[..|calls| - 1]) + (if IsOverlay(last) then [last] else [])
  }

  /**
   * Calls after earlier ones add to what those showed, unless they clear the
   * map, in which case the earlier ones no longer matter.
   */
  lemma {:induction false} ShownAppend(a: seq<MapCall>, b: seq<MapCall>)
    ensures Shown(a + b) == if Clear in b then Shown(b) else Shown(a) + Shown(b)
    decreases |b|
  {
    if b == [] {
      assert a + b == a;
    } else {
      var init := b[..|b| - 1];
      assert (a + b)[..|a + b| - 1] == a + init;
      assert b == init + [b[|b| - 1]];
      ShownAppend(a, init);
    }
  }

  /** Calls that add no overlay leave nothing on the map on their own. */
  lemma {:induction false} NothingShown(cs: seq<MapCall>)
    requires forall j :: 0 <= j < |cs| ==> !IsOverlay(cs[j])
    ensures Shown(cs) == []
    decreases |cs|
  {
    if cs != [] {
      NothingShown(cs[..|cs| - 1]);
    }
  }

  /** Overlay calls alone show themselves. */
  lemma {:induction false} OverlaysShown(cs: seq<MapCall>)
    requires forall j :: 0 <= j < |cs| ==> IsOverlay(cs[j])
    ensures Shown(cs) == cs
    decreases |cs|
  {
    if cs != [] {
      OverlaysShown(cs[..|cs| - 1]);
      assert cs == cs[..|cs| - 1] + [cs[|cs| - 1]];
    }
  }

  /** Right after a clear, the map shows exactly the overlays added since. */
  lemma {:induction false} ShownAfterClear(overlays: seq<MapCall>)
    requires forall j :: 0 <= j < |overlays| ==> IsOverlay(overlays[j])
    ensures Shown([Clear] + overlays) == overlays
    decreases |overlays|
  {
    if overlays == [] {
      assert [Clear] + overlays == [Clear];
    } else {
      var init, last := overlays[..|overlays| - 1], overlays[|overlays| - 1];
      ShownAfterClear(init);
      var cs := [Clear] + overlays;
      assert cs[..|cs| - 1] == [Clear] + init && cs[|cs| - 1] == last;
      assert overlays == init + [last];
    }
  }

  /** Calls that neither add nor clear leave what the map shows as it was. */
  lemma QuietCalls(before: seq<MapCall>, rest: seq<MapCall>)
    requires forall j :: 0 <= j < |rest| ==> !IsOverlay(rest[j]) && !rest[j].Clear?
    ensures Shown(before + rest) == Shown(before)
  {
    NothingShown(rest);
    assert Clear !in rest;
    ShownAppend(before, rest);
  }

  /** After a clear, some overlays and calls that neither add nor clear, the map shows exactly those overlays. */
  lemma ClearThenShown(overlays: seq<MapCall>, rest: seq<MapCall>)
    requires forall j :: 0 <= j < |overlays| ==> IsOverlay(overlays[j])
    requires forall j :: 0 <= j < |rest| ==> !IsOverlay(rest[j]) && !rest[j].Clear?
    ensures Clear in [Clear] + overlays + rest
    ensures Shown([Clear] + overlays + rest) == overlays
  {
    ShownAfterClear(overlays);
    QuietCalls([Clear] + overlays, rest);
    assert ([Clear] + overlays + rest)[0] == Clear;
  }

  // ---------------------------------------------------------------------------
  // Directional arrows
  // ---------------------------------------------------------------------------

  /** `from`, `from + step`, `from + 2 * step`, ... while below `limit`. */
  function Steps(from: int, step: nat, limit: int): (s: seq<int>)
    requires step > 0
    decreases limit - from
  {
    if from >= limit then [] else [from] + Steps(from + step, step, limit)
  }

  /** The `j`-th step is `from + j * step`, and every step is below the limit. */
  lemma {:induction false} StepsSpec(from: int, step: nat, limit: int)
    requires step > 0
    ensures forall j :: 0 <= j < |Steps(from, step, limit)| ==>
      Steps(from, step, limit)[j] == from + j * step < limit
    decreases limit - from
  {
    if from < limit {
      var s := Steps(from, step, limit);
      var rest := Steps(from + step, step, limit);
      StepsSpec(from + step, step, limit);
      forall j | 0 <= j < |s|
        ensures s[j] == from + j * step < limit
      {
        if j > 0 {
          assert s[j] == rest[j - 1];
          MulSucc(j - 1, step);
        }
      }
    }
  }

  /** No multiple of the step below the limit is skipped. */
  lemma {:induction false} StepsReach(from: int, step: nat, limit: int, m: nat)
    requires step > 0 && from + m * step < limit
    ensures from + m * step in Steps(from, step, limit)
    decreases m
  {
    if m > 0 {
      MulSucc(m - 1, step);
      StepsReach(from + step, step, limit, m - 1);
    }
  }

  /**
   * The point indices that get an arrow on a route of `size` points when the
   * screen aims at about `perRoute` arrows: with `interval = size / perRoute`,
   * none when the interval is below 2, else the interval and its multiples
   * that still have a next point.
   */
  function ArrowIndices(size: nat, perRoute: nat): (idx: seq<int>)
    requires perRoute > 0
  {
    var interval := size / perRoute;
    if interval < 2 then [] else Steps(interval, interval, size - 1)
  }

  /** Every arrow index `i` has a successor, so both `points[i]` and `points[i + 1]` exist. */
  predicate Fits(idx: seq<int>, size: nat) {
    forall j :: 0 <= j < |idx| ==> 0 < idx[j] && idx[j] + 1 < size
  }

  /** The arrow markers at the indices `idx`, each pointing toward the next point. */
  function ArrowCalls(points: seq<LatLng>, idx: seq<int>): (cs: seq<MapCall>)
    requires Fits(idx, |points|)
    ensures |cs| == |idx|
  {
    seq(|idx|, j requires 0 <= j < |idx| => AddMarker(ArrowMarker(points[idx[j]], points[idx[j] + 1])))
  }

  lemma MulSucc(a: int, q: int)
    ensures (a + 1) * q == a * q + q
  {
  }

  lemma MulMonotone(a: int, b: int, q: int)
    requires 0 <= a <= b && 0 <= q
    ensures a * q <= b * q
  {
    assert b * q - a * q == (b - a) * q;
  }

  /** `x / q` is at least `n` exactly when `n * q <= x`. */
  lemma DivAtLeast(x: nat, q: nat, n: nat)
    requires q > 0
    ensures x / q >= n <==> n * q <= x
  {
    var d := x / q;
    assert d * q + x % q == x;
    if d >= n {
      MulMonotone(n, d, q);
    } else {
      MulMonotone(d + 1, n, q);
    }
  }

  /** The arrow indices are the multiples `(j + 1) * interval` in order, each with a next point. */
  lemma ArrowIndicesSpec(size: nat, perRoute: nat)
    requires perRoute > 0
    ensures var idx := ArrowIndices(size, perRoute);
      && Fits(idx, size)
      && (forall j :: 0 <= j < |idx| ==> idx[j] == (j + 1) * (size / perRoute))
  {
    var interval := size / perRoute;
    if interval >= 2 {
      StepsSpec(interval, interval, size - 1);
      var idx := ArrowIndices(size, perRoute);
      forall j | 0 <= j < |idx|
        ensures 0 < idx[j] && idx[j] + 1 < size && idx[j] == (j + 1) * interval
      {
        MulMonotone(0, j, interval);
        MulSucc(j, interval);
      }
    }
  }

  /** The arrow indices strictly increase, so no point gets two arrows. */
  lemma ArrowIndicesIncrease(size: nat, perRoute: nat)
    requires perRoute > 0
    ensures var idx := ArrowIndices(size, perRoute);
      forall i, j :: 0 <= i < j < |idx| ==> idx[i] < idx[j]
  {
    var interval := size / perRoute;
    var idx := ArrowIndices(size, perRoute);
    ArrowIndicesSpec(size, perRoute);
    forall i, j | 0 <= i < j < |idx|
      ensures idx[i] < idx[j]
    {
      MulMonotone(i + 1, j, interval);
    }
  }

  /** Every positive multiple of the interval that has a next point carries an arrow. */
  lemma ArrowAtEveryMultiple(size: nat, perRoute: nat, m: nat)
    requires perRoute > 0 && size / perRoute >= 2
    requires 1 <= m && m * (size / perRoute) + 1 < size
    ensures m * (size / perRoute) in ArrowIndices(size, perRoute)
  {
    var interval := size / perRoute;
    MulSucc(m - 1, interval);
    StepsReach(interval, interval, size - 1, m - 1);
  }

  /** When the screen aims at two arrows or more, a route gets arrows exactly when it has `2 * perRoute` points. */
  lemma ArrowsOnlyOnLongRoutes(size: nat, perRoute: nat)
    requires perRoute >= 2
    ensures ArrowIndices(size, perRoute) != [] <==> size >= 2 * perRoute
  {
    var interval := size / perRoute;
    DivAtLeast(size, perRoute, 2);
    if interval >= 2 {
      DivAtLeast(size, perRoute, interval);
      MulMonotone(2, perRoute, interval);
      assert Steps(interval, interval, size - 1)[0] == interval;
    }
  }

  /**
   * `addDirectionalArrows`: from the interval, step by the interval while the
   * index is below `size`, stopping at the first index without a next point.
   */
  method AddDirectionalArrows(gmap: GoogleMap, points: seq<LatLng>, perRoute: nat)
    requires perRoute > 0
    modifies gmap
    ensures Fits(ArrowIndices(|points|, perRoute), |points|)
    ensures gmap.calls == old(gmap.calls) + ArrowCalls(points, ArrowIndices(|points|, perRoute))
  {
    ArrowIndicesSpec(|points|, perRoute);
    var idx := ArrowIndices(|points|, perRoute);
    var interval := |points| / perRoute;
    if interval < 2 {
      return;
    }
    var i := interval;
    var k := 0;
    while i < |points|
      invariant 0 <= k <= |idx| && idx[k..] == Steps(i, interval, |points| - 1)
      invariant gmap.calls == old(gmap.calls) + ArrowCalls(points, idx[..k])
      decreases |points| - i
    {
      if i >= |points| - 1 {
        break;
      }
      assert idx[k..] == [i] + Steps(i + interval, interval, |points| - 1);
      assert idx[k] == idx[k..][0] == i;
      assert idx[k + 1..] == idx[k..][1..];
      gmap.Perform(AddMarker(ArrowMarker(points[i], points[i + 1])));
      assert ArrowCalls(points, idx[..k + 1]) == ArrowCalls(points, idx[..k]) + [AddMarker(ArrowMarker(points[i], points[i + 1]))];
      i, k := i + interval, k + 1;
    }
    assert idx[..k] == idx;
  }
}
