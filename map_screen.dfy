/**
 * MapScreen: the full-screen map. It draws the route passed to it, with
 * direction arrows, or else a single marker on central Legazpi.
 */
module MapScreen {
  import opened Wrappers
  import opened Geo
  import opened MapModel

  /** The full map aims at about this many direction arrows. */
  const ArrowsPerMap: nat := 18
  const RouteColor := "#FF5722"
  const RouteWidth: real := 8.0
  /** Padding, in pixels, around the route when the camera fits it. */
  const MapPadding := 120
  const Legazpi := LatLng(13.1362, 123.7380)
  const LegazpiZoom: real := 14.0

  /** The route line and its arrows, in the order `drawRoute` adds them. */
  function RouteOverlays(points: seq<LatLng>): seq<MapCall>
  {
    ArrowIndicesSpec(|points|, ArrowsPerMap);
    [AddPolyline(points, RouteColor, RouteWidth, true)] + ArrowCalls(points, ArrowIndices(|points|, ArrowsPerMap))
  }

  /** The calls `drawRoute` makes: none for an empty route, else the overlays and a camera fit. */
  function DrawRouteCalls(points: seq<LatLng>): seq<MapCall>
  {
    if points == [] then [] else RouteOverlays(points) + [AnimateCameraToBounds(points, MapPadding)]
  }

  /**
   * The full map does not clear before drawing: a drawn route is added to
   * whatever the map showed, and an empty route leaves the map as it was.
   */
  lemma {:induction false} DrawRouteAdds(before: seq<MapCall>, points: seq<LatLng>)
    ensures points == [] ==> Shown(before + DrawRouteCalls(points)) == Shown(before)
    ensures points != [] ==> Shown(before + DrawRouteCalls(points)) == Shown(before) + RouteOverlays(points)
  {
    var d := DrawRouteCalls(points);
    if points == [] {
      assert before + d == before;
    } else {
      var overlays := RouteOverlays(points);
      var tail := [AnimateCameraToBounds(points, MapPadding)];
      ArrowIndicesSpec(|points|, ArrowsPerMap);
      assert forall j :: 0 <= j < |overlays| ==> IsOverlay(overlays[j]);
      OverlaysShown(overlays);
      NothingShown(tail);
      ShownAppend(overlays, tail);
      assert Clear !in d;
      ShownAppend(before, d);
    }
  }

  /** The full map shows arrows exactly on routes of at least 36 points. */
  lemma FullMapArrows(points: seq<LatLng>)
    ensures |RouteOverlays(points)| > 1 <==> |points| >= 36
  {
    ArrowsOnlyOnLongRoutes(|points|, ArrowsPerMap);
  }

  /** The full-screen map screen (`MapFragment`). */
  class MapScreen {
    var googleMap: GoogleMap?
    /** The route points passed to the screen, if any. */
    var routePoints: Option<seq<LatLng>>

    constructor (routePoints: Option<seq<LatLng>>)
      ensures this.googleMap == null && this.routePoints == routePoints
    {
      this.googleMap := null;
      this.routePoints := routePoints;
    }

    /** `drawRoute`, on a map that has been set (the source's late-initialised field). */
    method DrawRoute(points: seq<LatLng>)
      requires googleMap != null
      modifies googleMap
      ensures googleMap.calls == old(googleMap.calls) + DrawRouteCalls(points)
    {
      if points == [] {
        return;
      }
      var gmap := googleMap;
      gmap.Perform(AddPolyline(points, RouteColor, RouteWidth, true));
      AddDirectionalArrows(gmap, points, ArrowsPerMap);
      gmap.Perform(AnimateCameraToBounds(points, MapPadding));
    }

    /**
     * `onMapReady`: keep the map; draw the route when there are points, else
     * put a marker on Legazpi and zoom to it.
     */
    method OnMapReady(gmap: GoogleMap)
      modifies this, gmap
      ensures googleMap == gmap && routePoints == old(routePoints)
      ensures routePoints.Some? && routePoints.value != [] ==>
        gmap.calls == old(gmap.calls) + DrawRouteCalls(routePoints.value)
      ensures routePoints.None? || routePoints.value == [] ==>
        gmap.calls == old(gmap.calls) + [AddMarker(Marker(Legazpi, "Marker in Legazpi", None)), MoveCamera(Legazpi, LegazpiZoom)]
    {
      googleMap := gmap;
      if routePoints.Some? && routePoints.value != [] {
        DrawRoute(routePoints.value);
        return;
      }
      gmap.Perform(AddMarker(Marker(Legazpi, "Marker in Legazpi", None)));
      gmap.Perform(MoveCamera(Legazpi, LegazpiZoom));
    }
  }
}
