/**
 * RouteDetail: the route preview screen. It draws the route on a small map,
 * optionally with start/end or numbered markers, and lists the route's stops
 * as rows from start to end.
 */
module RouteDetail {
  import opened Wrappers
  import opened Geo
  import opened KotlinText
  import opened MapModel

  // ---------------------------------------------------------------------------
  // Rendering configuration (`RouteRenderConfig`)
  // ---------------------------------------------------------------------------

  datatype MarkerMode = NoMarkers | StartEnd | AllNumbered

  /** The shared rendering settings; the source keeps them in one mutable object. */
  datatype RenderConfig = RenderConfig(
    showMarkers: bool,
    markerMode: MarkerMode,
    polylineColorHex: string,
    polylineWidth: real,
    showDirectionArrows: bool,
    arrowSpacingMeters: int,
    startMarkerHue: real,
    endMarkerHue: real,
    intermediateMarkerHue: real,
    startMarkerResId: Option<int>,
    endMarkerResId: Option<int>,
    intermediateMarkerResId: Option<int>)

  /** `BitmapDescriptorFactory`'s azure, green and orange hues. */
  const HueAzure: real := 210.0
  const HueGreen: real := 120.0
  const HueOrange: real := 30.0

  /** The settings the app ships with. */
  const DefaultRenderConfig := RenderConfig(
    false, NoMarkers, "#E64A19", 12.0, true, 100,
    HueAzure, HueGreen, HueOrange, None, None, None)

  /** The preview aims at about this many direction arrows. */
  const ArrowsPerPreview: nat := 15
  /** Padding, in pixels, around the route when the camera fits it. */
  const PreviewPadding := 160
  /** Where the map looks when there is no route: central Legazpi. */
  const DefaultLocation := LatLng(13.1362, 123.7380)
  const DefaultZoom: real := 14.0

  // ---------------------------------------------------------------------------
  // Markers
  // ---------------------------------------------------------------------------

  /** A configured drawable when there is one, else the default marker in `hue`. */
  function IconFor(resId: Option<int>, hue: real): Icon {
    if resId.Some? then FromResource(resId.value) else DefaultMarker(hue)
  }

  /** The hue of stop `i` of `size`: the first stop the start hue, the last the end hue, the rest the intermediate hue. */
  function StopHue(i: nat, size: nat, cfg: RenderConfig): real {
    if i == 0 then cfg.startMarkerHue
    else if i == size - 1 then cfg.endMarkerHue
    else cfg.intermediateMarkerHue
  }

  /** The marker of point `i` in the numbered mode, titled "Stop i+1". */
  function NumberedMarker(points: seq<LatLng>, i: nat, cfg: RenderConfig): Marker
    requires i < |points|
  {
    Marker(points[i], "Stop " + DecimalString(i + 1), Some(IconFor(cfg.intermediateMarkerResId, StopHue(i, |points|, cfg))))
  }

  function NumberedCalls(points: seq<LatLng>, cfg: RenderConfig): (cs: seq<MapCall>)
    ensures |cs| == |points|
  {
    seq(|points|, i requires 0 <= i < |points| => AddMarker(NumberedMarker(points, i, cfg)))
  }

  /** The marker calls `drawRoute` makes for the configured marker mode. */
  function MarkerCalls(points: seq<LatLng>, cfg: RenderConfig): seq<MapCall>
    requires points != []
  {
    if !cfg.showMarkers then []
    else match cfg.markerMode
      case NoMarkers => []
      case StartEnd =>
        [ AddMarker(Marker(points[0], "Start", Some(IconFor(cfg.startMarkerResId, cfg.startMarkerHue)))),
          AddMarker(Marker(points[|points| - 1], "End", Some(IconFor(cfg.endMarkerResId, cfg.endMarkerHue)))) ]
      case AllNumbered => NumberedCalls(points, cfg)
  }

  /**
   * No markers unless they are switched on and a mode other than NONE is set;
   * START_END puts one marker on the first point and one on the last;
   * ALL_NUMBERED puts one on every point, in order, titled by its 1-based number.
   */
  lemma MarkerCallsSpec(points: seq<LatLng>, cfg: RenderConfig)
    requires points != []
    ensures var cs := MarkerCalls(points, cfg);
      && (forall j :: 0 <= j < |cs| ==> cs[j].AddMarker? && cs[j].marker.Marker?)
      && (!cfg.showMarkers || cfg.markerMode.NoMarkers? ==> cs == [])
      && (cfg.showMarkers && cfg.markerMode.StartEnd? ==>
            |cs| == 2 && cs[0].marker.position == points[0] && cs[0].marker.title == "Start"
            && cs[1].marker.position == points[|points| - 1] && cs[1].marker.title == "End")
      && (cfg.showMarkers && cfg.markerMode.AllNumbered? ==>
            |cs| == |points|
            && forall i :: 0 <= i < |cs| ==>
                 cs[i].marker.position == points[i] && cs[i].marker.title == "Stop " + DecimalString(i + 1))
  {
  }

  /**
   * Without a drawable for the numbered markers, the first point carries the
   * start hue (even on a one-point route), the last of several points the end
   * hue, and every point between them the intermediate hue.
   */
  lemma NumberedHues(points: seq<LatLng>, cfg: RenderConfig, i: nat)
    requires i < |points| && cfg.intermediateMarkerResId == None
    ensures NumberedMarker(points, i, cfg).icon == Some(DefaultMarker(
      if i == 0 then cfg.startMarkerHue
      else if i + 1 == |points| then cfg.endMarkerHue
      else cfg.intermediateMarkerHue))
  {
  }

  /** The numbered markers' titles read back as 1, 2, 3, ... */
  lemma {:induction false} NumberedTitles(points: seq<LatLng>, cfg: RenderConfig, i: nat)
    requires i < |points|
    ensures var title := NumberedMarker(points, i, cfg).title;
      |title| > 5 && title[..5] == "Stop " && DigitsValue(title[5..]) == i + 1
  {
    var title := NumberedMarker(points, i, cfg).title;
    assert title[5..] == DecimalString(i + 1);
    DecimalStringValue(i + 1);
  }

  /** The ALL_NUMBERED branch of `drawRoute`: one marker per point, in index order. */
  method AddNumberedMarkers(gmap: GoogleMap, points: seq<LatLng>, cfg: RenderConfig)
    modifies gmap
    ensures gmap.calls == old(gmap.calls) + NumberedCalls(points, cfg)
  {
    for i := 0 to |points|
      invariant gmap.calls == old(gmap.calls) + NumberedCalls(points, cfg)[..i]
    {
      gmap.Perform(AddMarker(NumberedMarker(points, i, cfg)));
      assert NumberedCalls(points, cfg)[..i + 1] == NumberedCalls(points, cfg)[..i] + [AddMarker(NumberedMarker(points, i, cfg))];
    }
  }

  // ---------------------------------------------------------------------------
  // Drawing the route
  // ---------------------------------------------------------------------------

  /** The preview's arrow calls: only when arrows are switched on and the route has a segment. */
  function PreviewArrows(points: seq<LatLng>, cfg: RenderConfig): seq<MapCall>
  {
    ArrowIndicesSpec(|points|, ArrowsPerPreview);
    if cfg.showDirectionArrows && |points| > 1 then ArrowCalls(points, ArrowIndices(|points|, ArrowsPerPreview)) else []
  }

  /** What the preview shows after `drawRoute`: the route line, then the arrows, then the markers. */
  function PreviewOverlays(points: seq<LatLng>, cfg: RenderConfig): seq<MapCall>
    requires points != []
  {
    [AddPolyline(points, cfg.polylineColorHex, cfg.polylineWidth, true)]
      + PreviewArrows(points, cfg) + MarkerCalls(points, cfg)
  }

  /**
   * The calls `drawRoute` makes: clear the map, then the overlays, then fit the
   * camera to the route, hide the map toolbar and enable all gestures.
   */
  function DrawRouteCalls(points: seq<LatLng>, cfg: RenderConfig): seq<MapCall>
    requires points != []
  {
    [Clear] + PreviewOverlays(points, cfg)
      + [AnimateCameraToBounds(points, PreviewPadding), SetMapToolbarEnabled(false), SetAllGesturesEnabled(true)]
  }

  /** On its own, `drawRoute` starts with a clear and leaves the preview's overlays on the map. */
  lemma {:induction false} DrawRouteShows(points: seq<LatLng>, cfg: RenderConfig)
    requires points != []
    ensures Clear in DrawRouteCalls(points, cfg)
    ensures Shown(DrawRouteCalls(points, cfg)) == PreviewOverlays(points, cfg)
  {
    var overlays := PreviewOverlays(points, cfg);
    var tail := [AnimateCameraToBounds(points, PreviewPadding), SetMapToolbarEnabled(false), SetAllGesturesEnabled(true)];
    PreviewOverlaysAreOverlays(points, cfg);
    ClearThenShown(overlays, tail);
    assert DrawRouteCalls(points, cfg) == [Clear] + overlays + tail;
  }

  lemma PreviewOverlaysAreOverlays(points: seq<LatLng>, cfg: RenderConfig)
    requires points != []
    ensures var overlays := PreviewOverlays(points, cfg);
      forall j :: 0 <= j < |overlays| ==> IsOverlay(overlays[j])
  {
    MarkerCallsSpec(points, cfg);
  }

  /**
   * After `drawRoute` the map shows exactly this route's overlays, whatever it
   * showed before, so drawing the same route again shows it once, not twice.
   */
  lemma {:induction false} DrawRouteReplaces(before: seq<MapCall>, points: seq<LatLng>, cfg: RenderConfig)
    requires points != []
    ensures Shown(before + DrawRouteCalls(points, cfg)) == PreviewOverlays(points, cfg)
    ensures Shown(before + DrawRouteCalls(points, cfg) + DrawRouteCalls(points, cfg)) == PreviewOverlays(points, cfg)
  {
    var d := DrawRouteCalls(points, cfg);
    DrawRouteShows(points, cfg);
    ShownAppend(before, d);
    ShownAppend(before + d, d);
  }

  /**
   * With the shipped settings the preview shows the route line in "#E64A19",
   * 12 wide, and no markers; it has direction arrows exactly when the route
   * has at least 30 points.
   */
  lemma DefaultPreview(points: seq<LatLng>)
    requires points != []
    ensures var overlays := PreviewOverlays(points, DefaultRenderConfig);
      && overlays[0] == AddPolyline(points, "#E64A19", 12.0, true)
      && (forall j :: 0 < j < |overlays| ==> overlays[j].AddMarker? && overlays[j].marker.ArrowMarker?)
      && (|overlays| > 1 <==> |points| >= 30)
  {
    ArrowsOnlyOnLongRoutes(|points|, ArrowsPerPreview);
  }

  // ---------------------------------------------------------------------------
  // Stop rows (`populateRouteDetails`, `addRouteStopView`)
  // ---------------------------------------------------------------------------

  datatype RouteStop = RouteStop(name: string, description: string, etaMinutes: Option<int>)

  datatype RouteDetailInfo = RouteDetailInfo(start: RouteStop, stops: seq<RouteStop>, end: RouteStop)

  const StartDot := "#00E676"
  const EndDot := "#FF5252"
  const StopDot := "#4A9FF5"

  /**
   * One stop row as laid out: the stop name, an ETA badge when the stop has
   * an ETA, the dot colour, whether a connecting line runs down to the next
   * row, and the row's top and bottom margins.
   */
  datatype StopRow = StopRow(
    name: string,
    etaBadge: Option<string>,
    dotColor: string,
    hasLine: bool,
    topMargin: int,
    bottomMargin: int)

  /** `addRouteStopView`'s row for a stop; a start flag wins over an end flag for the dot colour. */
  function StopRowFor(stop: RouteStop, isStart: bool, isEnd: bool): StopRow {
    StopRow(
      stop.name,
      if stop.etaMinutes.Some? then Some(IntString(stop.etaMinutes.value) + " min") else None,
      if isStart then StartDot else if isEnd then EndDot else StopDot,
      !isEnd,
      if isStart then 4 else 0,
      if isEnd then 4 else 16)
  }

  /** The rows `populateRouteDetails` lays out: start, each stop in order, end. */
  function Rows(info: RouteDetailInfo): (rows: seq<StopRow>)
    ensures |rows| == |info.stops| + 2
  {
    [StopRowFor(info.start, true, false)]
      + seq(|info.stops|, i requires 0 <= i < |info.stops| => StopRowFor(info.stops[i], false, false))
      + [StopRowFor(info.end, false, true)]
  }

  /**
   * The rows name the start, the stops in order and the end; only the first
   * row has the start dot, only the last the end dot and no line below it,
   * and a row has an ETA badge exactly when its stop has an ETA.
   */
  lemma RowsSpec(info: RouteDetailInfo)
    ensures var rows := Rows(info);
      var all := [info.start] + info.stops + [info.end];
      && (forall i :: 0 <= i < |rows| ==> rows[i].name == all[i].name)
      && (forall i :: 0 <= i < |rows| ==> (rows[i].etaBadge.Some? <==> all[i].etaMinutes.Some?))
      && (forall i :: 0 <= i < |rows| ==> (rows[i].dotColor == StartDot <==> i == 0))
      && (forall i :: 0 <= i < |rows| ==> (rows[i].dotColor == EndDot <==> i == |rows| - 1))
      && (forall i :: 0 <= i < |rows| ==> (rows[i].hasLine <==> i < |rows| - 1))
  {
    var rows := Rows(info);
    var all := [info.start] + info.stops + [info.end];
    forall i | 0 < i < |rows| - 1
      ensures rows[i] == StopRowFor(all[i], false, false)
    {
      assert all[i] == info.stops[i - 1];
    }
  }

  /** An ETA badge reads "<minutes> min". */
  lemma EtaBadge(stop: RouteStop, isStart: bool, isEnd: bool)
    requires stop.etaMinutes.Some? && stop.etaMinutes.value >= 0
    ensures var badge := StopRowFor(stop, isStart, isEnd).etaBadge;
      badge.Some? && |badge.value| > 4 && badge.value[|badge.value| - 4..] == " min"
      && DigitsValue(badge.value[..|badge.value| - 4]) == stop.etaMinutes.value
  {
    var badge := StopRowFor(stop, isStart, isEnd).etaBadge.value;
    assert badge[..|badge| - 4] == DecimalString(stop.etaMinutes.value);
    DecimalStringValue(stop.etaMinutes.value);
  }

  /** The layout the stop rows go into (`routeStopsContainer`). */
  class StopContainer {
    var rows: seq<StopRow>

    constructor ()
      ensures rows == []
    {
      rows := [];
    }

    method RemoveAllViews()
      modifies this
      ensures rows == []
    {
      rows := [];
    }

    method AddView(row: StopRow)
      modifies this
      ensures rows == old(rows) + [row]
    {
      rows := rows + [row];
    }
  }

  /**
   * `populateRouteDetails`: nothing when the screen has no stop container;
   * otherwise the container's old rows are replaced by the route's rows.
   */
  method PopulateRouteDetails(container: StopContainer?, info: RouteDetailInfo)
    modifies container
    ensures container != null ==> container.rows == Rows(info)
  {
    if container == null {
      return;
    }
    container.RemoveAllViews();
    container.AddView(StopRowFor(info.start, true, false));
    for i := 0 to |info.stops|
      invariant container.rows == Rows(info)[..i + 1]
    {
      container.AddView(StopRowFor(info.stops[i], false, false));
      assert Rows(info)[..i + 2] == Rows(info)[..i + 1] + [StopRowFor(info.stops[i], false, false)];
    }
    container.AddView(StopRowFor(info.end, false, true));
    assert Rows(info) == Rows(info)[..|info.stops| + 1] + [StopRowFor(info.end, false, true)];
  }

  /** The arrows of `drawRoute`, when switched on and the route has a segment. */
  method AddPreviewArrows(gmap: GoogleMap, points: seq<LatLng>, cfg: RenderConfig)
    modifies gmap
    ensures gmap.calls == old(gmap.calls) + PreviewArrows(points, cfg)
  {
    if cfg.showDirectionArrows && |points| > 1 {
      AddDirectionalArrows(gmap, points, ArrowsPerPreview);
    }
  }

  /** The markers of `drawRoute`, by marker mode. */
  method AddMarkers(gmap: GoogleMap, points: seq<LatLng>, cfg: RenderConfig)
    requires points != []
    modifies gmap
    ensures gmap.calls == old(gmap.calls) + MarkerCalls(points, cfg)
  {
    if cfg.showMarkers {
      match cfg.markerMode
      case NoMarkers =>
      case StartEnd =>
        var start, end := points[0], points[|points| - 1];
        gmap.Perform(AddMarker(Marker(start, "Start", Some(IconFor(cfg.startMarkerResId, cfg.startMarkerHue)))));
        gmap.Perform(AddMarker(Marker(end, "End", Some(IconFor(cfg.endMarkerResId, cfg.endMarkerHue)))));
      case AllNumbered =>
        AddNumberedMarkers(gmap, points, cfg);
    }
  }

  // ---------------------------------------------------------------------------
  // The screen (`RouteDetailFragment`)
  // ---------------------------------------------------------------------------

  class RouteDetailScreen {
    var googleMap: GoogleMap?
    /** The route points passed to the screen, if any. */
    var routePoints: Option<seq<LatLng>>

    constructor (routePoints: Option<seq<LatLng>>)
      ensures this.googleMap == null && this.routePoints == routePoints
    {
      this.googleMap := null;
      this.routePoints := routePoints;
    }

    /** `drawRoute`: nothing before the map is ready; then the calls of `DrawRouteCalls`. */
    method DrawRoute(points: seq<LatLng>, cfg: RenderConfig)
      requires points != []
      modifies googleMap
      ensures googleMap != null ==> googleMap.calls == old(googleMap.calls) + DrawRouteCalls(points, cfg)
    {
      var gmap := googleMap;
      if gmap == null {
        return;
      }
      gmap.Perform(Clear);
      gmap.Perform(AddPolyline(points, cfg.polylineColorHex, cfg.polylineWidth, true));
      AddPreviewArrows(gmap, points, cfg);
      AddMarkers(gmap, points, cfg);
      gmap.Perform(AnimateCameraToBounds(points, PreviewPadding));
      gmap.Perform(SetMapToolbarEnabled(false));
      gmap.Perform(SetAllGesturesEnabled(true));
    }

    /**
     * `onMapReady`: keep the map; draw the route when there are points, else
     * put the default marker on central Legazpi and zoom to it.
     */
    method OnMapReady(gmap: GoogleMap, cfg: RenderConfig)
      modifies this, gmap
      ensures googleMap == gmap && routePoints == old(routePoints)
      ensures routePoints.Some? && routePoints.value != [] ==>
        gmap.calls == old(gmap.calls) + DrawRouteCalls(routePoints.value, cfg)
      ensures routePoints.None? || routePoints.value == [] ==>
        gmap.calls == old(gmap.calls) + [AddMarker(Marker(DefaultLocation, "Marker", None)), MoveCamera(DefaultLocation, DefaultZoom)]
    {
      googleMap := gmap;
      if routePoints.Some? && routePoints.value != [] {
        DrawRoute(routePoints.value, cfg);
        return;
      }
      gmap.Perform(AddMarker(Marker(DefaultLocation, "Marker", None)));
      gmap.Perform(MoveCamera(DefaultLocation, DefaultZoom));
    }
  }
}
