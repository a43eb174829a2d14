/**
 * KmlParser: one forward pass over the pull-parser events of a KML document,
 * collecting the route path (every `LineString`'s coordinates) and the named
 * point placemarks, plus the tuple syntax `lon,lat[,alt]` of `coordinates`.
 */
module KmlParser {
  import opened Wrappers
  import opened Geo
  import opened KotlinText

  /**
   * `text.trim().toDouble()`: `None` where Kotlin throws `NumberFormatException`.
   * Which strings are numbers is left to the caller.
   */
  type NumberParser = string -> Option<real>

  datatype KmlPlacemark = KmlPlacemark(name: string, description: string, coordinate: LatLng)

  datatype KmlRoute = KmlRoute(
    name: string,
    description: string,
    coordinates: seq<LatLng>,
    placemarks: seq<KmlPlacemark>)

  // ---------------------------------------------------------------------------
  // parseCoordinates
  // ---------------------------------------------------------------------------

  /** One tuple `lng,lat[,…]` read as Maps' `LatLng(lat, lng)`; `None` for a tuple the parser skips. */
  function ParseTuple(token: string, num: NumberParser): Option<LatLng> {
    var parts := Split(token, ',');
    if |parts| >= 2 then
      match (num(parts[0]), num(parts[1]))
      case (Some(lng), Some(lat)) => Some(NewLatLng(lat, lng))
      case _ => None
    else None
  }

  /** The point of one tuple, or nothing for a tuple the parser skips. */
  function TuplePoints(token: string, num: NumberParser): (r: seq<LatLng>)
    ensures |r| <= 1
  {
    match ParseTuple(token, num)
    case Some(p) => [p]
    case None => []
  }

  /** The points of the tuples that parse, in token order. */
  function TupleCoordinates(tokens: seq<string>, num: NumberParser): (r: seq<LatLng>)
    ensures |r| <= |tokens|
  {
    if tokens == [] then []
    else
      var last := tokens[|tokens| - 1];
      TupleCoordinates(tokens[..|tokens| - 1], num) + TuplePoints(last, num)
  }

  /** What `parseCoordinates(text)` returns. */
  function CoordinatesOf(text: string, num: NumberParser): seq<LatLng> {
    TupleCoordinates(Tokens(Trim(text)), num)
  }

  /** `parseCoordinates`: the loop over the whitespace-separated tuples. */
  method ParseCoordinates(coordText: string, num: NumberParser) returns (coordinates: seq<LatLng>)
    ensures coordinates == CoordinatesOf(coordText, num)
  {
    coordinates := [];
    var coordPairs := Tokens(Trim(coordText));
    for k := 0 to |coordPairs|
      invariant coordinates == TupleCoordinates(coordPairs[..k], num)
    {
      var points := ReadTuple(coordPairs[k], num);
      coordinates := coordinates + points;
      TupleCoordinatesSnoc(coordPairs, k, num);
    }
    assert coordPairs[..|coordPairs|] == coordPairs;
  }

  /** The body of the loop: split one tuple on commas and read its first two fields. */
  method ReadTuple(token: string, num: NumberParser) returns (points: seq<LatLng>)
    ensures points == TuplePoints(token, num)
  {
    points := [];
    var parts := Split(token, ',');
    if |parts| >= 2 {
      var lng := num(parts[0]);
      var lat := num(parts[1]);
      if lng.Some? && lat.Some? {
        points := [NewLatLng(lat.value, lng.value)];
      }
    }
  }

  /** One more token read by the loop. */
  lemma TupleCoordinatesSnoc(tokens: seq<string>, k: nat, num: NumberParser)
    requires k < |tokens|
    ensures TupleCoordinates(tokens[..k + 1], num) == TupleCoordinates(tokens[..k], num) + TuplePoints(tokens[k], num)
  {
    assert tokens[..k + 1][..k] == tokens[..k];
  }

  lemma {:induction false} TupleCoordinatesAppend(a: seq<string>, b: seq<string>, num: NumberParser)
    ensures TupleCoordinates(a + b, num) == TupleCoordinates(a, num) + TupleCoordinates(b, num)
    decreases |b|
  {
    if b == [] {
      assert a + b == a;
    } else {
      var b' := b[..|b| - 1];
      assert (a + b)[..|a + b| - 1] == a + b';
      TupleCoordinatesAppend(a, b', num);
    }
  }

  /** When every tuple parses, the result has one point per tuple, each with its axes swapped. */
  lemma {:induction false} AllTuplesParse(tokens: seq<string>, num: NumberParser)
    requires forall t :: t in tokens ==> ParseTuple(t, num).Some?
    ensures |TupleCoordinates(tokens, num)| == |tokens|
    ensures forall i :: 0 <= i < |tokens| ==> TupleCoordinates(tokens, num)[i] == ParseTuple(tokens[i], num).value
    decreases |tokens|
  {
    if tokens != [] {
      var init, last := tokens[..|tokens| - 1], tokens[|tokens| - 1];
      assert last in tokens;
      assert forall t :: t in init ==> t in tokens;
      AllTuplesParse(init, num);
      var p := ParseTuple(last, num).value;
      assert TuplePoints(last, num) == [p];
      var r := TupleCoordinates(init, num) + [p];
      assert TupleCoordinates(tokens, num) == r;
      forall i | 0 <= i < |tokens|
        ensures r[i] == ParseTuple(tokens[i], num).value
      {
        if i < |init| {
          assert tokens[i] == init[i];
        }
      }
    }
  }

  /** A tuple that fails to parse is dropped without disturbing its neighbours. */
  lemma MalformedTupleDropped(before: seq<string>, bad: string, after: seq<string>, num: NumberParser)
    requires ParseTuple(bad, num) == None
    ensures TupleCoordinates(before + [bad] + after, num)
         == TupleCoordinates(before, num) + TupleCoordinates(after, num)
  {
    var init := before + [bad];
    TupleCoordinatesAppend(init, after, num);
    assert init[..|init| - 1] == before && init[|init| - 1] == bad;
    assert TupleCoordinates(init, num) == TupleCoordinates(before, num) + TuplePoints(bad, num);
    assert TuplePoints(bad, num) == [];
    assert TupleCoordinates(before, num) + [] == TupleCoordinates(before, num);
  }

  lemma {:induction false} SplitOfPrefix(p: string, d: char, rest: string)
    requires d !in p
    ensures Split(p + [d] + rest, d) == [p] + Split(rest, d)
    decreases |p|
  {
    if p == [] {
      assert [d] + rest == p + [d] + rest;
      assert ([d] + rest)[1..] == rest;
    } else {
      var s := p + [d] + rest;
      assert s[1..] == p[1..] + [d] + rest;
      SplitOfPrefix(p[1..], d, rest);
      assert [s[0]] + p[1..] == p;
    }
  }

  lemma {:induction false} SplitOfPlain(p: string, d: char)
    requires d !in p
    ensures Split(p, d) == [p]
    decreases |p|
  {
    if p != [] {
      SplitOfPlain(p[1..], d);
      assert [p[0]] + p[1..] == p;
    }
  }

  /** Splitting the delimiter-joined parts gives the parts back. */
  lemma {:induction false} SplitJoin(parts: seq<string>, d: char)
    requires |parts| >= 1
    requires forall p :: p in parts ==> d !in p
    ensures Split(Join(parts, d), d) == parts
    decreases |parts|
  {
    assert parts[0] in parts;
    if |parts| == 1 {
      SplitOfPlain(parts[0], d);
    } else {
      assert forall p :: p in parts[1..] ==> p in parts;
      SplitJoin(parts[1..], d);
      SplitOfPrefix(parts[0], d, Join(parts[1..], d));
    }
  }

  /**
   * The tuple `lng,lat,alt…` is read as `LatLng(lat, lng)`, with the latitude clamped and the
   * longitude wrapped as Maps does; parts after the second are ignored.
   */
  lemma TupleAxesSwapped(lngText: string, latText: string, extra: seq<string>, num: NumberParser, lng: real, lat: real)
    requires ',' !in lngText && ',' !in latText
    requires forall p :: p in extra ==> ',' !in p
    requires num(lngText) == Some(lng) && num(latText) == Some(lat)
    ensures ParseTuple(Join([lngText, latText] + extra, ','), num) == Some(NewLatLng(lat, lng))
    ensures -90.0 <= lat <= 90.0 && -180.0 <= lng < 180.0 ==>
      ParseTuple(Join([lngText, latText] + extra, ','), num) == Some(LatLng(lat, lng))
  {
    SplitJoin([lngText, latText] + extra, ',');
  }

  /** A tuple without a comma has fewer than two parts and is skipped. */
  lemma TupleWithoutCommaSkipped(token: string, num: NumberParser)
    requires ',' !in token
    ensures ParseTuple(token, num) == None
  {
    SplitHasSeveralParts(token, ',');
  }

  /**
   * A token made only of Unicode spaces is what `filter { it.isNotBlank() }` drops. It holds no
   * comma, so the tuple reader skips it as well: the filter changes no coordinate.
   */
  lemma BlankTokenSkipped(token: string, num: NumberParser)
    requires forall i :: 0 <= i < |token| ==> IsKotlinWhitespace(token[i])
    ensures ParseTuple(token, num) == None
  {
    assert forall i :: 0 <= i < |token| ==> token[i] != ',';
    TupleWithoutCommaSkipped(token, num);
  }

  // ---------------------------------------------------------------------------
  // parseKmlFromStream
  // ---------------------------------------------------------------------------

  /** The local tag names the parser reacts to; every other name is `OtherTag`. */
  datatype Tag = Placemark | LineString | Point | Name | Description | Coordinates | OtherTag(localName: string)

  /** The comparison of `parser.name` with the six names of the `when` branches. */
  function TagOf(localName: string): (t: Tag)
    ensures t.OtherTag? ==> t.localName == localName
  {
    if localName == "Placemark" then Placemark
    else if localName == "LineString" then LineString
    else if localName == "Point" then Point
    else if localName == "name" then Name
    else if localName == "description" then Description
    else if localName == "coordinates" then Coordinates
    else OtherTag(localName)
  }

  /**
   * The events the pull parser reports between START_DOCUMENT and END_DOCUMENT,
   * a tag given by the classification of its local name.
   */
  datatype Event = StartTag(tag: Tag) | EndTag(tag: Tag) | Text(text: string)

  /**
   * How the text of a `coordinates` element becomes points. The event loop is
   * stated for any reader; the parser uses `Reader(num)`: trim the text, then
   * `parseCoordinates`.
   */
  type CoordinateReader = string -> seq<LatLng>

  function Reader(num: NumberParser): CoordinateReader {
    text => TrimmedCoordinatesOf(text, num)
  }

  /** Line 110 trims the element's text before `parseCoordinates` sees it. */
  function TrimmedCoordinatesOf(text: string, num: NumberParser): seq<LatLng> {
    CoordinatesOf(Trim(text), num)
  }

  /** The local variables of `parseKmlFromStream`. */
  datatype ParserState = ParserState(
    routeName: string,
    routeDescription: string,
    coordinates: seq<LatLng>,
    placemarks: seq<KmlPlacemark>,
    placemarkName: string,
    placemarkDesc: string,
    insidePlacemark: bool,
    insideLineString: bool,
    insidePoint: bool)

  const Initial := ParserState("", "", [], [], "", "", false, false, false)

  /** A start tag whose handler reads the following event with `parser.next()`. */
  predicate ReadsNext(e: Event) {
    e == StartTag(Name) || e == StartTag(Description) || e == StartTag(Coordinates)
  }

  /** How many events one iteration of the main loop consumes. */
  function Consumed(events: seq<Event>): (n: nat)
    requires events != []
    ensures 1 <= n <= |events|
  {
    if ReadsNext(events[0]) && |events| >= 2 then 2 else 1
  }

  /** A `name` text: to the current placemark if its name is still empty, else to the route if its name is. */
  function NameText(st: ParserState, text: string): ParserState {
    if st.insidePlacemark && st.placemarkName == "" then st.(placemarkName := text)
    else if st.routeName == "" then st.(routeName := text)
    else st
  }

  /** A `description` text, by the same first-occurrence rule. */
  function DescriptionText(st: ParserState, text: string): ParserState {
    if st.insidePlacemark && st.placemarkDesc == "" then st.(placemarkDesc := text)
    else if st.routeDescription == "" then st.(routeDescription := text)
    else st
  }

  /** A `coordinates` text: path points inside a LineString, else one placemark inside a Point. */
  function CoordinatesText(st: ParserState, coordText: string, read: CoordinateReader): ParserState {
    if st.insideLineString then
      st.(coordinates := st.coordinates + read(coordText))
    else if st.insidePoint then
      var points := read(coordText);
      if points != [] && st.placemarkName != "" then
        st.(placemarks := st.placemarks + [KmlPlacemark(st.placemarkName, st.placemarkDesc, points[0])])
      else st
    else st
  }

  /** The START_TAG branch; `next` is the event `parser.next()` would read. */
  function StartTagStep(tag: Tag, next: Option<Event>, st: ParserState, read: CoordinateReader): ParserState {
    match tag
    case Placemark => st.(insidePlacemark := true, placemarkName := "", placemarkDesc := "")
    case LineString => st.(insideLineString := true)
    case Point => st.(insidePoint := true)
    case Name => if next.Some? && next.value.Text? then NameText(st, next.value.text) else st
    case Description => if next.Some? && next.value.Text? then DescriptionText(st, next.value.text) else st
    case Coordinates => if next.Some? && next.value.Text? then CoordinatesText(st, next.value.text, read) else st
    case OtherTag(_) => st
  }

  /** The END_TAG branch. */
  function EndTagStep(tag: Tag, st: ParserState): ParserState {
    match tag
    case Placemark => st.(insidePlacemark := false)
    case LineString => st.(insideLineString := false)
    case Point => st.(insidePoint := false)
    case _ => st
  }

  /** One iteration of the main `when`; other event types (TEXT) fall through. */
  function Dispatch(e: Event, next: Option<Event>, st: ParserState, read: CoordinateReader): ParserState {
    match e
    case StartTag(tag) => StartTagStep(tag, next, st, read)
    case EndTag(tag) => EndTagStep(tag, st)
    case Text(_) => st
  }

  function NextOf(events: seq<Event>): Option<Event> {
    if |events| >= 2 then Some(events[1]) else None
  }

  /** The state after the loop has run over all of `events`, starting from `st`. */
  function Run(events: seq<Event>, st: ParserState, read: CoordinateReader): ParserState
    decreases |events|
  {
    if events == [] then st
    else Run(events[Consumed(events)..], Dispatch(events[0], NextOf(events), st, read), read)
  }

  /** One iteration of the loop, unfolded. */
  lemma RunStep(events: seq<Event>, st: ParserState, read: CoordinateReader)
    requires events != []
    ensures Run(events, st, read) == Run(events[Consumed(events)..], Dispatch(events[0], NextOf(events), st, read), read)
  {
  }

  /** The value `parseKmlFromStream` returns for a final state. */
  function Finish(st: ParserState): Option<KmlRoute> {
    if st.coordinates != [] then
      Some(KmlRoute(
        if st.routeName == "" then "Unnamed Route" else st.routeName,
        if st.routeDescription == "" then "No description" else st.routeDescription,
        st.coordinates,
        st.placemarks))
    else None
  }

  predicate AllNamed(placemarks: seq<KmlPlacemark>) {
    forall i :: 0 <= i < |placemarks| ==> placemarks[i].name != ""
  }

  /** The result of parsing a document: null exactly when no LineString coordinates were collected. */
  function ParseKml(events: seq<Event>, num: NumberParser): (r: Option<KmlRoute>)
    ensures r.None? <==> Run(events, Initial, Reader(num)).coordinates == []
    ensures r.Some? ==> r.value.coordinates != [] && r.value.name != "" && r.value.description != ""
    ensures r.Some? ==> AllNamed(r.value.placemarks)
  {
    RunKeepsPlacemarksNamed(events, Initial, Reader(num));
    Finish(Run(events, Initial, Reader(num)))
  }

  /**
   * `parseKmlFromStream`: the event loop over the document. The method's local
   * variables are kept together in one `ParserState` record.
   */
  method ParseKmlFromStream(events: seq<Event>, num: NumberParser) returns (r: Option<KmlRoute>)
    ensures r == ParseKml(events, num)
  {
    var st := Initial;
    var i := 0;
    while i < |events|
      invariant 0 <= i <= |events|
      invariant Run(events[i..], st, Reader(num)) == Run(events, Initial, Reader(num))
      decreases |events| - i
    {
      ghost var rest := events[i..];
      ghost var before := st;
      var next := if i + 1 < |events| then Some(events[i + 1]) else None;
      var step := 1;
      match events[i] {
        case StartTag(tag) =>
          st := OnStartTag(tag, next, st, num);
          if ReadsNext(events[i]) && next.Some? {
            step := 2;  // parser.next()
          }
        case EndTag(tag) =>
          st := OnEndTag(tag, st);
        case Text(_) =>
      }
      RunStep(rest, before, Reader(num));
      assert next == NextOf(rest) && step == Consumed(rest);
      assert rest[step..] == events[i + step..];
      i := i + step;
    }
    r := Finish(st);
  }

  /** The START_TAG branch of the loop; `next` is the event `parser.next()` reads. */
  method OnStartTag(tag: Tag, next: Option<Event>, st: ParserState, num: NumberParser) returns (st': ParserState)
    ensures st' == StartTagStep(tag, next, st, Reader(num))
  {
    st' := st;
    match tag {
      case Placemark =>
        st' := st.(insidePlacemark := true, placemarkName := "", placemarkDesc := "");
      case LineString =>
        st' := st.(insideLineString := true);
      case Point =>
        st' := st.(insidePoint := true);
      case Name =>
        if next.Some? && next.value.Text? {
          var text := next.value.text;
          if st.insidePlacemark && st.placemarkName == "" {
            st' := st.(placemarkName := text);
          } else if st.routeName == "" {
            st' := st.(routeName := text);
          }
        }
      case Description =>
        if next.Some? && next.value.Text? {
          var text := next.value.text;
          if st.insidePlacemark && st.placemarkDesc == "" {
            st' := st.(placemarkDesc := text);
          } else if st.routeDescription == "" {
            st' := st.(routeDescription := text);
          }
        }
      case Coordinates =>
        if next.Some? && next.value.Text? {
          st' := OnCoordinatesText(next.value.text, st, num);
        }
      case OtherTag(_) =>
    }
  }

  /** The text that follows a `coordinates` start tag. */
  method OnCoordinatesText(text: string, st: ParserState, num: NumberParser) returns (st': ParserState)
    ensures st' == CoordinatesText(st, text, Reader(num))
  {
    st' := st;
    var coordText := Trim(text);
    assert Reader(num)(text) == CoordinatesOf(coordText, num);
    if st.insideLineString {
      var parsed := ParseCoordinates(coordText, num);
      st' := st.(coordinates := st.coordinates + parsed);
    } else if st.insidePoint {
      var parsed := ParseCoordinates(coordText, num);
      if parsed != [] && st.placemarkName != "" {
        st' := st.(placemarks := st.placemarks + [KmlPlacemark(st.placemarkName, st.placemarkDesc, parsed[0])]);
      }
    }
  }

  /** The END_TAG branch of the loop. */
  method OnEndTag(tag: Tag, st: ParserState) returns (st': ParserState)
    ensures st' == EndTagStep(tag, st)
  {
    st' := st;
    match tag {
      case Placemark => st' := st.(insidePlacemark := false);
      case LineString => st' := st.(insideLineString := false);
      case Point => st' := st.(insidePoint := false);
      case _ =>
    }
  }

  // ---------------------------------------------------------------------------
  // Properties of the event loop
  // ---------------------------------------------------------------------------

  /** Only a `coordinates` text can change the path or the placemarks. */
  lemma DispatchKeepsCollected(e: Event, next: Option<Event>, st: ParserState, read: CoordinateReader)
    requires !(e == StartTag(Coordinates) && next.Some? && next.value.Text?)
    ensures Dispatch(e, next, st, read).coordinates == st.coordinates
    ensures Dispatch(e, next, st, read).placemarks == st.placemarks
  {
  }

  /** One iteration only appends to the path and to the placemarks. */
  lemma DispatchAppendsOnly(e: Event, next: Option<Event>, st: ParserState, read: CoordinateReader)
    ensures var st' := Dispatch(e, next, st, read);
      && |st.coordinates| <= |st'.coordinates| && st'.coordinates[..|st.coordinates|] == st.coordinates
      && |st.placemarks| <= |st'.placemarks| && st'.placemarks[..|st.placemarks|] == st.placemarks
  {
    if e == StartTag(Coordinates) && next.Some? && next.value.Text? {
      var st' := CoordinatesText(st, next.value.text, read);
      assert Dispatch(e, next, st, read) == st';
      var points := read(next.value.text);
      assert (st.coordinates + points)[..|st.coordinates|] == st.coordinates;
      if points != [] {
        var pm := KmlPlacemark(st.placemarkName, st.placemarkDesc, points[0]);
        assert (st.placemarks + [pm])[..|st.placemarks|] == st.placemarks;
      }
    } else {
      DispatchKeepsCollected(e, next, st, read);
    }
  }

  /** Path coordinates and placemarks are only ever appended to. */
  lemma {:induction false} RunAppendsOnly(events: seq<Event>, st: ParserState, read: CoordinateReader)
    ensures |st.coordinates| <= |Run(events, st, read).coordinates|
    ensures Run(events, st, read).coordinates[..|st.coordinates|] == st.coordinates
    ensures |st.placemarks| <= |Run(events, st, read).placemarks|
    ensures Run(events, st, read).placemarks[..|st.placemarks|] == st.placemarks
    decreases |events|
  {
    if events != [] {
      var st' := Dispatch(events[0], NextOf(events), st, read);
      DispatchAppendsOnly(events[0], NextOf(events), st, read);
      RunAppendsOnly(events[Consumed(events)..], st', read);
    }
  }

  lemma DispatchKeepsRouteText(e: Event, next: Option<Event>, st: ParserState, read: CoordinateReader)
    ensures st.routeName != "" ==> Dispatch(e, next, st, read).routeName == st.routeName
    ensures st.routeDescription != "" ==> Dispatch(e, next, st, read).routeDescription == st.routeDescription
  {
  }

  /** First occurrence wins: once the route's name or description is set, no later event changes it. */
  lemma {:induction false} RunKeepsRouteText(events: seq<Event>, st: ParserState, read: CoordinateReader)
    ensures st.routeName != "" ==> Run(events, st, read).routeName == st.routeName
    ensures st.routeDescription != "" ==> Run(events, st, read).routeDescription == st.routeDescription
    decreases |events|
  {
    if events != [] {
      DispatchKeepsRouteText(events[0], NextOf(events), st, read);
      RunKeepsRouteText(events[Consumed(events)..], Dispatch(events[0], NextOf(events), st, read), read);
    }
  }

  lemma DispatchKeepsPlacemarksNamed(e: Event, next: Option<Event>, st: ParserState, read: CoordinateReader)
    requires AllNamed(st.placemarks)
    ensures AllNamed(Dispatch(e, next, st, read).placemarks)
  {
    if e == StartTag(Coordinates) && next.Some? && next.value.Text? {
      assert Dispatch(e, next, st, read) == CoordinatesText(st, next.value.text, read);
    } else {
      DispatchKeepsCollected(e, next, st, read);
    }
  }

  /** Every recorded placemark has a non-empty name. */
  lemma {:induction false} RunKeepsPlacemarksNamed(events: seq<Event>, st: ParserState, read: CoordinateReader)
    requires AllNamed(st.placemarks)
    ensures AllNamed(Run(events, st, read).placemarks)
    decreases |events|
  {
    if events != [] {
      DispatchKeepsPlacemarksNamed(events[0], NextOf(events), st, read);
      RunKeepsPlacemarksNamed(events[Consumed(events)..], Dispatch(events[0], NextOf(events), st, read), read);
    }
  }

  /** The event right after a `name`, `description` or `coordinates` start tag is never dispatched. */
  lemma SwallowedEventIgnored(tag: Tag, swallowed: Event, rest: seq<Event>, st: ParserState, read: CoordinateReader)
    requires tag == Name || tag == Description || tag == Coordinates
    requires !swallowed.Text?
    ensures Run([StartTag(tag), swallowed] + rest, st, read) == Run(rest, st, read)
  {
    var events := [StartTag(tag), swallowed] + rest;
    assert Consumed(events) == 2;
    assert events[2..] == rest;
  }

  /** A text event between a `name` start tag and the rest is handled by the first-occurrence rule. */
  lemma NameRule(text: string, rest: seq<Event>, st: ParserState, read: CoordinateReader)
    ensures Run([StartTag(Name), Text(text)] + rest, st, read) == Run(rest, NameText(st, text), read)
    ensures st.insidePlacemark && st.placemarkName == "" ==>
              NameText(st, text).placemarkName == text && NameText(st, text).routeName == st.routeName
    ensures !(st.insidePlacemark && st.placemarkName == "") && st.routeName == "" ==>
              NameText(st, text).routeName == text && NameText(st, text).placemarkName == st.placemarkName
    ensures !(st.insidePlacemark && st.placemarkName == "") && st.routeName != "" ==> NameText(st, text) == st
  {
    var events := [StartTag(Name), Text(text)] + rest;
    assert events[2..] == rest;
  }

  /** The description follows the same rule as the name. */
  lemma DescriptionRule(text: string, rest: seq<Event>, st: ParserState, read: CoordinateReader)
    ensures Run([StartTag(Description), Text(text)] + rest, st, read) == Run(rest, DescriptionText(st, text), read)
    ensures st.insidePlacemark && st.placemarkDesc == "" ==>
              DescriptionText(st, text).placemarkDesc == text && DescriptionText(st, text).routeDescription == st.routeDescription
    ensures !(st.insidePlacemark && st.placemarkDesc == "") && st.routeDescription == "" ==>
              DescriptionText(st, text).routeDescription == text
    ensures !(st.insidePlacemark && st.placemarkDesc == "") && st.routeDescription != "" ==> DescriptionText(st, text) == st
  {
    var events := [StartTag(Description), Text(text)] + rest;
    assert events[2..] == rest;
  }

  /** Inside a LineString the coordinates extend the path, even when a Point is open too. */
  lemma LineStringWins(text: string, rest: seq<Event>, st: ParserState, read: CoordinateReader)
    requires st.insideLineString
    ensures Run([StartTag(Coordinates), Text(text)] + rest, st, read)
         == Run(rest, st.(coordinates := st.coordinates + read(text)), read)
  {
    var events := [StartTag(Coordinates), Text(text)] + rest;
    assert events[2..] == rest;
  }

  /** Inside a Point only, the first valid tuple becomes a placemark, and only if the placemark is named. */
  lemma PointRule(text: string, rest: seq<Event>, st: ParserState, read: CoordinateReader)
    requires !st.insideLineString && st.insidePoint
    ensures var points := read(text);
      Run([StartTag(Coordinates), Text(text)] + rest, st, read)
      == Run(rest, if points != [] && st.placemarkName != "" then
                     st.(placemarks := st.placemarks + [KmlPlacemark(st.placemarkName, st.placemarkDesc, points[0])])
                   else st, read)
  {
    var events := [StartTag(Coordinates), Text(text)] + rest;
    assert events[2..] == rest;
  }

  /** A Placemark start tag clears the placemark's name and description. */
  lemma PlacemarkStartResets(rest: seq<Event>, st: ParserState, read: CoordinateReader)
    ensures Run([StartTag(Placemark)] + rest, st, read)
         == Run(rest, st.(insidePlacemark := true, placemarkName := "", placemarkDesc := ""), read)
  {
    var events := [StartTag(Placemark)] + rest;
    assert events[1..] == rest;
  }

  /** `<LineString><coordinates>text</coordinates></LineString>` */
  function LineStringElement(text: string): seq<Event> {
    [StartTag(LineString), StartTag(Coordinates), Text(text), EndTag(Coordinates), EndTag(LineString)]
  }

  function LineStrings(texts: seq<string>): seq<Event> {
    if texts == [] then [] else LineStringElement(texts[0]) + LineStrings(texts[1..])
  }

  function PathOf(texts: seq<string>, read: CoordinateReader): seq<LatLng> {
    if texts == [] then [] else read(texts[0]) + PathOf(texts[1..], read)
  }

  /** An event whose handler does not call `parser.next()` is handled on its own. */
  lemma SingleEventRun(e: Event, rest: seq<Event>, st: ParserState, read: CoordinateReader)
    requires !ReadsNext(e)
    ensures Run([e] + rest, st, read) == Run(rest, Dispatch(e, None, st, read), read)
  {
    var events := [e] + rest;
    assert events[1..] == rest;
    assert Dispatch(e, NextOf(events), st, read) == Dispatch(e, None, st, read);
  }

  lemma LineStringElementEvents(text: string, rest: seq<Event>)
    ensures LineStringElement(text) + rest
         == [StartTag(LineString)] + ([StartTag(Coordinates), Text(text)] + ([EndTag(Coordinates)] + ([EndTag(LineString)] + rest)))
  {
  }

  lemma LineStringElementRun(text: string, rest: seq<Event>, st: ParserState, read: CoordinateReader)
    ensures Run(LineStringElement(text) + rest, st, read)
         == Run(rest, st.(coordinates := st.coordinates + read(text), insideLineString := false), read)
  {
    var st1 := st.(insideLineString := true);
    var st2 := st1.(coordinates := st.coordinates + read(text));
    var e3 := [EndTag(LineString)] + rest;
    var e2 := [EndTag(Coordinates)] + e3;
    var e1 := [StartTag(Coordinates), Text(text)] + e2;
    LineStringElementEvents(text, rest);
    SingleEventRun(StartTag(LineString), e1, st, read);
    LineStringWins(text, e2, st1, read);
    SingleEventRun(EndTag(Coordinates), e3, st2, read);
    SingleEventRun(EndTag(LineString), rest, st2, read);
  }

  lemma LineStringsEvents(texts: seq<string>, rest: seq<Event>)
    requires texts != []
    ensures LineStrings(texts) + rest == LineStringElement(texts[0]) + (LineStrings(texts[1..]) + rest)
  {
  }

  lemma PathOfAppend(prefix: seq<LatLng>, texts: seq<string>, read: CoordinateReader)
    requires texts != []
    ensures prefix + read(texts[0]) + PathOf(texts[1..], read) == prefix + PathOf(texts, read)
  {
  }

  lemma PathOfEmpty(st: ParserState, read: CoordinateReader)
    ensures st.(coordinates := st.coordinates + PathOf([], read)) == st
  {
    assert st.coordinates + [] == st.coordinates;
  }

  /** The coordinates of successive LineString elements are concatenated in document order. */
  lemma {:induction false} LineStringsConcatenate(texts: seq<string>, rest: seq<Event>, st: ParserState, read: CoordinateReader)
    requires !st.insideLineString
    ensures Run(LineStrings(texts) + rest, st, read)
         == Run(rest, st.(coordinates := st.coordinates + PathOf(texts, read)), read)
    decreases |texts|
  {
    if texts == [] {
      PathOfEmpty(st, read);
      assert LineStrings(texts) + rest == rest;
    } else {
      LineStringsEvents(texts, rest);
      LineStringElementRun(texts[0], LineStrings(texts[1..]) + rest, st, read);
      var st' := st.(coordinates := st.coordinates + read(texts[0]), insideLineString := false);
      LineStringsConcatenate(texts[1..], rest, st', read);
      PathOfAppend(st.coordinates, texts, read);
    }
  }

  /**
   * A document whose only name sits inside the Placemark that holds the path:
   * the name goes to the placemark, so the route is called "Unnamed Route".
   */
  lemma PlacemarkNameIsNotRouteName(name: string, text: string, num: NumberParser)
    requires name != "" && TrimmedCoordinatesOf(text, num) != []
    ensures ParseKml(NamedPlacemarkPath(name, text), num)
         == Some(KmlRoute("Unnamed Route", "No description", TrimmedCoordinatesOf(text, num), []))
  {
    NamedPlacemarkPathRun(name, text, num);
  }

  /** The state the loop ends in on `NamedPlacemarkPath(name, text)`. */
  lemma NamedPlacemarkPathRun(name: string, text: string, num: NumberParser)
    requires name != ""
    ensures Run(NamedPlacemarkPath(name, text), Initial, Reader(num))
         == Initial.(placemarkName := name, coordinates := TrimmedCoordinatesOf(text, num))
  {
    var read := Reader(num);
    var tail := LineStringElement(text) + [EndTag(Placemark)];
    var st2 := NamedPlacemarkOpens(name, tail, read);
    var st := ClosedPlacemarkPath(text, st2, read);
    assert read(text) == TrimmedCoordinatesOf(text, num);
  }

  /** `<Placemark><name>name</name>` at the start of a document: the name goes to the placemark. */
  lemma NamedPlacemarkOpens(name: string, tail: seq<Event>, read: CoordinateReader) returns (st2: ParserState)
    requires name != ""
    ensures Run([StartTag(Placemark), StartTag(Name), Text(name), EndTag(Name)] + tail, Initial, read) == Run(tail, st2, read)
    ensures st2 == Initial.(insidePlacemark := true, placemarkName := name)
  {
    var e2 := [EndTag(Name)] + tail;
    var e1 := [StartTag(Name), Text(name)] + e2;
    var st1 := Initial.(insidePlacemark := true);
    st2 := st1.(placemarkName := name);
    assert [StartTag(Placemark), StartTag(Name), Text(name), EndTag(Name)] + tail == [StartTag(Placemark)] + e1;
    SingleEventRun(StartTag(Placemark), e1, Initial, read);
    NameRule(name, e2, st1, read);
    SingleEventRun(EndTag(Name), tail, st2, read);
  }

  /** `<LineString>…</LineString></Placemark>` ending a document that has no path yet. */
  lemma ClosedPlacemarkPath(text: string, st2: ParserState, read: CoordinateReader) returns (st: ParserState)
    requires st2.coordinates == []
    ensures Run(LineStringElement(text) + [EndTag(Placemark)], st2, read) == st
    ensures st == st2.(coordinates := read(text), insideLineString := false, insidePlacemark := false)
  {
    assert st2.coordinates + read(text) == read(text);
    var st3 := st2.(coordinates := st2.coordinates + read(text), insideLineString := false);
    st := st3.(insidePlacemark := false);
    LineStringElementRun(text, [EndTag(Placemark)], st2, read);
    SingleEventRun(EndTag(Placemark), [], st3, read);
    assert [EndTag(Placemark)] + [] == [EndTag(Placemark)];
  }

  /** `<Placemark><name>name</name><LineString>…</LineString></Placemark>` */
  function NamedPlacemarkPath(name: string, text: string): seq<Event> {
    [StartTag(Placemark), StartTag(Name), Text(name), EndTag(Name)] + (LineStringElement(text) + [EndTag(Placemark)])
  }

  // ---------------------------------------------------------------------------
  // parseKmlFromAssets
  // ---------------------------------------------------------------------------

  /** The app's asset files that open, each as its document's events. */
  type Assets = map<string, seq<Event>>

  /** The route in an asset file: null when the file does not open. */
  function AssetRoute(assets: Assets, fileName: string, num: NumberParser): (r: Option<KmlRoute>)
    ensures fileName !in assets ==> r.None?
    ensures r.Some? ==> r.value.coordinates != [] && r.value.name != "" && r.value.description != ""
  {
    if fileName in assets then ParseKml(assets[fileName], num) else None
  }

  /** `parseKmlFromAssets`: the exception of a file that does not open becomes null. */
  method ParseKmlFromAssets(assets: Assets, fileName: string, num: NumberParser) returns (r: Option<KmlRoute>)
    ensures r == AssetRoute(assets, fileName, num)
  {
    if fileName !in assets {
      return None;
    }
    r := ParseKmlFromStream(assets[fileName], num);
  }
}
