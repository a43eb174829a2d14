/**
 * The Room entities of the app's database and the `Converters` type converters.
 * Coordinate lists are kept as sequences; their JSON text form is left to a
 * codec passed in.
 */
module RouteEntities {
  import opened Wrappers
  import opened Geo
  import opened KotlinText
  import opened Sorting

  /** A row of `routes`, keyed by `id`. */
  datatype RouteEntity = RouteEntity(
    id: int,
    title: string,
    fareMin: real,
    fareMax: real,
    summary: string,
    category: string,
    coordinates: seq<LatLng>,
    isActive: bool)

  /** A row of `route_stops`; `routeId` references `routes.id` with `ON DELETE CASCADE`. */
  datatype RouteStopEntity = RouteStopEntity(
    id: int,
    routeId: int,
    stopOrder: int,
    name: string,
    description: string,
    latitude: real,
    longitude: real,
    etaMinutes: Option<int>,
    isStart: bool,
    isEnd: bool)

  /** A row of `destinations`. */
  datatype DestinationEntity = DestinationEntity(
    id: int,
    name: string,
    description: string,
    category: string,
    latitude: real,
    longitude: real,
    isPopular: bool,
    imageUrl: Option<string>)

  /** A row of `favorite_routes`, keyed by the route id itself. */
  datatype FavoriteRouteEntity = FavoriteRouteEntity(routeId: int, timestamp: int)

  /** A row of `search_history`. */
  datatype SearchHistoryEntity = SearchHistoryEntity(id: int, query: string, timestamp: int)

  /** `RouteEntity(...)` with `isActive` left to its default. */
  function NewRoute(id: int, title: string, fareMin: real, fareMax: real, summary: string, category: string,
                    coordinates: seq<LatLng>): (r: RouteEntity)
    ensures r.isActive
    ensures r.id == id && r.title == title && r.summary == summary && r.category == category
    ensures r.fareMin == fareMin && r.fareMax == fareMax && r.coordinates == coordinates
  {
    RouteEntity(id, title, fareMin, fareMax, summary, category, coordinates, true)
  }

  /** `DestinationEntity(...)` with `id` (0: to be generated), `imageUrl` and, unless given, `isPopular` left to their defaults. */
  function NewDestination(name: string, description: string, category: string, latitude: real, longitude: real,
                          isPopular: bool := false): (d: DestinationEntity)
    ensures d.id == 0 && d.imageUrl == None
    ensures d.name == name && d.description == description && d.category == category
    ensures d.latitude == latitude && d.longitude == longitude && d.isPopular == isPopular
  {
    DestinationEntity(0, name, description, category, latitude, longitude, isPopular, None)
  }

  /** The primary keys. */
  function RouteKey(r: RouteEntity): int { r.id }
  function StopKey(s: RouteStopEntity): int { s.id }
  function DestinationKey(d: DestinationEntity): int { d.id }
  function FavoriteKey(f: FavoriteRouteEntity): int { f.routeId }
  function SearchKey(s: SearchHistoryEntity): int { s.id }

  /**
   * The id an `autoGenerate` key gets: a given id of 0 counts as none, and
   * `AUTOINCREMENT` then takes one past `sequence`, the largest id the table has held.
   */
  function AssignedId(given: int, sequence: int): (id: int)
    ensures given != 0 ==> id == given
    ensures given == 0 ==> id == sequence + 1
  {
    if given == 0 then sequence + 1 else given
  }

  /** The table's `AUTOINCREMENT` sequence after a row with key `id` is written. */
  function NextSequence(sequence: int, id: int): (s: int)
    ensures s >= sequence && s >= id
    ensures s == sequence || s == id
  {
    if id > sequence then id else sequence
  }

  // ---------------------------------------------------------------------------
  // ORDER BY clauses
  // ---------------------------------------------------------------------------

  /** `ORDER BY title ASC`. */
  predicate TitleLe(a: RouteEntity, b: RouteEntity) {
    StrLe(a.title, b.title)
  }

  /** `ORDER BY isPopular DESC, name ASC`. */
  predicate PopularThenNameLe(a: DestinationEntity, b: DestinationEntity) {
    (a.isPopular && !b.isPopular) || (a.isPopular == b.isPopular && StrLe(a.name, b.name))
  }

  /** `ORDER BY stopOrder ASC`. */
  predicate StopOrderLe(a: RouteStopEntity, b: RouteStopEntity) {
    a.stopOrder <= b.stopOrder
  }

  /** `ORDER BY timestamp DESC` on favorites. */
  predicate FavoriteNewerLe(a: FavoriteRouteEntity, b: FavoriteRouteEntity) {
    a.timestamp >= b.timestamp
  }

  /** `ORDER BY timestamp DESC` on the search history. */
  predicate SearchNewerLe(a: SearchHistoryEntity, b: SearchHistoryEntity) {
    a.timestamp >= b.timestamp
  }

  lemma TitleOrder()
    ensures Total(TitleLe) && Transitive(TitleLe)
  {
    forall a: RouteEntity, b: RouteEntity
      ensures TitleLe(a, b) || TitleLe(b, a)
    {
      StrLeTotal(a.title, b.title);
    }
    forall a: RouteEntity, b: RouteEntity, c: RouteEntity | TitleLe(a, b) && TitleLe(b, c)
      ensures TitleLe(a, c)
    {
      StrLeTransitive(a.title, b.title, c.title);
    }
  }

  lemma PopularThenNameOrder()
    ensures Total(PopularThenNameLe) && Transitive(PopularThenNameLe)
  {
    forall a: DestinationEntity, b: DestinationEntity
      ensures PopularThenNameLe(a, b) || PopularThenNameLe(b, a)
    {
      StrLeTotal(a.name, b.name);
    }
    forall a: DestinationEntity, b: DestinationEntity, c: DestinationEntity
      | PopularThenNameLe(a, b) && PopularThenNameLe(b, c)
      ensures PopularThenNameLe(a, c)
    {
      if a.isPopular == b.isPopular == c.isPopular {
        StrLeTransitive(a.name, b.name, c.name);
      }
    }
  }

  lemma StopOrderOrder()
    ensures Total(StopOrderLe) && Transitive(StopOrderLe)
  {
  }

  lemma FavoriteNewerOrder()
    ensures Total(FavoriteNewerLe) && Transitive(FavoriteNewerLe)
  {
  }

  lemma SearchNewerOrder()
    ensures Total(SearchNewerLe) && Transitive(SearchNewerLe)
  {
  }

  // ---------------------------------------------------------------------------
  // Converters
  // ---------------------------------------------------------------------------

  /** A JSON codec for coordinate lists (Gson in the app). */
  type ToJson = seq<LatLng> -> string
  type FromJson = string -> seq<LatLng>

  /** `Converters.fromLatLngList`: null stays null, a list becomes its JSON text. */
  function FromLatLngList(value: Option<seq<LatLng>>, toJson: ToJson): (r: Option<string>)
    ensures r.None? <==> value.None?
    ensures value.Some? ==> r == Some(toJson(value.value))
  {
    match value
    case None => None
    case Some(list) => Some(toJson(list))
  }

  /** `Converters.toLatLngList`: null stays null, JSON text becomes its list. */
  function ToLatLngList(value: Option<string>, fromJson: FromJson): (r: Option<seq<LatLng>>)
    ensures r.None? <==> value.None?
    ensures value.Some? ==> r == Some(fromJson(value.value))
  {
    match value
    case None => None
    case Some(text) => Some(fromJson(text))
  }

  /** Storing a list and reading it back gives the list (or null) back, for a codec that round-trips. */
  lemma ConvertersRoundTrip(value: Option<seq<LatLng>>, toJson: ToJson, fromJson: FromJson)
    requires forall list :: fromJson(toJson(list)) == list
    ensures ToLatLngList(FromLatLngList(value, toJson), fromJson) == value
  {
  }
}
