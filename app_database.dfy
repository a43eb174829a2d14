/**
 * The database callback: the KML route importer that runs each time the
 * database opens, with its "last imported route id" watermark kept in the
 * `kml_import_prefs` preferences, and the destination seed written when the
 * database is created.
 */
module AppDatabase {
  import opened Wrappers
  import opened Geo
  import opened KeyedTable
  import opened RouteEntities
  import opened RouteDao
  import opened KmlParser
  import opened KmlSimplify

  /** The watermark when none is stored: routes 1 to 3 are seeded by hand. */
  const DefaultLastImportedRouteId := 4

  /** One KML asset to import and the route record it becomes. */
  datatype RouteConfig = RouteConfig(
    fileName: string,
    routeId: int,
    category: string,
    fareMin: real,
    fareMax: real,
    customSummary: Option<string>,
    customTitle: Option<string>)

  /** `RouteConfig(fileName, routeId)` with every other field left to its default. */
  function NewConfig(fileName: string, routeId: int): (c: RouteConfig)
    ensures c.fileName == fileName && c.routeId == routeId
    ensures c.category == "Inter-City" && c.fareMin == 15.0 && c.fareMax == 20.0
    ensures c.customSummary.None? && c.customTitle.None?
  {
    RouteConfig(fileName, routeId, "Inter-City", 15.0, 20.0, None, None)
  }

  /** The configs the importer walks, in order. */
  function AllKmlConfigs(): (cs: seq<RouteConfig>)
    ensures |cs| == 2
  {
    [
    RouteConfig("kml/route_4_malabog-legazpi route.kml", 4, "Jeepney", 13.0, 15.0,
      Some("Connects Malabog to Legazpi City via the main highway"), Some("Malabog - Legazpi Express")),
    RouteConfig("kml/route_5_camalig-legazpi.kml", 5, "Inter-City", 18.0, 22.0,
      Some("Long distance route from Camalig to Legazpi with multiple stops"), None)
    ]
  }

  function ConfigId(c: RouteConfig): int {
    c.routeId
  }

  /** The configs with `routeId >= startingRouteId`, in list order. */
  function Eligible(configs: seq<RouteConfig>, startingRouteId: int): (r: seq<RouteConfig>)
    ensures forall c :: c in r <==> c in configs && c.routeId >= startingRouteId
  {
    assert forall c: RouteConfig :: AtLeast(ConfigId, startingRouteId)(c) == (ConfigId(c) >= startingRouteId);
    Filter(configs, AtLeast(ConfigId, startingRouteId))
  }

  /** From the default watermark both configs are attempted; from 5 only route 5; past 5 none. */
  lemma EligibleConfigs()
    ensures Eligible(AllKmlConfigs(), DefaultLastImportedRouteId) == AllKmlConfigs()
    ensures Eligible(AllKmlConfigs(), 5) == [AllKmlConfigs()[1]]
    ensures forall t :: t > 5 ==> Eligible(AllKmlConfigs(), t) == []
  {
  }

  // ---------------------------------------------------------------------------
  // One imported route
  // ---------------------------------------------------------------------------

  /** `customTitle ?: kmlRoute.name` */
  function RouteTitle(config: RouteConfig, kml: KmlRoute): (t: string)
    ensures config.customTitle.Some? ==> t == config.customTitle.value
    ensures config.customTitle.None? ==> t == kml.name
  {
    config.customTitle.GetOr(kml.name)
  }

  /** `customSummary ?: description.ifEmpty { "Imported route from <file>" }` */
  function RouteSummary(config: RouteConfig, kml: KmlRoute): (s: string)
    ensures config.customSummary.Some? ==> s == config.customSummary.value
    ensures config.customSummary.None? && kml.description != "" ==> s == kml.description
    ensures config.customSummary.None? && kml.description == "" ==> s == "Imported route from " + config.fileName
  {
    config.customSummary.GetOr(if kml.description == "" then "Imported route from " + config.fileName else kml.description)
  }

  /** The placemark count, or an estimate of one stop per 50 stored points, at least 2. */
  function StopCount(kml: KmlRoute, simplified: seq<LatLng>): (n: int)
    ensures kml.placemarks != [] ==> n == |kml.placemarks|
    ensures kml.placemarks == [] ==> n >= 2
    ensures kml.placemarks == [] && |simplified| >= 100 ==> n * 50 <= |simplified| < (n + 1) * 50
    ensures kml.placemarks == [] && |simplified| < 100 ==> n == 2
  {
    if kml.placemarks != [] then |kml.placemarks|
    else if |simplified| / 50 < 2 then 2 else |simplified| / 50
  }

  /** The route record a parsed config becomes. */
  function ImportedRoute(config: RouteConfig, kml: KmlRoute): (r: RouteEntity)
    ensures r.id == config.routeId && r.category == config.category
    ensures r.fareMin == config.fareMin && r.fareMax == config.fareMax
    ensures r.title == RouteTitle(config, kml) && r.summary == RouteSummary(config, kml)
    ensures r.coordinates == Simplification(kml.coordinates, Bound(DefaultTolerance), DistanceSquared)
    ensures r.isActive
  {
    NewRoute(config.routeId, RouteTitle(config, kml), config.fareMin, config.fareMax, RouteSummary(config, kml),
             config.category, Simplification(kml.coordinates, Bound(DefaultTolerance), DistanceSquared))
  }

  /**
   * A parsed document's description is never empty, so the "Imported route from"
   * fallback never applies, and its name is never empty, so neither is a title
   * that is not given as empty.
   */
  lemma ParsedRouteText(config: RouteConfig, assets: Assets, num: NumberParser)
    requires AssetRoute(assets, config.fileName, num).Some?
    ensures var kml := AssetRoute(assets, config.fileName, num).value;
      && RouteSummary(config, kml) == config.customSummary.GetOr(kml.description)
      && (config.customTitle != Some("") ==> RouteTitle(config, kml) != "")
  {
  }

  /** The stored path keeps the document path's first and last points. */
  lemma ImportedRouteEnds(config: RouteConfig, assets: Assets, num: NumberParser)
    requires AssetRoute(assets, config.fileName, num).Some?
    ensures var kml := AssetRoute(assets, config.fileName, num).value;
      var path := ImportedRoute(config, kml).coordinates;
      && path != []
      && path[0] == kml.coordinates[0]
      && path[|path| - 1] == kml.coordinates[|kml.coordinates| - 1]
  {
  }

  // ---------------------------------------------------------------------------
  // importKmlRoutes
  // ---------------------------------------------------------------------------

  /** What the importer logs for one attempted config. */
  datatype ImportOutcome =
    | Imported(fileName: string, routeId: int, title: string, stopCount: int)
    | Unparsed(fileName: string, routeId: int)

  /** The importer's state: the two tables the upserts touch, `maxImportedId` and the log. */
  datatype ImportState = ImportState(
    routes: seq<RouteEntity>,
    stops: seq<RouteStopEntity>,
    maxImportedId: int,
    log: seq<ImportOutcome>)

  predicate ImportTables(st: ImportState) {
    Sorted(st.routes, RouteKey) && Sorted(st.stops, StopKey)
  }

  /** One config: a parsed file is upserted (with the cascade on its stops); an unparsed one is skipped. */
  function ImportStep(st: ImportState, config: RouteConfig, assets: Assets, num: NumberParser): (r: ImportState)
    requires ImportTables(st)
    ensures ImportTables(r)
  {
    match AssetRoute(assets, config.fileName, num)
    case None => st.(log := st.log + [Unparsed(config.fileName, config.routeId)])
    case Some(kml) =>
      var route := ImportedRoute(config, kml);
      ImportState(
        Upsert(st.routes, route, RouteKey),
        StopsOutside(st.stops, {route.id}),
        if config.routeId > st.maxImportedId then config.routeId else st.maxImportedId,
        st.log + [Imported(config.fileName, config.routeId, route.title, StopCount(kml, route.coordinates))])
  }

  /** The configs imported in turn. */
  function ImportAll(st: ImportState, configs: seq<RouteConfig>, assets: Assets, num: NumberParser): (r: ImportState)
    requires ImportTables(st)
    ensures ImportTables(r)
  {
    if configs == [] then st
    else ImportStep(ImportAll(st, configs[..|configs| - 1], assets, num), configs[|configs| - 1], assets, num)
  }

  /** The route record a config becomes, if its file parses. */
  function Parsed(config: RouteConfig, assets: Assets, num: NumberParser): (rs: seq<RouteEntity>)
    ensures |rs| <= 1
    ensures rs == [] <==> AssetRoute(assets, config.fileName, num).None?
    ensures forall r :: r in rs ==> r.id == config.routeId
  {
    match AssetRoute(assets, config.fileName, num)
    case None => []
    case Some(kml) => [ImportedRoute(config, kml)]
  }

  /** The route records of the configs whose files parse, in order. */
  function ImportedRoutes(configs: seq<RouteConfig>, assets: Assets, num: NumberParser): (rs: seq<RouteEntity>)
    ensures |rs| <= |configs|
  {
    if configs == [] then []
    else ImportedRoutes(configs[..|configs| - 1], assets, num) + Parsed(configs[|configs| - 1], assets, num)
  }

  /** One step upserts the config's route record, if any, and the cascade removes its stops. */
  lemma ImportStepTables(st: ImportState, config: RouteConfig, assets: Assets, num: NumberParser)
    requires ImportTables(st)
    ensures ImportStep(st, config, assets, num).routes == UpsertAll(st.routes, Parsed(config, assets, num), RouteKey)
    ensures ImportStep(st, config, assets, num).stops == StopsOutside(st.stops, IdsOf(Parsed(config, assets, num)))
  {
    var p := Parsed(config, assets, num);
    if p == [] {
      assert IdsOf(p) == {};
      SortedEqual(StopsOutside(st.stops, {}), st.stops, StopKey);
    } else {
      assert p[..0] == [];
      assert IdsOf(p) == {p[0].id} by {
        assert forall r :: r in p <==> r == p[0];
      }
    }
  }

  /** A batch of at most one row upserts onto the upserts before it. */
  lemma UpsertAllSnoc<T(!new)>(rows: seq<T>, a: seq<T>, b: seq<T>, key: T -> int)
    requires Sorted(rows, key) && |b| <= 1
    ensures UpsertAll(rows, a + b, key) == UpsertAll(UpsertAll(rows, a, key), b, key)
  {
    if b == [] {
      assert a + b == a;
    } else {
      assert (a + b)[..|a + b| - 1] == a;
      assert b[..0] == [];
    }
  }

  /** One more config is eligible exactly when its id reaches the threshold. */
  lemma EligibleSnoc(init: seq<RouteConfig>, last: RouteConfig, t: int)
    ensures Eligible(init + [last], t) == Eligible(init, t) + (if last.routeId >= t then [last] else [])
  {
    FilterAppend(init, [last], AtLeast(ConfigId, t));
    assert [last][1..] == [];
    assert AtLeast(ConfigId, t)(last) == (ConfigId(last) >= t);
  }

  /** A config's route record passes the threshold exactly when the config does. */
  lemma ParsedAtLeast(config: RouteConfig, assets: Assets, num: NumberParser, t: int)
    ensures Filter(Parsed(config, assets, num), AtLeast(RouteKey, t)) == if config.routeId >= t then Parsed(config, assets, num) else []
  {
    var p := Parsed(config, assets, num);
    if p != [] {
      assert p[1..] == [];
      assert AtLeast(RouteKey, t)(p[0]) == (RouteKey(p[0]) >= t);
    }
  }

  /** The routes parsed from the configs with ids from `t` up are the parsed routes with ids from `t` up. */
  lemma {:induction false} ImportedRoutesAtLeast(configs: seq<RouteConfig>, assets: Assets, num: NumberParser, t: int)
    ensures ImportedRoutes(Eligible(configs, t), assets, num) == Filter(ImportedRoutes(configs, assets, num), AtLeast(RouteKey, t))
  {
    if configs != [] {
      var init, last := configs[..|configs| - 1], configs[|configs| - 1];
      assert configs == init + [last];
      ImportedRoutesAtLeast(init, assets, num, t);
      FilteredRoutesSnoc(init, last, assets, num, t);
      EligibleRoutesSnoc(init, last, assets, num, t);
    }
  }

  /** The routes with ids from `t` up, for one more config. */
  lemma FilteredRoutesSnoc(init: seq<RouteConfig>, last: RouteConfig, assets: Assets, num: NumberParser, t: int)
    ensures Filter(ImportedRoutes(init + [last], assets, num), AtLeast(RouteKey, t))
         == Filter(ImportedRoutes(init, assets, num), AtLeast(RouteKey, t))
            + (if last.routeId >= t then Parsed(last, assets, num) else [])
  {
    ImportedRoutesSnoc(init, last, assets, num);
    FilterAppend(ImportedRoutes(init, assets, num), Parsed(last, assets, num), AtLeast(RouteKey, t));
    ParsedAtLeast(last, assets, num, t);
  }

  /** The routes of the eligible configs, for one more config. */
  lemma EligibleRoutesSnoc(init: seq<RouteConfig>, last: RouteConfig, assets: Assets, num: NumberParser, t: int)
    ensures ImportedRoutes(Eligible(init + [last], t), assets, num)
         == ImportedRoutes(Eligible(init, t), assets, num) + (if last.routeId >= t then Parsed(last, assets, num) else [])
  {
    EligibleSnoc(init, last, t);
    var e := Eligible(init, t);
    if last.routeId >= t {
      ImportedRoutesSnoc(e, last, assets, num);
    } else {
      assert e + [] == e;
    }
  }

  /** One more config adds its route record, if any, at the end. */
  lemma ImportedRoutesSnoc(init: seq<RouteConfig>, last: RouteConfig, assets: Assets, num: NumberParser)
    ensures ImportedRoutes(init + [last], assets, num) == ImportedRoutes(init, assets, num) + Parsed(last, assets, num)
  {
    var all := init + [last];
    assert all[..|all| - 1] == init && all[|all| - 1] == last;
  }

  /** An import upserts the parsed routes in turn, and the cascade removes those routes' stops. */
  lemma {:induction false} ImportAllTables(st: ImportState, configs: seq<RouteConfig>, assets: Assets, num: NumberParser)
    requires ImportTables(st)
    ensures ImportAll(st, configs, assets, num).routes == UpsertAll(st.routes, ImportedRoutes(configs, assets, num), RouteKey)
    ensures ImportAll(st, configs, assets, num).stops == StopsOutside(st.stops, IdsOf(ImportedRoutes(configs, assets, num)))
  {
    if configs == [] {
      assert IdsOf([]) == {};
      SortedEqual(StopsOutside(st.stops, {}), st.stops, StopKey);
    } else {
      var init, last := configs[..|configs| - 1], configs[|configs| - 1];
      var mid := ImportAll(st, init, assets, num);
      var before := ImportedRoutes(init, assets, num);
      var p := Parsed(last, assets, num);
      ImportAllTables(st, init, assets, num);
      ImportStepTables(mid, last, assets, num);
      UpsertAllSnoc(st.routes, before, p, RouteKey);
      IdsOfAppend(before, p);
      StopsOutsideTwice(st.stops, IdsOf(before), IdsOf(p));
    }
  }

  /** `maxImportedId` never drops below where it started, covers every imported id, and is the start or one of them. */
  lemma {:induction false} ImportAllMax(st: ImportState, configs: seq<RouteConfig>, assets: Assets, num: NumberParser)
    requires ImportTables(st)
    ensures var r := ImportAll(st, configs, assets, num);
      && r.maxImportedId >= st.maxImportedId
      && (forall route :: route in ImportedRoutes(configs, assets, num) ==> r.maxImportedId >= route.id)
      && (r.maxImportedId == st.maxImportedId ||
          exists route :: route in ImportedRoutes(configs, assets, num) && route.id == r.maxImportedId)
  {
    if configs != [] {
      var init, last := configs[..|configs| - 1], configs[|configs| - 1];
      ImportAllMax(st, init, assets, num);
      var before := ImportedRoutes(init, assets, num);
      match AssetRoute(assets, last.fileName, num)
      case None =>
        assert ImportedRoutes(configs, assets, num) == before + [];
      case Some(kml) =>
        var route := ImportedRoute(last, kml);
        assert ImportedRoutes(configs, assets, num) == before + [route];
        assert route in before + [route];
        assert forall x :: x in before ==> x in before + [route];
    }
  }

  /** A log entry names its config and says `Imported` exactly when the config's file parses. */
  predicate EntryFor(entry: ImportOutcome, config: RouteConfig, assets: Assets, num: NumberParser) {
    && entry.fileName == config.fileName
    && entry.routeId == config.routeId
    && (entry.Imported? <==> AssetRoute(assets, config.fileName, num).Some?)
  }

  /** One entry per config, in order. */
  predicate EntriesFor(entries: seq<ImportOutcome>, configs: seq<RouteConfig>, assets: Assets, num: NumberParser) {
    |entries| == |configs| && forall i :: 0 <= i < |configs| ==> EntryFor(entries[i], configs[i], assets, num)
  }

  /** The log has one entry per attempted config, in order, naming it; a config's entry is `Imported` exactly when its file parses. */
  lemma {:induction false} ImportAllLog(st: ImportState, configs: seq<RouteConfig>, assets: Assets, num: NumberParser)
    requires ImportTables(st)
    ensures var log := ImportAll(st, configs, assets, num).log;
      && |log| >= |st.log|
      && log[..|st.log|] == st.log
      && EntriesFor(log[|st.log|..], configs, assets, num)
  {
    if configs == [] {
      assert ImportAll(st, configs, assets, num).log[|st.log|..] == [];
    } else {
      var init, last := configs[..|configs| - 1], configs[|configs| - 1];
      ImportAllLog(st, init, assets, num);
      var mid := ImportAll(st, init, assets, num);
      assert ImportAll(st, configs, assets, num) == ImportStep(mid, last, assets, num);
      ImportStepLog(mid, last, assets, num);
      var before := mid.log;
      var log := ImportAll(st, configs, assets, num).log;
      var entry := log[|before|];
      assert log == before + [entry];
      assert log[..|st.log|] == before[..|st.log|];
      assert log[|st.log|..] == before[|st.log|..] + [entry];
      EntriesSnoc(before[|st.log|..], init, entry, last, assets, num);
      assert init + [last] == configs;
    }
  }

  lemma EntriesSnoc(entries: seq<ImportOutcome>, configs: seq<RouteConfig>, entry: ImportOutcome, config: RouteConfig,
                    assets: Assets, num: NumberParser)
    requires EntriesFor(entries, configs, assets, num) && EntryFor(entry, config, assets, num)
    ensures EntriesFor(entries + [entry], configs + [config], assets, num)
  {
    var es, cs := entries + [entry], configs + [config];
    forall i | 0 <= i < |cs|
      ensures EntryFor(es[i], cs[i], assets, num)
    {
      if i < |configs| {
        assert es[i] == entries[i] && cs[i] == configs[i];
      }
    }
  }

  /** One step logs one entry, for its config. */
  lemma ImportStepLog(st: ImportState, config: RouteConfig, assets: Assets, num: NumberParser)
    requires ImportTables(st)
    ensures var log := ImportStep(st, config, assets, num).log;
      && |log| == |st.log| + 1
      && log[..|st.log|] == st.log
      && EntryFor(log[|st.log|], config, assets, num)
  {
    var log := ImportStep(st, config, assets, num).log;
    assert log == st.log + [log[|st.log|]];
  }

  /** The routes a run from a higher watermark imports are the first run's routes with ids from there up. */
  lemma ReimportBatch(configs: seq<RouteConfig>, assets: Assets, num: NumberParser, start: int, again: int)
    requires start <= again
    ensures ImportedRoutes(Eligible(configs, again), assets, num) ==
      Filter(ImportedRoutes(Eligible(configs, start), assets, num), AtLeast(RouteKey, again))
  {
    FilterAtLeastTwice(configs, ConfigId, start, again);
    ImportedRoutesAtLeast(Eligible(configs, start), assets, num, again);
  }

  /**
   * Importing again from any watermark at or above the one used leaves both
   * tables as the first import left them: in particular from the watermark the
   * first import saved, which re-imports that route on every open.
   */
  lemma ReimportChangesNothing(st: ImportState, configs: seq<RouteConfig>, assets: Assets, num: NumberParser,
                               start: int, again: int)
    requires ImportTables(st)
    requires start <= again
    ensures var first := ImportAll(st, Eligible(configs, start), assets, num);
      var second := ImportAll(ImportState(first.routes, first.stops, again, []), Eligible(configs, again), assets, num);
      second.routes == first.routes && second.stops == first.stops
  {
    var first := ImportAll(st, Eligible(configs, start), assets, num);
    var restart := ImportState(first.routes, first.stops, again, []);
    var batch := ImportedRoutes(Eligible(configs, start), assets, num);
    var rebatch := ImportedRoutes(Eligible(configs, again), assets, num);
    ImportAllTables(st, Eligible(configs, start), assets, num);
    ImportAllTables(restart, Eligible(configs, again), assets, num);
    ReimportBatch(configs, assets, num, start, again);
    UpsertBatchAgain(st.routes, st.stops, batch, again);
  }

  /** Upserting a batch, then the part of it at or past a watermark, is upserting it once. */
  lemma UpsertBatchAgain(routes: seq<RouteEntity>, stops: seq<RouteStopEntity>, batch: seq<RouteEntity>, again: int)
    requires Sorted(routes, RouteKey) && Sorted(stops, StopKey)
    ensures var rebatch := Filter(batch, AtLeast(RouteKey, again));
      UpsertAll(UpsertAll(routes, batch, RouteKey), rebatch, RouteKey) == UpsertAll(routes, batch, RouteKey)
      && StopsOutside(StopsOutside(stops, IdsOf(batch)), IdsOf(rebatch)) == StopsOutside(stops, IdsOf(batch))
  {
    var rebatch := Filter(batch, AtLeast(RouteKey, again));
    UpsertAllAgain(routes, batch, RouteKey, again);
    assert IdsOf(batch) + IdsOf(rebatch) == IdsOf(batch);
    StopsOutsideTwice(stops, IdsOf(batch), IdsOf(rebatch));
  }

  /**
   * A config whose file did not parse is never attempted again once a later
   * config with a larger id imports: the saved watermark is past it.
   */
  lemma FailedConfigPassedOver(st: ImportState, configs: seq<RouteConfig>, assets: Assets, num: NumberParser,
                               start: int, failed: RouteConfig, later: RouteConfig)
    requires ImportTables(st) && st.maxImportedId == start
    requires failed in Eligible(configs, start) && AssetRoute(assets, failed.fileName, num).None?
    requires later in Eligible(configs, start) && AssetRoute(assets, later.fileName, num).Some?
    requires later.routeId > failed.routeId
    ensures var saved := ImportAll(st, Eligible(configs, start), assets, num).maxImportedId;
      saved > start && failed !in Eligible(configs, saved)
  {
    var batch := ImportedRoutes(Eligible(configs, start), assets, num);
    ImportAllMax(st, Eligible(configs, start), assets, num);
    ImportedRouteIn(Eligible(configs, start), later, assets, num);
  }

  /** A config whose file parses contributes its route record. */
  lemma {:induction false} ImportedRouteIn(configs: seq<RouteConfig>, c: RouteConfig, assets: Assets, num: NumberParser)
    requires c in configs && AssetRoute(assets, c.fileName, num).Some?
    ensures ImportedRoute(c, AssetRoute(assets, c.fileName, num).value) in ImportedRoutes(configs, assets, num)
  {
    var init, last := configs[..|configs| - 1], configs[|configs| - 1];
    assert configs == init + [last];
    if c != last {
      ImportedRouteIn(init, c, assets, num);
    }
  }

  /** Importing one more config is one more step. */
  lemma ImportAllPrefix(st: ImportState, configs: seq<RouteConfig>, i: int, assets: Assets, num: NumberParser)
    requires ImportTables(st) && 0 <= i < |configs|
    ensures ImportAll(st, configs[..i + 1], assets, num) == ImportStep(ImportAll(st, configs[..i], assets, num), configs[i], assets, num)
  {
    assert configs[..i + 1][..i] == configs[..i];
  }

  /** The `kml_import_prefs` preferences: the stored `last_imported_route_id`, if any. */
  class Prefs {
    var lastImportedRouteId: Option<int>

    constructor (stored: Option<int>)
      ensures lastImportedRouteId == stored
    {
      lastImportedRouteId := stored;
    }

    /** `getInt(LAST_IMPORTED_ROUTE_ID_KEY, default)` */
    function GetInt(default: int): (v: int)
      reads this
      ensures lastImportedRouteId.Some? ==> v == lastImportedRouteId.value
      ensures lastImportedRouteId.None? ==> v == default
    {
      lastImportedRouteId.GetOr(default)
    }

    /** `edit().putInt(LAST_IMPORTED_ROUTE_ID_KEY, value).apply()` */
    method PutInt(value: int)
      modifies this
      ensures lastImportedRouteId == Some(value)
      ensures GetInt(DefaultLastImportedRouteId) == value
    {
      lastImportedRouteId := Some(value);
    }
  }

  /** The state an import from `startingRouteId` starts in. */
  function Start(db: seq<RouteEntity>, stops: seq<RouteStopEntity>, startingRouteId: int): ImportState {
    ImportState(db, stops, startingRouteId, [])
  }

  /** The body of the `forEach` over the eligible configs: one config parsed, simplified and upserted. */
  method ImportConfig(db: Catalog, config: RouteConfig, assets: Assets, num: NumberParser,
                      maxImportedId: int, log: seq<ImportOutcome>)
    returns (newMax: int, newLog: seq<ImportOutcome>)
    requires db.Valid()
    modifies db
    ensures db.Valid()
    ensures ImportState(db.routes, db.stops, newMax, newLog) ==
      ImportStep(ImportState(old(db.routes), old(db.stops), maxImportedId, log), config, assets, num)
    ensures db.stopSequence == old(db.stopSequence)
    ensures db.destinations == old(db.destinations) && db.destinationSequence == old(db.destinationSequence)
    ensures db.favorites == old(db.favorites)
    ensures db.searches == old(db.searches) && db.searchSequence == old(db.searchSequence)
  {
    newMax := maxImportedId;
    var kmlRoute := ParseKmlFromAssets(assets, config.fileName, num);
    if kmlRoute.Some? {
      var kml := kmlRoute.value;
      var simplified := SimplifyCoordinates(kml.coordinates, DefaultTolerance);
      var routeTitle := RouteTitle(config, kml);
      var routeSummary := RouteSummary(config, kml);
      var stopCount := StopCount(kml, simplified);
      var newRoute := NewRoute(config.routeId, routeTitle, config.fareMin, config.fareMax, routeSummary,
                               config.category, simplified);
      db.InsertRoute(newRoute);
      if config.routeId > newMax {
        newMax := config.routeId;
      }
      newLog := log + [Imported(config.fileName, config.routeId, routeTitle, stopCount)];
    } else {
      newLog := log + [Unparsed(config.fileName, config.routeId)];
    }
  }

  /**
   * `importKmlRoutes`: each eligible config in turn is parsed, simplified and
   * upserted; the watermark is saved only if it grew.
   */
  method ImportKmlRoutes(db: Catalog, prefs: Prefs, startingRouteId: int, assets: Assets, num: NumberParser)
    returns (log: seq<ImportOutcome>)
    requires db.Valid()
    modifies db, prefs
    ensures db.Valid()
    ensures var s := ImportAll(Start(old(db.routes), old(db.stops), startingRouteId),
                               Eligible(AllKmlConfigs(), startingRouteId), assets, num);
      && db.routes == s.routes && db.stops == s.stops && log == s.log
      && prefs.lastImportedRouteId == if s.maxImportedId > startingRouteId then Some(s.maxImportedId) else old(prefs.lastImportedRouteId)
    ensures db.stopSequence == old(db.stopSequence)
    ensures db.destinations == old(db.destinations) && db.destinationSequence == old(db.destinationSequence)
    ensures db.favorites == old(db.favorites)
    ensures db.searches == old(db.searches) && db.searchSequence == old(db.searchSequence)
  {
    var configs := Eligible(AllKmlConfigs(), startingRouteId);
    ghost var start := Start(db.routes, db.stops, startingRouteId);
    var maxImportedId := startingRouteId;
    log := [];
    for i := 0 to |configs|
      invariant db.Valid()
      invariant ImportState(db.routes, db.stops, maxImportedId, log) == ImportAll(start, configs[..i], assets, num)
      invariant db.stopSequence == old(db.stopSequence)
      invariant db.destinations == old(db.destinations) && db.destinationSequence == old(db.destinationSequence)
      invariant db.favorites == old(db.favorites)
      invariant db.searches == old(db.searches) && db.searchSequence == old(db.searchSequence)
      invariant prefs.lastImportedRouteId == old(prefs.lastImportedRouteId)
    {
      ImportAllPrefix(start, configs, i, assets, num);
      maxImportedId, log := ImportConfig(db, configs[i], assets, num, maxImportedId, log);
    }
    assert configs[..|configs|] == configs;
    if maxImportedId > startingRouteId {
      prefs.PutInt(maxImportedId);
    }
  }

  /** `checkForNewKmlRoutes`: import from the stored watermark, 4 when none is stored. */
  method CheckForNewKmlRoutes(db: Catalog, prefs: Prefs, assets: Assets, num: NumberParser)
    returns (log: seq<ImportOutcome>)
    requires db.Valid()
    modifies db, prefs
    ensures db.Valid()
    ensures var start := old(prefs.GetInt(DefaultLastImportedRouteId));
      var s := ImportAll(Start(old(db.routes), old(db.stops), start), Eligible(AllKmlConfigs(), start), assets, num);
      && db.routes == s.routes && db.stops == s.stops && log == s.log
      && prefs.lastImportedRouteId == if s.maxImportedId > start then Some(s.maxImportedId) else old(prefs.lastImportedRouteId)
    ensures db.stopSequence == old(db.stopSequence)
    ensures db.destinations == old(db.destinations) && db.destinationSequence == old(db.destinationSequence)
    ensures db.favorites == old(db.favorites)
    ensures db.searches == old(db.searches) && db.searchSequence == old(db.searchSequence)
  {
    var lastImportedId := prefs.GetInt(DefaultLastImportedRouteId);
    log := ImportKmlRoutes(db, prefs, lastImportedId, assets, num);
  }

  // ---------------------------------------------------------------------------
  // populateDatabase: the destination seed
  // ---------------------------------------------------------------------------

  /** The ten popular destinations seeded when the database is created. */
  function SeedDestinations(): (ds: seq<DestinationEntity>)
    ensures |ds| == 10
  {
    [
    NewDestination("Cagsawa Ruins", "Historic ruins", "Tourist", 13.14, 123.71, true),
    NewDestination("Pacific Mall Legazpi", "Shopping mall", "Shopping", 13.14, 123.73, true),
    NewDestination("Embarcadero de Legazpi", "Waterfront lifestyle hub", "Lifestyle", 13.14, 123.74, true),
    NewDestination("Bicol University", "Premier university", "Education", 13.14, 123.72, true),
    NewDestination("Mayon Volcano Natural Park", "Natural park", "Nature", 13.25, 123.68, true),
    NewDestination("Legazpi Boulevard", "Coastal road", "Tourist", 13.15, 123.75, true),
    NewDestination("Daraga Church", "Historic church", "Religious", 13.15, 123.71, true),
    NewDestination("Lig\U{00F1}on Hill", "Nature park", "Nature", 13.15, 123.72, true),
    NewDestination("Quitinday Hills", "Hills", "Nature", 13.18, 123.65, true),
    NewDestination("Albay Park and Wildlife", "Wildlife park", "Nature", 13.16, 123.73, true)
    ]
  }

  /** The destination part of `populateDatabase`: the seed list inserted in one batch. */
  method PopulateDestinations(db: Catalog)
    requires db.Valid()
    modifies db
    ensures db.Valid()
    ensures (db.destinations, db.destinationSequence) ==
      InsertDestinations(old(db.destinations), old(db.destinationSequence), SeedDestinations())
    ensures db.routes == old(db.routes) && db.stops == old(db.stops) && db.stopSequence == old(db.stopSequence)
    ensures db.favorites == old(db.favorites)
    ensures db.searches == old(db.searches) && db.searchSequence == old(db.searchSequence)
  {
    db.InsertAllDestinations(SeedDestinations());
  }

  /** Rows with generated ids after `sequence`, in batch order. */
  function Numbered(batch: seq<DestinationEntity>, sequence: int): (r: seq<DestinationEntity>)
    ensures |r| == |batch|
  {
    if batch == [] then []
    else Numbered(batch[..|batch| - 1], sequence) + [batch[|batch| - 1].(id := sequence + |batch|)]
  }

  /** The `i`th numbered row is the `i`th batch row with id `sequence + i + 1`. */
  lemma {:induction false} NumberedRows(batch: seq<DestinationEntity>, sequence: int)
    ensures forall i :: 0 <= i < |batch| ==> Numbered(batch, sequence)[i] == batch[i].(id := sequence + i + 1)
  {
    if batch != [] {
      var init := batch[..|batch| - 1];
      NumberedRows(init, sequence);
      assert forall i :: 0 <= i < |init| ==> init[i] == batch[i];
    }
  }

  /** Appending one generated row to a table whose keys stay below it. */
  lemma AppendWithin(before: seq<DestinationEntity>, row: DestinationEntity, sequence: int)
    requires WithinSequence(before, DestinationKey, sequence)
    ensures WithinSequence(before + [row], DestinationKey, if row.id > sequence then row.id else sequence)
  {
    assert forall x :: x in before + [row] ==> x in before || x == row;
  }

  /** `InsertDestinations` on a non-empty batch: the batch's last row after the rest. */
  lemma InsertDestinationsLast(rows: seq<DestinationEntity>, sequence: int, batch: seq<DestinationEntity>)
    requires Sorted(rows, DestinationKey) && batch != []
    ensures var prev := InsertDestinations(rows, sequence, batch[..|batch| - 1]);
      var id := AssignedId(batch[|batch| - 1].id, prev.1);
      InsertDestinations(rows, sequence, batch) ==
        (Upsert(prev.0, batch[|batch| - 1].(id := id), DestinationKey), NextSequence(prev.1, id))
  {
  }

  /** One more row without an id goes in at the end, numbered next. */
  lemma GeneratedStep(rows: seq<DestinationEntity>, sequence: int, batch: seq<DestinationEntity>)
    requires Sorted(rows, DestinationKey) && batch != [] && batch[|batch| - 1].id == 0
    requires var init := batch[..|batch| - 1];
      && InsertDestinations(rows, sequence, init) == (rows + Numbered(init, sequence), sequence + |init|)
      && WithinSequence(rows + Numbered(init, sequence), DestinationKey, sequence + |init|)
    ensures InsertDestinations(rows, sequence, batch) == (rows + Numbered(batch, sequence), sequence + |batch|)
    ensures WithinSequence(rows + Numbered(batch, sequence), DestinationKey, sequence + |batch|)
  {
    var init := batch[..|batch| - 1];
    var before := rows + Numbered(init, sequence);
    var row := batch[|batch| - 1].(id := sequence + |batch|);
    InsertDestinationsLast(rows, sequence, batch);
    AppendAssociates(rows, Numbered(init, sequence), row);
    UpsertAppends(before, row, DestinationKey);
    AppendWithin(before, row, sequence + |init|);
  }

  lemma AppendAssociates(a: seq<DestinationEntity>, b: seq<DestinationEntity>, x: DestinationEntity)
    ensures a + (b + [x]) == (a + b) + [x]
  {
  }

  /** A batch without ids goes in at the end, numbered on from the sequence. */
  lemma {:induction false} GeneratedBatch(rows: seq<DestinationEntity>, sequence: int, batch: seq<DestinationEntity>)
    requires GeneratedTable(rows, DestinationKey, sequence)
    requires forall i :: 0 <= i < |batch| ==> batch[i].id == 0
    ensures InsertDestinations(rows, sequence, batch) == (rows + Numbered(batch, sequence), sequence + |batch|)
    ensures WithinSequence(rows + Numbered(batch, sequence), DestinationKey, sequence + |batch|)
  {
    if batch == [] {
      assert rows + [] == rows;
    } else {
      var init := batch[..|batch| - 1];
      forall i | 0 <= i < |init|
        ensures init[i].id == 0
      {
        assert init[i] == batch[i];
      }
      GeneratedBatch(rows, sequence, init);
      GeneratedStep(rows, sequence, batch);
    }
  }

  /** Every seeded destination is popular and leaves its id to be generated. */
  lemma SeedRows()
    ensures forall i :: 0 <= i < |SeedDestinations()| ==> SeedDestinations()[i].id == 0 && SeedDestinations()[i].isPopular
  {
  }

  /** On a new database a batch without ids is stored in batch order with ids 1, 2, …. */
  lemma NumberedOnNewDatabase(batch: seq<DestinationEntity>)
    requires forall i :: 0 <= i < |batch| ==> batch[i].id == 0
    ensures InsertDestinations([], 0, batch) == (Numbered(batch, 0), |batch|)
    ensures forall i :: 0 <= i < |batch| ==> Numbered(batch, 0)[i] == batch[i].(id := i + 1)
  {
    GeneratedBatch([], 0, batch);
    NumberedRows(batch, 0);
    assert [] + Numbered(batch, 0) == Numbered(batch, 0);
  }

  /** On a new database the seed gives ten popular destinations with ids 1 to 10, in list order. */
  lemma SeedOnNewDatabase()
    ensures InsertDestinations([], 0, SeedDestinations()) == (Numbered(SeedDestinations(), 0), |SeedDestinations()|)
    ensures forall i :: 0 <= i < |SeedDestinations()| ==>
      Numbered(SeedDestinations(), 0)[i] == SeedDestinations()[i].(id := i + 1) && Numbered(SeedDestinations(), 0)[i].isPopular
  {
    SeedRows();
    NumberedOnNewDatabase(SeedDestinations());
  }
}
