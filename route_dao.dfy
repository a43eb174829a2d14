/**
 * The five Room DAOs over one in-memory database. Each table is a sequence of
 * rows in primary-key order; `INSERT OR REPLACE`, `DELETE` and the queries are
 * the `KeyedTable` operations, and `ORDER BY` is `Sorting.SortBy`.
 *
 * `route_stops.routeId` references `routes.id` with `ON DELETE CASCADE`: a
 * stop naming a missing route is refused, and removing a route, including the
 * implicit delete of `INSERT OR REPLACE`, removes its stops.
 */
module RouteDao {
  import opened Wrappers
  import opened KotlinText
  import opened Sorting
  import opened KeyedTable
  import opened RouteEntities

  /** The ids of a batch of routes. */
  function IdsOf(rs: seq<RouteEntity>): set<int> {
    set r | r in rs :: r.id
  }

  /** Every stop's route is stored (the foreign key). */
  predicate StopsReferenceRoutes(routes: seq<RouteEntity>, stops: seq<RouteStopEntity>) {
    forall s :: s in stops ==> Lookup(routes, s.routeId, RouteKey).Some?
  }

  /** Every key of an `AUTOINCREMENT` table is at most its sequence. */
  predicate WithinSequence<T(==)>(rows: seq<T>, key: T -> int, sequence: int) {
    forall x :: x in rows ==> key(x) <= sequence
  }

  /** An `AUTOINCREMENT` table: one row per key, every key within the sequence. */
  predicate GeneratedTable<T(!new,==)>(rows: seq<T>, key: T -> int, sequence: int) {
    Sorted(rows, key) && WithinSequence(rows, key, sequence)
  }

  /** The routes and their stops: one row per key in each, and the foreign key from stops to routes. */
  predicate RouteTables(routes: seq<RouteEntity>, stops: seq<RouteStopEntity>, stopSequence: int) {
    Sorted(routes, RouteKey) && GeneratedTable(stops, StopKey, stopSequence) && StopsReferenceRoutes(routes, stops)
  }

  /** The stops that survive the deletion of the routes `ids` (`ON DELETE CASCADE`). */
  function StopsOutside(stops: seq<RouteStopEntity>, ids: set<int>): (r: seq<RouteStopEntity>)
    requires Sorted(stops, StopKey)
    ensures Sorted(r, StopKey)
    ensures forall s :: s in r <==> s in stops && s.routeId !in ids
  {
    FilterSorted(stops, (s: RouteStopEntity) => s.routeId !in ids, StopKey);
    Filter(stops, (s: RouteStopEntity) => s.routeId !in ids)
  }

  /** Cascading the deletion of `ids` and then of `more` is cascading the deletion of both. */
  lemma StopsOutsideTwice(stops: seq<RouteStopEntity>, ids: set<int>, more: set<int>)
    requires Sorted(stops, StopKey)
    ensures StopsOutside(StopsOutside(stops, ids), more) == StopsOutside(stops, ids + more)
  {
    SortedEqual(StopsOutside(StopsOutside(stops, ids), more), StopsOutside(stops, ids + more), StopKey);
  }

  lemma IdsOfAppend(rs: seq<RouteEntity>, more: seq<RouteEntity>)
    ensures IdsOf(rs + more) == IdsOf(rs) + IdsOf(more)
  {
    assert forall r :: r in rs + more <==> r in rs || r in more;
  }

  /** Replacing routes keeps the foreign key of the stops the cascade leaves. */
  lemma UpsertAllKeepsReferences(routes: seq<RouteEntity>, stops: seq<RouteStopEntity>, rs: seq<RouteEntity>)
    requires Sorted(routes, RouteKey) && Sorted(stops, StopKey)
    requires StopsReferenceRoutes(routes, stops)
    ensures StopsReferenceRoutes(UpsertAll(routes, rs, RouteKey), StopsOutside(stops, IdsOf(rs)))
  {
    var u := UpsertAll(routes, rs, RouteKey);
    forall s | s in StopsOutside(stops, IdsOf(rs))
      ensures Lookup(u, s.routeId, RouteKey).Some?
    {
      var x := Lookup(routes, s.routeId, RouteKey).value;
      UpsertAllMembers(routes, rs, RouteKey, x);
      assert forall y :: y in rs ==> y.id in IdsOf(rs);
      LookupFinds(u, x, RouteKey);
    }
  }

  /** Inserting rows in turn, each with the key `AUTOINCREMENT` gives it. */
  function InsertStops(stops: seq<RouteStopEntity>, sequence: int, batch: seq<RouteStopEntity>): (r: (seq<RouteStopEntity>, int))
    requires Sorted(stops, StopKey)
    ensures Sorted(r.0, StopKey)
  {
    if batch == [] then (stops, sequence)
    else
      var before := InsertStops(stops, sequence, batch[..|batch| - 1]);
      var id := AssignedId(batch[|batch| - 1].id, before.1);
      (Upsert(before.0, batch[|batch| - 1].(id := id), StopKey), NextSequence(before.1, id))
  }

  function InsertDestinations(rows: seq<DestinationEntity>, sequence: int, batch: seq<DestinationEntity>): (r: (seq<DestinationEntity>, int))
    requires Sorted(rows, DestinationKey)
    ensures Sorted(r.0, DestinationKey)
  {
    if batch == [] then (rows, sequence)
    else
      var before := InsertDestinations(rows, sequence, batch[..|batch| - 1]);
      var id := AssignedId(batch[|batch| - 1].id, before.1);
      (Upsert(before.0, batch[|batch| - 1].(id := id), DestinationKey), NextSequence(before.1, id))
  }

  /** A row whose key is generated past the sequence is added, and no stored row is replaced. */
  lemma GeneratedKeyAdds<T(!new)>(rows: seq<T>, row: T, key: T -> int, sequence: int)
    requires GeneratedTable(rows, key, sequence)
    requires key(row) == AssignedId(0, sequence)
    ensures forall x :: x in Upsert(rows, row, key) <==> x in rows || x == row
    ensures |Upsert(rows, row, key)| == |rows| + 1
  {
    var u := Upsert(rows, row, key);
    if rows != [] {
      var i := |rows| - 1;
      assert key(rows[i]) <= sequence;
    }
    UpsertGrows(rows, row, key);
  }

  /** A batch of one stop. */
  lemma InsertOneStop(stops: seq<RouteStopEntity>, sequence: int, stop: RouteStopEntity)
    requires Sorted(stops, StopKey)
    ensures var id := AssignedId(stop.id, sequence);
      InsertStops(stops, sequence, [stop]) == (Upsert(stops, stop.(id := id), StopKey), NextSequence(sequence, id))
  {
    assert [stop][..0] == [];
  }

  /** A batch of one destination. */
  lemma InsertOneDestination(rows: seq<DestinationEntity>, sequence: int, destination: DestinationEntity)
    requires Sorted(rows, DestinationKey)
    ensures var id := AssignedId(destination.id, sequence);
      InsertDestinations(rows, sequence, [destination]) == (Upsert(rows, destination.(id := id), DestinationKey), NextSequence(sequence, id))
  {
    assert [destination][..0] == [];
  }

  /** The batch of stops read one more stop: the state after it is one single insert further. */
  lemma InsertStopsStep(stops: seq<RouteStopEntity>, sequence: int, batch: seq<RouteStopEntity>, i: nat)
    requires Sorted(stops, StopKey) && i < |batch|
    ensures var before := InsertStops(stops, sequence, batch[..i]);
      InsertStops(stops, sequence, batch[..i + 1]) == InsertStops(before.0, before.1, [batch[i]])
  {
    var before := InsertStops(stops, sequence, batch[..i]);
    assert batch[..i + 1][..i] == batch[..i];
    InsertOneStop(before.0, before.1, batch[i]);
  }

  /** The batch of destinations read one more row: the state after it is one single insert further. */
  lemma InsertDestinationsStep(rows: seq<DestinationEntity>, sequence: int, batch: seq<DestinationEntity>, i: nat)
    requires Sorted(rows, DestinationKey) && i < |batch|
    ensures var before := InsertDestinations(rows, sequence, batch[..i]);
      InsertDestinations(rows, sequence, batch[..i + 1]) == InsertDestinations(before.0, before.1, [batch[i]])
  {
    var before := InsertDestinations(rows, sequence, batch[..i]);
    assert batch[..i + 1][..i] == batch[..i];
    InsertOneDestination(before.0, before.1, batch[i]);
  }

  /** An upsert with a key no stored row has adds one row. */
  lemma {:induction false} UpsertGrows<T(!new)>(rows: seq<T>, row: T, key: T -> int)
    requires Sorted(rows, key)
    requires forall x :: x in rows ==> key(x) != key(row)
    ensures |Upsert(rows, row, key)| == |rows| + 1
  {
    if rows != [] && key(rows[0]) < key(row) {
      assert forall x :: x in rows[1..] ==> x in rows;
      UpsertGrows(rows[1..], row, key);
    } else if rows != [] {
      assert rows[0] in rows;
    }
  }

  /** One upsert is a batch of one. */
  lemma UpsertIsBatchOfOne<T(!new)>(rows: seq<T>, row: T, key: T -> int)
    requires Sorted(rows, key)
    ensures UpsertAll(rows, [row], key) == Upsert(rows, row, key)
  {
    assert [row][..0] == [];
  }

  /** Replacing one route keeps the foreign key of the stops the cascade leaves. */
  lemma UpsertKeepsReferences(routes: seq<RouteEntity>, stops: seq<RouteStopEntity>, route: RouteEntity)
    requires Sorted(routes, RouteKey) && Sorted(stops, StopKey)
    requires StopsReferenceRoutes(routes, stops)
    ensures StopsReferenceRoutes(Upsert(routes, route, RouteKey), StopsOutside(stops, {route.id}))
  {
    assert IdsOf([route]) == {route.id};
    UpsertIsBatchOfOne(routes, route, RouteKey);
    UpsertAllKeepsReferences(routes, stops, [route]);
  }

  /** Writing a row keeps every key within the advanced sequence. */
  lemma UpsertGenerated<T(!new)>(rows: seq<T>, row: T, key: T -> int, sequence: int)
    requires GeneratedTable(rows, key, sequence)
    ensures GeneratedTable(Upsert(rows, row, key), key, NextSequence(sequence, key(row)))
  {
  }

  /** A batch of routes replacing their namesakes, with the cascade, keeps the route tables consistent. */
  lemma UpsertAllRouteTables(routes: seq<RouteEntity>, stops: seq<RouteStopEntity>, stopSequence: int, rs: seq<RouteEntity>)
    requires RouteTables(routes, stops, stopSequence)
    ensures RouteTables(UpsertAll(routes, rs, RouteKey), StopsOutside(stops, IdsOf(rs)), stopSequence)
  {
    UpsertAllKeepsReferences(routes, stops, rs);
  }

  /** One route replacing its namesake, with the cascade, keeps the route tables consistent. */
  lemma UpsertRouteTables(routes: seq<RouteEntity>, stops: seq<RouteStopEntity>, stopSequence: int, route: RouteEntity)
    requires RouteTables(routes, stops, stopSequence)
    ensures RouteTables(Upsert(routes, route, RouteKey), StopsOutside(stops, {route.id}), stopSequence)
  {
    UpsertKeepsReferences(routes, stops, route);
  }

  /** Deleting a route, with the cascade, keeps the route tables consistent. */
  lemma DeleteRouteTables(routes: seq<RouteEntity>, stops: seq<RouteStopEntity>, stopSequence: int, id: int)
    requires RouteTables(routes, stops, stopSequence)
    ensures RouteTables(Delete(routes, id, RouteKey), StopsOutside(stops, {id}), stopSequence)
  {
    LookupDelete(routes, id, RouteKey);
  }

  /** A stop whose route is stored can be written. */
  lemma UpsertStopTables(routes: seq<RouteEntity>, stops: seq<RouteStopEntity>, stopSequence: int, stop: RouteStopEntity)
    requires RouteTables(routes, stops, stopSequence)
    requires Lookup(routes, stop.routeId, RouteKey).Some?
    ensures RouteTables(routes, Upsert(stops, stop, StopKey), NextSequence(stopSequence, stop.id))
  {
    UpsertGenerated(stops, stop, StopKey, stopSequence);
  }

  /** The ten (or `n`) first rows in the order: no row left out comes before any of them. */
  lemma TopRows<T(!new)>(s: seq<T>, n: nat, le: (T, T) -> bool)
    requires Total(le) && Transitive(le)
    ensures |Take(SortBy(s, le), n)| == if |s| < n then |s| else n
    ensures multiset(Take(SortBy(s, le), n)) <= multiset(s)
    ensures SortedBy(Take(SortBy(s, le), n), le)
    ensures forall x :: x in multiset(s) - multiset(Take(SortBy(s, le), n)) ==>
              forall i :: 0 <= i < |Take(SortBy(s, le), n)| ==> le(Take(SortBy(s, le), n)[i], x)
  {
    var all := SortBy(s, le);
    var t := Take(all, n);
    SortBySorted(s, le);
    TakeIsTop(all, n, le);
    assert multiset(t) <= multiset(all) by {
      assert all == t + all[|t|..];
    }
  }

  /** The first `n` rows of a sorted list are at least as early in the order as every row after them. */
  lemma TakeIsTop<T>(sorted: seq<T>, n: nat, le: (T, T) -> bool)
    requires SortedBy(sorted, le)
    ensures forall x :: x in multiset(sorted) - multiset(Take(sorted, n)) ==>
              forall i :: 0 <= i < |Take(sorted, n)| ==> le(sorted[i], x)
  {
    var t := Take(sorted, n);
    if |sorted| > n {
      assert sorted == t + sorted[n..];
      assert multiset(sorted) - multiset(t) == multiset(sorted[n..]);
      forall x | x in multiset(sorted) - multiset(t)
        ensures forall i :: 0 <= i < |t| ==> le(sorted[i], x)
      {
        assert x in sorted[n..];
        var j :| 0 <= j < |sorted[n..]| && sorted[n..][j] == x;
        assert sorted[n + j] == x;
      }
    }
  }

  /** The app database: the five tables and the `AUTOINCREMENT` sequences of the generated keys. */
  class Catalog {
    var routes: seq<RouteEntity>
    var stops: seq<RouteStopEntity>
    var stopSequence: int
    var destinations: seq<DestinationEntity>
    var destinationSequence: int
    var favorites: seq<FavoriteRouteEntity>
    var searches: seq<SearchHistoryEntity>
    var searchSequence: int

    /** One row per primary key, the foreign key of the stops, and keys within their sequences. */
    predicate Valid()
      reads this
    {
      && RouteTables(routes, stops, stopSequence)
      && GeneratedTable(destinations, DestinationKey, destinationSequence)
      && Sorted(favorites, FavoriteKey)
      && GeneratedTable(searches, SearchKey, searchSequence)
    }

    /** A new, empty database. */
    constructor ()
      ensures Valid()
      ensures routes == [] && stops == [] && destinations == [] && favorites == [] && searches == []
      ensures stopSequence == 0 && destinationSequence == 0 && searchSequence == 0
    {
      routes, stops, destinations, favorites, searches := [], [], [], [], [];
      stopSequence, destinationSequence, searchSequence := 0, 0, 0;
    }

    // -------------------------------------------------------------------------
    // RouteDao
    // -------------------------------------------------------------------------

    /** `getAllRoutes`: every route, by title. */
    function GetAllRoutes(): (r: seq<RouteEntity>)
      reads this
      ensures multiset(r) == multiset(routes)
      ensures SortedBy(r, TitleLe)
    {
      TitleOrder();
      SortBySorted(routes, TitleLe);
      SortBy(routes, TitleLe)
    }

    /** `getRoutesByCategory`. */
    function GetRoutesByCategory(category: string): (r: seq<RouteEntity>)
      reads this
      ensures forall x :: x in r <==> x in routes && x.category == category
    {
      Filter(routes, (x: RouteEntity) => x.category == category)
    }

    /** `getRouteById`: the route with that id, or null. */
    function GetRouteById(id: int): (r: Option<RouteEntity>)
      reads this
      ensures r.Some? ==> r.value in routes && r.value.id == id
      ensures r.None? <==> forall x :: x in routes ==> x.id != id
    {
      Lookup(routes, id, RouteKey)
    }

    /** `searchRoutes`: the routes whose title or summary is `LIKE '%' || query || '%'`. */
    function SearchRoutes(query: string): (r: seq<RouteEntity>)
      reads this
      ensures forall x :: x in r <==>
        x in routes && (Like(x.title, ContainsPattern(query)) || Like(x.summary, ContainsPattern(query)))
    {
      Filter(routes, (x: RouteEntity) => Like(x.title, ContainsPattern(query)) || Like(x.summary, ContainsPattern(query)))
    }

    /** `insertRoute`: the route replaces the one with its id, whose stops go with it. */
    method InsertRoute(route: RouteEntity)
      requires Valid()
      modifies this
      ensures Valid()
      ensures routes == Upsert(old(routes), route, RouteKey)
      ensures stops == StopsOutside(old(stops), {route.id})
      ensures stopSequence == old(stopSequence)
      ensures destinations == old(destinations) && destinationSequence == old(destinationSequence)
      ensures favorites == old(favorites)
      ensures searches == old(searches) && searchSequence == old(searchSequence)
    {
      var newRoutes := Upsert(routes, route, RouteKey);
      var newStops := StopsOutside(stops, {route.id});
      UpsertRouteTables(routes, stops, stopSequence, route);
      routes, stops := newRoutes, newStops;
      assert RouteTables(routes, stops, stopSequence);
    }

    /** `RouteDao.insertAll`: the routes replace, in turn, the ones with their ids. */
    method InsertAllRoutes(rs: seq<RouteEntity>)
      requires Valid()
      modifies this
      ensures Valid()
      ensures routes == UpsertAll(old(routes), rs, RouteKey)
      ensures stops == StopsOutside(old(stops), IdsOf(rs))
      ensures stopSequence == old(stopSequence)
      ensures destinations == old(destinations) && destinationSequence == old(destinationSequence)
      ensures favorites == old(favorites)
      ensures searches == old(searches) && searchSequence == old(searchSequence)
    {
      var newRoutes := UpsertAll(routes, rs, RouteKey);
      var newStops := StopsOutside(stops, IdsOf(rs));
      UpsertAllRouteTables(routes, stops, stopSequence, rs);
      routes, stops := newRoutes, newStops;
      assert RouteTables(routes, stops, stopSequence);
    }

    /** `deleteRoute`: the row with the route's id goes, and its stops with it. */
    method DeleteRoute(route: RouteEntity)
      requires Valid()
      modifies this
      ensures Valid()
      ensures routes == Delete(old(routes), route.id, RouteKey)
      ensures stops == StopsOutside(old(stops), {route.id})
      ensures GetRouteById(route.id) == None
      ensures stopSequence == old(stopSequence)
      ensures destinations == old(destinations) && destinationSequence == old(destinationSequence)
      ensures favorites == old(favorites)
      ensures searches == old(searches) && searchSequence == old(searchSequence)
    {
      var newRoutes := Delete(routes, route.id, RouteKey);
      var newStops := StopsOutside(stops, {route.id});
      DeleteRouteTables(routes, stops, stopSequence, route.id);
      routes, stops := newRoutes, newStops;
      assert RouteTables(routes, stops, stopSequence);
    }

    /** `RouteDao.deleteAll`: no route is left, so no stop is either. */
    method DeleteAllRoutes()
      requires Valid()
      modifies this
      ensures Valid()
      ensures routes == [] && stops == []
      ensures stopSequence == old(stopSequence)
      ensures destinations == old(destinations) && destinationSequence == old(destinationSequence)
      ensures favorites == old(favorites)
      ensures searches == old(searches) && searchSequence == old(searchSequence)
    {
      routes, stops := [], [];
    }

    // -------------------------------------------------------------------------
    // RouteStopDao
    // -------------------------------------------------------------------------

    /** `getStopsForRoute`: that route's stops, by `stopOrder`. */
    function GetStopsForRoute(routeId: int): (r: seq<RouteStopEntity>)
      reads this
      ensures forall s :: s in r <==> s in stops && s.routeId == routeId
      ensures |r| == |Filter(stops, (s: RouteStopEntity) => s.routeId == routeId)|
      ensures SortedBy(r, StopOrderLe)
    {
      var own := Filter(stops, (s: RouteStopEntity) => s.routeId == routeId);
      StopOrderOrder();
      SortBySorted(own, StopOrderLe);
      SortByMembers(own, StopOrderLe);
      SortBy(own, StopOrderLe)
    }

    /** `insertStop`: added (or replacing the stop with its id) when its route is stored; otherwise the foreign key refuses it and nothing changes. */
    method InsertStop(stop: RouteStopEntity) returns (inserted: bool)
      requires Valid()
      modifies this
      ensures Valid()
      ensures inserted <==> old(GetRouteById(stop.routeId)).Some?
      ensures (stops, stopSequence) ==
        if inserted then InsertStops(old(stops), old(stopSequence), [stop]) else (old(stops), old(stopSequence))
      ensures inserted && stop.id == 0 ==>
        forall s :: s in stops <==> s in old(stops) || s == stop.(id := old(stopSequence) + 1)
      ensures routes == old(routes)
      ensures destinations == old(destinations) && destinationSequence == old(destinationSequence)
      ensures favorites == old(favorites)
      ensures searches == old(searches) && searchSequence == old(searchSequence)
    {
      if Lookup(routes, stop.routeId, RouteKey).None? {
        return false;
      }
      var id := AssignedId(stop.id, stopSequence);
      var newStops := Upsert(stops, stop.(id := id), StopKey);
      var newSequence := NextSequence(stopSequence, id);
      InsertOneStop(stops, stopSequence, stop);
      UpsertStopTables(routes, stops, stopSequence, stop.(id := id));
      if stop.id == 0 {
        GeneratedKeyAdds(stops, stop.(id := id), StopKey, stopSequence);
      }
      stops, stopSequence := newStops, newSequence;
      assert RouteTables(routes, stops, stopSequence);
      inserted := true;
    }

    /** `RouteStopDao.insertAll`, one transaction: every stop goes in, in turn, or none does. */
    method InsertAllStops(batch: seq<RouteStopEntity>) returns (inserted: bool)
      requires Valid()
      modifies this
      ensures Valid()
      ensures inserted <==> forall s :: s in batch ==> old(GetRouteById(s.routeId)).Some?
      ensures (stops, stopSequence) ==
        if inserted then InsertStops(old(stops), old(stopSequence), batch) else (old(stops), old(stopSequence))
      ensures routes == old(routes)
      ensures destinations == old(destinations) && destinationSequence == old(destinationSequence)
      ensures favorites == old(favorites)
      ensures searches == old(searches) && searchSequence == old(searchSequence)
    {
      inserted := forall s :: s in batch ==> Lookup(routes, s.routeId, RouteKey).Some?;
      if !inserted {
        return;
      }
      for i := 0 to |batch|
        invariant Valid()
        invariant routes == old(routes)
        invariant (stops, stopSequence) == InsertStops(old(stops), old(stopSequence), batch[..i])
        invariant destinations == old(destinations) && destinationSequence == old(destinationSequence)
        invariant favorites == old(favorites)
        invariant searches == old(searches) && searchSequence == old(searchSequence)
      {
        assert batch[i] in batch;
        InsertStopsStep(old(stops), old(stopSequence), batch, i);
        var ok := InsertStop(batch[i]);
      }
      assert batch[..|batch|] == batch;
    }

    // -------------------------------------------------------------------------
    // DestinationDao
    // -------------------------------------------------------------------------

    /** `getAllDestinations`: popular ones first, each group by name. */
    function GetAllDestinations(): (r: seq<DestinationEntity>)
      reads this
      ensures multiset(r) == multiset(destinations)
      ensures SortedBy(r, PopularThenNameLe)
      ensures forall i, j :: 0 <= i < j < |r| && r[j].isPopular ==> r[i].isPopular
    {
      PopularThenNameOrder();
      SortBySorted(destinations, PopularThenNameLe);
      SortBy(destinations, PopularThenNameLe)
    }

    /** `getPopularDestinations`. */
    function GetPopularDestinations(): (r: seq<DestinationEntity>)
      reads this
      ensures forall d :: d in r <==> d in destinations && d.isPopular
    {
      Filter(destinations, (d: DestinationEntity) => d.isPopular)
    }

    /** `searchDestinations`: the destinations whose name is `LIKE '%' || query || '%'`. */
    function SearchDestinations(query: string): (r: seq<DestinationEntity>)
      reads this
      ensures forall d :: d in r <==> d in destinations && Like(d.name, ContainsPattern(query))
    {
      Filter(destinations, (d: DestinationEntity) => Like(d.name, ContainsPattern(query)))
    }

    /** `insertDestination`: id 0 gets the next generated id; a row with the same id is replaced. */
    method InsertDestination(destination: DestinationEntity)
      requires Valid()
      modifies this
      ensures Valid()
      ensures (destinations, destinationSequence) ==
        InsertDestinations(old(destinations), old(destinationSequence), [destination])
      ensures destination.id == 0 ==>
        forall d :: d in destinations <==> d in old(destinations) || d == destination.(id := old(destinationSequence) + 1)
      ensures routes == old(routes) && stops == old(stops) && stopSequence == old(stopSequence)
      ensures favorites == old(favorites)
      ensures searches == old(searches) && searchSequence == old(searchSequence)
    {
      var id := AssignedId(destination.id, destinationSequence);
      var newRows := Upsert(destinations, destination.(id := id), DestinationKey);
      var newSequence := NextSequence(destinationSequence, id);
      InsertOneDestination(destinations, destinationSequence, destination);
      UpsertGenerated(destinations, destination.(id := id), DestinationKey, destinationSequence);
      if destination.id == 0 {
        GeneratedKeyAdds(destinations, destination.(id := id), DestinationKey, destinationSequence);
      }
      destinations, destinationSequence := newRows, newSequence;
      assert GeneratedTable(destinations, DestinationKey, destinationSequence);
    }

    /** `DestinationDao.insertAll`: the destinations inserted in turn. */
    method InsertAllDestinations(batch: seq<DestinationEntity>)
      requires Valid()
      modifies this
      ensures Valid()
      ensures (destinations, destinationSequence) == InsertDestinations(old(destinations), old(destinationSequence), batch)
      ensures routes == old(routes) && stops == old(stops) && stopSequence == old(stopSequence)
      ensures favorites == old(favorites)
      ensures searches == old(searches) && searchSequence == old(searchSequence)
    {
      for i := 0 to |batch|
        invariant Valid()
        invariant (destinations, destinationSequence) == InsertDestinations(old(destinations), old(destinationSequence), batch[..i])
        invariant routes == old(routes) && stops == old(stops) && stopSequence == old(stopSequence)
        invariant favorites == old(favorites)
        invariant searches == old(searches) && searchSequence == old(searchSequence)
      {
        InsertDestinationsStep(old(destinations), old(destinationSequence), batch, i);
        InsertDestination(batch[i]);
      }
      assert batch[..|batch|] == batch;
    }

    /** `DestinationDao.deleteAll`. */
    method DeleteAllDestinations()
      requires Valid()
      modifies this
      ensures Valid()
      ensures destinations == [] && destinationSequence == old(destinationSequence)
      ensures routes == old(routes) && stops == old(stops) && stopSequence == old(stopSequence)
      ensures favorites == old(favorites)
      ensures searches == old(searches) && searchSequence == old(searchSequence)
    {
      destinations := [];
    }

    // -------------------------------------------------------------------------
    // FavoriteRouteDao
    // -------------------------------------------------------------------------

    /** `getAllFavorites`: newest first. */
    function GetAllFavorites(): (r: seq<FavoriteRouteEntity>)
      reads this
      ensures multiset(r) == multiset(favorites)
      ensures forall i, j :: 0 <= i < j < |r| ==> r[i].timestamp >= r[j].timestamp
    {
      FavoriteNewerOrder();
      SortBySorted(favorites, FavoriteNewerLe);
      SortBy(favorites, FavoriteNewerLe)
    }

    /** `isFavorite`: whether a favorite row for the route exists. */
    function IsFavorite(routeId: int): (r: bool)
      reads this
      ensures r <==> exists f :: f in favorites && f.routeId == routeId
    {
      Lookup(favorites, routeId, FavoriteKey).Some?
    }

    /** `addFavorite`: the route's favorite row, replacing an earlier one. */
    method AddFavorite(favorite: FavoriteRouteEntity)
      requires Valid()
      modifies this
      ensures Valid()
      ensures favorites == Upsert(old(favorites), favorite, FavoriteKey)
      ensures IsFavorite(favorite.routeId)
      ensures forall id :: id != favorite.routeId ==> IsFavorite(id) == old(IsFavorite(id))
      ensures routes == old(routes) && stops == old(stops) && stopSequence == old(stopSequence)
      ensures destinations == old(destinations) && destinationSequence == old(destinationSequence)
      ensures searches == old(searches) && searchSequence == old(searchSequence)
    {
      LookupUpsert(favorites, favorite, FavoriteKey);
      favorites := Upsert(favorites, favorite, FavoriteKey);
    }

    /** `removeFavorite`: no favorite row for the route is left. */
    method RemoveFavorite(routeId: int)
      requires Valid()
      modifies this
      ensures Valid()
      ensures favorites == Delete(old(favorites), routeId, FavoriteKey)
      ensures !IsFavorite(routeId)
      ensures forall id :: id != routeId ==> IsFavorite(id) == old(IsFavorite(id))
      ensures routes == old(routes) && stops == old(stops) && stopSequence == old(stopSequence)
      ensures destinations == old(destinations) && destinationSequence == old(destinationSequence)
      ensures searches == old(searches) && searchSequence == old(searchSequence)
    {
      LookupDelete(favorites, routeId, FavoriteKey);
      favorites := Delete(favorites, routeId, FavoriteKey);
    }

    // -------------------------------------------------------------------------
    // SearchHistoryDao
    // -------------------------------------------------------------------------

    /** `getRecentSearches`: the ten newest searches, newest first. */
    function GetRecentSearches(): (r: seq<SearchHistoryEntity>)
      reads this
      ensures |r| == if |searches| < 10 then |searches| else 10
      ensures multiset(r) <= multiset(searches)
      ensures forall i, j :: 0 <= i < j < |r| ==> r[i].timestamp >= r[j].timestamp
      ensures forall x :: x in multiset(searches) - multiset(r) ==>
                forall i :: 0 <= i < |r| ==> r[i].timestamp >= x.timestamp
    {
      SearchNewerOrder();
      TopRows(searches, 10, SearchNewerLe);
      Take(SortBy(searches, SearchNewerLe), 10)
    }

    /** `addSearch`: id 0 gets the next generated id; a row with the same id is replaced. */
    method AddSearch(search: SearchHistoryEntity)
      requires Valid()
      modifies this
      ensures Valid()
      ensures searches == Upsert(old(searches), search.(id := AssignedId(search.id, old(searchSequence))), SearchKey)
      ensures searchSequence == NextSequence(old(searchSequence), AssignedId(search.id, old(searchSequence)))
      ensures search.id == 0 ==>
        forall x :: x in searches <==> x in old(searches) || x == search.(id := old(searchSequence) + 1)
      ensures routes == old(routes) && stops == old(stops) && stopSequence == old(stopSequence)
      ensures destinations == old(destinations) && destinationSequence == old(destinationSequence)
      ensures favorites == old(favorites)
    {
      var id := AssignedId(search.id, searchSequence);
      UpsertGenerated(searches, search.(id := id), SearchKey, searchSequence);
      if search.id == 0 {
        GeneratedKeyAdds(searches, search.(id := id), SearchKey, searchSequence);
      }
      searches := Upsert(searches, search.(id := id), SearchKey);
      searchSequence := NextSequence(searchSequence, id);
      assert GeneratedTable(searches, SearchKey, searchSequence);
    }

    /** `clearHistory`. */
    method ClearHistory()
      requires Valid()
      modifies this
      ensures Valid()
      ensures searches == [] && searchSequence == old(searchSequence)
      ensures routes == old(routes) && stops == old(stops) && stopSequence == old(stopSequence)
      ensures destinations == old(destinations) && destinationSequence == old(destinationSequence)
      ensures favorites == old(favorites)
    {
      searches := [];
    }
  }
}
