# AGI Navigation: a Dafny model of the route importer, route store and route screens

AGI Navigation is an Android app for jeepney and inter-city routes around
Legazpi City. This project models the app's core in Dafny and proves
properties about it:

- **KML reading** (`KmlParser`): `parseCoordinates` and the pull-parser loop
  of `parseKmlFromStream`. The loop is modelled over a sequence of XML events
  and collects the route's name, description, path and named point
  placemarks.
- **Path simplification** (`KmlSimplify`): the recursive Douglas–Peucker
  simplifier and `simplifyCoordinates`.
- **The Room database** (`RouteEntities`, `RouteDao`): five entities and five
  DAOs.
  - `Catalog` is a class holding the tables as sequences in primary-key order.
  - `INSERT OR REPLACE`, `DELETE`, the `ON DELETE CASCADE` foreign key from
    stops to routes, `AUTOINCREMENT` keys, and every query with its
    `ORDER BY`, `WHERE`, `LIKE` and `LIMIT` are modelled.
  - The search queries build the pattern `'%' || query || '%'` with no
    `ESCAPE` clause, so a `%` or `_` in the query acts as a wildcard. The
    model's `Like` matches patterns the same way.
- **The database callback** (`AppDatabase`): the destination seed written when
  the database is created, and the KML importer that runs each time it opens.
  The importer keeps its "last imported route id" watermark in the
  `kml_import_prefs` preferences (class `Prefs`).
- **The screens**:
  - the route-detail screen (`RouteDetail`): its stop list and its map
    preview;
  - the full-screen map (`MapScreen`);
  - the route list adapter (`RouteAdapter`).

  Google Maps is a `GoogleMap` class that records the calls made on it.
  `MapModel.Shown` says which overlays are visible after a run of calls.

Shared modules:

- `Wrappers`: the `Option` type.
- `Geo`: `LatLng`, and the normalisation Google Maps' `LatLng` constructor
  applies: latitude clamped to [-90, 90], longitude wrapped into [-180, 180).
  The fixed map positions in the screens are already in range and are written
  directly.
- `KotlinText`: the Kotlin string operations the code relies on: `trim`
  (with Kotlin's own whitespace set, which is wider than the `\s` of the
  split), the whitespace split, `split(",")`, `contains(ignoreCase = true)`,
  `"$n"`, SQLite's binary collation and SQLite's `LIKE`.
- `KeyedTable`: rows kept in key order.
- `Sorting`: `ORDER BY` as an insertion sort that is proved to be a
  permutation and sorted.

Floating-point `Double`/`Float` values are modelled as `real`. Text-to-number
conversion (`toDouble`) is a parameter `num`. The JSON codec (Gson) is a pair
of parameters.

Where the code and its own comments or documentation disagree, the model
follows the code:

- `RouteEntity` declares no `stops` column, although `importKmlRoutes` passes
  `stops = stopCount` (AppDatabase.kt:253). The model keeps the computed stop
  count in the importer's log rather than in the row.
- `simplifyCoordinates` is documented as "reducing the number of points".
  The model proves that it never adds points and that simplifying twice
  changes nothing. It also records, under Findings, that any negative
  tolerance makes the recursion run forever on a range whose inner points
  all lie on the chord.

## Model

| member | source | states |
|---|---|---|
| KotlinText.Trim | app/src/main/java/com/example/aginavigation/utils/kmlParser.kt:165 | Kotlin's `trim()`: the characters of Kotlin's whitespace set (`Char.isWhitespace`) are stripped from both ends and nothing else; it is the reference `TokensOfTrim` and `TrimStripsUnicodeSpace` are stated against |
| KotlinText.Tokens | app/src/main/java/com/example/aginavigation/utils/kmlParser.kt:165-167 | `split(Regex("\\s+")).filter { it.isNotBlank() }`: every token is non-empty and holds no `\s` character; `TokensOfJoined` proves it gives back the tokens of a whitespace-joined list |
| KotlinText.TokensOfJoined | app/src/main/java/com/example/aginavigation/utils/kmlParser.kt:165-167 | splitting a space-joined list of non-blank, whitespace-free tokens on `\s+` (dropping blanks) gives the tokens back |
| KotlinText.TokensOfTrim | app/src/main/java/com/example/aginavigation/utils/kmlParser.kt:165-167 | calling `trim()` before the whitespace split changes no token, as long as every character `trim()` strips is also a `\s` separator |
| KotlinText.TrimStripsUnicodeSpace | app/src/main/java/com/example/aginavigation/utils/kmlParser.kt:165-167 | a Unicode space such as U+00A0 in front of a tuple is removed by `trim()`, while the `\s+` split alone would keep it inside the first token |
| KotlinText.Split | app/src/main/java/com/example/aginavigation/utils/kmlParser.kt:170 | `split(",")`: at least one part, and no part contains the delimiter; `JoinSplit` proves that joining the parts gives the text back |
| KotlinText.JoinSplit | app/src/main/java/com/example/aginavigation/utils/kmlParser.kt:170 | `split(",")` keeps every part, empty ones included: joining the parts with the delimiter gives the tuple text back |
| KotlinText.SplitHasSeveralParts | app/src/main/java/com/example/aginavigation/utils/kmlParser.kt:170-171 | a tuple has two or more comma-separated parts exactly when it contains a comma |
| KotlinText.ContainsIgnoreCase | app/src/main/java/com/example/aginavigation/ui/routes/RouteAdapter.kt:35-37 | `contains(pat, ignoreCase = true)`, defined by scanning the offsets in turn; `ContainsIgnoreCaseIff` characterises it as a match at some offset |
| KotlinText.ContainsIgnoreCaseIff | app/src/main/java/com/example/aginavigation/ui/routes/RouteAdapter.kt:35-37 | `contains(pat, ignoreCase = true)` holds exactly when the pattern matches, up to ASCII case, at some offset |
| KotlinText.Like | app/src/main/java/com/example/aginavigation/data/database/RouteDao.kt:22 | SQLite's `LIKE` with no `ESCAPE` clause: `%` matches any run of characters, `_` any one character, and every other character itself up to ASCII case; `LikeContains`, `LikePrefix` and `LikeWildcardQueries` state what the queries' patterns match |
| KotlinText.LikePrefix | app/src/main/java/com/example/aginavigation/data/database/RouteDao.kt:22 | the pattern `q%` matches every text that starts with `q` up to ASCII case, and no other when `q` holds no wildcard |
| KotlinText.LikeContains | app/src/main/java/com/example/aginavigation/data/database/RouteDao.kt:22 | the pattern `%q%` matches every text that contains `q` up to ASCII case; when `q` holds no `%` or `_` it matches exactly those |
| KotlinText.LikeWildcardQueries | app/src/main/java/com/example/aginavigation/data/database/RouteDao.kt:58 | the query `_` matches every non-empty text and the query `%` every text |
| KotlinText.DecimalString | app/src/main/java/com/example/aginavigation/ui/routes/RouteDetailFragment.kt:288 | the decimal text of a natural number, as Kotlin's string template writes it: non-empty and made of digits only; `DecimalStringValue` proves it reads back as the number |
| KotlinText.DecimalStringValue | app/src/main/java/com/example/aginavigation/ui/routes/RouteDetailFragment.kt:288 | the decimal text of a number reads back as that number |
| KotlinText.IntString | app/src/main/java/com/example/aginavigation/ui/routes/RouteDetailFragment.kt:202 | `"$n"` of an Int is the decimal text of `n` when it is not negative, and otherwise '-' followed by the decimal text of `-n` |
| KotlinText.StrLe | app/src/main/java/com/example/aginavigation/data/database/RouteDao.kt:13 | SQLite's BINARY collation: lexicographic by character code, with a prefix first; `StrLeTotal` and `StrLeTransitive` make it a total preorder |
| KotlinText.StrLeTotal | app/src/main/java/com/example/aginavigation/data/database/RouteDao.kt:13 | the binary collation used by `ORDER BY title` relates any two strings |
| KotlinText.StrLeTransitive | app/src/main/java/com/example/aginavigation/data/database/RouteDao.kt:13 | the binary collation is transitive |
| Geo.ClampLatitude | app/src/main/java/com/example/aginavigation/utils/kmlParser.kt:176 | the latitude Maps keeps lies in [-90, 90]: an in-range value is kept, anything above becomes 90 and anything below -90 |
| Geo.WrapLongitude | app/src/main/java/com/example/aginavigation/utils/kmlParser.kt:176 | the longitude Maps keeps lies in [-180, 180), equals an in-range value, and differs from the given one by a whole number of turns |
| Geo.NewLatLng | app/src/main/java/com/example/aginavigation/utils/kmlParser.kt:176 | `LatLng(lat, lng)` holds the clamped latitude and the wrapped longitude, and is the plain pair when both are in range |
| Geo.WrapUnique | app/src/main/java/com/example/aginavigation/utils/kmlParser.kt:176 | the wrapped longitude is the only value in [-180, 180) a whole number of turns from the given one |
| KmlParser.ParseTuple | app/src/main/java/com/example/aginavigation/utils/kmlParser.kt:170-180 | one tuple `lng,lat[,...]` becomes Maps' `LatLng(lat, lng)` when it has two or more comma parts and both of the first two parse, and nothing otherwise; `TupleAxesSwapped`, `MalformedTupleDropped` and `TupleWithoutCommaSkipped` state each case |
| KmlParser.CoordinatesOf | app/src/main/java/com/example/aginavigation/utils/kmlParser.kt:161-185 | the list `parseCoordinates` returns: the tuples of the trimmed, whitespace-split text that parse, in token order; `ParseCoordinates` is proved to compute it and `AllTuplesParse` to keep one point per tuple |
| KmlParser.ParseCoordinates | app/src/main/java/com/example/aginavigation/utils/kmlParser.kt:161-185 | the loop over the whitespace-separated tuples returns exactly `CoordinatesOf(text)`: the tuples that parse, in order |
| KmlParser.ReadTuple | app/src/main/java/com/example/aginavigation/utils/kmlParser.kt:170-180 | one tuple gives at most one point: Maps' `LatLng(lat, lng)` when it has two or more parts and both of the first two parse, else nothing |
| KmlParser.AllTuplesParse | app/src/main/java/com/example/aginavigation/utils/kmlParser.kt:169-182 | when every tuple parses, there is one point per tuple, in tuple order |
| KmlParser.MalformedTupleDropped | app/src/main/java/com/example/aginavigation/utils/kmlParser.kt:177-180 | a tuple whose numbers do not parse is skipped and leaves the points of its neighbours as they are |
| KmlParser.TupleAxesSwapped | app/src/main/java/com/example/aginavigation/utils/kmlParser.kt:173-176 | the tuple `lng,lat[,alt…]` becomes `LatLng(lat, lng)` with the latitude clamped and the longitude wrapped, and exactly `LatLng(lat, lng)` when both are in range; fields after the second are ignored |
| KmlParser.TupleWithoutCommaSkipped | app/src/main/java/com/example/aginavigation/utils/kmlParser.kt:170-171 | a tuple without a comma has fewer than two parts and is skipped |
| KmlParser.BlankTokenSkipped | app/src/main/java/com/example/aginavigation/utils/kmlParser.kt:165-171 | a token made only of whitespace, which `filter { it.isNotBlank() }` drops, would be skipped by the tuple reader anyway, so the filter changes no coordinate |
| KmlParser.SplitJoin | app/src/main/java/com/example/aginavigation/utils/kmlParser.kt:170 | splitting comma-joined, comma-free parts gives the parts back |
| KmlParser.TagOf | app/src/main/java/com/example/aginavigation/utils/kmlParser.kt:77-131 | only the six element names the parser reacts to are told apart; every other name is kept as it is |
| KmlParser.Consumed | app/src/main/java/com/example/aginavigation/utils/kmlParser.kt:85-140 | one pass of the loop consumes at least one and at most all of the remaining events; it consumes two when a handler calls `parser.next()` |
| KmlParser.NameText | app/src/main/java/com/example/aginavigation/utils/kmlParser.kt:85-95 | a `name` text goes to the current placemark if inside a `Placemark` whose name is still empty, otherwise to the route if its name is still empty, otherwise nowhere; `NameRule` states the rule |
| KmlParser.DescriptionText | app/src/main/java/com/example/aginavigation/utils/kmlParser.kt:96-106 | the same first-occurrence rule for a `description` text; `DescriptionRule` states it |
| KmlParser.CoordinatesText | app/src/main/java/com/example/aginavigation/utils/kmlParser.kt:107-129 | a `coordinates` text is appended to the route path inside a `LineString`; otherwise, inside a `Point`, its first point becomes a placemark when the placemark has a name; `LineStringWins` and `PointRule` state the cases |
| KmlParser.StartTagStep | app/src/main/java/com/example/aginavigation/utils/kmlParser.kt:76-131 | the START_TAG branch: a `Placemark` start sets the flag and empties the placemark's fields, `LineString` and `Point` set their flags, and `name`, `description` and `coordinates` read the next event only when it is text; `PlacemarkStartResets` states the reset |
| KmlParser.EndTagStep | app/src/main/java/com/example/aginavigation/utils/kmlParser.kt:132-138 | the END_TAG branch: closing `Placemark`, `LineString` or `Point` clears that flag only |
| KmlParser.Dispatch | app/src/main/java/com/example/aginavigation/utils/kmlParser.kt:75-139 | one pass of the `when` on the event type: a start tag, an end tag, and anything else left alone; `DispatchKeepsCollected` proves that every event other than a `coordinates` start followed by text leaves the collected path and placemarks unchanged |
| KmlParser.Run | app/src/main/java/com/example/aginavigation/utils/kmlParser.kt:73-141 | the `while` loop over the events, each iteration consuming one event, or two after a start tag whose branch calls `parser.next()`; `RunAppendsOnly`, `RunKeepsRouteText`, `RunKeepsPlacemarksNamed` and `SwallowedEventIgnored` are proved about it |
| KmlParser.Finish | app/src/main/java/com/example/aginavigation/utils/kmlParser.kt:145-154 | the returned value: null when no path coordinates were collected, else the route with "Unnamed Route" and "No description" for an empty name or description; `ParseKml` states it |
| KmlParser.ParseKml | app/src/main/java/com/example/aginavigation/utils/kmlParser.kt:145-154 | the result is null exactly when no LineString coordinates were collected; otherwise the path is non-empty, the name and description are never empty ("Unnamed Route" and "No description" by default), and every placemark is named |
| KmlParser.ParseKmlFromStream | app/src/main/java/com/example/aginavigation/utils/kmlParser.kt:56-155 | the event loop returns exactly `ParseKml(events)` |
| KmlParser.OnStartTag | app/src/main/java/com/example/aginavigation/utils/kmlParser.kt:76-131 | the START_TAG branch is the step function `StartTagStep` |
| KmlParser.OnCoordinatesText | app/src/main/java/com/example/aginavigation/utils/kmlParser.kt:107-129 | the coordinates text is trimmed and parsed; inside a LineString it extends the path, inside a Point its first point becomes a placemark if the placemark is named |
| KmlParser.OnEndTag | app/src/main/java/com/example/aginavigation/utils/kmlParser.kt:132-138 | the END_TAG branch closes the Placemark, LineString or Point it names |
| KmlParser.RunStep | app/src/main/java/com/example/aginavigation/utils/kmlParser.kt:74-141 | the loop is one dispatch of the first event followed by the loop over the events it did not consume |
| KmlParser.DispatchKeepsCollected | app/src/main/java/com/example/aginavigation/utils/kmlParser.kt:107-129 | only a coordinates start tag followed by its text changes the path or the placemarks |
| KmlParser.RunAppendsOnly | app/src/main/java/com/example/aginavigation/utils/kmlParser.kt:112-127 | the path and the placemark list are only ever appended to |
| KmlParser.RunKeepsRouteText | app/src/main/java/com/example/aginavigation/utils/kmlParser.kt:85-106 | first occurrence wins: once the route's name or description is set, no later event changes it |
| KmlParser.RunKeepsPlacemarksNamed | app/src/main/java/com/example/aginavigation/utils/kmlParser.kt:115-127 | every recorded placemark has a non-empty name |
| KmlParser.SwallowedEventIgnored | app/src/main/java/com/example/aginavigation/utils/kmlParser.kt:85-129 | the event that `parser.next()` reads after a name, description or coordinates tag is never dispatched itself, even when it is not text |
| KmlParser.NameRule | app/src/main/java/com/example/aginavigation/utils/kmlParser.kt:85-95 | a name text goes to the open placemark while its name is empty, else to the route while the route's name is empty, else nowhere |
| KmlParser.DescriptionRule | app/src/main/java/com/example/aginavigation/utils/kmlParser.kt:96-106 | a description text follows the same rule as a name text |
| KmlParser.LineStringWins | app/src/main/java/com/example/aginavigation/utils/kmlParser.kt:112-114 | inside a LineString the coordinates extend the path, even when a Point is open too |
| KmlParser.PointRule | app/src/main/java/com/example/aginavigation/utils/kmlParser.kt:115-127 | inside a Point only, the first parsed point becomes a placemark with the placemark's name and description, and only if that name is non-empty |
| KmlParser.PlacemarkStartResets | app/src/main/java/com/example/aginavigation/utils/kmlParser.kt:78-82 | a Placemark start tag opens a placemark with an empty name and description |
| KmlParser.LineStringsConcatenate | app/src/main/java/com/example/aginavigation/utils/kmlParser.kt:112-114 | the coordinates of successive LineString elements are joined in document order |
| KmlParser.PlacemarkNameIsNotRouteName | app/src/main/java/com/example/aginavigation/utils/kmlParser.kt:85-95 | when a document's only name is inside the Placemark holding the path, the route is "Unnamed Route" with "No description" |
| KmlParser.AssetRoute | app/src/main/java/com/example/aginavigation/utils/kmlParser.kt:30-38 | a file that does not open yields null; a parsed route has a non-empty path, name and description |
| KmlParser.ParseKmlFromAssets | app/src/main/java/com/example/aginavigation/utils/kmlParser.kt:30-38 | opening the asset and parsing it returns `AssetRoute`; the exception of a missing file becomes null |
| KmlSimplify.DistanceSquared | app/src/main/java/com/example/aginavigation/utils/kmlParser.kt:226-242 | the squared perpendicular distance is never negative (0 when the chord's ends coincide) |
| KmlSimplify.ChordEndsOnLine | app/src/main/java/com/example/aginavigation/utils/kmlParser.kt:226-242 | the ends of a chord are at distance 0 from it |
| KmlSimplify.DistanceSymmetric | app/src/main/java/com/example/aginavigation/utils/kmlParser.kt:226-242 | the distance does not depend on which end of the chord is the start |
| KmlSimplify.Bound | app/src/main/java/com/example/aginavigation/utils/kmlParser.kt:217 | the squared form of the tolerance a squared distance is compared with, below 0 for a negative tolerance; `ExceedsIffAboveBound` proves the comparison agrees with `maxDistance > tolerance` |
| KmlSimplify.ExceedsIffAboveBound | app/src/main/java/com/example/aginavigation/utils/kmlParser.kt:217 | `distance > tolerance` holds exactly when the squared distance exceeds the squared bound, for any tolerance |
| KmlSimplify.Scan | app/src/main/java/com/example/aginavigation/utils/kmlParser.kt:204-214 | the scan returns `(0, start)` when no point is at a positive distance, else the distance and index of a point strictly inside the range |
| KmlSimplify.ScanFindsFirstMaximum | app/src/main/java/com/example/aginavigation/utils/kmlParser.kt:204-214 | the scan's distance is the greatest distance, and its index is the first point at that distance |
| KmlSimplify.ScanUnique | app/src/main/java/com/example/aginavigation/utils/kmlParser.kt:204-214 | the scan's result is the only pair with those properties |
| KmlSimplify.Segment | app/src/main/java/com/example/aginavigation/utils/kmlParser.kt:200-224 | the simplified range is non-empty and starts and ends at the range's first and last points |
| KmlSimplify.SplitCase | app/src/main/java/com/example/aginavigation/utils/kmlParser.kt:217-220 | when it splits, the result is the left half without its last point followed by the right half, both split at the farthest point |
| KmlSimplify.ChordCase | app/src/main/java/com/example/aginavigation/utils/kmlParser.kt:221-222 | when it does not split, only the two end points are kept |
| KmlSimplify.Simplification | app/src/main/java/com/example/aginavigation/utils/kmlParser.kt:200-224 | the recursion on the whole list: a non-empty input gives an output that starts with its first point and ends with its last; `KeptPoints`, `SimplificationLength` and `SimplificationIdempotent` are proved about it |
| KmlSimplify.DouglasPeucker | app/src/main/java/com/example/aginavigation/utils/kmlParser.kt:200-224 | the recursive method with its distance scan loop returns exactly `Segment` |
| KmlSimplify.SimplifyCoordinates | app/src/main/java/com/example/aginavigation/utils/kmlParser.kt:191-198 | lists of at most two points come back unchanged; otherwise the result is the simplification at the tolerance |
| KmlSimplify.SplitsAsSource | app/src/main/java/com/example/aginavigation/utils/kmlParser.kt:217 | for a tolerance of at least 0, the model's split test is the source's `maxDistance > tolerance` |
| KmlSimplify.NegativeToleranceRepeatsCall | app/src/main/java/com/example/aginavigation/utils/kmlParser.kt:217-219 | with a negative tolerance and no point off the chord, the scan leaves `maxIndex` at 0 and the test passes anyway, so the right call gets the same list again |
| KmlSimplify.CollinearWithNegativeTolerance | app/src/main/java/com/example/aginavigation/utils/kmlParser.kt:217-219 | any three points on latitude 0, such as (0,0), (0,1), (0,2), with tolerance -1 pass the test at `maxIndex == 0`, so the call recurses on its own input |
| KmlSimplify.SegmentLength | app/src/main/java/com/example/aginavigation/utils/kmlParser.kt:200-224 | a simplified range is never longer than the range, and keeps at least two of at least two points |
| KmlSimplify.SimplificationLength | app/src/main/java/com/example/aginavigation/utils/kmlParser.kt:191-198 | simplification never adds points, and keeps at least two of at least two |
| KmlSimplify.ToleranceMonotone | app/src/main/java/com/example/aginavigation/utils/kmlParser.kt:191-224 | a larger tolerance never keeps more points |
| KmlSimplify.BoundLengthMonotone | app/src/main/java/com/example/aginavigation/utils/kmlParser.kt:200-224 | a larger squared bound never keeps more points |
| KmlSimplify.KeptPoints | app/src/main/java/com/example/aginavigation/utils/kmlParser.kt:200-224 | the result is the input at strictly increasing indices from the first to the last, and every dropped point lies within the tolerance of the chord between the kept points around it |
| KmlSimplify.SegmentStable | app/src/main/java/com/example/aginavigation/utils/kmlParser.kt:200-224 | simplifying a stretch of a list that holds a simplified range gives that range back |
| KmlSimplify.SimplificationIdempotent | app/src/main/java/com/example/aginavigation/utils/kmlParser.kt:191-224 | simplifying a simplified path changes nothing |
| RouteEntities.NewRoute | app/src/main/java/com/example/aginavigation/data/database/RouteEntity.kt:12-22 | the constructor keeps every given field and defaults `isActive` to true |
| RouteEntities.NewDestination | app/src/main/java/com/example/aginavigation/data/database/RouteEntity.kt:49-59 | the constructor keeps every given field and defaults `id` to 0 (to be generated), `imageUrl` to null and `isPopular` to false |
| RouteEntities.AssignedId | app/src/main/java/com/example/aginavigation/data/database/RouteEntity.kt:37 | an `autoGenerate` key of 0 is replaced by one past the table's sequence; any other key is kept |
| RouteEntities.NextSequence | app/src/main/java/com/example/aginavigation/data/database/RouteEntity.kt:37 | the `AUTOINCREMENT` sequence never decreases and covers every written key |
| RouteEntities.TitleOrder | app/src/main/java/com/example/aginavigation/data/database/RouteDao.kt:13 | `ORDER BY title ASC` is total and transitive |
| RouteEntities.PopularThenNameOrder | app/src/main/java/com/example/aginavigation/data/database/RouteDao.kt:52 | `ORDER BY isPopular DESC, name ASC` is total and transitive |
| RouteEntities.StopOrderOrder | app/src/main/java/com/example/aginavigation/data/database/RouteDao.kt:40 | `ORDER BY stopOrder ASC` is total and transitive |
| RouteEntities.FavoriteNewerOrder | app/src/main/java/com/example/aginavigation/data/database/RouteDao.kt:73 | `ORDER BY timestamp DESC` on favorites is total and transitive |
| RouteEntities.SearchNewerOrder | app/src/main/java/com/example/aginavigation/data/database/RouteDao.kt:88 | `ORDER BY timestamp DESC` on searches is total and transitive |
| RouteEntities.FromLatLngList | app/src/main/java/com/example/aginavigation/data/database/RouteEntity.kt:77-80 | null stays null, and a list becomes its JSON text |
| RouteEntities.ToLatLngList | app/src/main/java/com/example/aginavigation/data/database/RouteEntity.kt:82-88 | null stays null, and JSON text becomes its list |
| RouteEntities.ConvertersRoundTrip | app/src/main/java/com/example/aginavigation/data/database/RouteEntity.kt:74-89 | storing a coordinate list and reading it back gives the list (or null) back, for a codec that round-trips |
| Sorting.SortBy | app/src/main/java/com/example/aginavigation/data/database/RouteDao.kt:13 | `ORDER BY` returns a permutation of the rows |
| Sorting.SortBySorted | app/src/main/java/com/example/aginavigation/data/database/RouteDao.kt:13 | for a total, transitive order the result is sorted |
| Sorting.SortByMembers | app/src/main/java/com/example/aginavigation/data/database/RouteDao.kt:13 | sorting keeps exactly the rows it was given |
| Sorting.Take | app/src/main/java/com/example/aginavigation/data/database/RouteDao.kt:88 | `LIMIT n` keeps the first `n` rows, or all when there are fewer |
| KeyedTable.Upsert | app/src/main/java/com/example/aginavigation/data/database/RouteDao.kt:25-26 | `INSERT OR REPLACE`: the row takes the place of the row with its key, and the table stays one row per key |
| KeyedTable.Lookup | app/src/main/java/com/example/aginavigation/data/database/RouteDao.kt:19-20 | the lookup finds a stored row with the key, or null exactly when there is none |
| KeyedTable.LookupFinds | app/src/main/java/com/example/aginavigation/data/database/RouteDao.kt:19-20 | in a keyed table, looking up a stored row's key finds that row |
| KeyedTable.LookupUpsert | app/src/main/java/com/example/aginavigation/data/database/RouteDao.kt:19-26 | after an upsert the row's key finds the row, and every other key finds what it found before |
| KeyedTable.Filter | app/src/main/java/com/example/aginavigation/data/database/RouteDao.kt:16-17 | `WHERE p` keeps exactly the rows satisfying `p` |
| KeyedTable.FilterSorted | app/src/main/java/com/example/aginavigation/data/database/RouteDao.kt:16-17 | filtering keeps the stored key order |
| KeyedTable.Delete | app/src/main/java/com/example/aginavigation/data/database/RouteDao.kt:31-32 | deleting a key removes exactly the row with that key |
| KeyedTable.LookupDelete | app/src/main/java/com/example/aginavigation/data/database/RouteDao.kt:31-32 | after the delete the key finds nothing, and every other key finds what it found before |
| KeyedTable.Latest | app/src/main/java/com/example/aginavigation/data/database/RouteDao.kt:28-29 | the last row of a batch with a key, or none when no row of the batch has it |
| KeyedTable.UpsertAllMembers | app/src/main/java/com/example/aginavigation/data/database/RouteDao.kt:28-29 | after a batch insert a row is present exactly when it is the batch's last row with its key, or its key is not in the batch and it was present |
| KeyedTable.SortedEqual | app/src/main/java/com/example/aginavigation/data/database/RouteDao.kt:28-29 | two keyed tables holding the same rows are the same table |
| KeyedTable.UpsertAllIdempotent | app/src/main/java/com/example/aginavigation/data/database/RouteDao.kt:28-29 | running the same batch insert twice leaves what running it once left |
| KeyedTable.UpsertAllPresent | app/src/main/java/com/example/aginavigation/data/database/RouteDao.kt:28-29 | a batch insert of rows that are all already stored changes nothing |
| RouteEntities.RouteKey | app/src/main/java/com/example/aginavigation/data/database/RouteEntity.kt:14 | a route's primary key is its `id`; the route table keeps at most one row per key (`KeyedTable.Upsert`) |
| RouteEntities.StopKey | app/src/main/java/com/example/aginavigation/data/database/RouteEntity.kt:37 | a stop's primary key is its generated `id` |
| RouteEntities.DestinationKey | app/src/main/java/com/example/aginavigation/data/database/RouteEntity.kt:51 | a destination's primary key is its generated `id` |
| RouteEntities.FavoriteKey | app/src/main/java/com/example/aginavigation/data/database/RouteEntity.kt:63 | a favorite's primary key is its `routeId`, so there is at most one favorite per route |
| RouteEntities.SearchKey | app/src/main/java/com/example/aginavigation/data/database/RouteEntity.kt:69 | a search row's primary key is its generated `id` |
| RouteEntities.TitleLe | app/src/main/java/com/example/aginavigation/data/database/RouteDao.kt:13 | `ORDER BY title ASC` under the binary collation; `TitleOrder` proves it total and transitive |
| RouteEntities.PopularThenNameLe | app/src/main/java/com/example/aginavigation/data/database/RouteDao.kt:52 | `ORDER BY isPopular DESC, name ASC`: popular rows first, then by name; `PopularThenNameOrder` proves it total and transitive |
| RouteEntities.StopOrderLe | app/src/main/java/com/example/aginavigation/data/database/RouteDao.kt:40 | `ORDER BY stopOrder ASC`; `StopOrderOrder` proves it total and transitive |
| RouteEntities.FavoriteNewerLe | app/src/main/java/com/example/aginavigation/data/database/RouteDao.kt:73 | `ORDER BY timestamp DESC` on favorites; `FavoriteNewerOrder` proves it total and transitive |
| RouteEntities.SearchNewerLe | app/src/main/java/com/example/aginavigation/data/database/RouteDao.kt:88 | `ORDER BY timestamp DESC` on the search history; `SearchNewerOrder` proves it total and transitive |
| KeyedTable.UpsertAll | app/src/main/java/com/example/aginavigation/data/database/RouteDao.kt:28-29 | `insertAll` with `REPLACE`: the rows upserted in list order, the table staying one row per key; `UpsertAllMembers` says which rows are present afterwards |
| RouteDao.RouteTables | app/src/main/java/com/example/aginavigation/data/database/RouteEntity.kt:24-35 | the route and stop tables are keyed, and every stop's `routeId` names a stored route (the foreign key) |
| RouteDao.InsertStops | app/src/main/java/com/example/aginavigation/data/database/RouteDao.kt:46-47 | stops inserted in turn, each with the key `AUTOINCREMENT` gives it, the table staying sorted by key; `InsertStopsStep` unfolds one insert |
| RouteDao.InsertDestinations | app/src/main/java/com/example/aginavigation/data/database/RouteDao.kt:64-65 | destinations inserted in turn with generated keys, the table staying sorted by key; `InsertDestinationsStep` unfolds one insert |
| RouteDao.StopsOutside | app/src/main/java/com/example/aginavigation/data/database/RouteEntity.kt:27-32 | `ON DELETE CASCADE`: exactly the stops whose route is not deleted survive |
| RouteDao.StopsOutsideTwice | app/src/main/java/com/example/aginavigation/data/database/RouteEntity.kt:27-32 | cascading two deletions one after the other equals cascading both at once |
| RouteDao.UpsertAllKeepsReferences | app/src/main/java/com/example/aginavigation/data/database/RouteEntity.kt:27-32 | replacing routes keeps the foreign key of the stops the cascade leaves |
| RouteDao.GeneratedKeyAdds | app/src/main/java/com/example/aginavigation/data/database/RouteEntity.kt:51 | a row with a generated key is added and replaces no stored row |
| RouteDao.UpsertGenerated | app/src/main/java/com/example/aginavigation/data/database/RouteEntity.kt:37 | writing a row keeps every key at or below the advanced sequence |
| RouteDao.UpsertAllRouteTables | app/src/main/java/com/example/aginavigation/data/database/RouteDao.kt:28-29 | a batch of replaced routes, with the cascade, keeps the route tables consistent |
| RouteDao.UpsertRouteTables | app/src/main/java/com/example/aginavigation/data/database/RouteDao.kt:25-26 | one replaced route, with the cascade, keeps the route tables consistent |
| RouteDao.DeleteRouteTables | app/src/main/java/com/example/aginavigation/data/database/RouteDao.kt:31-32 | deleting a route, with the cascade, keeps the route tables consistent |
| RouteDao.UpsertStopTables | app/src/main/java/com/example/aginavigation/data/database/RouteDao.kt:43-44 | a stop whose route is stored can be written without breaking the foreign key |
| RouteDao.TopRows | app/src/main/java/com/example/aginavigation/data/database/RouteDao.kt:88 | `ORDER BY … LIMIT n` gives `min(n, size)` rows, in order, taken from the table, with no row left out ordered before them |
| RouteDao.Catalog.Valid | app/src/main/java/com/example/aginavigation/data/database/RouteEntity.kt:12-70 | the schema's constraints: one row per primary key in every table, every stop referencing a stored route, and every generated key within its table's sequence; every `Catalog` method keeps it |
| RouteDao.Catalog.constructor | app/src/main/java/com/example/aginavigation/data/database/AppDatabase.kt:21-39 | a new database has five empty, consistent tables |
| RouteDao.Catalog.GetAllRoutes | app/src/main/java/com/example/aginavigation/data/database/RouteDao.kt:13-14 | every route, each once, sorted by title |
| RouteDao.Catalog.GetRoutesByCategory | app/src/main/java/com/example/aginavigation/data/database/RouteDao.kt:16-17 | exactly the routes of that category |
| RouteDao.Catalog.GetRouteById | app/src/main/java/com/example/aginavigation/data/database/RouteDao.kt:19-20 | the route with that id, or null exactly when there is none |
| RouteDao.Catalog.SearchRoutes | app/src/main/java/com/example/aginavigation/data/database/RouteDao.kt:22-23 | exactly the routes whose title or summary is `LIKE` the pattern `%query%`, with `%` and `_` in the query acting as wildcards |
| RouteDao.Catalog.InsertRoute | app/src/main/java/com/example/aginavigation/data/database/RouteDao.kt:25-26 | the route replaces the one with its id; the stops of the replaced route are deleted; no other table changes |
| RouteDao.Catalog.InsertAllRoutes | app/src/main/java/com/example/aginavigation/data/database/RouteDao.kt:28-29 | the routes replace their namesakes in turn; the cascade removes those ids' stops; no other table changes |
| RouteDao.Catalog.DeleteRoute | app/src/main/java/com/example/aginavigation/data/database/RouteDao.kt:31-32 | the route's row and its stops are gone, and its id finds nothing |
| RouteDao.Catalog.DeleteAllRoutes | app/src/main/java/com/example/aginavigation/data/database/RouteDao.kt:34-35 | no route and therefore no stop is left; the other tables are unchanged |
| RouteDao.Catalog.GetStopsForRoute | app/src/main/java/com/example/aginavigation/data/database/RouteDao.kt:40-41 | exactly that route's stops, each once, ordered by `stopOrder` |
| RouteDao.Catalog.InsertStop | app/src/main/java/com/example/aginavigation/data/database/RouteDao.kt:43-44 | a stop is written (with a generated id when its id is 0) exactly when its route is stored; otherwise the foreign key refuses it and nothing changes |
| RouteDao.Catalog.InsertAllStops | app/src/main/java/com/example/aginavigation/data/database/RouteDao.kt:46-47 | in one transaction, either every stop is written in turn or, when some stop's route is missing, none is |
| RouteDao.Catalog.GetAllDestinations | app/src/main/java/com/example/aginavigation/data/database/RouteDao.kt:52-53 | every destination, popular ones first, each group by name |
| RouteDao.Catalog.GetPopularDestinations | app/src/main/java/com/example/aginavigation/data/database/RouteDao.kt:55-56 | exactly the popular destinations |
| RouteDao.Catalog.SearchDestinations | app/src/main/java/com/example/aginavigation/data/database/RouteDao.kt:58-59 | exactly the destinations whose name is `LIKE` the pattern `%query%`, with `%` and `_` in the query acting as wildcards |
| RouteDao.Catalog.InsertDestination | app/src/main/java/com/example/aginavigation/data/database/RouteDao.kt:61-62 | id 0 gets the next generated id and the row is added; a row with the same id is replaced |
| RouteDao.Catalog.InsertAllDestinations | app/src/main/java/com/example/aginavigation/data/database/RouteDao.kt:64-65 | the destinations are inserted in turn |
| RouteDao.Catalog.DeleteAllDestinations | app/src/main/java/com/example/aginavigation/data/database/RouteDao.kt:67-68 | no destination is left; the sequence and the other tables are unchanged |
| RouteDao.Catalog.GetAllFavorites | app/src/main/java/com/example/aginavigation/data/database/RouteDao.kt:73-74 | every favorite, newest first |
| RouteDao.Catalog.IsFavorite | app/src/main/java/com/example/aginavigation/data/database/RouteDao.kt:76-77 | true exactly when a favorite row for the route exists |
| RouteDao.Catalog.AddFavorite | app/src/main/java/com/example/aginavigation/data/database/RouteDao.kt:79-80 | the route becomes a favorite, replacing an earlier row; no other route's status changes |
| RouteDao.Catalog.RemoveFavorite | app/src/main/java/com/example/aginavigation/data/database/RouteDao.kt:82-83 | the route is no longer a favorite; no other route's status changes |
| RouteDao.Catalog.GetRecentSearches | app/src/main/java/com/example/aginavigation/data/database/RouteDao.kt:88-89 | at most ten searches, newest first, with no newer search left out |
| RouteDao.Catalog.AddSearch | app/src/main/java/com/example/aginavigation/data/database/RouteDao.kt:91-92 | id 0 gets the next generated id; a row with the same id is replaced |
| RouteDao.Catalog.ClearHistory | app/src/main/java/com/example/aginavigation/data/database/RouteDao.kt:94-95 | no search is left; the other tables are unchanged |
| AppDatabase.NewConfig | app/src/main/java/com/example/aginavigation/data/database/AppDatabase.kt:181-189 | a `RouteConfig` defaults to "Inter-City", fares 15–20 and no custom title or summary |
| AppDatabase.AllKmlConfigs | app/src/main/java/com/example/aginavigation/data/database/AppDatabase.kt:192-221 | the importer knows two KML files |
| AppDatabase.Eligible | app/src/main/java/com/example/aginavigation/data/database/AppDatabase.kt:226 | exactly the configs with `routeId >= startingRouteId`, in list order |
| AppDatabase.EligibleConfigs | app/src/main/java/com/example/aginavigation/data/database/AppDatabase.kt:162-168 | from the default watermark 4 both configs are attempted; from 5 only route 5; past 5 none |
| AppDatabase.RouteTitle | app/src/main/java/com/example/aginavigation/data/database/AppDatabase.kt:234 | the custom title if given, else the KML name |
| AppDatabase.RouteSummary | app/src/main/java/com/example/aginavigation/data/database/AppDatabase.kt:235-236 | the custom summary if given; else the KML description; else "Imported route from <file>" |
| AppDatabase.StopCount | app/src/main/java/com/example/aginavigation/data/database/AppDatabase.kt:239-244 | the placemark count when there are placemarks; otherwise one stop per 50 stored points, and exactly 2 below 100 points |
| AppDatabase.ImportedRoute | app/src/main/java/com/example/aginavigation/data/database/AppDatabase.kt:246-255 | the route row takes the config's id, category and fares, the chosen title and summary, and the path simplified at the default tolerance |
| AppDatabase.ParsedRouteText | app/src/main/java/com/example/aginavigation/data/database/AppDatabase.kt:234-236 | a parsed route's description is never empty, so the "Imported route from" fallback never applies; the title is non-empty unless given as "" |
| AppDatabase.ImportedRouteEnds | app/src/main/java/com/example/aginavigation/data/database/AppDatabase.kt:231 | the stored path keeps the KML path's first and last points |
| AppDatabase.Parsed | app/src/main/java/com/example/aginavigation/data/database/AppDatabase.kt:228-229 | a config yields its route row exactly when its file parses |
| AppDatabase.ImportStep | app/src/main/java/com/example/aginavigation/data/database/AppDatabase.kt:227-275 | one pass of the `forEach` body: a config whose file parses upserts its route, removes that route's old stops and raises `maxImportedId` to its id if larger; an unparsed one only adds a skip to the log; `ImportStepTables` and `ImportStepLog` state the outcome |
| AppDatabase.ImportAll | app/src/main/java/com/example/aginavigation/data/database/AppDatabase.kt:226 | the configs imported in list order, keeping the tables keyed; `ImportAllTables`, `ImportAllMax` and `ImportAllLog` state the final routes, watermark and log |
| AppDatabase.ImportedRoutes | app/src/main/java/com/example/aginavigation/data/database/AppDatabase.kt:226-258 | the records of the configs whose files parse, in config order, at most one per config; `ImportAllTables` proves the route table is these records upserted in turn |
| AppDatabase.Start | app/src/main/java/com/example/aginavigation/data/database/AppDatabase.kt:223 | the importer's starting state: the stored tables, `maxImportedId = startingRouteId` and an empty log |
| AppDatabase.ImportStepTables | app/src/main/java/com/example/aginavigation/data/database/AppDatabase.kt:227-275 | one config upserts its route row, if any, and the cascade removes that route's stops |
| AppDatabase.ImportAllTables | app/src/main/java/com/example/aginavigation/data/database/AppDatabase.kt:226-276 | an import upserts the parsed routes in turn, and the cascade removes their stops |
| AppDatabase.ImportAllMax | app/src/main/java/com/example/aginavigation/data/database/AppDatabase.kt:223-263 | `maxImportedId` never drops below the start, covers every imported id, and is either the start or one of those ids |
| AppDatabase.ImportAllLog | app/src/main/java/com/example/aginavigation/data/database/AppDatabase.kt:265-274 | one log entry per attempted config, in order; an entry reports success exactly when the file parses |
| AppDatabase.ImportedRoutesAtLeast | app/src/main/java/com/example/aginavigation/data/database/AppDatabase.kt:226 | filtering configs by id and then parsing equals parsing and then filtering the routes by id |
| AppDatabase.ReimportChangesNothing | app/src/main/java/com/example/aginavigation/data/database/AppDatabase.kt:162-168 | importing again from any watermark at or above the first one, including the saved watermark, leaves both tables as they were |
| AppDatabase.FailedConfigPassedOver | app/src/main/java/com/example/aginavigation/data/database/AppDatabase.kt:261-263 | a config whose file failed is never attempted again once a later config with a larger id imports |
| AppDatabase.ImportedRouteIn | app/src/main/java/com/example/aginavigation/data/database/AppDatabase.kt:228-258 | a config whose file parses contributes its route row to the import |
| AppDatabase.Prefs.constructor | app/src/main/java/com/example/aginavigation/data/database/AppDatabase.kt:163-165 | the `kml_import_prefs` preferences holding the given stored watermark, if any |
| AppDatabase.Prefs.GetInt | app/src/main/java/com/example/aginavigation/data/database/AppDatabase.kt:165 | the stored watermark, or the default when none is stored |
| AppDatabase.Prefs.PutInt | app/src/main/java/com/example/aginavigation/data/database/AppDatabase.kt:279-284 | after the write, reading the watermark gives the written value |
| AppDatabase.ImportConfig | app/src/main/java/com/example/aginavigation/data/database/AppDatabase.kt:227-275 | one pass of the `forEach` on the database class is one `ImportStep`; the other tables are unchanged |
| AppDatabase.ImportKmlRoutes | app/src/main/java/com/example/aginavigation/data/database/AppDatabase.kt:176-285 | the tables and log end as `ImportAll` over the eligible configs; the watermark is saved only when it grew |
| AppDatabase.CheckForNewKmlRoutes | app/src/main/java/com/example/aginavigation/data/database/AppDatabase.kt:162-168 | the import runs from the stored watermark, or from 4 when none is stored |
| AppDatabase.SeedDestinations | app/src/main/java/com/example/aginavigation/data/database/AppDatabase.kt:141-152 | the seed has ten destinations |
| AppDatabase.PopulateDestinations | app/src/main/java/com/example/aginavigation/data/database/AppDatabase.kt:140-153 | the seed list is inserted as one batch; the other tables are unchanged |
| AppDatabase.NumberedRows | app/src/main/java/com/example/aginavigation/data/database/AppDatabase.kt:153 | the `i`th numbered row is the `i`th seed row with id `sequence + i + 1` |
| AppDatabase.GeneratedBatch | app/src/main/java/com/example/aginavigation/data/database/RouteDao.kt:64-65 | a batch without ids is appended in batch order with ids numbered on from the sequence |
| AppDatabase.SeedRows | app/src/main/java/com/example/aginavigation/data/database/AppDatabase.kt:142-151 | every seeded destination is popular and leaves its id to be generated |
| AppDatabase.SeedOnNewDatabase | app/src/main/java/com/example/aginavigation/data/database/AppDatabase.kt:140-153 | on a new database the seed gives ten popular destinations with ids 1 to 10, in list order |
| MapModel.GoogleMap.constructor | app/src/main/java/com/example/aginavigation/ui/routes/RouteDetailFragment.kt:94-95 | a map that has had no calls made on it |
| MapModel.GoogleMap.Perform | app/src/main/java/com/example/aginavigation/ui/routes/RouteDetailFragment.kt:233-317 | each map call is appended to the map's history |
| MapModel.Shown | app/src/main/java/com/example/aginavigation/ui/routes/RouteDetailFragment.kt:233 | what is visible is only route lines and markers: those added since the last `clear()` |
| MapModel.ShownAppend | app/src/main/java/com/example/aginavigation/ui/routes/RouteDetailFragment.kt:233 | a later run of calls with a clear in it hides everything before it; without one it adds to what is shown |
| MapModel.ClearThenShown | app/src/main/java/com/example/aginavigation/ui/routes/RouteDetailFragment.kt:232-317 | after a clear, overlays and then only camera or settings calls, exactly those overlays are shown |
| MapModel.Steps | app/src/main/java/com/example/aginavigation/ui/routes/RouteDetailFragment.kt:328-329 | `from`, `from + step`, ... while below `limit`, the `for ... step` loop with its `break`; `StepsSpec` and `StepsReach` state its elements |
| MapModel.ArrowIndices | app/src/main/java/com/example/aginavigation/ui/routes/RouteDetailFragment.kt:322-329 | the indices that get an arrow: none when `size / perRoute < 2`, else the positive multiples of the interval that have a next point; `ArrowIndicesSpec` and `ArrowAtEveryMultiple` state it |
| MapModel.ArrowCalls | app/src/main/java/com/example/aginavigation/ui/routes/RouteDetailFragment.kt:330-346 | one arrow marker per index, at `points[i]` and pointing toward `points[i + 1]`, in index order; as many calls as indices |
| MapModel.StepsSpec | app/src/main/java/com/example/aginavigation/ui/routes/RouteDetailFragment.kt:328-332 | the loop visits `from`, `from + step`, … in order, every index below the limit |
| MapModel.ArrowIndicesSpec | app/src/main/java/com/example/aginavigation/ui/routes/RouteDetailFragment.kt:320-332 | the arrows sit at the multiples of `size / perRoute`, each with a following point; none when the interval is below 2 |
| MapModel.ArrowIndicesIncrease | app/src/main/java/com/example/aginavigation/ui/routes/RouteDetailFragment.kt:328-332 | the arrow indices strictly increase |
| MapModel.ArrowAtEveryMultiple | app/src/main/java/com/example/aginavigation/ui/routes/RouteDetailFragment.kt:328-332 | every multiple of the interval that has a following point gets an arrow |
| MapModel.ArrowsOnlyOnLongRoutes | app/src/main/java/com/example/aginavigation/ui/routes/RouteDetailFragment.kt:322-323 | arrows appear exactly on routes of at least `2 * perRoute` points |
| MapModel.AddDirectionalArrows | app/src/main/java/com/example/aginavigation/ui/routes/RouteDetailFragment.kt:320-348 | the loop adds one arrow marker per arrow index, at that point and pointing to the next (also MapFragment.kt:85-113) |
| RouteDetail.IconFor | app/src/main/java/com/example/aginavigation/ui/routes/RouteDetailFragment.kt:258-300 | a marker's icon is the configured resource when one is set, else the default marker with the given hue |
| RouteDetail.StopHue | app/src/main/java/com/example/aginavigation/ui/routes/RouteDetailFragment.kt:293-297 | the hue of stop `i`: the start hue for the first, then the end hue for the last, else the intermediate hue; `NumberedHues` states it |
| RouteDetail.NumberedMarker | app/src/main/java/com/example/aginavigation/ui/routes/RouteDetailFragment.kt:285-301 | the ALL_NUMBERED marker of point `i`: at that point, titled "Stop i+1" |
| RouteDetail.NumberedCalls | app/src/main/java/com/example/aginavigation/ui/routes/RouteDetailFragment.kt:284-303 | one numbered marker per point, in point order: as many calls as points |
| RouteDetail.MarkerCalls | app/src/main/java/com/example/aginavigation/ui/routes/RouteDetailFragment.kt:250-306 | the marker calls for the configured mode: none unless markers are shown, two for START_END, one per point for ALL_NUMBERED; `MarkerCallsSpec` states each mode |
| RouteDetail.PreviewArrows | app/src/main/java/com/example/aginavigation/ui/routes/RouteDetailFragment.kt:245-247 | the arrow calls, only when arrows are enabled and the route has more than one point |
| RouteDetail.PreviewOverlays | app/src/main/java/com/example/aginavigation/ui/routes/RouteDetailFragment.kt:236-306 | the overlays `drawRoute` adds: the route line, then the arrows, then the markers; `DrawRouteShows` proves they are what the map shows |
| RouteDetail.DrawRouteCalls | app/src/main/java/com/example/aginavigation/ui/routes/RouteDetailFragment.kt:229-318 | the calls `drawRoute` makes: a clear, the overlays, the camera fit with padding 160, the toolbar off and all gestures on; `DrawRouteShows` and `DrawRouteReplaces` are proved about it |
| RouteDetail.MarkerCallsSpec | app/src/main/java/com/example/aginavigation/ui/routes/RouteDetailFragment.kt:250-306 | no markers when markers are off or the mode is NONE; START_END gives "Start" at the first point and "End" at the last; ALL_NUMBERED gives one marker per point, at that point |
| RouteDetail.NumberedHues | app/src/main/java/com/example/aginavigation/ui/routes/RouteDetailFragment.kt:292-297 | without a drawable, the first stop gets the start hue, the last the end hue, the others the intermediate hue |
| RouteDetail.NumberedTitles | app/src/main/java/com/example/aginavigation/ui/routes/RouteDetailFragment.kt:288 | marker `i` is titled "Stop " followed by the digits of `i + 1` |
| RouteDetail.AddNumberedMarkers | app/src/main/java/com/example/aginavigation/ui/routes/RouteDetailFragment.kt:282-304 | the loop adds the numbered markers in point order |
| RouteDetail.DrawRouteShows | app/src/main/java/com/example/aginavigation/ui/routes/RouteDetailFragment.kt:229-318 | `drawRoute` clears the map and leaves the route line, its arrows and its markers shown |
| RouteDetail.DrawRouteReplaces | app/src/main/java/com/example/aginavigation/ui/routes/RouteDetailFragment.kt:232-233 | whatever was on the map before, after `drawRoute` (once or twice) exactly the preview's overlays are shown, with no duplicates |
| RouteDetail.DefaultPreview | app/src/main/java/com/example/aginavigation/data/RouteRenderConfig.kt:12-29 | with the shipped settings the preview shows a "#E64A19" line of width 12 and only arrows after it; arrows appear exactly from 30 points up |
| RouteDetail.StopRowFor | app/src/main/java/com/example/aginavigation/ui/routes/RouteDetailFragment.kt:126-227 | a stop's row: bottom margin 4 for the end row else 16, top margin 4 for the start row else 0, a connecting line unless it is the end row, and the start colour before the end colour; `RowsSpec` proves, row by row, which rows get the start colour, the end colour and the line |
| RouteDetail.Rows | app/src/main/java/com/example/aginavigation/ui/routes/RouteDetailFragment.kt:109-124 | one row for the start, one per stop and one for the end |
| RouteDetail.RowsSpec | app/src/main/java/com/example/aginavigation/ui/routes/RouteDetailFragment.kt:109-227 | rows show start, stops and end in order; a badge exactly when there is an ETA; green dot exactly on the first row, red exactly on the last, blue otherwise; a connecting line on every row but the last |
| RouteDetail.EtaBadge | app/src/main/java/com/example/aginavigation/ui/routes/RouteDetailFragment.kt:200-202 | the ETA badge reads "<minutes> min", and its digits read back as the ETA |
| RouteDetail.StopContainer.constructor | app/src/main/java/com/example/aginavigation/ui/routes/RouteDetailFragment.kt:110 | an empty stop container |
| RouteDetail.StopContainer.RemoveAllViews | app/src/main/java/com/example/aginavigation/ui/routes/RouteDetailFragment.kt:111 | `removeAllViews` leaves the container with no rows |
| RouteDetail.StopContainer.AddView | app/src/main/java/com/example/aginavigation/ui/routes/RouteDetailFragment.kt:226 | the row is appended to the container |
| RouteDetail.PopulateRouteDetails | app/src/main/java/com/example/aginavigation/ui/routes/RouteDetailFragment.kt:109-124 | with a container, its rows become exactly `Rows(info)`; without one, nothing happens |
| RouteDetail.AddPreviewArrows | app/src/main/java/com/example/aginavigation/ui/routes/RouteDetailFragment.kt:245-247 | the arrow step of `drawRoute` appends exactly `PreviewArrows` to the map's calls |
| RouteDetail.AddMarkers | app/src/main/java/com/example/aginavigation/ui/routes/RouteDetailFragment.kt:250-306 | the marker step of `drawRoute` appends exactly `MarkerCalls` to the map's calls |
| RouteDetail.RouteDetailScreen.constructor | app/src/main/java/com/example/aginavigation/ui/routes/RouteDetailFragment.kt:29-30 | a screen whose map is not yet ready, holding the route points it was given |
| RouteDetail.RouteDetailScreen.DrawRoute | app/src/main/java/com/example/aginavigation/ui/routes/RouteDetailFragment.kt:229-318 | nothing before the map is ready; then exactly the calls of `DrawRouteCalls` |
| RouteDetail.RouteDetailScreen.OnMapReady | app/src/main/java/com/example/aginavigation/ui/routes/RouteDetailFragment.kt:94-107 | the map is stored; with points the route is drawn, otherwise a "Marker" at central Legazpi and the camera moved there at zoom 14 |
| MapScreen.RouteOverlays | app/src/main/java/com/example/aginavigation/ui/map/MapFragment.kt:64-74 | the full map's overlays: the route line, then its arrows, with no config flag |
| MapScreen.DrawRouteCalls | app/src/main/java/com/example/aginavigation/ui/map/MapFragment.kt:61-83 | the calls `drawRoute` makes: none for an empty list, else the overlays and a camera fit with padding 120; `DrawRouteAdds` and `FullMapArrows` are proved about it |
| MapScreen.DrawRouteAdds | app/src/main/java/com/example/aginavigation/ui/map/MapFragment.kt:61-83 | an empty route adds nothing; otherwise the line and its arrows are added to what is shown, without a clear |
| MapScreen.FullMapArrows | app/src/main/java/com/example/aginavigation/ui/map/MapFragment.kt:85-97 | the full map shows arrows exactly on routes of at least 36 points |
| MapScreen.MapScreen.constructor | app/src/main/java/com/example/aginavigation/ui/map/MapFragment.kt:21-23 | a screen whose map is not yet set, holding the route points it was given |
| MapScreen.MapScreen.DrawRoute | app/src/main/java/com/example/aginavigation/ui/map/MapFragment.kt:61-83 | exactly the calls of `DrawRouteCalls`: none for an empty route, else the "#FF5722" width-8 line, the arrows and a camera fit with padding 120 |
| MapScreen.MapScreen.OnMapReady | app/src/main/java/com/example/aginavigation/ui/map/MapFragment.kt:44-59 | the map is stored; with points the route is drawn, otherwise "Marker in Legazpi" and the camera moved there |
| RouteAdapter.PillLabel | app/src/main/java/com/example/aginavigation/ui/routes/RouteAdapter.kt:34-39 | the pill is one of "Route A", "Route B", "Route C" or "Route" |
| RouteAdapter.PillIgnoresCase | app/src/main/java/com/example/aginavigation/ui/routes/RouteAdapter.kt:35-37 | the pill does not depend on the letter case of the title |
| RouteAdapter.VariantA | app/src/main/java/com/example/aginavigation/ui/routes/RouteAdapter.kt:35 | any title containing "(A)" or "(a)" is Route A, whatever else it holds |
| RouteAdapter.VariantB | app/src/main/java/com/example/aginavigation/ui/routes/RouteAdapter.kt:36 | a title containing "(B)" or "(b)" and no A tag is Route B |
| RouteAdapter.PlainRoute | app/src/main/java/com/example/aginavigation/ui/routes/RouteAdapter.kt:38 | a title is plain "Route" exactly when no tag matches anywhere in it |
| RouteAdapter.RouteListAdapter.constructor | app/src/main/java/com/example/aginavigation/ui/routes/RouteAdapter.kt:11 | an adapter holding the given route list |
| RouteAdapter.RouteListAdapter.GetItemCount | app/src/main/java/com/example/aginavigation/ui/routes/RouteAdapter.kt:44 | `getItemCount` is the number of routes held; `UpdateRoutes` ensures it equals the new list's size |
| RouteAdapter.RouteListAdapter.UpdateRoutes | app/src/main/java/com/example/aginavigation/ui/routes/RouteAdapter.kt:46-49 | the new list replaces the old one, and the item count becomes its length |
| RouteAdapter.RouteListAdapter.OnBindViewHolder | app/src/main/java/com/example/aginavigation/ui/routes/RouteAdapter.kt:27-42 | row `position` shows that route's title, fare and summary and its pill, and a click hands on that route |

## Left out

- `parseKmlFromRaw` (kmlParser.kt:43-51) opens a raw resource by id and then
  does what `parseKmlFromAssets` does. It is not modelled separately.
- XML and file I/O: the pull parser is replaced by the sequence of events it
  would produce, without START_DOCUMENT/END_DOCUMENT. A missing or malformed
  asset is a file name absent from the asset map. Exceptions inside the
  parser, and the `catch` in `importKmlRoutes`, become that null result.
- `toDouble` is the parameter `num` (text to optional number). Gson's JSON
  text for coordinate lists is a pair of parameters, `toJson` and `fromJson`.
- Non-finite doubles: Kotlin's `toDouble` accepts texts such as `"NaN"` and
  `"Infinity"`, and the source keeps a tuple made of them. `real` has no such
  values, so `num` can only reject that text or map it to a finite number.
  Tuples that hold a non-finite number are not modelled.
- `Double`/`Float` arithmetic is modelled as exact `real` arithmetic.
  `perpendicularDistance` is compared in squared form, so `Math.sqrt` and
  `Math.abs` are not modelled as functions.
- `LIKE` and `contains(ignoreCase = true)` fold ASCII letters only. Unicode
  case folding is not modelled.
- Log calls, `printStackTrace`, coroutine scopes, `LiveData`/`Flow`
  wrappers, the singleton `getDatabase`, and the callback's `onCreate`/`onOpen`
  threading.
- `populateDatabase`'s three hand-written routes (AppDatabase.kt:96-138) come
  from `RouteData`, which is not part of this model. Only the destination
  seed is modelled.
- Map rendering details:
  - `calculateBearing` (trigonometry);
  - the arrow bitmap;
  - marker rotation, anchor, flatness and z-index;
  - how the camera bounds are computed;
  - view styling beyond the modelled colours, margins, badge and line.

  A map call records the values the model tracks.
- `RouteRenderConfig` is a global mutable object in the app. Here it is a
  value passed to the drawing code. `arrowSpacingMeters` is declared but
  never read in the source, so it is not used.
- Click listeners, navigation between screens, `notifyDataSetChanged`, and
  view inflation (`onCreateViewHolder`).
- `DestinationAdapter`, `RoutesFragment`, `RouteViewModel`, `Repository`,
  `RouteArrowDrawer`, `MainActivity` and `NavigationApplication` are not part
  of this model.
- `RouteDao.Catalog.SearchRoutes`: `LIKE` is case-insensitive for ASCII
  letters only, as in SQLite's default.
- `RouteDao.Catalog.InsertStop`: a stop whose route is missing makes SQLite
  raise a foreign-key error, which Room throws as an exception. The model
  returns `false` and leaves the tables unchanged instead.
- `AppDatabase.StopCount`: the stop count is computed and logged, but
  `RouteEntity` has no column to store it in.
- `MapScreen.MapScreen.DrawRoute`: `googleMap` is `lateinit` in the source,
  and reading it before `onMapReady` throws. The model requires the map to be
  set instead of modelling that exception.

## Findings

| source | as written | input that shows it | evidently intended | confidence | as-written member | corrected member |
|---|---|---|---|---|---|---|
| app/src/main/java/com/example/aginavigation/utils/kmlParser.kt:217-219 | with `tolerance < 0` and every inner point on the chord, `maxIndex` stays 0 and `maxDistance > tolerance` still holds, so `douglasPeucker(points.subList(0, size))` calls itself on the same list and never returns | points (0,0), (0,1), (0,2) as (latitude, longitude) with tolerance -1.0 | split only at a point strictly inside the list, i.e. only when some point lies off the chord by more than the tolerance | not executed | KmlSimplify.CollinearWithNegativeTolerance | KmlSimplify.Segment |
