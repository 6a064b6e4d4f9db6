# my_maps_generator: coordinate cache and continent grouping

This project models the core of `my_maps_generator`. The program reads a CSV list of
places (city, country, continent, notes) and turns it into a continent → city → placemark
structure, which a template then renders as a KML map. Each city needs coordinates. The
program first looks for them in the append-only cache file `city_country_data_base.csv`.
When the cache has no usable pair, it asks a geocoding service and writes the answer
back to the cache.

The model is split into modules:

- `Text`: Python's `str.strip()`, over Python's whitespace set.
- `Cache`: the cache file.
  - The pure scan `Find` and its lemmas.
  - The class `Store`, whose `file` field is `None` while the file does not exist. Its
    method `Lookup` is `get_coordinates_from_db` and its method `Append` is
    `add_coordinates_to_db`.
- `Geocoding`: the geocoding service as the class `Geocoder`. It holds a fixed function
  `answer` from query text to an optional location, plus the log of queries sent.
- `Service`: `get_city_coordinates`.
  - The specification function `Resolve` works on the store and the query log.
  - The method `GetCityCoordinates` works on `Store` and `Geocoder` and is proved equal to
    `Resolve`.
- `Grouping`: Python's insertion-ordered `dict` as `OrderedMap`, and the grouping
  function `Group` as the ordered fold of `AddFirst`.
- `Aggregator`: `parse_country_list`.
  - The specification functions are `Advance` (one row) and `Run` (all rows), which
    record for each row its trimmed fields, its coordinates, and whether it went to the
    geocoder.
  - The method `ParseCountryList` is proved equal to `ParseOutcome`. Its loop body is the
    method `AddRow`.
- `RunProperties`: properties of whole runs.
  - One is "at most one geocoder query per key". It is proved when the cache starts with no
    empty coordinate field and the geocoder never answers with an empty coordinate. These
    conditions are sufficient, not necessary.
  - The promise can fail only for a key whose first matching cache row has an empty
    coordinate field. `Service.ShadowedKeyIsQueriedAgain` shows that such a row makes every
    call for its key query and append again.
  - The geocoder condition (`AnswersFilled`) is needed only because the model keeps
    coordinates as text. The program itself always meets it: the geocoder returns float
    coordinates, and the CSV writer never writes a float as an empty field.
  - Another is that the grouped map holds exactly the rows' pairs, in first-seen order.
- `Scenarios`: the situations that the repository's tests set up. These are the lookup,
  append, miss and single-row grouping tests, and the command-line test with its two cached rows and
  its one miss (Abu Dhabi).

The methods `Cache.Store.Append`, `Geocoding.Geocoder.Geocode`,
`Service.GetCityCoordinates`, `Aggregator.AddRow` and `Aggregator.ParseCountryList` change
state, so their contracts state the new state in terms of the old one.

- `Append` and `Geocode` give their new state outright: the old rows plus one
  `StoreRow`, and the old log plus the query together with the answer `answer(query)`.
- The other three give their result and new state as those of a specification function:
  `Resolve`, one step of `Advance`, and `ParseOutcome`. The lemmas about those functions
  carry the properties.

The functions that define the model, and the source lines each one follows:

- `Text.Strip` is `str.strip()` (line 68).
- `Cache.Inspect` and `Cache.Find` are the scan of `get_coordinates_from_db` (lines 96-104).
- `Cache.StoreRow` is the row written at line 119.
- `Geocoding.Query` is the query text `f"{city}, {country}"` (line 141).
- `Service.IsHit` is the test `if lat and lon` (line 134).
- `Grouping.AddFirst` and `Grouping.Group` are the insertion at lines 73-79.
- `Aggregator.ParseOutcome` is what `parse_country_list` returns or raises (lines 49-82).

Uncaught Python exceptions are modelled as the `Fault` values that end a run:

- `StoreRowTooShort` is the `IndexError` raised by a cache row that lacks a field the
  lookup reads.
- `InputRowTooShort` is the `ValueError` raised when an input row has fewer than four
  fields.
- `NoLocation` is the `AttributeError` raised by `location.latitude` when the geocoder
  finds nothing.

Cache rows appended before a fault stay in the file, as they do in the program.

## Model

| member | source | states |
|---|---|---|
| Text.IsSpaceExactly | my_maps_generator/my_maps_generator.py:68 | the characters `strip()` removes are exactly Python's whitespace set: U+0009..U+000D, U+001C..U+0020, U+0085, U+00A0, U+1680, U+2000..U+200A, U+2028, U+2029, U+202F, U+205F and U+3000 |
| Text.TrimStartDropsSpace | my_maps_generator/my_maps_generator.py:68 | the leading trim keeps a suffix of the text that does not start with whitespace, and drops only whitespace |
| Text.TrimEndDropsSpace | my_maps_generator/my_maps_generator.py:68 | the trailing trim keeps a prefix of the text that does not end with whitespace, and drops only whitespace |
| Text.StripCutsOnlySpace | my_maps_generator/my_maps_generator.py:68 | `strip()` keeps one contiguous infix, and everything it removes on either side is whitespace |
| Text.StripIsTrimmed | my_maps_generator/my_maps_generator.py:99 | the result of `strip()` neither starts nor ends with whitespace |
| Text.StripFixesTrimmed | my_maps_generator/my_maps_generator.py:119 | `strip()` leaves a text unchanged if and only if the text has no whitespace at either end |
| Text.StripIdempotent | my_maps_generator/my_maps_generator.py:119 | stripping twice is the same as stripping once, so the already-trimmed names the aggregator passes are written to the cache unchanged |
| Cache.Store.Lookup | my_maps_generator/my_maps_generator.py:84-104 | the loop over cache rows returns what the scan `Find` gives: the first row in file order whose trimmed city and country match decides the result, an absent file is a miss, and a short row raises |
| Cache.InspectNext | my_maps_generator/my_maps_generator.py:99 | the scan moves past a row exactly when its trimmed city differs, or its trimmed country differs, without a missing field being read |
| Cache.FindMiss | my_maps_generator/my_maps_generator.py:98-104 | the lookup returns `(None, None)` if and only if it moves past every row |
| Cache.FindFirstMatch | my_maps_generator/my_maps_generator.py:98-101 | first match wins: if every earlier row is skipped, the first matching row's fields 3 and 4 are returned, whatever later rows hold |
| Cache.FindFound | my_maps_generator/my_maps_generator.py:98-101 | conversely, a lookup that finds a pair returns fields 3 and 4 of a row that has five fields and matches the key, and every earlier row is skipped |
| Cache.FindConcat | my_maps_generator/my_maps_generator.py:98-101 | rows after the one that stops the scan are never consulted; rows after a part the scan runs through decide the result |
| Cache.FindIgnoresContinent | my_maps_generator/my_maps_generator.py:99-101 | changing a row's continent field never changes a lookup |
| Cache.FindWellFormed | my_maps_generator/my_maps_generator.py:99 | on a cache whose rows all have five fields, the lookup never raises, and a row is skipped exactly when its key differs |
| Cache.FoundIsFilled | my_maps_generator/my_maps_generator.py:101 | on a cache with no empty coordinate field, whatever the lookup returns is non-empty |
| Cache.StoreRowMatches | my_maps_generator/my_maps_generator.py:119 | the appended row has five fields, holds the given coordinates in fields 3 and 4, and matches the trimmed key it was written for |
| Cache.Store.Append | my_maps_generator/my_maps_generator.py:106-119 | the file afterwards holds the old rows unchanged plus one row, the trimmed city, country and continent followed by the coordinates; an absent file is created; there is no duplicate check |
| Cache.AppendThenFind | my_maps_generator/my_maps_generator.py:99-101 | round trip: looking up the trimmed key of an appended row gives the appended coordinates, unless an earlier row already stops the scan |
| Geocoding.Geocoder.Geocode | my_maps_generator/my_maps_generator.py:141 | one request is sent, it is logged, and its answer is returned |
| Service.Resolve | my_maps_generator/my_maps_generator.py:133-143 | one call only appends to the cache and the query log, at most one item each, and it writes to the cache only on success after a query |
| Service.ResolveCases | my_maps_generator/my_maps_generator.py:133-143 | a lookup that raises, or a hit (both fields non-empty), sends no query and leaves the cache unchanged, and a hit returns the cached pair; a miss sends exactly one query `"city, country"`, and then either fails with no write or appends the answer with the caller's continent and returns it |
| Service.GetCityCoordinates | my_maps_generator/my_maps_generator.py:121-143 | the result and the new cache and query log are those that `Resolve` gives for the old ones |
| Service.ResolveTwice | my_maps_generator/my_maps_generator.py:133-143 | for a trimmed key the cache does not hold yet, and a geocoder that answers with non-empty coordinates: two calls send one query, the second call returns what the first appended, and the second changes nothing |
| Service.HitIsStable | my_maps_generator/my_maps_generator.py:117-119 | no call turns an existing cache hit for any key into something else |
| Service.ShadowedKeyIsQueriedAgain | my_maps_generator/my_maps_generator.py:134 | a first matching row with an empty latitude shadows every later row for its key: each call misses, queries again and appends again |
| Grouping.PutValid | my_maps_generator/my_maps_generator.py:74 | dictionary assignment keeps the keys duplicate-free and in step with the entries: a new key goes to the end, and an existing key keeps its place and gets the new value |
| Grouping.GroupSnoc | my_maps_generator/my_maps_generator.py:67-79 | grouping one more record is adding it to the grouped map of the earlier ones |
| Grouping.AddFirstWellGrouped | my_maps_generator/my_maps_generator.py:73-79 | adding a record keeps both dictionary levels valid |
| Grouping.GroupWellGrouped | my_maps_generator/my_maps_generator.py:59-79 | the grouped map is valid at both levels |
| Grouping.AddFirstPairs | my_maps_generator/my_maps_generator.py:73-79 | adding a record adds its (continent, city) pair, keeps every existing pair with its place, and stores the record's place only for a new pair |
| Grouping.GroupPairs | my_maps_generator/my_maps_generator.py:73-79 | the grouped map holds a (continent, city) pair if and only if some record has it |
| Grouping.GroupContinents | my_maps_generator/my_maps_generator.py:73-74 | a continent is a key if and only if some record is on it |
| Grouping.GroupFirstWins | my_maps_generator/my_maps_generator.py:73-79 | the place stored for a pair is the one of its first record; later duplicates never overwrite it |
| Grouping.GroupContinentOrder | my_maps_generator/my_maps_generator.py:73-74 | continents appear in the order of their first occurrence |
| Grouping.GroupCityOrder | my_maps_generator/my_maps_generator.py:73-74 | the cities under each continent appear in the order of their first occurrence on that continent |
| Grouping.CitiesOfAbsentContinent | my_maps_generator/my_maps_generator.py:73-74 | a continent that no record is on has no cities |
| Grouping.Dedup | my_maps_generator/my_maps_generator.py:73-74 | the reference order lists each element of the sequence once and nothing else |
| Grouping.FirstIndexExtend | my_maps_generator/my_maps_generator.py:73-74 | appending keeps the first index of an element that is already present |
| Grouping.FirstIndexLast | my_maps_generator/my_maps_generator.py:73-74 | an element absent from a sequence first occurs at the end once appended to it |
| Grouping.DedupFirstSeen | my_maps_generator/my_maps_generator.py:73-74 | the reference order lists the elements by the index of their first occurrence |
| Aggregator.DataRows | my_maps_generator/my_maps_generator.py:66 | the header row, if there is one, is skipped, and an empty file has no data rows |
| Aggregator.Advance | my_maps_generator/my_maps_generator.py:67-79 | one row adds at most one record, carrying the row's four trimmed fields; a row that does not fail adds exactly one, and logs a query only when its record went to the geocoder; the cache only grows |
| Aggregator.Run | my_maps_generator/my_maps_generator.py:67-79 | a run that does not fail has one record per data row |
| Aggregator.RunRecords | my_maps_generator/my_maps_generator.py:67-69 | every data row is resolved, duplicates included: record `i` carries the trimmed fields of data row `i` |
| Aggregator.RunQueries | my_maps_generator/my_maps_generator.py:69 | on a run that does not fail, the geocoder is queried, in order, exactly for the records not served from the cache; on every run, the cache only grows at its end |
| Aggregator.RunSnoc | my_maps_generator/my_maps_generator.py:67 | the run over one more row is one more step |
| Aggregator.AdvanceStep | my_maps_generator/my_maps_generator.py:68-79 | a step over a row with four fields is decided by the service's answer: it ends the run with that fault, or adds the row's record |
| Aggregator.RunStops | my_maps_generator/my_maps_generator.py:67-69 | an exception ends the loop: rows after it change nothing |
| Aggregator.AddRow | my_maps_generator/my_maps_generator.py:68-79 | one pass of the loop body performs the step that `Advance` describes, on the cache, on the query log and on the grouped map |
| Aggregator.ParseCountryList | my_maps_generator/my_maps_generator.py:49-82 | the returned grouped map, or the exception raised, and the new cache and query log are those that `ParseOutcome` gives for the input rows and the old state |
| Aggregator.TemplateData | my_maps_generator/my_maps_generator.py:172-175 | the template receives the grouped map under the single key `map_data` |
| RunProperties.ResolveKeepsCache | my_maps_generator/my_maps_generator.py:133-143 | if the geocoder never answers with an empty coordinate, a call keeps the cache free of empty coordinates, keeps every cached key cached, and on success caches its own key |
| RunProperties.AdvanceKeepsCache | my_maps_generator/my_maps_generator.py:67-69 | one more row keeps that invariant, and a row repeating an earlier key does not go to the geocoder |
| RunProperties.RunKeepsCache | my_maps_generator/my_maps_generator.py:67-69 | the invariant holds throughout a run that starts with no empty coordinate in the cache |
| RunProperties.EachKeyGeocodedOnce | my_maps_generator/my_maps_generator.py:67-143 | when the cache starts with no empty coordinate field and the geocoder never answers with an empty coordinate, a run makes at most one geocoder query per (city, country) key: every later row with an earlier row's key is a cache hit |
| RunProperties.RepeatedKeyNotQueried | my_maps_generator/my_maps_generator.py:67-143 | under the same two conditions, a row repeating the key of an earlier record is served from the cache even when it is the last row the run reaches: it sends no query, leaves the cache as it is, and cannot fail |
| RunProperties.ParsePairs | my_maps_generator/my_maps_generator.py:64-79 | on success the result holds exactly the (trimmed continent, trimmed city) pairs of the data rows |
| RunProperties.ParseFirstWins | my_maps_generator/my_maps_generator.py:73-79 | on success, the entry for the pair of the first data row with that pair holds that row's notes, its resolved coordinates and the fixed icon `#icon-1899-0288D1-nodesc` |
| RunProperties.ParseOrder | my_maps_generator/my_maps_generator.py:59-79 | on success, continents and the cities under each appear in the order in which the data rows first mention them |
| Scenarios.WordsAreTrimmed | tests/test_my_maps_generator.py:130-132 | the test's names and the empty notes field are unchanged by `strip()` |
| Scenarios.LookupScenario | tests/test_my_maps_generator.py:67-82 | the single-row cache gives back Vienna's stored coordinates as text, and an absent cache file is a miss |
| Scenarios.ViennaInTestStore | tests/test_my_maps_generator.py:136-141 | Vienna is found in the first row of the command-line test's cache |
| Scenarios.InnsbruckInTestStore | tests/test_my_maps_generator.py:136-141 | Innsbruck is found in the second row of that cache |
| Scenarios.TestStoreFinds | tests/test_my_maps_generator.py:136-141 | both cities of Austria are found in that cache |
| Scenarios.FirstMatchScenario | tests/test_my_maps_generator.py:136-141 | with a second Vienna row appended, the first row still wins |
| Aggregator.AdvanceHit | my_maps_generator/my_maps_generator.py:133-136 | a row whose key is a cache hit adds its record with the cached pair and leaves the cache and the query log as they were |
| Scenarios.CachedRunFirst | tests/test_my_maps_generator.py:126-141 | the first data row of the command-line test is a cache hit: one record, no query |
| Scenarios.CachedRun | tests/test_my_maps_generator.py:126-141 | the two Austrian rows of the command-line test are cache hits: two records, no query, the cache untouched |
| Scenarios.SingleRowGroup | tests/test_my_maps_generator.py:49-65 | the grouping test: the Vienna row gives exactly `{"Europe": {"Vienna": {Notes "", its coordinates, the fixed icon}}}` |
| Scenarios.CachedGroup | tests/test_my_maps_generator.py:130-132 | one Europe entry, with Vienna and then Innsbruck, and Vienna's placemark holds empty notes, its coordinates and the fixed icon |
| Scenarios.CachedRunScenario | tests/test_my_maps_generator.py:126-141 | a whole run over the header and the two Austrian rows gives the expected grouped map, sends no query and leaves the cache as it was |
| Scenarios.AppendScenario | tests/test_my_maps_generator.py:84-94 | the append test's row is `["NewCity", "NewCountry", "NewContinent", "12.34", "56.78"]` |
| Scenarios.ViennaQuery | my_maps_generator/my_maps_generator.py:141 | the query text for Vienna is `"Vienna, Austria"` |
| Scenarios.MissScenario | tests/test_my_maps_generator.py:96-108 | the miss test: when the store has no row for Vienna, the service sends the query `"Vienna, Austria"` once, returns the geocoded pair, and appends it with the continent `Europe` |
| Scenarios.AbuDhabiQuery | my_maps_generator/my_maps_generator.py:141 | the query text for Abu Dhabi is `"Abu Dhabi, UAE"` |
| Scenarios.AbuDhabiNotInTestStore | tests/test_my_maps_generator.py:133-141 | no row of the command-line test's cache holds Abu Dhabi |
| Scenarios.AbuDhabiMiss | tests/test_my_maps_generator.py:133 | the third input row is a miss: it adds a record marked as geocoded, sends the one query `"Abu Dhabi, UAE"`, and appends one row with the answer |
| Scenarios.CliRun | tests/test_my_maps_generator.py:129-141 | the run over the command-line test's rows gives two cache hits and then one miss, with one query and one appended row |
| Scenarios.CliGroup | tests/test_my_maps_generator.py:130-133 | grouping those records gives Europe, holding Vienna then Innsbruck, followed by Asia, holding Abu Dhabi with its geocoded place |
| Scenarios.CliScenario | tests/test_my_maps_generator.py:126-141 | the whole command-line run returns that grouped map, sends the one query `"Abu Dhabi, UAE"` and appends the one row for it |

## Left out

- The template side: Jinja2 loading, undeclared-variable discovery, rendering, and creating the output directory (`load_jinja_template`, `render_template`). These are library calls and file output.
- `load_json_data`, `main` and its argument parsing, and the logging calls.
- `generate_template`: only its `{"map_data": ...}` wrapping is modelled.
- The summary counters `cities`, `countries` and `continents` in `parse_country_list`. They only feed a log message.
- The geocoder: the Nominatim client, HTTP, and the `GEOLOCATOR_USER_AGENT` environment lookup are not modelled. The service is a fixed function from query text to an optional location.
  - It is deterministic: two equal queries get the same answer.
  - Network errors and timeouts are not modelled.
- Files are values: opening, reading and writing are not modelled, and neither are concurrent writers to the cache file.
  - Each cache row is a sequence of fields and each input row is a sequence of fields.
  - CSV quoting, escaping and line splitting are not modelled.
- Coordinates are kept as text (`LatLon` of two strings). The `float()` conversion of a cached pair and the float-to-text rendering of the CSV writer are both taken as the identity. As a result:
  - the `ValueError` that `float()` raises on a non-numeric cached field is not modelled;
  - the difference between the float a miss returns and the text a hit returns is not modelled.
- The three exceptions the core raises on a short row or a failed geocode are modelled as faults rather than as preconditions. Other exceptions are not modelled: those from file access, network errors, and the `ValueError` from `float()`.
- `defaultdict` inserting an empty city map for a continent when the membership test runs. The continent is always filled in the same step, so this is not observable in the result.
- `RunProperties.EachKeyGeocodedOnce`: "at most one query per key" is stated per (city, country) key of the records, not per query text. The query text `"city, country"` is not injective: the keys ("a, b", "c") and ("a", "b, c") send the same query.
