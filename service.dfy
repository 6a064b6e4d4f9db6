/** The coordinate service `get_city_coordinates`: store lookup, falling back to
    one geocoder query whose answer is written back to the store. */
module Service {
  import opened Wrappers
  import opened Text
  import opened Cache
  import opened Geocoding

  /** The state the service works on: the store file and the geocoder's query log. */
  datatype World = World(file: Option<seq<Row>>, queries: seq<string>)

  /** The outcome of one call: its result and the state after it. */
  datatype Step = Step(result: Result<LatLon, Fault>, world: World)

  /** `if lat and lon`: the lookup found a row and both coordinate fields are non-empty. */
  predicate IsHit(found: LookupResult) {
    found.Found? && found.lat != "" && found.lon != ""
  }

  /** One call of `get_city_coordinates(city, country, continent)` against `w`,
      with `answer` the geocoder's replies. */
  function Resolve(answer: string -> Option<LatLon>, w: World, city: string, country: string, continent: string): (s: Step)
    ensures RowsOf(w.file) <= RowsOf(s.world.file) && |RowsOf(s.world.file)| <= |RowsOf(w.file)| + 1
    ensures w.queries <= s.world.queries && |s.world.queries| <= |w.queries| + 1
    ensures s.world.file != w.file ==> s.result.Ok? && |s.world.queries| == |w.queries| + 1
  {
    var found := Find(RowsOf(w.file), city, country);
    if found.Failed? then Step(Err(found.fault), w)
    else if IsHit(found) then Step(Ok(LatLon(found.lat, found.lon)), w)
    else
      var q := Query(city, country);
      var asked := w.(queries := w.queries + [q]);
      match answer(q)
      case None => Step(Err(NoLocation), asked)
      case Some(c) => Step(Ok(c), asked.(file := Some(RowsOf(w.file) + [StoreRow(city, country, continent, c)])))
  }

  /** `get_city_coordinates`: its result and the new store and query log are the
      ones `Resolve` gives for the old ones (see `ResolveCases`). */
  method GetCityCoordinates(store: Store, geocoder: Geocoder, city: string, country: string, continent: string)
    returns (r: Result<LatLon, Fault>)
    modifies store, geocoder
    ensures Step(r, World(store.file, geocoder.queries))
         == Resolve(geocoder.answer, World(old(store.file), old(geocoder.queries)), city, country, continent)
  {
    var found := store.Lookup(city, country);
    if found.Failed? {
      return Err(found.fault);
    }
    if IsHit(found) {
      return Ok(LatLon(found.lat, found.lon));
    }
    var location := geocoder.Geocode(Query(city, country));
    if location.None? {
      return Err(NoLocation);
    }
    store.Append(city, country, continent, location.value);
    return Ok(location.value);
  }

  /** The cases of `get_city_coordinates`: a lookup that raises or a cache hit sends no
      query and leaves the store as it is, the hit returning the stored pair; a miss
      sends exactly one query, and appends the answer, with the caller's continent,
      when there is one. */
  lemma {:induction false} ResolveCases(answer: string -> Option<LatLon>, w: World, city: string, country: string, continent: string)
    ensures var found, s := Find(RowsOf(w.file), city, country), Resolve(answer, w, city, country, continent);
      && (found.Failed? ==> s == Step(Err(found.fault), w))
      && (IsHit(found) ==> s == Step(Ok(LatLon(found.lat, found.lon)), w))
      && (!found.Failed? && !IsHit(found) ==>
            && s.world.queries == w.queries + [Query(city, country)]
            && match answer(Query(city, country))
               case None => s.result == Err(NoLocation) && s.world.file == w.file
               case Some(c) => s.result == Ok(c) && s.world.file == Some(RowsOf(w.file) + [StoreRow(city, country, continent, c)]))
  {
  }

  /** Cache idempotence and round trip: for a trimmed key the store does not hold yet,
      and a geocoder that answers with non-empty coordinates, the first call sends one
      query and returns the answer, and a second call sends none, returns the value
      the first appended and leaves the store as the first left it. */
  lemma {:induction false} ResolveTwice(answer: string -> Option<LatLon>, w: World, city: string, country: string, continent: string)
    requires IsTrimmed(city) && IsTrimmed(country)
    requires Find(RowsOf(w.file), city, country) == NotFound
    requires answer(Query(city, country)).Some?
    requires answer(Query(city, country)).value.latitude != "" && answer(Query(city, country)).value.longitude != ""
    ensures var first := Resolve(answer, w, city, country, continent);
      var second := Resolve(answer, first.world, city, country, continent);
      && first.result == Ok(answer(Query(city, country)).value)
      && first.world.queries == w.queries + [Query(city, country)]
      && second.result == first.result
      && second.world == first.world
  {
    var c := answer(Query(city, country)).value;
    StripFixesTrimmed(city);
    StripFixesTrimmed(country);
    AppendThenFind(RowsOf(w.file), city, country, continent, c);
  }

  /** A hit stays a hit: whatever key a call resolves, it changes no earlier hit of the store. */
  lemma {:induction false} HitIsStable(answer: string -> Option<LatLon>, w: World, city: string, country: string, continent: string,
                    k1: string, k2: string)
    requires IsHit(Find(RowsOf(w.file), k1, k2))
    ensures Find(RowsOf(Resolve(answer, w, city, country, continent).world.file), k1, k2) == Find(RowsOf(w.file), k1, k2)
  {
    var s := Resolve(answer, w, city, country, continent);
    if s.world.file != w.file {
      var rows := RowsOf(w.file);
      var row := RowsOf(s.world.file)[|rows|];
      assert RowsOf(s.world.file) == rows + [row];
      FindConcat(rows, [row], k1, k2);
    }
  }

  /** A first matching row whose latitude field is empty shadows every later row for
      that key: each call misses, sends another query and appends another row. */
  lemma {:induction false} ShadowedKeyIsQueriedAgain(answer: string -> Option<LatLon>, w: World, city: string, country: string, continent: string)
    requires Find(RowsOf(w.file), city, country).Found? && Find(RowsOf(w.file), city, country).lat == ""
    requires answer(Query(city, country)).Some?
    ensures var first := Resolve(answer, w, city, country, continent);
      var second := Resolve(answer, first.world, city, country, continent);
      && second.world.queries == w.queries + [Query(city, country), Query(city, country)]
      && |RowsOf(second.world.file)| == |RowsOf(w.file)| + 2
  {
    var c := answer(Query(city, country)).value;
    var rows := RowsOf(w.file);
    var first := Resolve(answer, w, city, country, continent);
    assert !IsHit(Find(rows, city, country));
    assert first.world == World(Some(rows + [StoreRow(city, country, continent, c)]), w.queries + [Query(city, country)]);
    FindConcat(rows, [StoreRow(city, country, continent, c)], city, country);
    assert Find(RowsOf(first.world.file), city, country) == Find(rows, city, country);
  }
}
