/** Properties of whole runs of `parse_country_list`: what the grouped map holds,
    and how often the geocoder is asked. */
module RunProperties {
  import opened Wrappers
  import opened Text
  import opened Cache
  import opened Geocoding
  import opened Service
  import opened Grouping
  import opened Aggregator

  /** The geocoder never answers with an empty coordinate. */
  ghost predicate AnswersFilled(answer: string -> Option<LatLon>) {
    forall q :: answer(q).Some? ==> answer(q).value.latitude != "" && answer(q).value.longitude != ""
  }

  /** Every key resolved so far is now a cache hit. */
  ghost predicate KeysCached(t: Trace) {
    forall i :: 0 <= i < |t.records| ==> IsHit(Find(RowsOf(t.world.file), t.records[i].city, t.records[i].country))
  }

  /** No record repeats the key of an earlier one and still goes to the geocoder. */
  ghost predicate QueriedOnce(recs: seq<Record>) {
    forall i, j :: 0 <= i < j < |recs| && recs[i].city == recs[j].city && recs[i].country == recs[j].country
      ==> !recs[j].geocoded
  }

  /** One call of the service keeps the store free of empty coordinates and keeps
      every cached key of `recs` cached, and on success its own key is cached too. */
  lemma {:induction false} ResolveKeepsCache(answer: string -> Option<LatLon>, w: World, recs: seq<Record>,
                                             city: string, country: string, continent: string)
    requires AnswersFilled(answer) && NoBlankCoordinates(RowsOf(w.file)) && IsTrimmed(city) && IsTrimmed(country)
    requires forall i :: 0 <= i < |recs| ==> IsHit(Find(RowsOf(w.file), recs[i].city, recs[i].country))
    ensures var s := Resolve(answer, w, city, country, continent);
      && NoBlankCoordinates(RowsOf(s.world.file))
      && (forall i :: 0 <= i < |recs| ==> IsHit(Find(RowsOf(s.world.file), recs[i].city, recs[i].country)))
      && (s.result.Ok? ==> IsHit(Find(RowsOf(s.world.file), city, country)))
  {
    var rows := RowsOf(w.file);
    var found := Find(rows, city, country);
    var s := Resolve(answer, w, city, country, continent);
    if s.world.file != w.file {
      var c := answer(Query(city, country)).value;
      StripFixesTrimmed(city);
      StripFixesTrimmed(country);
      AppendThenFind(rows, city, country, continent, c);
      if found.Found? {
        FoundIsFilled(rows, city, country);
      }
      assert found == NotFound;
      assert RowsOf(s.world.file) == rows + [StoreRow(city, country, continent, c)];
      forall i | 0 <= i < |recs|
        ensures IsHit(Find(RowsOf(s.world.file), recs[i].city, recs[i].country))
      {
        HitIsStable(answer, w, city, country, continent, recs[i].city, recs[i].country);
      }
    }
  }

  /** One more row keeps the store free of empty coordinates, keeps every resolved key
      cached, and sends a repeated key to the store rather than the geocoder. */
  lemma {:induction false} AdvanceKeepsCache(answer: string -> Option<LatLon>, t: Trace, line: Row)
    requires AnswersFilled(answer) && NoBlankCoordinates(RowsOf(t.world.file)) && KeysCached(t) && QueriedOnce(t.records)
    ensures var t' := Advance(answer, t, line);
      NoBlankCoordinates(RowsOf(t'.world.file)) && KeysCached(t') && QueriedOnce(t'.records)
  {
    var t' := Advance(answer, t, line);
    if t.fault.None? && |line| >= 4 {
      var city, country, continent := Strip(line[0]), Strip(line[1]), Strip(line[2]);
      var found := Find(RowsOf(t.world.file), city, country);
      StripIsTrimmed(line[0]);
      StripIsTrimmed(line[1]);
      ResolveKeepsCache(answer, t.world, t.records, city, country, continent);
      if t'.fault.None? {
        forall i | 0 <= i < |t.records| && t.records[i].city == city && t.records[i].country == country
          ensures !t'.records[|t.records|].geocoded
        {
          assert IsHit(found);
        }
      }
    }
  }

  /** The invariant of a run whose store starts free of empty coordinates. */
  lemma {:induction false} RunKeepsCache(answer: string -> Option<LatLon>, w0: World, rows: seq<Row>)
    requires AnswersFilled(answer) && NoBlankCoordinates(RowsOf(w0.file))
    ensures var t := Run(answer, w0, rows);
      NoBlankCoordinates(RowsOf(t.world.file)) && KeysCached(t) && QueriedOnce(t.records)
  {
    if rows != [] {
      RunKeepsCache(answer, w0, rows[..|rows| - 1]);
      AdvanceKeepsCache(answer, Run(answer, w0, rows[..|rows| - 1]), rows[|rows| - 1]);
    }
  }

  /** At most one geocoder query per (city, country) key in a run: when the store holds
      no empty coordinate and the geocoder answers with non-empty ones, only the first
      row with a key can go to the geocoder; every later row with that key is a cache hit. */
  lemma {:induction false} EachKeyGeocodedOnce(answer: string -> Option<LatLon>, w0: World, rows: seq<Row>, i: nat, j: nat)
    requires AnswersFilled(answer) && NoBlankCoordinates(RowsOf(w0.file))
    requires i < j < |Run(answer, w0, rows).records|
    requires Run(answer, w0, rows).records[i].city == Run(answer, w0, rows).records[j].city
    requires Run(answer, w0, rows).records[i].country == Run(answer, w0, rows).records[j].country
    ensures !Run(answer, w0, rows).records[j].geocoded
  {
    RunKeepsCache(answer, w0, rows);
  }

  /** The same conditions cover rows the run does not get past: a row repeating the key of
      an earlier record is served from the store, so it sends no query, leaves the store as
      it is and cannot end the run with `NoLocation`. */
  lemma {:induction false} RepeatedKeyNotQueried(answer: string -> Option<LatLon>, w0: World, rows: seq<Row>, n: nat, i: nat)
    requires AnswersFilled(answer) && NoBlankCoordinates(RowsOf(w0.file))
    requires n < |rows| && |rows[n]| >= 4 && Run(answer, w0, rows[..n]).fault.None?
    requires i < |Run(answer, w0, rows[..n]).records|
    requires Run(answer, w0, rows[..n]).records[i].city == Strip(rows[n][0])
    requires Run(answer, w0, rows[..n]).records[i].country == Strip(rows[n][1])
    ensures var t := Run(answer, w0, rows[..n]);
      var t' := Run(answer, w0, rows[..n + 1]);
      && t'.fault.None? && t'.world == t.world
      && !t'.records[n].geocoded
  {
    var t := Run(answer, w0, rows[..n]);
    RunKeepsCache(answer, w0, rows[..n]);
    assert IsHit(Find(RowsOf(t.world.file), t.records[i].city, t.records[i].country));
    RunSnoc(answer, w0, rows, n);
  }

  /** On success the grouped map holds exactly the (continent, city) pairs of the data rows. */
  lemma {:induction false} ParsePairs(answer: string -> Option<LatLon>, w0: World, lines: seq<Row>, k: string, c: string)
    requires ParseOutcome(answer, w0, lines).0.Ok?
    ensures var rows := DataRows(lines);
      (HasPair(ParseOutcome(answer, w0, lines).0.value, k, c)
       <==> exists i :: 0 <= i < |rows| && |rows[i]| >= 4 && Strip(rows[i][2]) == k && Strip(rows[i][0]) == c)
  {
    var rows := DataRows(lines);
    var t := Run(answer, w0, rows);
    GroupPairs(t.records, k, c);
    forall i | 0 <= i < |rows|
      ensures |rows[i]| >= 4 && t.records[i].continent == Strip(rows[i][2]) && t.records[i].city == Strip(rows[i][0])
    {
      RunRecords(answer, w0, rows, i);
    }
  }

  /** On success the entry for the pair of data row `i`, when no earlier row has that
      pair, holds row `i`'s notes, the coordinates resolved for row `i`, and the fixed icon. */
  lemma {:induction false} ParseFirstWins(answer: string -> Option<LatLon>, w0: World, lines: seq<Row>, i: nat)
    requires ParseOutcome(answer, w0, lines).0.Ok?
    requires i < |DataRows(lines)| && forall j :: 0 <= j <= i ==> |DataRows(lines)[j]| >= 4
    requires var rows := DataRows(lines);
      forall j :: 0 <= j < i ==> Strip(rows[j][2]) != Strip(rows[i][2]) || Strip(rows[j][0]) != Strip(rows[i][0])
    ensures var rows := DataRows(lines);
      var g := ParseOutcome(answer, w0, lines).0.value;
      var k, c := Strip(rows[i][2]), Strip(rows[i][0]);
      var coord := Run(answer, w0, rows).records[i].coord;
      HasPair(g, k, c) && g.entries[k].entries[c] == Place(Strip(rows[i][3]), coord.latitude, coord.longitude, Colour)
  {
    var rows := DataRows(lines);
    var t := Run(answer, w0, rows);
    forall j | 0 <= j <= i
      ensures t.records[j].continent == Strip(rows[j][2]) && t.records[j].city == Strip(rows[j][0])
    {
      RunRecords(answer, w0, rows, j);
    }
    RunRecords(answer, w0, rows, i);
    GroupFirstWins(t.records, i);
  }

  /** On success continents, and the cities under each, appear in the order in which
      the records, that is the data rows, first mention them. */
  lemma {:induction false} ParseOrder(answer: string -> Option<LatLon>, w0: World, lines: seq<Row>)
    requires ParseOutcome(answer, w0, lines).0.Ok?
    ensures var t := Run(answer, w0, DataRows(lines));
      var g := ParseOutcome(answer, w0, lines).0.value;
      && g.keys == Dedup(Continents(t.records))
      && forall k :: k in g.entries ==> g.entries[k].keys == Dedup(CitiesIn(t.records, k))
  {
    var t := Run(answer, w0, DataRows(lines));
    GroupContinentOrder(t.records);
    forall k | k in Group(t.records).entries
      ensures Group(t.records).entries[k].keys == Dedup(CitiesIn(t.records, k))
    {
      GroupCityOrder(t.records, k);
    }
  }
}
