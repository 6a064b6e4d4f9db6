/** The aggregator `parse_country_list`: reads the input rows after the header,
    resolves each row's coordinates through the service and groups the rows by
    continent and city, first occurrence winning. */
module Aggregator {
  import opened Wrappers
  import opened Text
  import opened Cache
  import opened Geocoding
  import opened Service
  import opened Grouping

  /** `next(lines, None)`: the header row, if any, is skipped. */
  function DataRows(lines: seq<Row>): (rows: seq<Row>)
    ensures lines != [] ==> rows == lines[1..]
    ensures lines == [] ==> rows == []
  {
    if lines == [] then [] else lines[1..]
  }

  /** How far a run got: the records of the rows processed so far, the fault
      that ended it if one did, and the state of store and query log. */
  datatype Trace = Trace(records: seq<Record>, fault: Option<Fault>, world: World)

  /** The geocoder queries of the records that were not served from the store. */
  function MissQueries(recs: seq<Record>): seq<string> {
    if recs == [] then []
    else
      var r := recs[|recs| - 1];
      MissQueries(recs[..|recs| - 1]) + (if r.geocoded then [Query(r.city, r.country)] else [])
  }

  /** One pass of the loop of `parse_country_list` over one more row. */
  function Advance(answer: string -> Option<LatLon>, t: Trace, line: Row): (t': Trace)
    ensures t.records <= t'.records && |t'.records| <= |t.records| + 1
    ensures t'.fault.None? ==> t.fault.None? && |t'.records| == |t.records| + 1
    ensures |t'.records| == |t.records| + 1 ==>
              var r := t'.records[|t.records|];
              && |line| >= 4
              && r.city == Strip(line[0]) && r.country == Strip(line[1])
              && r.continent == Strip(line[2]) && r.notes == Strip(line[3])
    ensures t'.fault.None? ==>
              var r := t'.records[|t.records|];
              t'.world.queries == t.world.queries + (if r.geocoded then [Query(r.city, r.country)] else [])
    ensures RowsOf(t.world.file) <= RowsOf(t'.world.file)
  {
    if t.fault.Some? then t
    else if |line| < 4 then t.(fault := Some(InputRowTooShort))
    else
      var city, country, continent, notes := Strip(line[0]), Strip(line[1]), Strip(line[2]), Strip(line[3]);
      var found := Find(RowsOf(t.world.file), city, country);
      var s := Resolve(answer, t.world, city, country, continent);
      match s.result
      case Err(f) => Trace(t.records, Some(f), s.world)
      case Ok(c) => Trace(t.records + [Record(city, country, continent, notes, c, !IsHit(found))], None, s.world)
  }

  /** The rows processed in order from state `w0`, each through `get_city_coordinates`,
      stopping at the first exception. */
  function Run(answer: string -> Option<LatLon>, w0: World, rows: seq<Row>): (t: Trace)
    ensures |t.records| <= |rows| && (t.fault.None? ==> |t.records| == |rows|)
  {
    if rows == [] then Trace([], None, w0)
    else Advance(answer, Run(answer, w0, rows[..|rows| - 1]), rows[|rows| - 1])
  }

  /** Every input row is resolved, duplicates included: record `i` carries the trimmed
      city, country, continent and notes of data row `i`. */
  lemma {:induction false} RunRecords(answer: string -> Option<LatLon>, w0: World, rows: seq<Row>, i: nat)
    requires i < |Run(answer, w0, rows).records|
    ensures var r := Run(answer, w0, rows).records[i];
      && |rows[i]| >= 4
      && r.city == Strip(rows[i][0]) && r.country == Strip(rows[i][1])
      && r.continent == Strip(rows[i][2]) && r.notes == Strip(rows[i][3])
  {
    var p := rows[..|rows| - 1];
    var t := Run(answer, w0, p);
    var t' := Run(answer, w0, rows);
    assert t' == Advance(answer, t, rows[|rows| - 1]);
    if i < |t.records| {
      RunRecords(answer, w0, p, i);
      assert p[i] == rows[i];
      assert t'.records[i] == t.records[i];
    } else {
      assert i == |t.records| == |rows| - 1 && |t'.records| == |t.records| + 1;
    }
  }

  /** The geocoder is queried once for each record not served from the store, in
      order, and for nothing else; the store only grows at its end. */
  lemma {:induction false} RunQueries(answer: string -> Option<LatLon>, w0: World, rows: seq<Row>)
    ensures var t := Run(answer, w0, rows);
      && (t.fault.None? ==> t.world.queries == w0.queries + MissQueries(t.records))
      && RowsOf(w0.file) <= RowsOf(t.world.file)
  {
    if rows != [] {
      var p := rows[..|rows| - 1];
      RunQueries(answer, w0, p);
      var t := Run(answer, w0, p);
      var t' := Run(answer, w0, rows);
      if t'.fault.None? {
        assert t'.records[..|t'.records| - 1] == t.records;
      }
    }
  }

  /** The value `parse_country_list` returns (or the exception it raises) and the
      state it leaves, for input rows `lines` including the header. */
  function ParseOutcome(answer: string -> Option<LatLon>, w0: World, lines: seq<Row>): (Result<Grouped, Fault>, World) {
    var t := Run(answer, w0, DataRows(lines));
    (if t.fault.Some? then Err(t.fault.value) else Ok(Group(t.records)), t.world)
  }

  /** `generate_template` hands the grouped map to the renderer under the single key `map_data`. */
  function TemplateData(g: Grouped): (data: map<string, Grouped>)
    ensures data.Keys == {"map_data"} && data["map_data"] == g
  {
    map["map_data" := g]
  }

  /** The run over one more row is one more step of the run. */
  lemma {:induction false} RunSnoc(answer: string -> Option<LatLon>, w0: World, rows: seq<Row>, i: nat)
    requires i < |rows|
    ensures Run(answer, w0, rows[..i + 1]) == Advance(answer, Run(answer, w0, rows[..i]), rows[i])
  {
    assert rows[..i + 1][..i] == rows[..i];
  }

  /** A step over a row with four fields is decided by the service's answer for it. */
  lemma {:induction false} AdvanceStep(answer: string -> Option<LatLon>, t: Trace, line: Row, s: Step)
    requires t.fault.None? && |line| >= 4
    requires s == Resolve(answer, t.world, Strip(line[0]), Strip(line[1]), Strip(line[2]))
    ensures var city, country := Strip(line[0]), Strip(line[1]);
      Advance(answer, t, line)
      == match s.result
         case Err(f) => Trace(t.records, Some(f), s.world)
         case Ok(c) =>
           var found := Find(RowsOf(t.world.file), city, country);
           Trace(t.records + [Record(city, country, Strip(line[2]), Strip(line[3]), c, !IsHit(found))], None, s.world)
  {
  }

  /** A row whose key is a cache hit adds its record and leaves the world as it was. */
  lemma {:induction false} AdvanceHit(answer: string -> Option<LatLon>, t: Trace, line: Row)
    requires t.fault.None? && |line| >= 4
    requires IsHit(Find(RowsOf(t.world.file), Strip(line[0]), Strip(line[1])))
    ensures var f := Find(RowsOf(t.world.file), Strip(line[0]), Strip(line[1]));
      Advance(answer, t, line)
      == Trace(t.records + [Record(Strip(line[0]), Strip(line[1]), Strip(line[2]), Strip(line[3]),
                                   LatLon(f.lat, f.lon), false)], None, t.world)
  {
  }

  /** Once a run has stopped, further rows change nothing. */
  lemma {:induction false} RunStops(answer: string -> Option<LatLon>, w0: World, rows: seq<Row>, n: nat)
    requires n <= |rows| && Run(answer, w0, rows[..n]).fault.Some?
    ensures Run(answer, w0, rows) == Run(answer, w0, rows[..n])
  {
    if n < |rows| {
      var p := rows[..|rows| - 1];
      assert p[..n] == rows[..n];
      RunStops(answer, w0, p, n);
    } else {
      assert rows[..n] == rows;
    }
  }

  /** The body of the loop of `parse_country_list` for one input row: the row's fields
      are trimmed, its coordinates resolved, and its city added to its continent unless
      it is there already. The outcome is one step of `Advance`. */
  method AddRow(store: Store, geocoder: Geocoder, continentData: Grouped, line: Row, ghost records: seq<Record>)
    returns (r: Result<Grouped, Fault>)
    requires continentData == Group(records)
    modifies store, geocoder
    ensures var t := Advance(geocoder.answer, Trace(records, None, World(old(store.file), old(geocoder.queries))), line);
      && World(store.file, geocoder.queries) == t.world
      && r == if t.fault.Some? then Err(t.fault.value) else Ok(Group(t.records))
  {
    ghost var t := Trace(records, None, World(store.file, geocoder.queries));
    if |line| < 4 {
      return Err(InputRowTooShort);
    }
    var city, country, continent, notes := Strip(line[0]), Strip(line[1]), Strip(line[2]), Strip(line[3]);
    ghost var found := Find(store.Rows(), city, country);
    var coords := GetCityCoordinates(store, geocoder, city, country, continent);
    ghost var s := Step(coords, World(store.file, geocoder.queries));
    AdvanceStep(geocoder.answer, t, line, s);
    if coords.Err? {
      return Err(coords.error);
    }
    var c := coords.value;
    var cities := if continent in continentData.entries then continentData.entries[continent] else Empty();
    ghost var rec := Record(city, country, continent, notes, c, !IsHit(found));
    r := Ok(continentData);
    if city !in cities.entries {
      r := Ok(Put(continentData, continent, Put(cities, city, Place(notes, c.latitude, c.longitude, Colour))));
    }
    assert r.value == AddFirst(Group(records), rec);
    GroupSnoc(records, rec);
  }

  /** `parse_country_list`: the grouped map and the new store and query log are the
      ones `ParseOutcome` gives for the old store and query log. */
  method ParseCountryList(store: Store, geocoder: Geocoder, lines: seq<Row>) returns (r: Result<Grouped, Fault>)
    modifies store, geocoder
    ensures (r, World(store.file, geocoder.queries))
         == ParseOutcome(geocoder.answer, World(old(store.file), old(geocoder.queries)), lines)
  {
    ghost var w0 := World(store.file, geocoder.queries);
    ghost var answer := geocoder.answer;
    var data := DataRows(lines);
    var continentData: Grouped := Empty();
    ghost var records: seq<Record> := [];
    var i := 0;
    while i < |data|
      invariant 0 <= i <= |data|
      invariant Run(answer, w0, data[..i]) == Trace(records, None, World(store.file, geocoder.queries))
      invariant continentData == Group(records)
    {
      ghost var t := Advance(answer, Trace(records, None, World(store.file, geocoder.queries)), data[i]);
      var added := AddRow(store, geocoder, continentData, data[i], records);
      RunSnoc(answer, w0, data, i);
      if added.Err? {
        RunStops(answer, w0, data, i + 1);
        return Err(added.error);
      }
      continentData := added.value;
      records := t.records;
      i := i + 1;
    }
    assert data[..i] == data;
    return Ok(continentData);
  }
}
