/** The concrete situations the repository's tests set up, evaluated in the model. */
module Scenarios {
  import opened Wrappers
  import opened Text
  import opened Cache
  import opened Geocoding
  import opened Service
  import opened Grouping
  import opened Aggregator

  /** The store the command-line test starts from. */
  function TestStore(): seq<Row> {
    [ ["Vienna", "Austria", "Europe", "48.2083537", "16.3725042"],
      ["Innsbruck", "Austria", "Europe", "47.2654296", "11.3927685"],
      ["Brussels", "Belgium", "Europe", "50.8465573", "4.351697"],
      ["Ghent", "Belgium", "Europe", "51.0538286", "3.7250121"] ]
  }

  /** The words of the test input have no surrounding whitespace. */
  lemma {:induction false} WordsAreTrimmed()
    ensures Strip("Vienna") == "Vienna" && Strip("Innsbruck") == "Innsbruck"
    ensures Strip("Austria") == "Austria" && Strip("Europe") == "Europe" && Strip("") == ""
  {
    PrintableIsNotSpace('V');
    PrintableIsNotSpace('a');
    PrintableIsNotSpace('I');
    PrintableIsNotSpace('k');
    PrintableIsNotSpace('A');
    PrintableIsNotSpace('E');
    PrintableIsNotSpace('e');
    StripFixesTrimmed("Vienna");
    StripFixesTrimmed("Innsbruck");
    StripFixesTrimmed("Austria");
    StripFixesTrimmed("Europe");
    StripFixesTrimmed("");
  }

  /** The single-row store of the lookup test gives back its coordinates, and an
      absent store file is a miss. */
  lemma {:induction false} LookupScenario()
    ensures Find([["Vienna", "Austria", "Europe", "48.2083537", "16.3725042"]], "Vienna", "Austria")
         == Found("48.2083537", "16.3725042")
    ensures Find(RowsOf(None), "NonExistentCity", "NonExistentCountry") == NotFound
  {
    WordsAreTrimmed();
    FindFirstMatch([["Vienna", "Austria", "Europe", "48.2083537", "16.3725042"]], "Vienna", "Austria", 0);
  }

  /** The first city of the command-line test is the first row of its store. */
  lemma {:induction false} ViennaInTestStore()
    ensures Find(TestStore(), "Vienna", "Austria") == Found("48.2083537", "16.3725042")
  {
    WordsAreTrimmed();
    FindFirstMatch(TestStore(), "Vienna", "Austria", 0);
  }

  /** The second city of the command-line test is the second row of its store. */
  lemma {:induction false} InnsbruckInTestStore()
    ensures Find(TestStore(), "Innsbruck", "Austria") == Found("47.2654296", "11.3927685")
  {
    WordsAreTrimmed();
    assert Skips(TestStore()[0], "Innsbruck", "Austria");
    FindFirstMatch(TestStore(), "Innsbruck", "Austria", 1);
  }

  /** Both cities of the command-line test are in its store. */
  lemma {:induction false} TestStoreFinds()
    ensures Find(TestStore(), "Vienna", "Austria") == Found("48.2083537", "16.3725042")
    ensures Find(TestStore(), "Innsbruck", "Austria") == Found("47.2654296", "11.3927685")
  {
    ViennaInTestStore();
    InnsbruckInTestStore();
  }

  /** Of two rows with one key, the earlier wins. */
  lemma {:induction false} FirstMatchScenario()
    ensures Find(TestStore() + [["Vienna", "Austria", "Europe", "0", "0"]], "Vienna", "Austria")
         == Found("48.2083537", "16.3725042")
  {
    TestStoreFinds();
    FindConcat(TestStore(), [["Vienna", "Austria", "Europe", "0", "0"]], "Vienna", "Austria");
  }

  /** The records the two cached input rows resolve to. */
  function ViennaRecord(): Record {
    Record("Vienna", "Austria", "Europe", "", LatLon("48.2083537", "16.3725042"), false)
  }

  function InnsbruckRecord(): Record {
    Record("Innsbruck", "Austria", "Europe", "", LatLon("47.2654296", "11.3927685"), false)
  }

  /** The first input row is a cache hit: one record, no query, the store untouched. */
  lemma {:induction false} CachedRunFirst(answer: string -> Option<LatLon>)
    ensures var w := World(Some(TestStore()), []);
      Run(answer, w, [["Vienna", "Austria", "Europe", ""]]) == Trace([ViennaRecord()], None, w)
  {
    var w := World(Some(TestStore()), []);
    var r1 := ["Vienna", "Austria", "Europe", ""];
    var noRows: seq<Row> := [];
    assert [r1][..0] == noRows;
    WordsAreTrimmed();
    TestStoreFinds();
    var t0 := Trace([], None, w);
    assert Run(answer, w, [r1]) == Advance(answer, t0, r1);
    AdvanceHit(answer, t0, r1);
    assert t0.records + [ViennaRecord()] == [ViennaRecord()];
  }

  /** Both input rows are cache hits: two records, no query, the store untouched. */
  lemma {:induction false} CachedRun(answer: string -> Option<LatLon>)
    ensures var w := World(Some(TestStore()), []);
      Run(answer, w, [["Vienna", "Austria", "Europe", ""], ["Innsbruck", "Austria", "Europe", ""]])
      == Trace([ViennaRecord(), InnsbruckRecord()], None, w)
  {
    var w := World(Some(TestStore()), []);
    var r1, r2 := ["Vienna", "Austria", "Europe", ""], ["Innsbruck", "Austria", "Europe", ""];
    assert [r1, r2][..1] == [r1];
    CachedRunFirst(answer);
    WordsAreTrimmed();
    TestStoreFinds();
    var t1 := Trace([ViennaRecord()], None, w);
    assert Run(answer, w, [r1, r2]) == Advance(answer, t1, r2);
    AdvanceHit(answer, t1, r2);
  }

  /** The grouping test: one Vienna row gives one continent holding one city, with the
      notes, the coordinates and the fixed icon. */
  lemma {:induction false} SingleRowGroup()
    ensures Group([ViennaRecord()])
         == OrderedMap(["Europe"], map["Europe" := OrderedMap(["Vienna"], map["Vienna" := Place("", "48.2083537", "16.3725042", Colour)])])
  {
    var rec := ViennaRecord();
    var noRecs: seq<Record> := [];
    assert [rec][..0] == noRecs;
    var g0: Grouped := OrderedMap([], map[]);
    assert Group([rec]) == AddFirst(g0, rec);
    var none: OrderedMap<Place> := OrderedMap([], map[]);
    assert Put(none, "Vienna", PlaceOf(rec)) == OrderedMap(["Vienna"], map["Vienna" := PlaceOf(rec)]);
  }

  /** Grouping the two records: one continent holding both cities in input order. */
  lemma {:induction false} CachedGroup()
    ensures var g := Group([ViennaRecord(), InnsbruckRecord()]);
      && g.keys == ["Europe"] && HasPair(g, "Europe", "Vienna")
      && g.entries["Europe"].keys == ["Vienna", "Innsbruck"]
      && g.entries["Europe"].entries["Vienna"] == Place("", "48.2083537", "16.3725042", Colour)
  {
    var rec1, rec2 := ViennaRecord(), InnsbruckRecord();
    assert [rec1, rec2][..1] == [rec1];
    var noRecs: seq<Record> := [];
    assert [rec1][..0] == noRecs;
    var g0: Grouped := OrderedMap([], map[]);
    assert Group([rec1]) == AddFirst(g0, rec1);
    var vienna1: OrderedMap<Place> := OrderedMap(["Vienna"], map["Vienna" := PlaceOf(rec1)]);
    var g1 := OrderedMap(["Europe"], map["Europe" := vienna1]);
    assert AddFirst(g0, rec1) == g1 by {
      var none: OrderedMap<Place> := OrderedMap([], map[]);
      assert Put(none, "Vienna", PlaceOf(rec1)) == vienna1;
      assert AddFirst(g0, rec1) == Put(g0, "Europe", vienna1);
    }
    assert Group([rec1, rec2]) == AddFirst(g1, rec2);
  }

  /** The command-line test's cached run: no geocoder query, one continent with both
      cities in input order. */
  lemma {:induction false} CachedRunScenario(answer: string -> Option<LatLon>)
    ensures var lines := [["City", "Country", "Continent", "Notes"],
                          ["Vienna", "Austria", "Europe", ""],
                          ["Innsbruck", "Austria", "Europe", ""]];
      var (r, w) := ParseOutcome(answer, World(Some(TestStore()), []), lines);
      && w == World(Some(TestStore()), [])
      && r.Ok? && r.value.keys == ["Europe"] && HasPair(r.value, "Europe", "Vienna")
      && r.value.entries["Europe"].keys == ["Vienna", "Innsbruck"]
      && r.value.entries["Europe"].entries["Vienna"] == Place("", "48.2083537", "16.3725042", Colour)
  {
    var r1, r2 := ["Vienna", "Austria", "Europe", ""], ["Innsbruck", "Austria", "Europe", ""];
    assert DataRows([["City", "Country", "Continent", "Notes"], r1, r2]) == [r1, r2];
    CachedRun(answer);
    CachedGroup();
  }

  /** The append test: the row written for an already-trimmed key is that key, the
      continent and the coordinates, in that order. */
  lemma {:induction false} AppendScenario()
    ensures StoreRow("NewCity", "NewCountry", "NewContinent", LatLon("12.34", "56.78"))
         == ["NewCity", "NewCountry", "NewContinent", "12.34", "56.78"]
  {
    PrintableIsNotSpace('N');
    PrintableIsNotSpace('y');
    PrintableIsNotSpace('t');
    StripFixesTrimmed("NewCity");
    StripFixesTrimmed("NewCountry");
    StripFixesTrimmed("NewContinent");
  }

  /** The query text the service sends for Vienna. */
  lemma {:induction false} ViennaQuery()
    ensures Query("Vienna", "Austria") == "Vienna, Austria"
  {
  }

  /** The query text the service sends for Abu Dhabi. */
  lemma {:induction false} AbuDhabiQuery()
    ensures Query("Abu Dhabi", "UAE") == "Abu Dhabi, UAE"
  {
  }

  /** The miss test: when the store has no row for the key, the service sends the one
      query `"Vienna, Austria"`, returns the geocoded pair and appends it with the
      caller's continent. */
  lemma {:induction false} MissScenario(answer: string -> Option<LatLon>, w: World)
    requires Find(RowsOf(w.file), "Vienna", "Austria") == NotFound
    requires answer("Vienna, Austria") == Some(LatLon("48.2083537", "16.3725042"))
    ensures var s := Resolve(answer, w, "Vienna", "Austria", "Europe");
      && s.result == Ok(LatLon("48.2083537", "16.3725042"))
      && s.world.queries == w.queries + ["Vienna, Austria"]
      && s.world.file == Some(RowsOf(w.file) + [["Vienna", "Austria", "Europe", "48.2083537", "16.3725042"]])
  {
    WordsAreTrimmed();
    ViennaQuery();
  }

  /** No row of the command-line test's store is about Abu Dhabi. */
  lemma {:induction false} AbuDhabiNotInTestStore()
    ensures Find(TestStore(), "Abu Dhabi", "UAE") == NotFound
  {
    PrintableIsNotSpace('V');
    PrintableIsNotSpace('a');
    PrintableIsNotSpace('I');
    PrintableIsNotSpace('k');
    PrintableIsNotSpace('B');
    PrintableIsNotSpace('s');
    PrintableIsNotSpace('G');
    PrintableIsNotSpace('t');
    StripFixesTrimmed("Vienna");
    StripFixesTrimmed("Innsbruck");
    StripFixesTrimmed("Brussels");
    StripFixesTrimmed("Ghent");
    FindMiss(TestStore(), "Abu Dhabi", "UAE");
  }

  /** The record of the third input row of the command-line test, geocoded to `c`. */
  function AbuDhabiRecord(c: LatLon): Record {
    Record("Abu Dhabi", "UAE", "Asia", "", c, true)
  }

  /** The third input row of the command-line test is a miss: it sends the one query
      `"Abu Dhabi, UAE"` and appends one row with the answer. */
  lemma {:induction false} AbuDhabiMiss(answer: string -> Option<LatLon>, c: LatLon)
    requires answer("Abu Dhabi, UAE") == Some(c)
    ensures var w := World(Some(TestStore()), []);
      var line := ["Abu Dhabi", "UAE", "Asia", ""];
      Advance(answer, Trace([ViennaRecord(), InnsbruckRecord()], None, w), line)
      == Trace([ViennaRecord(), InnsbruckRecord(), AbuDhabiRecord(c)], None,
               World(Some(TestStore() + [["Abu Dhabi", "UAE", "Asia", c.latitude, c.longitude]]), ["Abu Dhabi, UAE"]))
  {
    var w := World(Some(TestStore()), []);
    var line := ["Abu Dhabi", "UAE", "Asia", ""];
    var t := Trace([ViennaRecord(), InnsbruckRecord()], None, w);
    PrintableIsNotSpace('A');
    PrintableIsNotSpace('i');
    PrintableIsNotSpace('U');
    PrintableIsNotSpace('E');
    PrintableIsNotSpace('a');
    StripFixesTrimmed("Abu Dhabi");
    StripFixesTrimmed("UAE");
    StripFixesTrimmed("Asia");
    StripFixesTrimmed("");
    AbuDhabiNotInTestStore();
    AbuDhabiQuery();
    var s := Resolve(answer, w, "Abu Dhabi", "UAE", "Asia");
    assert s == Step(Ok(c), World(Some(TestStore() + [StoreRow("Abu Dhabi", "UAE", "Asia", c)]), ["Abu Dhabi, UAE"]));
    AdvanceStep(answer, t, line, s);
  }

  /** The rows of the command-line test's input file after its header. */
  function CliRows(): seq<Row> {
    [["Vienna", "Austria", "Europe", ""], ["Innsbruck", "Austria", "Europe", ""], ["Abu Dhabi", "UAE", "Asia", ""]]
  }

  /** The run over the command-line test's rows: two hits, then one miss. */
  lemma {:induction false} CliRun(answer: string -> Option<LatLon>, c: LatLon)
    requires answer("Abu Dhabi, UAE") == Some(c)
    ensures Run(answer, World(Some(TestStore()), []), CliRows())
         == Trace([ViennaRecord(), InnsbruckRecord(), AbuDhabiRecord(c)], None,
                  World(Some(TestStore() + [["Abu Dhabi", "UAE", "Asia", c.latitude, c.longitude]]), ["Abu Dhabi, UAE"]))
  {
    var w := World(Some(TestStore()), []);
    var rows := CliRows();
    assert rows[..2] == [rows[0], rows[1]];
    assert Run(answer, w, rows) == Advance(answer, Run(answer, w, rows[..2]), rows[2]);
    CachedRun(answer);
    AbuDhabiMiss(answer, c);
  }

  /** Grouping the command-line test's records: Europe with Vienna and Innsbruck, then
      Asia with Abu Dhabi. */
  lemma {:induction false} CliGroup(c: LatLon)
    ensures var g := Group([ViennaRecord(), InnsbruckRecord(), AbuDhabiRecord(c)]);
      && g.keys == ["Europe", "Asia"]
      && "Europe" in g.entries && g.entries["Europe"].keys == ["Vienna", "Innsbruck"]
      && HasPair(g, "Asia", "Abu Dhabi") && g.entries["Asia"].keys == ["Abu Dhabi"]
      && g.entries["Asia"].entries["Abu Dhabi"] == Place("", c.latitude, c.longitude, Colour)
  {
    var cached := [ViennaRecord(), InnsbruckRecord()];
    assert [ViennaRecord(), InnsbruckRecord(), AbuDhabiRecord(c)] == cached + [AbuDhabiRecord(c)];
    GroupSnoc(cached, AbuDhabiRecord(c));
    CachedGroup();
    GroupContinents(cached, "Asia");
    assert "Asia" !in Continents(cached);
    var none: OrderedMap<Place> := Empty();
    assert AddFirst(Group(cached), AbuDhabiRecord(c))
        == Put(Group(cached), "Asia", Put(none, "Abu Dhabi", PlaceOf(AbuDhabiRecord(c))));
  }

  /** The whole command-line test: header, two cached rows and one miss give one query,
      one appended row, and Europe with Vienna and Innsbruck before Asia with Abu Dhabi. */
  lemma {:induction false} CliScenario(answer: string -> Option<LatLon>, c: LatLon)
    requires answer("Abu Dhabi, UAE") == Some(c)
    ensures var lines := [["City", "Country", "Continent", "Notes"]] + CliRows();
      var (r, w) := ParseOutcome(answer, World(Some(TestStore()), []), lines);
      && w == World(Some(TestStore() + [["Abu Dhabi", "UAE", "Asia", c.latitude, c.longitude]]), ["Abu Dhabi, UAE"])
      && r == Ok(Group([ViennaRecord(), InnsbruckRecord(), AbuDhabiRecord(c)]))
  {
    assert DataRows([["City", "Country", "Continent", "Notes"]] + CliRows()) == CliRows();
    CliRun(answer, c);
  }
}
