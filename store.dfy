/** The coordinate store: the append-only CSV cache `city_country_data_base.csv`
    whose rows are `city, country, continent, latitude, longitude`. */
module Cache {
  import opened Wrappers
  import opened Text

  /** A CSV row: its fields, in order. */
  type Row = seq<string>

  /** A coordinate pair, as the text the CSV file holds. */
  datatype LatLon = LatLon(latitude: string, longitude: string)

  /** The exceptions the program can raise and nothing catches. */
  datatype Fault =
    | StoreRowTooShort  // IndexError: a store row lacks a field the lookup reads
    | InputRowTooShort  // ValueError: an input row has fewer than four fields
    | NoLocation        // AttributeError: the geocoder found nothing

  /** What a lookup gives back: the latitude and longitude fields of the first
      matching row, the `(None, None)` of a miss, or an exception. */
  datatype LookupResult = Found(lat: string, lon: string) | NotFound | Failed(fault: Fault)

  /** The lookup inspects `row` and moves on to the next one without an index error:
      the row has a city field, and either the trimmed city differs, or there is a
      country field and the trimmed country differs. */
  predicate Skips(row: Row, city: string, country: string) {
    |row| >= 1 && (Strip(row[0]) != city || (|row| >= 2 && Strip(row[1]) != country))
  }

  /** The trimmed city and country fields of `row` are `city` and `country`. */
  predicate KeyMatches(row: Row, city: string, country: string) {
    |row| >= 2 && Strip(row[0]) == city && Strip(row[1]) == country
  }

  /** Every row has all five fields: what the program itself writes. */
  ghost predicate WellFormed(rows: seq<Row>) {
    forall j :: 0 <= j < |rows| ==> |rows[j]| >= 5
  }

  /** What the scan does at one row: move on, or stop with a result. */
  datatype Verdict = Next | Stop(result: LookupResult)

  /** One step of the scan of `get_coordinates_from_db`: the city field is read
      first, the country field only when the city matches, and fields 3 and 4 only
      when both match; reading a missing field raises. */
  function Inspect(row: Row, city: string, country: string): Verdict {
    if |row| == 0 then Stop(Failed(StoreRowTooShort))
    else if Strip(row[0]) != city then Next
    else if |row| < 2 then Stop(Failed(StoreRowTooShort))
    else if Strip(row[1]) != country then Next
    else if |row| < 5 then Stop(Failed(StoreRowTooShort))
    else Stop(Found(row[3], row[4]))
  }

  /** The scan of `get_coordinates_from_db`, in file order, stopping at the first
      row that is not skipped. */
  function Find(rows: seq<Row>, city: string, country: string): LookupResult
  {
    if rows == [] then NotFound
    else match Inspect(rows[0], city, country)
      case Next => Find(rows[1..], city, country)
      case Stop(r) => r
  }

  /** A row is skipped exactly when the scan moves on past it. */
  lemma {:induction false} InspectNext(row: Row, city: string, country: string)
    ensures Inspect(row, city, country) == Next <==> Skips(row, city, country)
  {
  }

  /** No row of the store has an empty latitude or longitude field. */
  ghost predicate NoBlankCoordinates(rows: seq<Row>) {
    forall j :: 0 <= j < |rows| && |rows[j]| >= 5 ==> rows[j][3] != "" && rows[j][4] != ""
  }

  /** The row `add_coordinates_to_db` writes: the trimmed city, country and
      continent, then the coordinates as given. */
  function StoreRow(city: string, country: string, continent: string, c: LatLon): Row {
    [Strip(city), Strip(country), Strip(continent), c.latitude, c.longitude]
  }

  /** The written row has all five fields, carries the coordinates in fields 3 and 4,
      and is found again under the trimmed key it was written for. */
  lemma {:induction false} StoreRowMatches(city: string, country: string, continent: string, c: LatLon)
    ensures var row := StoreRow(city, country, continent, c);
      |row| == 5 && row[3] == c.latitude && row[4] == c.longitude
      && KeyMatches(row, Strip(city), Strip(country))
  {
    StripIdempotent(city);
    StripIdempotent(country);
  }

  /** The rows of the store file; an absent file holds none. */
  function RowsOf(file: Option<seq<Row>>): seq<Row> {
    if file.Some? then file.value else []
  }

  class Store {
    /** `None` while the cache file does not exist. */
    var file: Option<seq<Row>>

    function Rows(): seq<Row>
      reads this
    {
      RowsOf(file)
    }

    constructor (initial: Option<seq<Row>>)
      ensures file == initial
    {
      file := initial;
    }

    /** `get_coordinates_from_db`: scans the rows from the start and returns at
        the first row whose trimmed city and country are the arguments. */
    method Lookup(city: string, country: string) returns (r: LookupResult)
      ensures r == Find(Rows(), city, country)
    {
      var rows := RowsOf(file);
      var i := 0;
      while i < |rows|
        invariant 0 <= i <= |rows|
        invariant Find(rows[i..], city, country) == Find(rows, city, country)
      {
        var line := rows[i];
        assert rows[i..][0] == line && rows[i..][1..] == rows[i + 1..];
        if |line| == 0 {
          return Failed(StoreRowTooShort);
        }
        if Strip(line[0]) == city {
          if |line| < 2 {
            return Failed(StoreRowTooShort);
          }
          if Strip(line[1]) == country {
            if |line| < 5 {
              return Failed(StoreRowTooShort);
            }
            return Found(line[3], line[4]);
          }
        }
        i := i + 1;
      }
      return NotFound;
    }

    /** `add_coordinates_to_db`: opens the file for appending (creating it if it is
        absent) and writes one trimmed row at the end; no duplicate check. */
    method Append(city: string, country: string, continent: string, c: LatLon)
      modifies this
      ensures file == Some(old(Rows()) + [StoreRow(city, country, continent, c)])
    {
      file := Some(RowsOf(file) + [StoreRow(city, country, continent, c)]);
    }
  }

  /** A miss is exactly a scan that skips every row. */
  lemma {:induction false} FindMiss(rows: seq<Row>, city: string, country: string)
    ensures Find(rows, city, country) == NotFound <==> forall j :: 0 <= j < |rows| ==> Skips(rows[j], city, country)
  {
    if rows != [] {
      FindMiss(rows[1..], city, country);
      if Skips(rows[0], city, country) {
        forall j | 1 <= j < |rows| ensures Skips(rows[j], city, country) == Skips(rows[1..][j - 1], city, country) {
        }
      }
    }
  }

  /** First match wins: when row `i` matches the key and every earlier row is skipped,
      the lookup returns fields 3 and 4 of row `i`, whatever later rows hold. */
  lemma {:induction false} FindFirstMatch(rows: seq<Row>, city: string, country: string, i: nat)
    requires i < |rows| && KeyMatches(rows[i], city, country) && |rows[i]| >= 5
    requires forall j :: 0 <= j < i ==> Skips(rows[j], city, country)
    ensures Find(rows, city, country) == Found(rows[i][3], rows[i][4])
  {
    if i > 0 {
      assert Skips(rows[0], city, country);
      FindFirstMatch(rows[1..], city, country, i - 1);
    }
  }

  /** Conversely, a lookup that finds something returns fields 3 and 4 of a row that has
      five fields and matches the key, and every row before it is skipped. */
  lemma {:induction false} FindFound(rows: seq<Row>, city: string, country: string, a: string, b: string)
    requires Find(rows, city, country) == Found(a, b)
    ensures exists i :: 0 <= i < |rows| && |rows[i]| >= 5 && KeyMatches(rows[i], city, country)
                        && rows[i][3] == a && rows[i][4] == b
                        && forall j :: 0 <= j < i ==> Skips(rows[j], city, country)
  {
    InspectNext(rows[0], city, country);
    if Inspect(rows[0], city, country) == Next {
      FindFound(rows[1..], city, country, a, b);
      var i :| 0 <= i < |rows[1..]| && |rows[1..][i]| >= 5 && KeyMatches(rows[1..][i], city, country)
               && rows[1..][i][3] == a && rows[1..][i][4] == b
               && forall j :: 0 <= j < i ==> Skips(rows[1..][j], city, country);
      forall j | 0 <= j < i + 1 ensures Skips(rows[j], city, country) {
        if j > 0 {
          assert rows[j] == rows[1..][j - 1];
        }
      }
      assert rows[i + 1] == rows[1..][i];
    }
  }

  /** Rows after the first one that stops the scan are never consulted; when the
      scan runs through `a`, the result is the scan of `b`. */
  lemma {:induction false} FindConcat(a: seq<Row>, b: seq<Row>, city: string, country: string)
    ensures Find(a + b, city, country)
         == if Find(a, city, country) == NotFound then Find(b, city, country) else Find(a, city, country)
  {
    if a != [] {
      assert (a + b)[1..] == a[1..] + b;
      FindConcat(a[1..], b, city, country);
    } else {
      assert a + b == b;
    }
  }

  /** Round trip: looking up what was just appended, under its trimmed key, gives the
      appended coordinates unless an earlier row already stops the scan. */
  lemma {:induction false} AppendThenFind(rows: seq<Row>, city: string, country: string, continent: string, c: LatLon)
    ensures var k1, k2 := Strip(city), Strip(country);
      Find(rows + [StoreRow(city, country, continent, c)], k1, k2)
        == if Find(rows, k1, k2) == NotFound then Found(c.latitude, c.longitude) else Find(rows, k1, k2)
  {
    var row := StoreRow(city, country, continent, c);
    StoreRowMatches(city, country, continent, c);
    FindConcat(rows, [row], Strip(city), Strip(country));
    assert Find([row], Strip(city), Strip(country)) == Found(c.latitude, c.longitude);
  }

  /** The continent field plays no part in a lookup. */
  lemma {:induction false} FindIgnoresContinent(rows: seq<Row>, i: nat, v: string, city: string, country: string)
    requires i < |rows| && |rows[i]| > 2
    ensures Find(rows[i := rows[i][2 := v]], city, country) == Find(rows, city, country)
  {
    var row := rows[i][2 := v];
    var rows' := rows[i := row];
    if i > 0 {
      assert rows'[0] == rows[0];
      assert rows'[1..] == rows[1..][i - 1 := row];
      FindIgnoresContinent(rows[1..], i - 1, v, city, country);
    } else {
      assert Inspect(row, city, country) == Inspect(rows[0], city, country);
      assert rows'[1..] == rows[1..];
    }
  }

  /** In a well-formed store a lookup never raises, and a row is skipped exactly when
      its key differs. */
  lemma {:induction false} FindWellFormed(rows: seq<Row>, city: string, country: string)
    requires WellFormed(rows)
    ensures !Find(rows, city, country).Failed?
    ensures forall j :: 0 <= j < |rows| ==> (Skips(rows[j], city, country) <==> !KeyMatches(rows[j], city, country))
  {
    if rows != [] {
      FindWellFormed(rows[1..], city, country);
    }
  }

  /** In a store without empty coordinate fields, whatever the lookup finds is non-empty. */
  lemma {:induction false} FoundIsFilled(rows: seq<Row>, city: string, country: string)
    requires NoBlankCoordinates(rows) && Find(rows, city, country).Found?
    ensures Find(rows, city, country).lat != "" && Find(rows, city, country).lon != ""
  {
    if Inspect(rows[0], city, country).Next? {
      FoundIsFilled(rows[1..], city, country);
    }
  }
}
