/** The continent -> city -> placemark structure `parse_country_list` builds, with
    Python's insertion-ordered dictionaries. */
module Grouping {
  import opened Cache

  /** The icon every placemark is given. */
  const Colour := "#icon-1899-0288D1-nodesc"

  /** The attributes stored for one city: `{Notes, latitude, longitude, Colour}`. */
  datatype Place = Place(notes: string, latitude: string, longitude: string, colour: string)

  /** A dictionary with string keys that remembers insertion order, as Python's `dict` does. */
  datatype OrderedMap<V> = OrderedMap(keys: seq<string>, entries: map<string, V>)

  /** The keys are listed once each, and they are exactly the keys of the entries. */
  ghost predicate Valid<V>(m: OrderedMap<V>) {
    && (forall i, j :: 0 <= i < j < |m.keys| ==> m.keys[i] != m.keys[j])
    && (forall k :: k in m.entries <==> k in m.keys)
  }

  function Empty<V>(): OrderedMap<V> {
    OrderedMap([], map[])
  }

  /** `m[k] = v`: a new key goes to the end, an existing key keeps its place. */
  function Put<V>(m: OrderedMap<V>, k: string, v: V): OrderedMap<V> {
    if k in m.entries then m.(entries := m.entries[k := v])
    else OrderedMap(m.keys + [k], m.entries[k := v])
  }

  /** The grouped map: continent -> city -> place. */
  type Grouped = OrderedMap<OrderedMap<Place>>

  /** Both levels are valid. */
  ghost predicate WellGrouped(g: Grouped) {
    Valid(g) && forall k :: k in g.entries ==> Valid(g.entries[k])
  }

  /** One input row after lookup: its trimmed fields, the coordinates the service
      returned, and whether the service had to query the geocoder for them. */
  datatype Record = Record(city: string, country: string, continent: string, notes: string,
                           coord: LatLon, geocoded: bool)

  function PlaceOf(r: Record): Place {
    Place(r.notes, r.coord.latitude, r.coord.longitude, Colour)
  }

  /** Records `r` into `g` unless its (continent, city) pair is there already:
      `if city not in continent_data[continent]: continent_data[continent][city] = {...}`. */
  function AddFirst(g: Grouped, r: Record): Grouped {
    var cities := if r.continent in g.entries then g.entries[r.continent] else Empty();
    if r.city in cities.entries then g
    else Put(g, r.continent, Put(cities, r.city, PlaceOf(r)))
  }

  /** The grouped map after adding `recs` in order to an empty one. */
  function Group(recs: seq<Record>): Grouped {
    if recs == [] then Empty() else AddFirst(Group(recs[..|recs| - 1]), recs[|recs| - 1])
  }

  /** Grouping one more record is adding it to the grouped map of the others. */
  lemma {:induction false} GroupSnoc(recs: seq<Record>, r: Record)
    ensures Group(recs + [r]) == AddFirst(Group(recs), r)
  {
    assert (recs + [r])[..|recs|] == recs;
  }

  /** Assigning a key keeps the key list duplicate-free and in step with the entries:
      a new key is listed once, at the end, and an existing key keeps its place. */
  lemma {:induction false} PutValid<V>(m: OrderedMap<V>, k: string, v: V)
    requires Valid(m)
    ensures Valid(Put(m, k, v))
    ensures Put(m, k, v).entries == m.entries[k := v]
    ensures k in m.entries ==> Put(m, k, v).keys == m.keys
    ensures k !in m.entries ==> Put(m, k, v).keys == m.keys + [k]
  {
    if k !in m.entries {
      var r := Put(m, k, v);
      forall i, j | 0 <= i < j < |r.keys| ensures r.keys[i] != r.keys[j] {
        if j == |m.keys| {
          assert r.keys[i] == m.keys[i];
        } else {
          assert r.keys[i] == m.keys[i] && r.keys[j] == m.keys[j];
        }
      }
    }
  }

  /** Adding a record keeps both levels of the grouped map valid. */
  lemma {:induction false} AddFirstWellGrouped(g: Grouped, r: Record)
    requires WellGrouped(g)
    ensures WellGrouped(AddFirst(g, r))
  {
    var cities := if r.continent in g.entries then g.entries[r.continent] else Empty();
    assert Valid(cities);
    if r.city !in cities.entries {
      var inner := Put(cities, r.city, PlaceOf(r));
      PutValid(cities, r.city, PlaceOf(r));
      PutValid(g, r.continent, inner);
    }
  }

  /** The grouped map `parse_country_list` builds is valid at both levels. */
  lemma {:induction false} GroupWellGrouped(recs: seq<Record>)
    ensures WellGrouped(Group(recs))
  {
    if recs != [] {
      GroupWellGrouped(recs[..|recs| - 1]);
      AddFirstWellGrouped(Group(recs[..|recs| - 1]), recs[|recs| - 1]);
    }
  }

  /** The continent of each record, in order. */
  function Continents(recs: seq<Record>): (s: seq<string>)
    ensures |s| == |recs| && forall i :: 0 <= i < |recs| ==> s[i] == recs[i].continent
  {
    if recs == [] then [] else Continents(recs[..|recs| - 1]) + [recs[|recs| - 1].continent]
  }

  /** The cities of the records on continent `k`, in order. */
  function CitiesIn(recs: seq<Record>, k: string): (s: seq<string>)
    ensures forall c :: c in s <==> exists i :: 0 <= i < |recs| && recs[i].continent == k && recs[i].city == c
  {
    if recs == [] then []
    else
      var p := CitiesIn(recs[..|recs| - 1], k);
      var r := recs[|recs| - 1];
      assert forall i :: 0 <= i < |recs| - 1 ==> recs[..|recs| - 1][i] == recs[i];
      if r.continent == k then p + [r.city] else p
  }

  /** The elements of `s` in the order of their first occurrence, each once. */
  function Dedup(s: seq<string>): (d: seq<string>)
    ensures forall x :: x in d <==> x in s
    ensures forall i, j :: 0 <= i < j < |d| ==> d[i] != d[j]
  {
    if s == [] then []
    else
      var p := Dedup(s[..|s| - 1]);
      var x := s[|s| - 1];
      assert s == s[..|s| - 1] + [x];
      if x in p then p else p + [x]
  }

  /** The grouped map has an entry for city `c` under continent `k`. */
  predicate HasPair(g: Grouped, k: string, c: string) {
    k in g.entries && c in g.entries[k].entries
  }

  /** The grouped map holds a continent exactly when some record is on it. */
  lemma {:induction false} GroupContinents(recs: seq<Record>, k: string)
    ensures k in Group(recs).entries <==> k in Continents(recs)
  {
    if recs != [] {
      GroupContinents(recs[..|recs| - 1], k);
    }
  }

  /** Adding a record adds its pair and keeps every pair that was there, with its place. */
  lemma {:induction false} AddFirstPairs(g: Grouped, r: Record, k: string, c: string)
    ensures HasPair(AddFirst(g, r), k, c) <==> HasPair(g, k, c) || (k == r.continent && c == r.city)
    ensures HasPair(g, k, c) ==> AddFirst(g, r).entries[k].entries[c] == g.entries[k].entries[c]
    ensures !HasPair(g, k, c) && k == r.continent && c == r.city ==> AddFirst(g, r).entries[k].entries[c] == PlaceOf(r)
  {
  }

  /** The grouped map holds exactly the (continent, city) pairs of the records. */
  lemma {:induction false} GroupPairs(recs: seq<Record>, k: string, c: string)
    ensures HasPair(Group(recs), k, c) <==> exists i :: 0 <= i < |recs| && recs[i].continent == k && recs[i].city == c
  {
    if recs != [] {
      var n := |recs| - 1;
      var p := recs[..n];
      GroupPairs(p, k, c);
      AddFirstPairs(Group(p), recs[n], k, c);
      if HasPair(Group(recs), k, c) {
        if HasPair(Group(p), k, c) {
          var i :| 0 <= i < |p| && p[i].continent == k && p[i].city == c;
          assert recs[i] == p[i];
        } else {
          assert recs[n].continent == k && recs[n].city == c;
        }
      } else {
        forall i | 0 <= i < |recs| ensures recs[i].continent != k || recs[i].city != c {
          if i < n {
            assert recs[i] == p[i];
          }
        }
      }
    }
  }

  /** First occurrence wins: the place stored for a pair is the one of the first record
      with that pair, and no later record with the same pair overwrites it. */
  lemma {:induction false} GroupFirstWins(recs: seq<Record>, i: nat)
    requires i < |recs|
    requires forall j :: 0 <= j < i ==> recs[j].continent != recs[i].continent || recs[j].city != recs[i].city
    ensures HasPair(Group(recs), recs[i].continent, recs[i].city)
    ensures Group(recs).entries[recs[i].continent].entries[recs[i].city] == PlaceOf(recs[i])
  {
    var p := recs[..|recs| - 1];
    var k, c := recs[i].continent, recs[i].city;
    if i == |recs| - 1 {
      GroupPairs(p, k, c);
      assert !HasPair(Group(p), k, c);
    } else {
      assert p[i] == recs[i];
      GroupFirstWins(p, i);
    }
  }

  /** Continents appear in first-seen order. */
  lemma {:induction false} GroupContinentOrder(recs: seq<Record>)
    ensures Group(recs).keys == Dedup(Continents(recs))
  {
    if recs != [] {
      var p := recs[..|recs| - 1];
      GroupContinentOrder(p);
      GroupWellGrouped(p);
      GroupContinents(p, recs[|recs| - 1].continent);
      assert Continents(recs)[..|recs| - 1] == Continents(p);
    }
  }

  /** A continent no record is on has no cities. */
  lemma {:induction false} CitiesOfAbsentContinent(recs: seq<Record>, k: string)
    requires k !in Continents(recs)
    ensures CitiesIn(recs, k) == []
  {
    if recs != [] {
      var p := recs[..|recs| - 1];
      assert Continents(recs) == Continents(p) + [recs[|recs| - 1].continent];
      CitiesOfAbsentContinent(p, k);
    }
  }

  /** The cities under each continent appear in first-seen order. */
  lemma {:induction false} GroupCityOrder(recs: seq<Record>, k: string)
    requires k in Group(recs).entries
    ensures Group(recs).entries[k].keys == Dedup(CitiesIn(recs, k))
  {
    var p := recs[..|recs| - 1];
    var r := recs[|recs| - 1];
    var g := Group(p);
    if r.continent != k {
      assert k in g.entries;
      GroupCityOrder(p, k);
    } else if k in g.entries {
      GroupCityOrder(p, k);
      GroupWellGrouped(p);
      var s := CitiesIn(recs, k);
      assert s[..|s| - 1] == CitiesIn(p, k);
    } else {
      GroupContinents(p, k);
      CitiesOfAbsentContinent(p, k);
      assert CitiesIn(recs, k) == [r.city];
      assert Dedup([r.city]) == [r.city] by {
        assert [r.city][..0] == [];
      }
    }
  }

  /** The first index of `x` in `s`. */
  function FirstIndex(s: seq<string>, x: string): (i: nat)
    requires x in s
    ensures i < |s| && s[i] == x && forall j :: 0 <= j < i ==> s[j] != x
  {
    if s[0] == x then 0 else 1 + FirstIndex(s[1..], x)
  }

  /** Appending leaves the first index of an element already present unchanged. */
  lemma {:induction false} FirstIndexExtend(s: seq<string>, x: string, y: string)
    requires y in s
    ensures FirstIndex(s + [x], y) == FirstIndex(s, y)
  {
    if s[0] != y {
      assert (s + [x])[1..] == s[1..] + [x];
      FirstIndexExtend(s[1..], x, y);
    }
  }

  /** An element absent from `s` first occurs in `s + [x]` at its end. */
  lemma {:induction false} FirstIndexLast(s: seq<string>, x: string)
    requires x !in s
    ensures FirstIndex(s + [x], x) == |s|
  {
    if s != [] {
      assert (s + [x])[1..] == s[1..] + [x];
      FirstIndexLast(s[1..], x);
    }
  }

  /** `Dedup` lists its elements in the order in which they first occur in `s`. */
  lemma {:induction false} DedupFirstSeen(s: seq<string>, i: nat, j: nat)
    requires i < j < |Dedup(s)|
    ensures FirstIndex(s, Dedup(s)[i]) < FirstIndex(s, Dedup(s)[j])
  {
    var p := s[..|s| - 1];
    var d := Dedup(p);
    var x := s[|s| - 1];
    assert s == p + [x];
    if j < |d| {
      DedupFirstSeen(p, i, j);
      FirstIndexExtend(p, x, d[i]);
      FirstIndexExtend(p, x, d[j]);
    } else {
      assert x !in p;
      FirstIndexExtend(p, x, d[i]);
      FirstIndexLast(p, x);
    }
  }
}
