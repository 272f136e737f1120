/** The city-name front end of weather.py: finding a city by its
    normalised name, suggesting close matches (`hava_durumu_sehir`) and
    listing the cities in key order (`turk_sehirleri_listesi`). */
module CityLookup {
  import opened Python
  import opened Normalization
  import opened Config
  import opened Upstream
  import opened WeatherTool

  // ---------------------------------------------------------------------
  // Lookup

  /** `TURKISH_CITIES.get(key)`. */
  function Lookup(key: string, entries: seq<Entry>): (r: Option<City>)
    ensures r.Some? <==> key in Keys(entries)
    ensures r.Some? ==> exists i | 0 <= i < |entries| :: entries[i] == Entry(key, r.value)
    decreases |entries|
  {
    if entries == [] then None
    else if entries[0].key == key then Some(entries[0].city)
    else
      var r := Lookup(key, entries[1..]);
      assert Keys(entries) == [entries[0].key] + Keys(entries[1..]);
      assert forall i | 0 <= i < |entries[1..]| :: entries[1..][i] == entries[i + 1];
      r
  }

  function FindCity(key: string): Option<City> {
    Lookup(key, TURKISH_CITIES)
  }

  /** In a table with each key once the lookup finds the city stored under
      that key. */
  lemma LookupFindsEntry(entries: seq<Entry>, i: nat)
    requires DistinctKeys(entries) && i < |entries|
    ensures Lookup(entries[i].key, entries) == Some(entries[i].city)
  {
    var r := Lookup(entries[i].key, entries);
    var j :| 0 <= j < |entries| && entries[j] == Entry(entries[i].key, r.value);
    assert j == i;
  }

  // ---------------------------------------------------------------------
  // Suggestions

  /** A city is close to the normalised input when its normalised key
      contains the input. */
  predicate Close(input: string, e: Entry) {
    Contains(Normalized(e.key), input)
  }

  function CloseTo(input: string): Entry -> bool {
    e => Close(input, e)
  }

  /** The display names of the entries that `keep` accepts, in table order. */
  function Matching(keep: Entry -> bool, entries: seq<Entry>): (r: seq<string>)
    ensures |r| <= |entries|
    decreases |entries|
  {
    if entries == [] then []
    else
      var e := entries[0];
      (if keep(e) then [e.city.name] else []) + Matching(keep, entries[1..])
  }

  /** The names of the cities close to the input, in table order. */
  function Suggestions(input: string, entries: seq<Entry>): seq<string> {
    Matching(CloseTo(input), entries)
  }

  /** Matching keeps the table order: the matches of two parts of the
      table are those of the first part followed by those of the second. */
  lemma {:induction false} MatchingConcat(keep: Entry -> bool, a: seq<Entry>, b: seq<Entry>)
    ensures Matching(keep, a + b) == Matching(keep, a) + Matching(keep, b)
    decreases |a|
  {
    if a == [] {
      assert a + b == b;
    } else {
      var h := if keep(a[0]) then [a[0].city.name] else [];
      var m, n := Matching(keep, a[1..]), Matching(keep, b);
      assert Matching(keep, a) == h + m;
      assert (a + b)[0] == a[0] && (a + b)[1..] == a[1..] + b;
      assert Matching(keep, a + b) == h + Matching(keep, a[1..] + b);
      MatchingConcat(keep, a[1..], b);
      assert h + (m + n) == (h + m) + n;
    }
  }

  /** A name is matched exactly when some accepted entry carries it. */
  lemma {:induction false} MatchingExact(keep: Entry -> bool, entries: seq<Entry>, name: string)
    ensures name in Matching(keep, entries) <==>
      exists i | 0 <= i < |entries| :: entries[i].city.name == name && keep(entries[i])
    decreases |entries|
  {
    if entries != [] {
      MatchingExact(keep, entries[1..], name);
      if name in Matching(keep, entries[1..]) {
        var i :| 0 <= i < |entries[1..]| && entries[1..][i].city.name == name && keep(entries[1..][i]);
        assert entries[i + 1] == entries[1..][i];
      }
      if exists i | 0 <= i < |entries| :: entries[i].city.name == name && keep(entries[i]) {
        var i :| 0 <= i < |entries| && entries[i].city.name == name && keep(entries[i]);
        if i > 0 {
          assert entries[1..][i - 1] == entries[i];
        }
      }
    }
  }

  /** A name is suggested exactly when some city under that name has a
      normalised key containing the input. */
  lemma SuggestionsExact(input: string, entries: seq<Entry>, name: string)
    ensures name in Suggestions(input, entries) <==>
      exists i | 0 <= i < |entries| :: entries[i].city.name == name && Close(input, entries[i])
  {
    MatchingExact(CloseTo(input), entries, name);
  }

  function Names(entries: seq<Entry>): (r: seq<string>)
    ensures |r| == |entries|
    ensures forall i | 0 <= i < |entries| :: r[i] == entries[i].city.name
  {
    seq(|entries|, i requires 0 <= i < |entries| => entries[i].city.name)
  }

  /** When every entry is accepted, every name is matched, in order. */
  lemma {:induction false} MatchingAll(keep: Entry -> bool, entries: seq<Entry>)
    requires forall i | 0 <= i < |entries| :: keep(entries[i])
    ensures Matching(keep, entries) == Names(entries)
    decreases |entries|
  {
    if entries != [] {
      assert forall i | 0 <= i < |entries[1..]| :: entries[1..][i] == entries[i + 1];
      MatchingAll(keep, entries[1..]);
    }
  }

  lemma {:induction false} ContainsEmpty(s: string)
    ensures Contains(s, "")
  {
    assert s[..0] == "";
  }

  /** Every key contains the empty input, so all cities are suggested. */
  lemma EmptyInputSuggestsAll(entries: seq<Entry>)
    ensures Suggestions("", entries) == Names(entries)
  {
    forall i | 0 <= i < |entries|
      ensures CloseTo("")(entries[i])
    {
      ContainsEmpty(Normalized(entries[i].key));
    }
    MatchingAll(CloseTo(""), entries);
  }

  // ---------------------------------------------------------------------
  // hava_durumu_sehir

  datatype CityReply =
    | CityNotFound(query: string)
    | DidYouMean(query: string, names: seq<string>)
    | Forwarded(reply: WeatherReply)

  /** hava_durumu_sehir(sehir) over a city table, given the replies the
      request helpers would give for the city's coordinates: forward a
      known city to `hava_durumu`, otherwise suggest the close matches or
      report the city unknown. */
  function CityWeatherIn(entries: seq<Entry>, query: string, current: Response<Current>,
                         forecast: Response<Forecast>, clock: Clock): (r: CityReply)
    ensures var key := Normalized(query);
      && (Lookup(key, entries).Some? ==>
            var c := Lookup(key, entries).value;
            r == Forwarded(WeatherAt(c.lat, c.lon, Some(c.name), current, forecast, clock)))
      && (Lookup(key, entries).None? && Suggestions(key, entries) != [] ==> r == DidYouMean(query, Suggestions(key, entries)))
      && (Lookup(key, entries).None? && Suggestions(key, entries) == [] ==> r == CityNotFound(query))
  {
    var key := Normalized(query);
    match Lookup(key, entries)
    case Some(city) => Forwarded(WeatherAt(city.lat, city.lon, Some(city.name), current, forecast, clock))
    case None =>
      var close := Suggestions(key, entries);
      if close != [] then DidYouMean(query, close) else CityNotFound(query)
  }

  /** The tool itself, over the table of config.py. */
  function WeatherForCity(query: string, current: Response<Current>, forecast: Response<Forecast>,
                          clock: Clock): CityReply {
    CityWeatherIn(TURKISH_CITIES, query, current, forecast, clock)
  }

  /** Over a table with each key once: a query normalising to the key of
      entry i reaches `hava_durumu` with that city's coordinates and name. */
  lemma ForwardedIn(entries: seq<Entry>, i: nat, query: string, current: Response<Current>,
                    forecast: Response<Forecast>, clock: Clock)
    requires DistinctKeys(entries) && i < |entries|
    requires Normalized(query) == entries[i].key
    ensures var c := entries[i].city;
      CityWeatherIn(entries, query, current, forecast, clock) == Forwarded(WeatherAt(c.lat, c.lon, Some(c.name), current, forecast, clock))
  {
    LookupFindsEntry(entries, i);
  }

  /** Over any table: a query whose normalised form is empty is close to
      every city, and to no key once no key is empty. */
  lemma EmptyQueryIn(entries: seq<Entry>, query: string, current: Response<Current>,
                     forecast: Response<Forecast>, clock: Clock)
    requires Normalized(query) == ""
    requires forall i | 0 <= i < |entries| :: entries[i].key != ""
    ensures entries != [] ==> CityWeatherIn(entries, query, current, forecast, clock) == DidYouMean(query, Names(entries))
    ensures entries == [] ==> CityWeatherIn(entries, query, current, forecast, clock) == CityNotFound(query)
  {
    EmptyInputSuggestsAll(entries);
  }

  // ---------------------------------------------------------------------
  // turk_sehirleri_listesi: the cities in key order

  /** Python's `<` on strings: lexicographic by code point, a proper
      prefix first. */
  predicate Below(a: string, b: string)
    decreases |a|
  {
    b != [] && (a == [] || a[0] < b[0] || (a[0] == b[0] && Below(a[1..], b[1..])))
  }

  lemma {:induction false} BelowIrreflexive(a: string)
    ensures !Below(a, a)
    decreases |a|
  {
    if a != [] {
      BelowIrreflexive(a[1..]);
    }
  }

  lemma {:induction false} BelowTransitive(a: string, b: string, c: string)
    requires Below(a, b) && Below(b, c)
    ensures Below(a, c)
    decreases |a|
  {
    if a != [] && a[0] == b[0] && b[0] == c[0] {
      BelowTransitive(a[1..], b[1..], c[1..]);
    }
  }

  lemma {:induction false} BelowTotal(a: string, b: string)
    ensures a == b || Below(a, b) || Below(b, a)
    decreases |a|
  {
    if a != [] && b != [] && a[0] == b[0] {
      BelowTotal(a[1..], b[1..]);
      if a[1..] == b[1..] {
        assert a == [a[0]] + a[1..] && b == [b[0]] + b[1..];
      }
    }
  }

  /** No key comes after a later one. */
  predicate SortedByKey(s: seq<Entry>) {
    forall i, j | 0 <= i < j < |s| :: !Below(s[j].key, s[i].key)
  }

  /** Insert an entry before the first entry whose key is above its own. */
  function InsertByKey(e: Entry, s: seq<Entry>): (r: seq<Entry>)
    decreases |s|
  {
    if s == [] then [e]
    else if Below(e.key, s[0].key) then [e] + s
    else [s[0]] + InsertByKey(e, s[1..])
  }

  /** `sorted(TURKISH_CITIES.items())`: the keys are distinct, so the
      entries are ordered by key alone. */
  function SortByKey(s: seq<Entry>): (r: seq<Entry>)
    decreases |s|
  {
    if s == [] then [] else InsertByKey(s[0], SortByKey(s[1..]))
  }

  lemma {:induction false} InsertPermutes(e: Entry, s: seq<Entry>)
    ensures multiset(InsertByKey(e, s)) == multiset(s) + multiset{e}
    decreases |s|
  {
    if s != [] && !Below(e.key, s[0].key) {
      InsertPermutes(e, s[1..]);
      assert s == [s[0]] + s[1..];
    }
  }

  /** An entry whose key no later key is below can go in front of a
      sorted sequence. */
  lemma SortedCons(x: Entry, s: seq<Entry>)
    requires SortedByKey(s)
    requires forall j | 0 <= j < |s| :: !Below(s[j].key, x.key)
    ensures SortedByKey([x] + s)
  {
    var r := [x] + s;
    forall i, j | 0 <= i < j < |r|
      ensures !Below(r[j].key, r[i].key)
    {
      if i == 0 {
        assert r[j] == s[j - 1];
      } else {
        assert r[i] == s[i - 1] && r[j] == s[j - 1];
      }
    }
  }

  /** An entry below the first key of a sorted sequence is below none of
      its keys' predecessors: no key of the sequence is below it. */
  lemma BelowFirst(e: Entry, s: seq<Entry>)
    requires SortedByKey(s) && s != [] && Below(e.key, s[0].key)
    ensures forall j | 0 <= j < |s| :: !Below(s[j].key, e.key)
  {
    forall j | 0 <= j < |s|
      ensures !Below(s[j].key, e.key)
    {
      if Below(s[j].key, e.key) {
        BelowTransitive(s[j].key, e.key, s[0].key);
        if j == 0 {
          BelowIrreflexive(s[0].key);
        }
      }
    }
  }

  /** Every entry of the insertion into the tail of s stays at or above
      the head of s when the inserted entry is not below it. */
  lemma AboveHead(e: Entry, s: seq<Entry>)
    requires SortedByKey(s) && s != [] && !Below(e.key, s[0].key)
    ensures forall j | 0 <= j < |InsertByKey(e, s[1..])| :: !Below(InsertByKey(e, s[1..])[j].key, s[0].key)
  {
    var t := InsertByKey(e, s[1..]);
    InsertPermutes(e, s[1..]);
    forall j | 0 <= j < |t|
      ensures !Below(t[j].key, s[0].key)
    {
      assert t[j] in multiset(t);
      assert t[j] in multiset(s[1..]) + multiset{e};
      if t[j] != e {
        assert t[j] in s[1..];
        var m :| 0 <= m < |s[1..]| && s[1..][m] == t[j];
        assert s[m + 1] == t[j];
      }
    }
  }

  lemma {:induction false} InsertSorted(e: Entry, s: seq<Entry>)
    requires SortedByKey(s)
    ensures SortedByKey(InsertByKey(e, s))
    decreases |s|
  {
    if s == [] {
    } else if Below(e.key, s[0].key) {
      BelowFirst(e, s);
      SortedCons(e, s);
    } else {
      assert SortedByKey(s[1..]) by {
        forall i, j | 0 <= i < j < |s[1..]|
          ensures !Below(s[1..][j].key, s[1..][i].key)
        {
          assert s[1..][i] == s[i + 1] && s[1..][j] == s[j + 1];
        }
      }
      InsertSorted(e, s[1..]);
      AboveHead(e, s);
      SortedCons(s[0], InsertByKey(e, s[1..]));
    }
  }

  /** The sort is a permutation of the table. */
  lemma {:induction false} SortByKeyPermutes(s: seq<Entry>)
    ensures multiset(SortByKey(s)) == multiset(s)
    decreases |s|
  {
    if s != [] {
      SortByKeyPermutes(s[1..]);
      InsertPermutes(s[0], SortByKey(s[1..]));
      assert s == [s[0]] + s[1..];
      assert multiset(s) == multiset{s[0]} + multiset(s[1..]);
    }
  }

  /** The sort orders the entries by key. */
  lemma {:induction false} SortByKeySorted(s: seq<Entry>)
    ensures SortedByKey(SortByKey(s))
    decreases |s|
  {
    if s != [] {
      SortByKeySorted(s[1..]);
      InsertSorted(s[0], SortByKey(s[1..]));
    }
  }
}
