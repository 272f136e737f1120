/** sehirler_karsilastir: the current weather of two known cities side by
    side, with a comparison of temperature, humidity and wind. */
module Comparison {
  import opened Python
  import opened Normalization
  import opened Utils
  import opened Config
  import opened Upstream
  import opened CityLookup

  const WARMER: string := "daha sıcak"
  const COLDER: string := "daha soğuk"
  const MORE_HUMID: string := "daha nemli"
  const DRIER: string := "daha kuru"
  const WINDIER: string := "daha rüzgarlı"
  const CALMER: string := "daha sakin"

  /** One column of the table: the readings of one city, "N/A" where the
      reply lacks them. */
  datatype Column = Column(name: string, temp: Value, feelsLike: Value, humidity: Value,
                           wind: Value, condition: Value)

  datatype ComparisonReply =
    | UnknownCity(query: string)
    | DemoComparison(name1: string, name2: string)
      /** The failing cities in order, each with its error text. */
    | ComparisonFailed(errors: seq<(string, string)>)
      /** An uncaught exception: the IndexError of an empty "weather" list,
          or the TypeError of padding a null humidity or description in
          the table. */
    | Crashed
    | ComparisonReport(first: Column, second: Column, temp: string, humidity: string, wind: string)

  /** The errors of the failed requests, city 1 before city 2. */
  function Errors(name1: string, w1: Response<Current>, name2: string, w2: Response<Current>): (r: seq<(string, string)>)
    ensures |r| == (if w1.Failure? then 1 else 0) + (if w2.Failure? then 1 else 0)
    ensures w1.Failure? ==> r[0] == (name1, w1.error)
    ensures w2.Failure? ==> r[|r| - 1] == (name2, w2.error)
  {
    (if w1.Failure? then [(name1, w1.error)] else []) + (if w2.Failure? then [(name2, w2.error)] else [])
  }

  /** The column of a city whose request succeeded; None when its
      "weather" list is empty. */
  function ColumnOf(name: string, cur: Current): (r: Option<Column>)
    ensures r.None? <==> cur.weather == Some([])
    ensures r.Some? ==>
      && r.value.name == name && r.value.temp == Get(cur.temp, Str("N/A"))
      && r.value.feelsLike == Get(cur.feelsLike, Str("N/A"))
      && r.value.humidity == Get(cur.humidity, Str("N/A")) && r.value.wind == Get(cur.windSpeed, Str("N/A"))
      && r.value.condition == Get(FirstCondition(cur.weather).value.description, Str("N/A"))
  {
    match FirstCondition(cur.weather)
    case None => None
    case Some(cond) =>
      Some(Column(name, Get(cur.temp, Str("N/A")), Get(cur.feelsLike, Str("N/A")), Get(cur.humidity, Str("N/A")),
                  Get(cur.windSpeed, Str("N/A")), Get(cond.description, Str("N/A"))))
  }

  /** `f"{v:<13}"` and `f"{v:<14}"` raise a TypeError for None: the
      humidity and the condition of a column must not be null. */
  predicate Printable(c: Column) {
    c.humidity != NoneValue && c.condition != NoneValue
  }

  /** The column of a city's reply, present and printable. */
  predicate Shown(name: string, cur: Current) {
    ColumnOf(name, cur).Some? && Printable(ColumnOf(name, cur).value)
  }

  /** The three comparison texts of two columns. */
  function Compared(a: Column, b: Column): (r: ComparisonReply)
    ensures r.ComparisonReport? && r.first == a && r.second == b
  {
    ComparisonReport(a, b,
                     CompareValues(a.temp, b.temp, WARMER, COLDER),
                     CompareValues(a.humidity, b.humidity, MORE_HUMID, DRIER),
                     CompareValues(a.wind, b.wind, WINDIER, CALMER))
  }

  /** sehirler_karsilastir(sehir1, sehir2) over a city table, given the
      current-weather replies for the two cities. */
  function CompareIn(entries: seq<Entry>, q1: string, q2: string, w1: Response<Current>, w2: Response<Current>): (r: ComparisonReply)
    ensures Lookup(Normalized(q1), entries).None? ==> r == UnknownCity(q1)
    ensures Lookup(Normalized(q1), entries).Some? && Lookup(Normalized(q2), entries).None? ==> r == UnknownCity(q2)
    ensures Lookup(Normalized(q1), entries).Some? && Lookup(Normalized(q2), entries).Some? ==>
      var n1 := Lookup(Normalized(q1), entries).value.name;
      var n2 := Lookup(Normalized(q2), entries).value.name;
      && (r.DemoComparison? <==> (w1.Failure? || w2.Failure?) && (IsDemo(ErrorText(w1)) || IsDemo(ErrorText(w2))))
      && (r.DemoComparison? ==> r == DemoComparison(n1, n2))
      && (r.ComparisonFailed? <==> (w1.Failure? || w2.Failure?) && !IsDemo(ErrorText(w1)) && !IsDemo(ErrorText(w2)))
      && (r.ComparisonFailed? ==> r.errors == Errors(n1, w1, n2, w2))
      && (r.Crashed? <==> w1.Success? && w2.Success? && !(Shown(n1, w1.body) && Shown(n2, w2.body)))
      && (r.ComparisonReport? <==> w1.Success? && w2.Success? && Shown(n1, w1.body) && Shown(n2, w2.body))
      && (r.ComparisonReport? ==> r == Compared(ColumnOf(n1, w1.body).value, ColumnOf(n2, w2.body).value))
  {
    match Lookup(Normalized(q1), entries)
    case None => UnknownCity(q1)
    case Some(c1) =>
      match Lookup(Normalized(q2), entries)
      case None => UnknownCity(q2)
      case Some(c2) =>
        if w1.Failure? || w2.Failure? then
          if IsDemo(ErrorText(w1)) || IsDemo(ErrorText(w2)) then DemoComparison(c1.name, c2.name)
          else ComparisonFailed(Errors(c1.name, w1, c2.name, w2))
        else
          match (ColumnOf(c1.name, w1.body), ColumnOf(c2.name, w2.body))
          case (Some(a), Some(b)) => if Printable(a) && Printable(b) then Compared(a, b) else Crashed
          case _ => Crashed
  }

  /** The tool itself, over the table of config.py. */
  function CompareCities(q1: string, q2: string, w1: Response<Current>, w2: Response<Current>): ComparisonReply {
    CompareIn(TURKISH_CITIES, q1, q2, w1, w2)
  }

  /** City 1 is checked first: an unknown first city is reported whatever
      the second city and the replies. */
  lemma FirstCityFirst(entries: seq<Entry>, q1: string, q2: string, q3: string,
                       w1: Response<Current>, w2: Response<Current>, w3: Response<Current>, w4: Response<Current>)
    requires Lookup(Normalized(q1), entries).None?
    ensures CompareIn(entries, q1, q2, w1, w2) == CompareIn(entries, q1, q3, w3, w4) == UnknownCity(q1)
  {
  }

  /** Swapping the two cities mirrors the report: the columns change
      places and each comparison turns into its opposite. */
  lemma SwappedCities(entries: seq<Entry>, q1: string, q2: string, w1: Response<Current>, w2: Response<Current>)
    requires CompareIn(entries, q1, q2, w1, w2).ComparisonReport?
    ensures var r := CompareIn(entries, q1, q2, w1, w2);
      var s := CompareIn(entries, q2, q1, w2, w1);
      && s.ComparisonReport? && s.first == r.second && s.second == r.first
      && s.temp == CompareValues(r.first.temp, r.second.temp, COLDER, WARMER)
      && s.humidity == CompareValues(r.first.humidity, r.second.humidity, DRIER, MORE_HUMID)
      && s.wind == CompareValues(r.first.wind, r.second.wind, CALMER, WINDIER)
  {
    var r := CompareIn(entries, q1, q2, w1, w2);
    CompareValuesAntisymmetric(r.first.temp, r.second.temp, WARMER, COLDER);
    CompareValuesAntisymmetric(r.first.humidity, r.second.humidity, MORE_HUMID, DRIER);
    CompareValuesAntisymmetric(r.first.wind, r.second.wind, WINDIER, CALMER);
  }

  /** A null humidity from either city ends the tool with a TypeError when
      the table is printed, though both requests succeeded. */
  lemma NullHumidityCrashes(entries: seq<Entry>, q1: string, q2: string, c1: Current, c2: Current)
    requires Lookup(Normalized(q1), entries).Some? && Lookup(Normalized(q2), entries).Some?
    requires c1.weather != Some([]) && c2.weather != Some([])
    requires c1.humidity == Some(NoneValue) || c2.humidity == Some(NoneValue)
    ensures CompareIn(entries, q1, q2, Success(c1), Success(c2)) == Crashed
  {
  }

  /** When both requests fail without demo mode, both errors are listed,
      city 1 first. */
  lemma BothFailed(entries: seq<Entry>, q1: string, q2: string, e1: string, e2: string)
    requires Lookup(Normalized(q1), entries).Some? && Lookup(Normalized(q2), entries).Some?
    requires !IsDemo(e1) && !IsDemo(e2)
    ensures CompareIn(entries, q1, q2, Failure(e1), Failure(e2))
      == ComparisonFailed([(Lookup(Normalized(q1), entries).value.name, e1), (Lookup(Normalized(q2), entries).value.name, e2)])
  {
  }
}
