/** havadurumu_aktivite_onerileri: activities for a known city chosen from
    its current weather, and an outlook on the first forecast item of a
    later day. */
module Activities {
  import opened Python
  import opened Normalization
  import opened Config
  import opened Upstream
  import opened CityLookup

  // ---------------------------------------------------------------------
  // Classification

  /** The weather the choice of activities rests on, in order of
      precedence. */
  datatype Weather = Precipitation(snow: bool) | Windy | Hot | Cold | Nice

  /** Condition ids 200..699: thunderstorm, drizzle, rain and snow. */
  predicate Precipitating(id: int) { 200 <= id < 700 }

  predicate Snowing(id: int) { 600 <= id < 700 }

  /** More than 5.5 m/s is moderate wind. */
  predicate IsWindy(wind: real) { wind > 5.5 }

  /** The if/elif chain over the condition id, the wind speed and the
      temperature; None is the TypeError of comparing a temperature that is
      no number, which only happens once neither precipitation nor wind
      decides. */
  function Classify(id: int, wind: real, temp: Value): (r: Option<Weather>)
    ensures r == Some(Precipitation(Snowing(id))) <==> Precipitating(id)
    ensures r == Some(Windy) <==> !Precipitating(id) && IsWindy(wind)
    ensures r == Some(Hot) <==> !Precipitating(id) && !IsWindy(wind) && temp.Num? && temp.x > 30.0
    ensures r == Some(Cold) <==> !Precipitating(id) && !IsWindy(wind) && temp.Num? && temp.x < 5.0
    ensures r == Some(Nice) <==> !Precipitating(id) && !IsWindy(wind) && temp.Num? && 5.0 <= temp.x <= 30.0
    ensures r.None? <==> !Precipitating(id) && !IsWindy(wind) && !temp.Num?
  {
    if Precipitating(id) then Some(Precipitation(Snowing(id)))
    else if IsWindy(wind) then Some(Windy)
    else if !temp.Num? then None
    else if temp.x > 30.0 then Some(Hot)
    else if temp.x < 5.0 then Some(Cold)
    else Some(Nice)
  }

  /** Precipitation decides whatever the wind and the temperature; wind
      decides whatever the temperature. */
  lemma Precedence(id: int, w1: real, w2: real, t1: Value, t2: Value)
    ensures Precipitating(id) ==> Classify(id, w1, t1) == Classify(id, w2, t2)
    ensures IsWindy(w1) && IsWindy(w2) ==> Classify(id, w1, t1) == Classify(id, w2, t2)
  {
  }

  const INDOOR: seq<string> := [
    "Müze ziyareti",
    "Alışveriş merkezi gezisi",
    "Kafe veya restoranda vakit geçirme",
    "Sinema filmi izleme",
    "Kitap okuma",
    "Yerel sergi ziyareti"
  ]

  const OUTDOOR: seq<string> := [
    "Yürüyüş yapma",
    "Bisiklet sürme",
    "Parkta piknik yapma",
    "Şehir turu",
    "Açık hava kafelerinde oturma",
    "Sahil kenarında gezinme (uygunsa)"
  ]

  function Recommended(w: Weather): seq<string> {
    match w
    case Precipitation(_) => INDOOR
    case Windy => INDOOR + ["Rüzgardan korunaklı kafelerde oturma"]
    case Hot => ["Plaja gitme (uygunsa)", "Su parkı ziyareti", "Gölgeli parklar", "Klimalı mekanlarda vakit geçirme"]
    case Cold => INDOOR + ["Sıcak içeceklerin tadını çıkarma"]
    case Nice => OUTDOOR
  }

  function Avoided(w: Weather): seq<string> {
    match w
    case Precipitation(_) => OUTDOOR
    case Windy => ["Bisiklet sürme", "Parkta piknik yapma", "Açık hava etkinlikleri"]
    case Hot => ["Uzun yürüyüşler", "Güneş altında uzun süre kalmak", "Fiziksel olarak yorucu aktiviteler"]
    case Cold => ["Uzun süre dışarıda kalmak", "Su aktiviteleri"]
    case Nice => []
  }

  function Reason(w: Weather): string {
    match w
    case Precipitation(snow) => if snow then "karlı hava" else "yağışlı hava"
    case Windy => "rüzgarlı hava"
    case Hot => "çok sıcak hava"
    case Cold => "soğuk hava"
    case Nice => "güzel hava"
  }

  /** Something to avoid is named exactly when the weather is not nice,
      and there is always something to do. */
  lemma AvoidOnlyWhenNotNice(w: Weather)
    ensures Avoided(w) == [] <==> w == Nice
    ensures Recommended(w) != []
  {
  }

  /** No activity is both recommended and to be avoided. */
  lemma NoActivityBothWays(w: Weather, a: string)
    requires a in Recommended(w)
    ensures a !in Avoided(w)
  {
    match w
    case Precipitation(_) =>
    case Windy =>
    case Hot =>
    case Cold =>
    case Nice =>
  }

  // ---------------------------------------------------------------------
  // The activity lines

  datatype ActivityLine = Recommend(activity: string) | AvoidHeader | Avoid(activity: string)

  /** The printed section: at most five recommendations, then, only when
      something is to be avoided, a header and at most three of them. */
  function ActivityLinesOf(recommended: seq<string>, avoided: seq<string>): seq<ActivityLine> {
    var rs := Prefix(recommended, 5);
    var avs := Prefix(avoided, 3);
    seq(|rs|, i requires 0 <= i < |rs| => Recommend(rs[i]))
      + (if avoided == [] then [] else [AvoidHeader] + seq(|avs|, i requires 0 <= i < |avs| => Avoid(avs[i])))
  }

  lemma ActivityLinesShape(recommended: seq<string>, avoided: seq<string>)
    ensures var lines := ActivityLinesOf(recommended, avoided);
      var n := Min(5, |recommended|);
      && (AvoidHeader in lines <==> avoided != [])
      && (forall i | 0 <= i < n :: lines[i] == Recommend(recommended[i]))
      && (forall a :: Recommend(a) in lines ==> a in recommended[..n])
      && (forall a :: Avoid(a) in lines ==> a in avoided[..Min(3, |avoided|)])
      && |lines| == n + (if avoided == [] then 0 else 1 + Min(3, |avoided|))
  {
    var lines := ActivityLinesOf(recommended, avoided);
    var n := Min(5, |recommended|);
    forall a | Recommend(a) in lines
      ensures a in recommended[..n]
    {
      var i :| 0 <= i < |lines| && lines[i] == Recommend(a);
      assert i < n;
      assert recommended[..n][i] == a;
    }
    forall a | Avoid(a) in lines
      ensures a in avoided[..Min(3, |avoided|)]
    {
      var i :| 0 <= i < |lines| && lines[i] == Avoid(a);
      assert avoided[..Min(3, |avoided|)][i - n - 1] == a;
    }
    if avoided != [] {
      assert lines[n] == AvoidHeader;
    }
  }

  /** The two printing loops. */
  method ActivityLines(recommended: seq<string>, avoided: seq<string>) returns (lines: seq<ActivityLine>)
    ensures lines == ActivityLinesOf(recommended, avoided)
  {
    var rs := Prefix(recommended, 5);
    lines := [];
    for i := 0 to |rs|
      invariant lines == seq(i, j requires 0 <= j < i => Recommend(rs[j]))
    {
      lines := lines + [Recommend(rs[i])];
    }
    if avoided != [] {
      var avs := Prefix(avoided, 3);
      var head := lines + [AvoidHeader];
      lines := head;
      for i := 0 to |avs|
        invariant lines == head + seq(i, j requires 0 <= j < i => Avoid(avs[j]))
      {
        lines := lines + [Avoid(avs[i])];
      }
    }
  }

  // ---------------------------------------------------------------------
  // The outlook

  /** The index of the first item dated after today. */
  function FirstLater(items: seq<ForecastItem>, today: Date, clock: Clock): (r: Option<nat>)
    ensures r.Some? ==>
      && r.value < |items| && Later(clock(items[r.value].dt).date, today)
      && forall j | 0 <= j < r.value :: !Later(clock(items[j].dt).date, today)
    ensures r.None? ==> forall j | 0 <= j < |items| :: !Later(clock(items[j].dt).date, today)
    decreases |items|
  {
    if items == [] then None
    else if Later(clock(items[0].dt).date, today) then Some(0)
    else
      match FirstLater(items[1..], today, clock)
      case None =>
        assert forall j | 1 <= j < |items| :: items[j] == items[1..][j - 1];
        None
      case Some(i) =>
        assert forall j | 1 <= j <= i + 1 :: items[j] == items[1..][j - 1];
        Some(i + 1)
  }

  /** The search loop, with its early `break`. */
  method NextDay(items: seq<ForecastItem>, today: Date, clock: Clock) returns (r: Option<ForecastItem>)
    ensures FirstLater(items, today, clock).None? ==> r.None?
    ensures FirstLater(items, today, clock).Some? ==> r == Some(items[FirstLater(items, today, clock).value])
  {
    r := None;
    var i := 0;
    while i < |items|
      invariant 0 <= i <= |items|
      invariant forall j | 0 <= j < i :: !Later(clock(items[j].dt).date, today)
    {
      if Later(clock(items[i].dt).date, today) {
        r := Some(items[i]);
        break;
      }
      i := i + 1;
    }
    OnlyFirstLater(items, today, clock, i);
  }

  /** The first later item is the one the search stops at. */
  lemma OnlyFirstLater(items: seq<ForecastItem>, today: Date, clock: Clock, i: nat)
    requires i <= |items|
    requires forall j | 0 <= j < i :: !Later(clock(items[j].dt).date, today)
    requires i < |items| ==> Later(clock(items[i].dt).date, today)
    ensures i < |items| ==> FirstLater(items, today, clock) == Some(i)
    ensures i == |items| ==> FirstLater(items, today, clock).None?
  {
  }

  /** The forecast line: the date of the item, whether it is warmer than
      now, by how much, and its condition. */
  datatype Outlook = Outlook(date: Date, warmer: bool, change: real, condition: Value)

  /** The outlook for a current temperature; the outer None is the
      TypeError of subtracting readings that are no numbers. */
  function OutlookOf(forecast: Response<Forecast>, today: Date, clock: Clock, temp: Value): (r: Option<Option<Outlook>>)
    ensures (forecast.Failure? || forecast.body.list.None?) ==> r == Some(None)
    ensures forecast.Success? && forecast.body.list.Some? ==>
      var items := forecast.body.list.value;
      && (FirstLater(items, today, clock).None? ==> r == Some(None))
      && (FirstLater(items, today, clock).Some? ==>
            var it := items[FirstLater(items, today, clock).value];
            && (r.None? <==> !it.temp.Num? || !temp.Num?)
            && (r.Some? ==>
                  && r.value.Some? && (r.value.value.warmer <==> it.temp.x > temp.x)
                  && r.value.value.change >= 0.0
                  && (r.value.value.warmer ==> r.value.value.change == it.temp.x - temp.x)
                  && (!r.value.value.warmer ==> r.value.value.change == temp.x - it.temp.x)))
  {
    match forecast
    case Failure(_) => Some(None)
    case Success(fc) =>
      match fc.list
      case None => Some(None)
      case Some(items) =>
        match FirstLater(items, today, clock)
        case None => Some(None)
        case Some(i) =>
          var it := items[i];
          if !it.temp.Num? || !temp.Num? then None
          else
            var change := it.temp.x - temp.x;
            Some(Some(Outlook(clock(it.dt).date, change > 0.0, if change >= 0.0 then change else -change, it.description)))
  }

  /** No change reads as colder: only a strictly positive change is
      warmer. */
  lemma NoChangeIsColder(forecast: Response<Forecast>, today: Date, clock: Clock, temp: Value)
    requires OutlookOf(forecast, today, clock, temp).Some? && OutlookOf(forecast, today, clock, temp).value.Some?
    requires OutlookOf(forecast, today, clock, temp).value.value.change == 0.0
    ensures !OutlookOf(forecast, today, clock, temp).value.value.warmer
  {
  }

  // ---------------------------------------------------------------------
  // The tool

  datatype ActivityReply =
    | UnknownCity(query: string)
    | DemoActivities(name: string)
    | WeatherUnavailable(error: string)
      /** An IndexError (empty "weather" list) or a TypeError (a reading
          that is no number where one is compared or subtracted). */
    | Crashed
    | ActivityReport(name: string, temp: Value, description: Value, wind: Value, reason: string,
                     lines: seq<ActivityLine>, outlook: Option<Outlook>)

  /** The weather of a current reply, the first condition given: None is
      a TypeError. */
  function WeatherOf(cur: Current, cond: Condition): (r: Option<Weather>)
    ensures !Get(cur.windSpeed, Num(0.0)).Num? ==> r.None?
    ensures Get(cur.windSpeed, Num(0.0)).Num? ==>
      r == Classify(Get(cond.id, 800), Get(cur.windSpeed, Num(0.0)).x, Get(cur.temp, Num(20.0)))
  {
    var wind := Get(cur.windSpeed, Num(0.0));
    if !wind.Num? then None
    else Classify(Get(cond.id, 800), wind.x, Get(cur.temp, Num(20.0)))
  }

  /** The activity tool over a city table, given both replies for the
      city, the clock and today's date. */
  function ActivitiesIn(entries: seq<Entry>, query: string, current: Response<Current>, forecast: Response<Forecast>,
                        clock: Clock, today: Date): (r: ActivityReply)
    ensures Lookup(Normalized(query), entries).None? <==> r == UnknownCity(query)
    ensures Lookup(Normalized(query), entries).Some? ==>
      var c := Lookup(Normalized(query), entries).value;
      && (current.Failure? && IsDemo(current.error) ==> r == DemoActivities(c.name))
      && (current.Failure? && !IsDemo(current.error) ==> r == WeatherUnavailable(current.error))
      && (current.Success? && current.body.weather == Some([]) ==> r == Crashed)
      && (r.ActivityReport? <==>
            && current.Success? && current.body.weather != Some([])
            && WeatherOf(current.body, FirstCondition(current.body.weather).value).Some?
            && OutlookOf(forecast, today, clock, Get(current.body.temp, Num(20.0))).Some?)
      && (r.Crashed? <==> current.Success? && !r.ActivityReport?)
      && (r.ActivityReport? ==>
            var cond := FirstCondition(current.body.weather).value;
            var w := WeatherOf(current.body, cond);
            && current.Success? && w.Some?
            && r.name == c.name
            && r.temp == Get(current.body.temp, Num(20.0))
            && r.description == Get(cond.description, Str("bilinmiyor"))
            && r.wind == Get(current.body.windSpeed, Num(0.0))
            && r.reason == Reason(w.value)
            && r.lines == ActivityLinesOf(Recommended(w.value), Avoided(w.value))
            && Some(r.outlook) == OutlookOf(forecast, today, clock, Get(current.body.temp, Num(20.0))))
  {
    match Lookup(Normalized(query), entries)
    case None => UnknownCity(query)
    case Some(c) =>
      match current
      case Failure(e) => if IsDemo(e) then DemoActivities(c.name) else WeatherUnavailable(e)
      case Success(cur) =>
        match FirstCondition(cur.weather)
        case None => Crashed
        case Some(cond) =>
          var temp := Get(cur.temp, Num(20.0));
          match WeatherOf(cur, cond)
          case None => Crashed
          case Some(w) =>
            match OutlookOf(forecast, today, clock, temp)
            case None => Crashed
            case Some(outlook) =>
              ActivityReport(c.name, temp, Get(cond.description, Str("bilinmiyor")), Get(cur.windSpeed, Num(0.0)),
                             Reason(w), ActivityLinesOf(Recommended(w), Avoided(w)), outlook)
  }

  /** The tool itself, over the table of config.py. */
  function ActivitiesFor(query: string, current: Response<Current>, forecast: Response<Forecast>,
                         clock: Clock, today: Date): ActivityReply {
    ActivitiesIn(TURKISH_CITIES, query, current, forecast, clock, today)
  }

  /** A wind reading that is no number always crashes the tool, even when
      precipitation would decide: `is_windy` is computed first. */
  lemma WindReadingAlwaysCompared(entries: seq<Entry>, query: string, cur: Current, forecast: Response<Forecast>,
                                  clock: Clock, today: Date)
    requires Lookup(Normalized(query), entries).Some?
    requires cur.weather != Some([]) && cur.windSpeed.Some? && !cur.windSpeed.value.Num?
    ensures ActivitiesIn(entries, query, Success(cur), forecast, clock, today) == Crashed
  {
  }
}
