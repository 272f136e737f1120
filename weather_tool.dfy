/** The `hava_durumu` tool of weather.py: it validates the coordinates,
    reads the current weather and the forecast, names the wind direction
    and keeps the first forecast item of each of at most five dates. */
module WeatherTool {
  import opened Python
  import opened Upstream

  // ---------------------------------------------------------------------
  // Coordinate validation

  predicate ValidLatitude(lat: real) { -90.0 <= lat <= 90.0 }

  predicate ValidLongitude(lon: real) { -180.0 <= lon <= 180.0 }

  // ---------------------------------------------------------------------
  // Wind direction

  const DIRECTIONS: seq<string> := ["kuzey", "kuzeydoğu", "doğu", "güneydoğu", "güney", "güneybatı", "batı", "kuzeybatı"]

  /** `round(((deg % 360) / 45) % 8)`: the nearest multiple of 45 degrees,
      counted in eighths of a turn. */
  function Sector(deg: real): (r: int)
    ensures 0 <= r <= 8
    ensures -22.5 <= FloorMod(deg, 360.0) - 45.0 * r as real <= 22.5
  {
    var h := FloorMod(deg, 360.0);
    var y := h / 45.0;
    FloorModSmall(y, 8.0);
    Round(FloorMod(y, 8.0))
  }

  /** `x % m` leaves an x already in [0, m) alone. */
  lemma FloorModSmall(x: real, m: real)
    requires m > 0.0 && 0.0 <= x < m
    ensures FloorMod(x, m) == x
  {
    var y := x / m;
    assert m * y == x;
    if y >= 1.0 {
      MulMonotone(m, 1.0, y);
    }
    if y < 0.0 {
      MulStrict(m, y, 0.0);
    }
    FloorBounds(y);
    assert y.Floor == 0;
  }

  /** The sector is 8, one past the end of the table, exactly for the
      headings from 337.5 degrees up to a full turn. */
  lemma SectorEight(deg: real)
    ensures Sector(deg) == 8 <==> FloorMod(deg, 360.0) >= 337.5
  {
    var h := FloorMod(deg, 360.0);
    var y := h / 45.0;
    FloorModSmall(y, 8.0);
    var r := Round(y);
    assert Sector(deg) == r;
    if h >= 337.5 {
      assert y >= 7.5;
      if y == 7.5 {
        assert r == 7 || r == 8;
      }
    } else {
      assert y < 7.5;
    }
  }

  /** weather.py as written: `directions[sector]` for a number, "N/A"
      otherwise. None is the IndexError raised for sector 8. */
  function WindDirectionAsWritten(deg: Value): (r: Option<string>)
    ensures !deg.Num? ==> r == Some("N/A")
  {
    match deg
    case Num(d) => Index(DIRECTIONS, Sector(d))
    case _ => Some("N/A")
  }

  /** A north-north-westerly wind of 350 degrees makes the tool fail. */
  lemma NorthByNorthWestFails()
    ensures WindDirectionAsWritten(Num(350.0)) == None
  {
    SectorEight(350.0);
    assert FloorMod(350.0, 360.0) == 350.0;
  }

  lemma WindDirectionAsWrittenFails(deg: real)
    ensures WindDirectionAsWritten(Num(deg)) == None <==> FloorMod(deg, 360.0) >= 337.5
  {
    SectorEight(deg);
  }

  /** The heading name the table was meant to give: sector 8 is north
      again. */
  function WindDirection(deg: Value): (r: string)
    ensures deg.Num? ==> r in DIRECTIONS && r == DIRECTIONS[Sector(deg.x) % 8]
    ensures !deg.Num? ==> r == "N/A"
  {
    match deg
    case Num(d) => DIRECTIONS[Sector(d) % 8]
    case _ => "N/A"
  }

  /** The corrected name is the compass point nearest the heading, and
      it agrees with the code as written wherever that does not fail. */
  lemma WindDirectionNearest(deg: real)
    ensures exists k | 0 <= k < 8 ::
      WindDirection(Num(deg)) == DIRECTIONS[k]
      && (-22.5 <= FloorMod(deg, 360.0) - 45.0 * k as real <= 22.5
          || (k == 0 && FloorMod(deg, 360.0) >= 337.5))
    ensures WindDirectionAsWritten(Num(deg)).Some? ==>
      WindDirectionAsWritten(Num(deg)) == Some(WindDirection(Num(deg)))
  {
    var s := Sector(deg);
    SectorEight(deg);
    assert WindDirection(Num(deg)) == DIRECTIONS[s % 8];
  }

  // ---------------------------------------------------------------------
  // Five-day forecast: the first item of each date

  /** The positions of the items whose date has not occurred before, in
      list order. */
  function FirstIndices(dates: seq<Date>): (r: seq<nat>)
    ensures forall k | 0 <= k < |r| :: r[k] < |dates|
    decreases |dates|
  {
    if dates == [] then []
    else
      var init := dates[..|dates| - 1];
      if dates[|dates| - 1] in init then FirstIndices(init)
      else FirstIndices(init) + [|dates| - 1]
  }

  predicate Increasing(r: seq<nat>) {
    forall k, l | 0 <= k < l < |r| :: r[k] < r[l]
  }

  /** The kept positions are in increasing order. */
  lemma {:induction false} FirstIndicesIncreasing(dates: seq<Date>)
    ensures Increasing(FirstIndices(dates))
    decreases |dates|
  {
    if dates != [] {
      var n := |dates| - 1;
      var init := dates[..n];
      FirstIndicesIncreasing(init);
      var p := FirstIndices(init);
      if dates[n] !in init {
        var r := p + [n];
        forall k, l | 0 <= k < l < |r|
          ensures r[k] < r[l]
        {
          assert r[k] == p[k];
        }
      }
    }
  }

  /** Position j is kept exactly when its date has not occurred before. */
  lemma {:induction false} FirstIndicesAt(dates: seq<Date>, j: nat)
    requires j < |dates|
    ensures j in FirstIndices(dates) <==> dates[j] !in dates[..j]
    decreases |dates|
  {
    var n := |dates| - 1;
    var init := dates[..n];
    var p := FirstIndices(init);
    assert n !in p;
    if j < n {
      FirstIndicesAt(init, j);
      assert dates[..j] == init[..j] && dates[j] == init[j];
      assert j in FirstIndices(dates) <==> j in p;
    } else {
      assert dates[..j] == init;
    }
  }

  lemma FirstIndicesExact(dates: seq<Date>)
    ensures forall j | 0 <= j < |dates| :: j in FirstIndices(dates) <==> dates[j] !in dates[..j]
  {
    forall j | 0 <= j < |dates|
      ensures j in FirstIndices(dates) <==> dates[j] !in dates[..j]
    {
      FirstIndicesAt(dates, j);
    }
  }

  /** Cutting the list short keeps a prefix of the kept positions. */
  lemma {:induction false} FirstIndicesPrefix(dates: seq<Date>, i: nat)
    requires i <= |dates|
    ensures FirstIndices(dates[..i]) <= FirstIndices(dates)
    decreases |dates|
  {
    if i < |dates| {
      var init := dates[..|dates| - 1];
      assert init[..i] == dates[..i];
      FirstIndicesPrefix(init, i);
    } else {
      assert dates[..i] == dates;
    }
  }

  /** One more item adds its position exactly when its date is new. */
  lemma FirstIndicesStep(dates: seq<Date>, i: nat)
    requires i < |dates|
    ensures FirstIndices(dates[..i + 1])
      == if dates[i] in dates[..i] then FirstIndices(dates[..i]) else FirstIndices(dates[..i]) + [i]
  {
    assert dates[..i + 1][..i] == dates[..i];
  }

  function DateSet(dates: seq<Date>): set<Date> {
    set d | d in dates
  }

  /** As many positions are kept as there are distinct dates. */
  lemma {:induction false} FirstIndicesCount(dates: seq<Date>)
    ensures |FirstIndices(dates)| == |DateSet(dates)|
    decreases |dates|
  {
    if dates != [] {
      var n := |dates| - 1;
      var init := dates[..n];
      FirstIndicesCount(init);
      assert dates == init + [dates[n]];
      assert DateSet(dates) == DateSet(init) + {dates[n]};
      if dates[n] !in init {
        assert dates[n] !in DateSet(init);
      }
    } else {
      assert DateSet(dates) == {};
    }
  }

  /** The first position of every date is kept. */
  lemma {:induction false} FirstOccurrence(dates: seq<Date>, j: nat) returns (j0: nat)
    requires j < |dates|
    ensures j0 <= j && dates[j0] == dates[j] && dates[j0] !in dates[..j0]
    decreases j
  {
    if dates[j] in dates[..j] {
      var m :| 0 <= m < j && dates[m] == dates[j];
      j0 := FirstOccurrence(dates, m);
    } else {
      j0 := j;
    }
  }

  /** One line of the five-day forecast: the item's date, temperature and
      condition. */
  datatype DayLine = DayLine(date: Date, temp: Value, description: Value)

  function DayLineOf(item: ForecastItem, clock: Clock): DayLine {
    DayLine(clock(item.dt).date, item.temp, item.description)
  }

  function LinesAt(items: seq<ForecastItem>, idx: seq<nat>, clock: Clock): (r: seq<DayLine>)
    requires forall k | 0 <= k < |idx| :: idx[k] < |items|
    ensures |r| == |idx|
    ensures forall k | 0 <= k < |idx| :: r[k] == DayLineOf(items[idx[k]], clock)
  {
    seq(|idx|, k requires 0 <= k < |idx| => DayLineOf(items[idx[k]], clock))
  }

  /** The positions the forecast loop prints: the first five kept ones. */
  function DailyIndices(items: seq<ForecastItem>, clock: Clock): (r: seq<nat>)
    ensures forall k | 0 <= k < |r| :: r[k] < |items|
  {
    var all := FirstIndices(DatesOf(items, clock));
    var r := Prefix(all, 5);
    assert forall k | 0 <= k < |r| :: r[k] == all[k];
    r
  }

  function DailyForecast(items: seq<ForecastItem>, clock: Clock): seq<DayLine> {
    LinesAt(items, DailyIndices(items, clock), clock)
  }

  /** The five-day forecast has at most five lines, in list order, each
      the first item of its date, no two of the same date, and it misses
      no date while there is room. */
  lemma DailyForecastShape(items: seq<ForecastItem>, clock: Clock)
    ensures var idx := DailyIndices(items, clock);
      && |idx| <= 5
      && Increasing(idx)
      && (forall k | 0 <= k < |idx| :: DatesOf(items, clock)[idx[k]] !in DatesOf(items, clock)[..idx[k]])
      && |idx| == Min(5, |DateSet(DatesOf(items, clock))|)
    ensures var days := DailyForecast(items, clock);
      forall k, l | 0 <= k < l < |days| :: days[k].date != days[l].date
  {
    var dates := DatesOf(items, clock);
    var all := FirstIndices(dates);
    var idx := DailyIndices(items, clock);
    FirstIndicesIncreasing(dates);
    FirstIndicesExact(dates);
    FirstIndicesCount(dates);
    assert forall k | 0 <= k < |idx| :: idx[k] == all[k] && idx[k] in all;
    var days := DailyForecast(items, clock);
    forall k, l | 0 <= k < l < |days|
      ensures days[k].date != days[l].date
    {
      assert days[k].date == dates[idx[k]] && days[l].date == dates[idx[l]];
      assert idx[k] < idx[l];
      assert dates[idx[k]] in dates[..idx[l]];
    }
  }

  /** With at most five dates, every date of the list gets its line. */
  lemma DailyForecastComplete(items: seq<ForecastItem>, clock: Clock, j: nat)
    requires j < |items| && |DateSet(DatesOf(items, clock))| <= 5
    ensures exists k | 0 <= k < |DailyForecast(items, clock)| ::
      DailyForecast(items, clock)[k].date == clock(items[j].dt).date
  {
    var dates := DatesOf(items, clock);
    var all := FirstIndices(dates);
    FirstIndicesExact(dates);
    FirstIndicesCount(dates);
    var j0 := FirstOccurrence(dates, j);
    assert j0 in all;
    var k :| 0 <= k < |all| && all[k] == j0;
    assert DailyIndices(items, clock) == all;
    assert DailyForecast(items, clock)[k].date == dates[j0];
  }

  /** What the loop learns from item i: the set of dates seen grows by its
      date, and its position is kept exactly when that date is new. */
  lemma DailyStep(dates: seq<Date>, i: nat)
    requires i < |dates|
    ensures DateSet(dates[..i + 1]) == DateSet(dates[..i]) + {dates[i]}
    ensures dates[i] in DateSet(dates[..i]) <==> dates[i] in dates[..i]
    ensures FirstIndices(dates[..i + 1])
      == if dates[i] in dates[..i] then FirstIndices(dates[..i]) else FirstIndices(dates[..i]) + [i]
    ensures |FirstIndices(dates[..i])| == |DateSet(dates[..i])|
  {
    FirstIndicesStep(dates, i);
    FirstIndicesCount(dates[..i]);
    assert dates[..i + 1] == dates[..i] + [dates[i]];
  }

  /** A sixth new date at position i: the five kept so far are the first
      five of the whole list. */
  lemma DailyStop(dates: seq<Date>, i: nat)
    requires i < |dates| && dates[i] !in dates[..i]
    requires |FirstIndices(dates[..i])| == 5
    ensures FirstIndices(dates[..i]) == Prefix(FirstIndices(dates), 5)
  {
    FirstIndicesStep(dates, i);
    FirstIndicesPrefix(dates, i + 1);
  }

  /** Reaching the end with at most five dates keeps every kept position. */
  lemma DailyEnd(dates: seq<Date>, i: nat)
    requires i == |dates| && |DateSet(dates[..i])| <= 5
    ensures FirstIndices(dates[..i]) == Prefix(FirstIndices(dates), 5)
  {
    assert dates[..i] == dates;
    FirstIndicesCount(dates);
  }

  lemma LinesAtAppend(items: seq<ForecastItem>, idx: seq<nat>, i: nat, clock: Clock)
    requires forall k | 0 <= k < |idx| :: idx[k] < |items|
    requires i < |items|
    ensures LinesAt(items, idx + [i], clock) == LinesAt(items, idx, clock) + [DayLineOf(items[i], clock)]
  {
  }

  /** The loop of `hava_durumu`: skip a date already seen, record it,
      stop once a sixth date turns up, and print the item otherwise. */
  method DailyForecasts(items: seq<ForecastItem>, clock: Clock) returns (daily: seq<DayLine>)
    ensures daily == DailyForecast(items, clock)
  {
    ghost var dates := DatesOf(items, clock);
    var seen: set<Date> := {};
    daily := [];
    var i := 0;
    while i < |items|
      invariant 0 <= i <= |items|
      invariant seen == DateSet(dates[..i])
      invariant |seen| <= 5
      invariant daily == LinesAt(items, FirstIndices(dates[..i]), clock)
    {
      DailyStep(dates, i);
      var date := clock(items[i].dt).date;
      if date in seen {
        i := i + 1;
        continue;
      }
      seen := seen + {date};
      if |seen| > 5 {
        DailyStop(dates, i);
        break;
      }
      LinesAtAppend(items, FirstIndices(dates[..i]), i, clock);
      daily := daily + [DayLineOf(items[i], clock)];
      i := i + 1;
    }
    if i == |items| {
      DailyEnd(dates, i);
    }
  }

  // ---------------------------------------------------------------------
  // The tool

  datatype WeatherReply =
    | InvalidLatitude
    | InvalidLongitude
    | DemoWeather(lat: real, lon: real, name: Option<string>)
    | CurrentUnavailable(error: string)
    | ForecastUnavailable(error: string)
      /** An IndexError: the "weather" list of the reply was empty. */
    | Crashed
    | Report(location: string, temp: Value, feelsLike: Value, humidity: Value,
             windSpeed: Value, windDirection: string, description: Value, days: seq<DayLine>)

  /** `yer_adi or weather.get('name', 'Bilinmeyen Konum')`: an empty name
      counts as missing. */
  function Location(name: Option<string>, current: Current): (r: string)
    ensures name.Some? && name.value != "" ==> r == name.value
    ensures (name.None? || name.value == "") ==> r == Get(current.name, "Bilinmeyen Konum")
  {
    if name.Some? && name.value != "" then name.value else Get(current.name, "Bilinmeyen Konum")
  }

  /** hava_durumu(enlem, boylam, yer_adi), given the two replies the
      request helpers would give for these coordinates. */
  function WeatherAt(lat: real, lon: real, name: Option<string>,
                     current: Response<Current>, forecast: Response<Forecast>,
                     clock: Clock): (r: WeatherReply)
    ensures r == InvalidLatitude <==> !ValidLatitude(lat)
    ensures r == InvalidLongitude <==> ValidLatitude(lat) && !ValidLongitude(lon)
    ensures r.DemoWeather? <==>
      ValidLatitude(lat) && ValidLongitude(lon) && current.Failure? && IsDemo(current.error)
    ensures r.CurrentUnavailable? <==>
      ValidLatitude(lat) && ValidLongitude(lon) && current.Failure? && !IsDemo(current.error)
    ensures r.CurrentUnavailable? ==> r.error == current.error
    ensures r.ForecastUnavailable? <==>
      ValidLatitude(lat) && ValidLongitude(lon) && current.Success? && forecast.Failure?
    ensures r.ForecastUnavailable? ==> r.error == forecast.error
    ensures r.Crashed? <==>
      ValidLatitude(lat) && ValidLongitude(lon) && current.Success? && forecast.Success?
      && current.body.weather == Some([])
    ensures r.Report? <==>
      ValidLatitude(lat) && ValidLongitude(lon) && current.Success? && forecast.Success?
      && current.body.weather != Some([])
    ensures r.Report? ==>
      var cur := current.body;
      && r.location == Location(name, cur)
      && r.temp == Get(cur.temp, Str("N/A")) && r.feelsLike == Get(cur.feelsLike, Str("N/A"))
      && r.humidity == Get(cur.humidity, Str("N/A")) && r.windSpeed == Get(cur.windSpeed, Str("N/A"))
      && r.windDirection == WindDirection(Get(cur.windDeg, Str("N/A")))
      && r.description == Get(FirstCondition(cur.weather).value.description, Str("N/A"))
      && r.days == DailyForecast(Get(forecast.body.list, []), clock)
      && |r.days| <= 5
  {
    if !ValidLatitude(lat) then InvalidLatitude
    else if !ValidLongitude(lon) then InvalidLongitude
    else
      match current
      case Failure(e) =>
        if IsDemo(e) then DemoWeather(lat, lon, name) else CurrentUnavailable(e)
      case Success(cur) =>
        match forecast
        case Failure(e) => ForecastUnavailable(e)
        case Success(fc) =>
          match FirstCondition(cur.weather)
          case None => Crashed
          case Some(cond) =>
            var items := Get(fc.list, []);
            Report(Location(name, cur),
                   Get(cur.temp, Str("N/A")), Get(cur.feelsLike, Str("N/A")), Get(cur.humidity, Str("N/A")),
                   Get(cur.windSpeed, Str("N/A")), WindDirection(Get(cur.windDeg, Str("N/A"))),
                   Get(cond.description, Str("N/A")), DailyForecast(items, clock))
  }

  /** Invalid coordinates are turned away before either request, so the
      replies play no part. */
  lemma ValidationFirst(lat: real, lon: real, name: Option<string>,
                        c1: Response<Current>, f1: Response<Forecast>,
                        c2: Response<Current>, f2: Response<Forecast>, clock: Clock)
    requires !ValidLatitude(lat) || !ValidLongitude(lon)
    ensures WeatherAt(lat, lon, name, c1, f1, clock) == WeatherAt(lat, lon, name, c2, f2, clock)
  {
  }

  /** A failed current-weather request decides the reply whatever the
      forecast request gave. */
  lemma CurrentFailureFirst(lat: real, lon: real, name: Option<string>, e: string,
                            f1: Response<Forecast>, f2: Response<Forecast>, clock: Clock)
    ensures WeatherAt(lat, lon, name, Failure(e), f1, clock) == WeatherAt(lat, lon, name, Failure(e), f2, clock)
  {
  }
}
