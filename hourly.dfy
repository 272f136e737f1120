/** saatlik_hava_durumu: the three-hourly forecast of a known city for
    one to five days, a date header before the first item of each new
    day. */
module Hourly {
  import opened Python
  import opened Normalization
  import opened Utils
  import opened Config
  import opened Upstream
  import opened CityLookup

  /** The day count the tool accepts. */
  predicate ValidDays(days: int) { 1 <= days <= 5 }

  datatype HourLine =
    | DateHeader(date: Date, dayName: string)
    | HourEntry(time: LocalTime, emoji: string, temp: Value, description: Value,
                humidity: Value, windSpeed: Value)

  /** The header printed for the day of t. */
  function HeaderOf(t: LocalTime): HourLine {
    DateHeader(t.date, TurkishDayName(t.weekday).value)
  }

  /** Whether item i starts a new day: it is the first item, or the day
      of the item before differs. */
  predicate NewDay(items: seq<ForecastItem>, i: nat, clock: Clock)
    requires i < |items|
  {
    i == 0 || clock(items[i - 1].dt).date != clock(items[i].dt).date
  }

  /** The lines for items, or None once an item's description is no
      string (`get_weather_emoji` calls `condition.lower()`, an
      AttributeError on anything else); recursive from the last item.
      The emoji chooser is a parameter: the tool passes
      `Utils.WeatherEmoji`. */
  function HourLines(items: seq<ForecastItem>, clock: Clock, emoji: string -> string): Option<seq<HourLine>>
    decreases |items|
  {
    if items == [] then Some([])
    else
      var k := |items| - 1;
      var it := items[k];
      var t := clock(it.dt);
      match HourLines(items[..k], clock, emoji)
      case None => None
      case Some(prev) =>
        if !it.description.Str? then None
        else
          var header := if NewDay(items, k, clock) then [HeaderOf(t)] else [];
          Some(prev + header + [HourEntry(t, emoji(it.description.s), it.temp, it.description, it.humidity, it.windSpeed)])
  }

  /** The hour line of an item whose description is a string. */
  function EntryOf(it: ForecastItem, clock: Clock, emoji: string -> string): HourLine
    requires it.description.Str?
  {
    HourEntry(clock(it.dt), emoji(it.description.s), it.temp, it.description, it.humidity, it.windSpeed)
  }

  /** The hour lines among the lines, in order. */
  function Hours(lines: seq<HourLine>): (r: seq<HourLine>)
    ensures |r| <= |lines|
    ensures forall j | 0 <= j < |r| :: r[j].HourEntry?
  {
    if lines == [] then []
    else (if lines[0].HourEntry? then [lines[0]] else []) + Hours(lines[1..])
  }

  lemma {:induction false} HoursConcat(a: seq<HourLine>, b: seq<HourLine>)
    ensures Hours(a + b) == Hours(a) + Hours(b)
    decreases |a|
  {
    if a == [] {
      assert a + b == b;
    } else {
      assert (a + b)[1..] == a[1..] + b;
      HoursConcat(a[1..], b);
    }
  }

  predicate AllDescribed(items: seq<ForecastItem>) {
    forall i | 0 <= i < |items| :: items[i].description.Str?
  }

  /** The report is produced exactly when every description is a string. */
  lemma {:induction false} HourLinesDefined(items: seq<ForecastItem>, clock: Clock, emoji: string -> string)
    ensures HourLines(items, clock, emoji).Some? <==> AllDescribed(items)
    decreases |items|
  {
    if items != [] {
      var k := |items| - 1;
      HourLinesDefined(items[..k], clock, emoji);
      assert forall i | 0 <= i < k :: items[..k][i] == items[i];
    }
  }

  /** A step of the recursion adds one hour line. */
  lemma HoursStep(prev: seq<HourLine>, header: seq<HourLine>, x: HourLine)
    requires forall j | 0 <= j < |header| :: header[j].DateHeader?
    requires |header| <= 1 && x.HourEntry?
    ensures Hours(prev + header + [x]) == Hours(prev) + [x]
  {
    HoursConcat(prev + header, [x]);
    HoursConcat(prev, header);
    assert Hours([x]) == [x];
    if header != [] {
      assert Hours(header) == [] + Hours(header[1..]);
      assert header[1..] == [];
    }
  }

  /** The header the recursion puts before the hour line of item k. */
  function HeaderAt(items: seq<ForecastItem>, k: nat, clock: Clock): (r: seq<HourLine>)
    requires k < |items|
    ensures |r| <= 1 && forall j | 0 <= j < |r| :: r[j].DateHeader?
  {
    if NewDay(items, k, clock) then [HeaderOf(clock(items[k].dt))] else []
  }

  /** One step of the recursion, once the lines exist. */
  lemma HourLinesLast(items: seq<ForecastItem>, clock: Clock, emoji: string -> string)
    requires items != [] && HourLines(items, clock, emoji).Some?
    ensures var k := |items| - 1;
      && HourLines(items[..k], clock, emoji).Some?
      && items[k].description.Str?
      && HourLines(items, clock, emoji).value == HourLines(items[..k], clock, emoji).value + HeaderAt(items, k, clock) + [EntryOf(items[k], clock, emoji)]
  {
    var k := |items| - 1;
    assert HourLines(items[..k], clock, emoji).Some?;
  }

  /** One hour line per item, in item order. */
  lemma {:induction false} HourLinesCount(items: seq<ForecastItem>, clock: Clock, emoji: string -> string)
    requires HourLines(items, clock, emoji).Some?
    ensures AllDescribed(items)
    ensures var hs := Hours(HourLines(items, clock, emoji).value);
      |hs| == |items| && forall i | 0 <= i < |items| :: hs[i] == EntryOf(items[i], clock, emoji)
    decreases |items|
  {
    HourLinesDefined(items, clock, emoji);
    if items != [] {
      var k := |items| - 1;
      HourLinesLast(items, clock, emoji);
      var prev := HourLines(items[..k], clock, emoji).value;
      HourLinesCount(items[..k], clock, emoji);
      HoursStep(prev, HeaderAt(items, k, clock), EntryOf(items[k], clock, emoji));
      var hs := Hours(HourLines(items, clock, emoji).value);
      assert hs == Hours(prev) + [EntryOf(items[k], clock, emoji)];
      forall i | 0 <= i < k
        ensures hs[i] == EntryOf(items[i], clock, emoji)
      {
        assert items[..k][i] == items[i];
      }
    }
  }

  /** The lines start with a header when there is any item. */
  lemma {:induction false} FirstLineIsHeader(items: seq<ForecastItem>, clock: Clock, emoji: string -> string)
    requires items != [] && HourLines(items, clock, emoji).Some?
    ensures var lines := HourLines(items, clock, emoji).value;
      lines != [] && lines[0] == HeaderOf(clock(items[0].dt))
    decreases |items|
  {
    var k := |items| - 1;
    if k > 0 {
      FirstLineIsHeader(items[..k], clock, emoji);
    }
  }

  /** The last line is the hour line of the last item. */
  lemma LastLine(items: seq<ForecastItem>, clock: Clock, emoji: string -> string)
    requires items != [] && HourLines(items, clock, emoji).Some?
    ensures var lines := HourLines(items, clock, emoji).value;
      lines != [] && lines[|lines| - 1].HourEntry? && lines[|lines| - 1].time == clock(items[|items| - 1].dt)
  {
  }

  /** Every header is followed at once by an hour line of its date; a
      header after the first line comes right after an hour line of another
      date; and an hour line follows an hour line only on the same date: a
      header sits exactly where the day changes. */
  predicate WellHeaded(lines: seq<HourLine>) {
    && (forall j | 0 <= j < |lines| && lines[j].DateHeader? ::
          j + 1 < |lines| && lines[j + 1].HourEntry? && lines[j + 1].time.date == lines[j].date)
    && (forall j | 0 < j < |lines| && lines[j].DateHeader? ::
          lines[j - 1].HourEntry? && lines[j - 1].time.date != lines[j].date)
    && (forall j | 0 < j < |lines| && lines[j].HourEntry? && lines[j - 1].HourEntry? ::
          lines[j - 1].time.date == lines[j].time.date)
  }

  lemma {:induction false} HourLinesWellHeaded(items: seq<ForecastItem>, clock: Clock, emoji: string -> string)
    requires HourLines(items, clock, emoji).Some?
    ensures WellHeaded(HourLines(items, clock, emoji).value)
    decreases |items|
  {
    if items != [] {
      var k := |items| - 1;
      var prev := HourLines(items[..k], clock, emoji).value;
      HourLinesWellHeaded(items[..k], clock, emoji);
      var lines := HourLines(items, clock, emoji).value;
      var t := clock(items[k].dt);
      if k > 0 {
        LastLine(items[..k], clock, emoji);
        assert items[..k][k - 1] == items[k - 1];
      }
      if NewDay(items, k, clock) {
        assert lines == prev + [HeaderOf(t), lines[|lines| - 1]];
      } else {
        assert lines == prev + [lines[|lines| - 1]];
      }
    }
  }

  /** The hourly loop: `current_date` remembers the last header's date,
      which is the date of the item before. */
  method HourlyLines(items: seq<ForecastItem>, clock: Clock, emoji: string -> string) returns (r: Option<seq<HourLine>>)
    ensures r == HourLines(items, clock, emoji)
  {
    var lines: seq<HourLine> := [];
    var current: Option<Date> := None;
    for i := 0 to |items|
      invariant HourLines(items[..i], clock, emoji) == Some(lines)
      invariant current == if i == 0 then None else Some(clock(items[i - 1].dt).date)
    {
      var it := items[i];
      var t := clock(it.dt);
      assert items[..i + 1][..i] == items[..i];
      assert items[..i + 1][i] == it;
      var header: seq<HourLine> := [];
      if current != Some(t.date) {
        current := Some(t.date);
        header := [HeaderOf(t)];
      }
      if !it.description.Str? {
        HourLinesDefined(items[..i + 1], clock, emoji);
        HourLinesDefined(items, clock, emoji);
        assert !AllDescribed(items[..i + 1]);
        return None;
      }
      lines := lines + header + [HourEntry(t, emoji(it.description.s), it.temp, it.description, it.humidity, it.windSpeed)];
    }
    assert items[..|items|] == items;
    r := Some(lines);
  }

  // ---------------------------------------------------------------------
  // The tool

  datatype HourlyReply =
    | InvalidDays
    | UnknownCity(query: string)
    | DemoHourly(name: string, days: int)
    | ForecastUnavailable(error: string)
      /** An AttributeError: a description was no string. */
    | Crashed
    | HourlyReport(name: string, lines: seq<HourLine>)

  /** The items shown: `min(gun_sayisi * 24, len(list))` of them. */
  function Shown(items: seq<ForecastItem>, days: int): (r: seq<ForecastItem>)
    requires ValidDays(days)
    ensures |r| == Min(days * 24, |items|) && r <= items
  {
    Prefix(items, days * 24)
  }

  /** saatlik_hava_durumu(sehir, gun_sayisi) over a city table, given the
      forecast reply for the city's coordinates. */
  function HourlyIn(entries: seq<Entry>, query: string, days: int, forecast: Response<Forecast>,
                    clock: Clock): (r: HourlyReply)
    ensures r == InvalidDays <==> !ValidDays(days)
    ensures ValidDays(days) && Lookup(Normalized(query), entries).None? ==> r == UnknownCity(query)
    ensures ValidDays(days) && Lookup(Normalized(query), entries).Some? ==>
      var c := Lookup(Normalized(query), entries).value;
      && (forecast.Failure? && IsDemo(forecast.error) ==> r == DemoHourly(c.name, days))
      && (forecast.Failure? && !IsDemo(forecast.error) ==> r == ForecastUnavailable(forecast.error))
      && (forecast.Success? ==>
            var shown := Shown(Get(forecast.body.list, []), days);
            && (r == Crashed <==> !AllDescribed(shown))
            && (r.HourlyReport? <==> AllDescribed(shown))
            && (r.HourlyReport? ==> r.name == c.name && Some(r.lines) == HourLines(shown, clock, WeatherEmoji)))
  {
    if !ValidDays(days) then InvalidDays
    else
      match Lookup(Normalized(query), entries)
      case None => UnknownCity(query)
      case Some(c) =>
        match forecast
        case Failure(e) => if IsDemo(e) then DemoHourly(c.name, days) else ForecastUnavailable(e)
        case Success(fc) =>
          var shown := Shown(Get(fc.list, []), days);
          HourLinesDefined(shown, clock, WeatherEmoji);
          match HourLines(shown, clock, WeatherEmoji)
          case None => Crashed
          case Some(lines) => HourlyReport(c.name, lines)
  }

  /** The tool itself, over the table of config.py. */
  function HourlyForecast(query: string, days: int, forecast: Response<Forecast>, clock: Clock): HourlyReply {
    HourlyIn(TURKISH_CITIES, query, days, forecast, clock)
  }

  /** The day count is checked before the city: an invalid count is
      refused whatever the city and the reply. */
  lemma DaysCheckedFirst(entries: seq<Entry>, q1: string, q2: string, days: int,
                         f1: Response<Forecast>, f2: Response<Forecast>, clock: Clock)
    requires !ValidDays(days)
    ensures HourlyIn(entries, q1, days, f1, clock) == HourlyIn(entries, q2, days, f2, clock) == InvalidDays
  {
  }

  /** A report shows one hour line per item up to the cap, in order, a
      header first and at each change of day. */
  lemma HourlyReportShape(entries: seq<Entry>, query: string, days: int, forecast: Response<Forecast>,
                          clock: Clock)
    requires HourlyIn(entries, query, days, forecast, clock).HourlyReport?
    ensures var lines := HourlyIn(entries, query, days, forecast, clock).lines;
      var shown := Shown(Get(forecast.body.list, []), days);
      && |Hours(lines)| == Min(days * 24, |Get(forecast.body.list, [])|)
      && (forall i | 0 <= i < |shown| :: Hours(lines)[i] == EntryOf(shown[i], clock, WeatherEmoji))
      && (shown != [] ==> lines[0] == HeaderOf(clock(shown[0].dt)))
      && WellHeaded(lines)
  {
    var shown := Shown(Get(forecast.body.list, []), days);
    HourLinesCount(shown, clock, WeatherEmoji);
    HourLinesWellHeaded(shown, clock, WeatherEmoji);
    if shown != [] {
      FirstLineIsHeader(shown, clock, WeatherEmoji);
    }
  }
}
