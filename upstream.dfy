/** The shapes of the OpenWeatherMap replies the tools read, with every
    optional JSON member as an Option, the error dictionary the request
    helpers return on failure, and the local calendar reached through
    `datetime.fromtimestamp`. */
module Upstream {
  import opened Python

  /** A request helper either reports `{"error": text}` or hands back the
      decoded JSON body. */
  datatype Response<T> = Failure(error: string) | Success(body: T)

  /** The request helpers mark a missing API key with "Demo mode" in the
      error text; the tools then fall back to generated demo data. */
  predicate IsDemo(error: string) {
    Contains(error, "Demo mode")
  }

  /** `response.get("error", "")`: the error text, or "" when it succeeded. */
  function ErrorText<T>(r: Response<T>): (e: string)
    ensures r.Success? ==> e == ""
    ensures r.Failure? ==> e == r.error
  {
    match r
    case Failure(e) => e
    case Success(_) => ""
  }

  /** One element of the "weather" list of a current-weather reply. */
  datatype Condition = Condition(id: Option<int>, main: Option<string>, description: Option<Value>)

  /** The members of a current-weather reply the tools read: "name",
      "main.temp", "main.feels_like", "main.humidity", "weather",
      "wind.speed" and "wind.deg". A missing "main" or "wind" object
      leaves all of its members missing. */
  datatype Current = Current(
    name: Option<string>,
    temp: Option<Value>,
    feelsLike: Option<Value>,
    humidity: Option<Value>,
    weather: Option<seq<Condition>>,
    windSpeed: Option<Value>,
    windDeg: Option<Value>)

  /** One three-hourly item of a forecast reply: "dt", "main.temp",
      "main.humidity", "wind.speed" and "weather[0].description". */
  datatype ForecastItem = ForecastItem(dt: int, temp: Value, humidity: Value, windSpeed: Value, description: Value)

  datatype Forecast = Forecast(list: Option<seq<ForecastItem>>)

  /** One element of the "list" of an air-pollution reply: "main.aqi" and
      the "components" object. */
  datatype AqiEntry = AqiEntry(aqi: Option<int>, components: map<string, Value>)

  datatype AirQuality = AirQuality(list: Option<seq<AqiEntry>>)

  /** `d.get(key, default)`. */
  function Get<T>(o: Option<T>, default: T): (r: T)
    ensures o.Some? ==> r == o.value
    ensures o.None? ==> r == default
  {
    match o
    case Some(v) => v
    case None => default
  }

  /** `current.get("weather", [{}])[0]`: None when the list is present but
      empty (an IndexError), the empty condition when it is missing. */
  function FirstCondition(weather: Option<seq<Condition>>): (r: Option<Condition>)
    ensures r.None? <==> weather == Some([])
    ensures weather.None? ==> r == Some(Condition(None, None, None))
    ensures weather.Some? && weather.value != [] ==> r == Some(weather.value[0])
  {
    match weather
    case None => Some(Condition(None, None, None))
    case Some(ws) => if ws == [] then None else Some(ws[0])
  }

  /** A calendar date, ordered as `datetime.date` orders them. */
  datatype Date = Date(year: int, month: int, day: int)

  predicate Later(a: Date, b: Date) {
    a.year > b.year
    || (a.year == b.year && a.month > b.month)
    || (a.year == b.year && a.month == b.month && a.day > b.day)
  }

  /** `datetime.weekday()`: Monday is 0 and Sunday 6. */
  type Weekday = w: int | 0 <= w <= 6

  datatype LocalTime = LocalTime(date: Date, weekday: Weekday, hour: int, minute: int)

  /** `datetime.fromtimestamp` in the server's local time zone. */
  type Clock = int -> LocalTime

  /** The date of each item, in list order. */
  function DatesOf(items: seq<ForecastItem>, clock: Clock): (r: seq<Date>)
    ensures |r| == |items|
    ensures forall i | 0 <= i < |items| :: r[i] == clock(items[i].dt).date
  {
    seq(|items|, i requires 0 <= i < |items| => clock(items[i].dt).date)
  }
}
