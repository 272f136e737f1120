/** hava_kalitesi: the air-quality index of a known city, its
    description, the six pollutant readings and the advice for the
    index. */
module AirQualityTool {
  import opened Python
  import opened Normalization
  import opened Utils
  import opened Config
  import opened Upstream
  import opened CityLookup

  /** The seven descriptions, indexed by the AQI and capped at the last. */
  const AQI_DESCRIPTIONS: seq<string> := [
    "Bilgi yok",
    "İyi",
    "Makul",
    "Hassas gruplar için sağlıksız",
    "Sağlıksız",
    "Çok sağlıksız",
    "Tehlikeli"
  ]

  /** `aqi_descriptions[min(aqi, len(aqi_descriptions) - 1)]`; None is the
      IndexError of an index below -7. */
  function AqiDescription(aqi: int): (r: Option<string>)
    ensures r.None? <==> aqi < -7
    ensures 0 <= aqi <= 6 ==> r == Some(AQI_DESCRIPTIONS[aqi])
    ensures aqi >= 6 ==> r == Some("Tehlikeli")
    ensures -7 <= aqi < 0 ==> r == Some(AQI_DESCRIPTIONS[aqi + 7])
  {
    Index(AQI_DESCRIPTIONS, Min(aqi, |AQI_DESCRIPTIONS| - 1))
  }

  /** A missing index reads as 0: no information, and the emergency
      advice, since only 1..5 have advice of their own. */
  lemma MissingIndex()
    ensures AqiDescription(Get(None, 0)) == Some("Bilgi yok")
    ensures AqiRecommendation(Get(None, 0)) == AQI_EMERGENCY
  {
  }

  /** A negative index counts from the end of the table: -1 is
      "Tehlikeli" and -7 "Bilgi yok". */
  lemma NegativeIndexWraps()
    ensures AqiDescription(-1) == Some("Tehlikeli")
    ensures AqiDescription(-7) == Some("Bilgi yok")
    ensures AqiDescription(-8).None?
  {
  }

  /** The pollutants reported, in order: (component key, label). */
  const POLLUTANTS: seq<(string, string)> := [
    ("pm2_5", "Partiküller (PM2.5)"),
    ("pm10", "Partiküller (PM10)"),
    ("o3", "Ozon (O₃)"),
    ("no2", "Nitrojen dioksit (NO₂)"),
    ("so2", "Kükürt dioksit (SO₂)"),
    ("co", "Karbon monoksit (CO)")
  ]

  /** `components.get(key, 'N/A')`. */
  function Component(components: map<string, Value>, key: string): (r: Value)
    ensures key in components ==> r == components[key]
    ensures key !in components ==> r == Str("N/A")
  {
    if key in components then components[key] else Str("N/A")
  }

  /** The reading of each pollutant, labelled and in the order of
      POLLUTANTS: "N/A" exactly when the reply lacks the component or sends
      "N/A" itself, and the reply's value otherwise. */
  function Readings(components: map<string, Value>): (r: seq<(string, Value)>)
    ensures |r| == |POLLUTANTS|
    ensures forall i | 0 <= i < |POLLUTANTS| :: r[i].0 == POLLUTANTS[i].1
    ensures forall i | 0 <= i < |POLLUTANTS| ::
      r[i].1 == Str("N/A") <==> POLLUTANTS[i].0 !in components || components[POLLUTANTS[i].0] == Str("N/A")
    ensures forall i | 0 <= i < |POLLUTANTS| :: POLLUTANTS[i].0 in components ==> r[i].1 == components[POLLUTANTS[i].0]
  {
    seq(|POLLUTANTS|, i requires 0 <= i < |POLLUTANTS| => (POLLUTANTS[i].1, Component(components, POLLUTANTS[i].0)))
  }

  datatype AirReply =
    | UnknownCity(query: string)
    | DemoAir(name: string)
    | AirUnavailable(error: string)
      /** The handler of the `try` block: an empty list, or an index below -7. */
    | ProcessingError
    | AirReport(name: string, aqi: int, description: string, readings: seq<(string, Value)>, advice: string)

  /** `air_quality_data.get("list", [{}])[0]`: None when the list is
      present but empty. */
  function FirstAqi(list: Option<seq<AqiEntry>>): (r: Option<AqiEntry>)
    ensures r.None? <==> list == Some([])
    ensures list.None? ==> r == Some(AqiEntry(None, map[]))
    ensures list.Some? && list.value != [] ==> r == Some(list.value[0])
  {
    match list
    case None => Some(AqiEntry(None, map[]))
    case Some(es) => if es == [] then None else Some(es[0])
  }

  /** hava_kalitesi(sehir) over a city table, given the reply of the
      air-pollution request for the city's coordinates. */
  function AirQualityIn(entries: seq<Entry>, query: string, air: Response<AirQuality>): (r: AirReply)
    ensures Lookup(Normalized(query), entries).None? <==> r == UnknownCity(query)
    ensures Lookup(Normalized(query), entries).Some? ==>
      var c := Lookup(Normalized(query), entries).value;
      && (air.Failure? && IsDemo(air.error) ==> r == DemoAir(c.name))
      && (air.Failure? && !IsDemo(air.error) ==> r == AirUnavailable(air.error))
      && (air.Success? ==>
            && (air.body.list == Some([]) ==> r == ProcessingError)
            && (air.body.list != Some([]) ==>
                  var e := FirstAqi(air.body.list).value;
                  var aqi := Get(e.aqi, 0);
                  && (aqi < -7 ==> r == ProcessingError)
                  && (aqi >= -7 ==> r == AirReport(c.name, aqi, AqiDescription(aqi).value, Readings(e.components),
                                                   AqiRecommendation(aqi)))))
  {
    match Lookup(Normalized(query), entries)
    case None => UnknownCity(query)
    case Some(c) =>
      match air
      case Failure(err) => if IsDemo(err) then DemoAir(c.name) else AirUnavailable(err)
      case Success(body) =>
        match FirstAqi(body.list)
        case None => ProcessingError
        case Some(e) =>
          var aqi := Get(e.aqi, 0);
          match AqiDescription(aqi)
          case None => ProcessingError
          case Some(d) => AirReport(c.name, aqi, d, Readings(e.components), AqiRecommendation(aqi))
  }

  /** The tool itself, over the table of config.py. */
  function AirQualityFor(query: string, air: Response<AirQuality>): AirReply {
    AirQualityIn(TURKISH_CITIES, query, air)
  }

  /** A report of a reply without pollutant components lists all six
      readings as "N/A". */
  lemma NoComponentsNotAvailable(entries: seq<Entry>, query: string, air: Response<AirQuality>)
    requires AirQualityIn(entries, query, air).AirReport?
    requires air.Success? && air.body.list.Some? && air.body.list.value[0].components == map[]
    ensures forall i | 0 <= i < 6 :: AirQualityIn(entries, query, air).readings[i].1 == Str("N/A")
  {
  }
}
