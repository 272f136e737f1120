# MCP-Turkey-Weather in Dafny

MCP-Turkey-Weather is a small tool server that answers questions about the weather in Turkish cities. Its seven tools are:

- `hava_durumu`: weather at a coordinate.
- `hava_durumu_sehir`: weather in a named city.
- `saatlik_hava_durumu`: hourly forecast.
- `hava_kalitesi`: air quality.
- `sehirler_karsilastir`: comparison of two cities.
- `havadurumu_aktivite_onerileri`: activity advice.
- `turk_sehirleri_listesi`: list of the known cities.

The tools sit on top of a weather HTTP API. Each reads that API's JSON and turns it into a Turkish text report. When no API key is configured, an error text containing "Demo mode" makes the tool fall back to generated demo output.

This project models the deterministic part of that layer and proves its properties:

- The helpers of `utils.py`:
  - Turkish-aware name normalisation.
  - The weather emoji chosen by substring priority.
  - Weekday names.
  - AQI advice bands.
  - The three-way value comparison.
- The city table of `config.py`.
- The decision logic inside the tools of `weather.py`:
  - Coordinate and day-count validation.
  - City lookup with substring suggestions.
  - The eight-point wind direction.
  - The first forecast item per date, at most five dates.
  - Hourly lines with a date header at each new day.
  - The AQI description table.
  - The error handling of the two-city comparison.
  - The precedence of the activity choice.
  - The next-day outlook.
  - The sorted city listing.

## How the model is built

**Inputs.** The replies of the weather service are parameters of type `Response<T>`, which is `Failure(error)` or `Success(body)`. The body types keep the JSON fields the tools read. A field the source reads with `.get(..., default)` is an `Option`. Where the source indexes without a default, the field is required. JSON numbers are exact reals.

**Time.** `datetime.fromtimestamp` is a parameter `clock: int -> LocalTime`, a function from timestamp to date, time and weekday. `datetime.now().date()` is a parameter `today`.

**Output.** A tool's reply is a datatype with one constructor per kind of answer. Examples are `InvalidLatitude`, `DidYouMean`, `ComparisonFailed`, `Crashed` for an uncaught Python exception, and `Report` for the report's contents. The layout of the text is not modelled.

**Python semantics** are modelled in module `Python`:

- Negative sequence indexing, with `None` for the IndexError (`Index`).
- `%` on floats (`FloorMod`).
- `round` with ties to even (`Round`).
- `float()` on numbers and on decimal text (`ToFloat`).
- The substring test `in` (`Contains`).

**Loops.** The source's loops are Dafny methods proved equal to specification functions:

- The replacement loop of `normalize_turkish_text`.
- The daily dedup loop of `hava_durumu`.
- The hourly loop.
- The activity-line loops.
- The next-day search.

Every property is then proved about those functions.

**Modules.** They follow the source:

| module | models |
|---|---|
| `Python` | builtins |
| `Normalization` | `normalize_turkish_text` |
| `Utils` | the other helpers of `utils.py` |
| `Config` | the city table |
| `Upstream` | the JSON shapes |
| `WeatherTool` | `hava_durumu` |
| `CityLookup` | `hava_durumu_sehir`: the lookup, suggestions and ordering |
| `CityTable` | the facts about the concrete table, and `turk_sehirleri_listesi` |
| `Hourly` | `saatlik_hava_durumu` |
| `AirQualityTool` | `hava_kalitesi` |
| `Comparison` | `sehirler_karsilastir` |
| `Activities` | `havadurumu_aktivite_onerileri` |

**Normalisation.** Python's `str.lower` and NFD decomposition are modelled over a bounded alphabet. It covers ASCII, the Latin-1 letters, ğ, ş, ı and İ in both cases, and the combining marks U+0300..U+036F. In particular, `'İ'.lower()` is `"i̇"` and `'I'.lower()` is `"i"`. `str.upper` is modelled letter by letter, and it agrees with CPython only on ASCII, Latin-1 without ß, µ and ÿ, and ğ, Ğ, ş, Ş, ı, İ (`CaseModelled`). CPython upper-cases ß to "SS", µ to U+039C and ÿ to U+0178, so the case lemmas are stated for `CaseModelled` text only.

## Model

| member | source | states |
|---|---|---|
| Python.FloorMod | weather.py:61 | Python's `x % m` for positive m, on exact reals, lies in [0, m) and differs from x by a whole multiple of m, which fixes it uniquely |
| Python.Round | weather.py:61 | `round(x)` is within 0.5 of x, and a tie goes to the even integer |
| Python.ParseIntegerText | utils.py:82-83 | `float()` of the decimal text of a natural number is that number, on exact reals |
| Normalization.NormalizeTurkishText | utils.py:12-29 | the method (lower-casing, the İ/I replacements, the replacement loop, NFD and mark stripping) computes the normalisation function `Normalized` |
| Normalization.ReplaceEach | utils.py:19-24 | the replacement loop applies each pair of the table in order, as `ReplaceAll` |
| Normalization.NoTurkishLetterRemains | utils.py:19-28 | no normalised text contains any of ğ ü ş ı ö ç â î û, an upper-case ASCII letter, İ or a combining mark |
| Normalization.ReplacementTable | utils.py:19-24 | running the replacement table over a character maps each Turkish letter to its ASCII base letter and leaves every other character alone |
| Normalization.NormalizedConcat | utils.py:12-29 | normalisation works character by character: it distributes over concatenation |
| Normalization.NormalizedIdempotent | utils.py:12-29 | normalising twice gives the same as normalising once |
| Normalization.NormalFixed | utils.py:12-29 | text made only of normal characters is a fixed point of normalisation |
| Normalization.NormalizedLowercase | utils.py:13-15 | lower-casing a name first does not change its normalisation |
| Normalization.NormalizedUppercase | utils.py:13-15 | upper-casing a name first does not change its normalisation (İ, I and ı included), for text on which the model's upper-casing is CPython's |
| Normalization.SharpSNotCaseInsensitive | utils.py:13-15 | ß, which CPython upper-cases to "SS", normalises to "ß" while "SS" normalises to "ss": the case lemmas cannot cover it |
| Normalization.CaseInsensitive | utils.py:13-15 | two names that differ only in case normalise to the same text, for text on which the model's upper-casing is CPython's |
| Normalization.FoldTurkishChar | utils.py:12-29 | every letter of the Turkish alphabet normalises to one lower-case ASCII letter, its base letter (İ and I to i) |
| Normalization.NormalizedTurkishName | utils.py:12-29 | a name over the Turkish alphabet normalises to its letter-by-letter ASCII folding, an independent reference definition |
| Utils.WeatherEmojiIsFirstMatch | utils.py:31-54 | the if-chain of `get_weather_emoji` is the first rule of the ordered substring table that occurs in the lower-cased condition, else the thermometer |
| Utils.FirstMatchWins | utils.py:31-54 | the earliest matching rule decides, whatever later rules also match |
| Utils.ClearSkyWins | utils.py:33-36 | any condition whose lower case contains "açık" gets the sun, whatever else it contains |
| Utils.NoMatchThermometer | utils.py:31-54 | the thermometer comes back if and only if none of the table's substrings occurs |
| Utils.CapitalClearSkyMissed | utils.py:33-36 | an upper-case "AÇIK" lower-cases to "açik" and does not get the sun |
| Utils.TurkishDayName | utils.py:56-59 | the name is defined iff -7 <= weekday <= 6; 0..6 read the table, negatives count from the end |
| Utils.DayNamesOfTheWeek | utils.py:56-59 | 0 is Pazartesi, 6 is Pazar, and the seven weekdays have distinct names |
| Utils.AqiRecommendation | utils.py:61-74 | 1..5 get their own advice; the emergency text comes back iff the index is outside 1..5 |
| Utils.AqiAdviceDistinct | utils.py:61-74 | two indices share advice iff they are equal or both outside 1..5 (0 and negatives included) |
| Utils.CompareValues | utils.py:76-92 | "karşılaştırılamıyor" unless both values are present and convertible; otherwise higher, lower or "aynı seviyede" by numeric order |
| Utils.CompareValuesExact | utils.py:76-92 | with four distinct texts each outcome holds iff its case holds: not comparable, val1 > val2, val1 < val2, equal |
| Utils.CompareValuesAntisymmetric | utils.py:85-90 | swapping the two values swaps the higher and lower texts and keeps the other outcomes |
| Utils.NotAvailableDoesNotConvert | utils.py:79-83 | float("N/A") fails, so the explicit "N/A" test agrees with the conversion failure |
| Utils.CompareIntegerTexts | utils.py:82-91 | numbers sent as decimal text compare exactly as the numbers themselves |
| Config.Keys | config.py:9-21 | one key per entry, in table order, and `k in TURKISH_CITIES` holds exactly for the keys some entry carries |
| Config.TableKeysDistinct | config.py:9-21 | no key of the city table occurs twice |
| CityTable.KeysAreNormalized | config.py:10-20 | every key of the table is a fixed point of normalisation |
| CityTable.NamesNormalizeToKeys | config.py:10-20 | every display name normalises to its key ("İstanbul" to "istanbul", "Diyarbakır" to "diyarbakir") |
| CityTable.QueryNormalizesToKey | weather.py:106 | a query equal to a display name or key in any case normalises to that key |
| CityTable.FindByName | weather.py:106-117 | such a query finds its own city in the table |
| CityTable.TableCoordinatesValid | config.py:10-20 | every city's coordinates pass the latitude and longitude checks |
| CityTable.CityByNameForwarded | weather.py:106-118 | a city asked for by name, in any case, is answered by `hava_durumu` with that city's coordinates and display name |
| CityTable.EmptyQuery | weather.py:106-113 | an empty query is no city and every city is suggested |
| CityTable.TableSorted | weather.py:453 | `sorted(TURKISH_CITIES.items())` puts the entries in this key order |
| CityTable.CityListingSpelled | weather.py:450-454 | the listing is Adana, Ankara, Antalya, Bursa, Diyarbakır, Gaziantep, İstanbul, İzmir, Kayseri, Konya, Mersin |
| WeatherTool.Sector | weather.py:61 | the index `round(((deg % 360)/45) % 8)` lies in 0..8 and within 22.5° of the heading |
| WeatherTool.SectorEight | weather.py:61 | on exact reals, the index is 8 exactly when `deg % 360 >= 337.5` |
| WeatherTool.WindDirectionAsWritten | weather.py:60-61 | the code as written: "N/A" for a non-numeric heading, None (an IndexError) when the index is 8 |
| WeatherTool.NorthByNorthWestFails | weather.py:61 | a heading of 350° makes the direction lookup fail |
| WeatherTool.WindDirectionAsWrittenFails | weather.py:61 | on exact reals, the lookup fails iff `deg % 360 >= 337.5` |
| WeatherTool.WindDirection | weather.py:60-61 | the corrected direction: always one of the eight names, "N/A" for a non-numeric heading |
| WeatherTool.WindDirectionNearest | weather.py:60-61 | the corrected name is the compass point nearest the heading, and it agrees with the code as written wherever that does not fail |
| WeatherTool.FirstIndicesExact | weather.py:80-87 | position j is kept iff its date does not occur earlier in the list |
| WeatherTool.FirstIndicesIncreasing | weather.py:80-94 | the kept positions are in input order |
| WeatherTool.FirstIndicesCount | weather.py:77-87 | one position is kept per distinct date |
| WeatherTool.DailyForecastShape | weather.py:76-94 | at most 5 days, in input order, each the first item of its date, distinct dates, as many as min(5, number of dates) |
| WeatherTool.DailyForecastComplete | weather.py:76-94 | with at most five dates, every date of the list has its line |
| WeatherTool.DailyForecasts | weather.py:76-94 | the loop with `seen_dates` and the early `break` computes the daily-forecast function |
| WeatherTool.WeatherAt | weather.py:18-97 | invalid latitude first, then invalid longitude, then the demo, current and forecast errors in that order, each iff its condition holds and carrying its error; a crash iff the weather list is empty; otherwise the report, with the location, temperature, felt temperature, humidity, wind speed and direction, first description and the daily lines (at most 5) |
| WeatherTool.ValidationFirst | weather.py:28-34 | invalid coordinates are answered the same whatever the replies: no request matters |
| WeatherTool.CurrentFailureFirst | weather.py:34-44 | a failed current-weather request answers before the forecast is read |
| CityLookup.Lookup | weather.py:108 | `key in TURKISH_CITIES`: found iff key is one of the keys, and the entry found has that key |
| CityLookup.LookupFindsEntry | weather.py:117 | in a table with distinct keys, each key finds its own city |
| CityLookup.MatchingExact | weather.py:109 | a name is in the filtered list iff some entry with that name passes the filter |
| CityLookup.MatchingConcat | weather.py:109 | the list comprehension keeps table order: it distributes over concatenation |
| CityLookup.SuggestionsExact | weather.py:109 | the suggestions are exactly the cities whose normalised key contains the normalised input |
| CityLookup.EmptyInputSuggestsAll | weather.py:109 | the empty input is in every key, so every city is suggested, in table order |
| CityLookup.CityWeatherIn | weather.py:99-118 | a key delegates to `hava_durumu` with the city's lat, lon and name; otherwise the suggestions if any, else not found |
| CityLookup.ForwardedIn | weather.py:106-118 | an input normalising to a table key delegates with that entry's city |
| CityLookup.EmptyQueryIn | weather.py:106-115 | an input normalising to "" suggests every city when the table is non-empty, else is not found |
| CityLookup.BelowIrreflexive | weather.py:453 | Python's string `<` is irreflexive |
| CityLookup.BelowTransitive | weather.py:453 | Python's string `<` is transitive |
| CityLookup.BelowTotal | weather.py:453 | Python's string `<` is total on distinct strings |
| CityLookup.SortByKeySorted | weather.py:453 | the sort puts the keys in ascending order |
| CityLookup.SortByKeyPermutes | weather.py:453 | the sort is a permutation of the entries |
| Hourly.HourLinesDefined | weather.py:155-172 | the hourly lines exist iff every shown item's description is a string |
| Hourly.HourLinesCount | weather.py:155-172 | the hour lines are one per shown item, in order, each formed from its item |
| Hourly.FirstLineIsHeader | weather.py:159-162 | the first line is the date header of the first item |
| Hourly.LastLine | weather.py:155-172 | the last line is the hour line of the last item |
| Hourly.HourLinesWellHeaded | weather.py:159-162 | every date header is followed at once by an hour line of its date; a header after the first line comes right after an hour line of another date; two adjacent hour lines always share a date. So there is a header exactly at each change of date |
| Hourly.HourlyLines | weather.py:154-172 | the loop over `current_date` computes the hourly-lines function |
| Hourly.Shown | weather.py:152-155 | the shown items are the first min(gun_sayisi*24, len(list)) items |
| Hourly.HourlyIn | weather.py:120-174 | days outside 1..5 rejected first, then unknown city, demo, forecast error; with the forecast in, a crash iff a shown description is not a string and the report iff all are |
| Hourly.DaysCheckedFirst | weather.py:129-130 | a bad day count is rejected whatever the city and the reply |
| Hourly.HourlyReportShape | weather.py:152-172 | a report has min(gun_sayisi*24, len(list)) hour lines, a header first, and headers exactly at the day changes |
| AirQualityTool.AqiDescription | weather.py:205-215 | `aqi_descriptions[min(aqi, 6)]`: 0..6 read the table, 6 and above give "Tehlikeli", -7..-1 wrap, below -7 an IndexError |
| AirQualityTool.MissingIndex | weather.py:201-230 | a missing AQI reads as 0: "Bilgi yok" and the emergency advice |
| AirQualityTool.NegativeIndexWraps | weather.py:215 | -1 gives "Tehlikeli", -7 "Bilgi yok", -8 fails |
| AirQualityTool.Readings | weather.py:222-227 | six readings with the labels of the pollutant table in order; each is the API's component value when present, and it is "N/A" exactly when the component is missing or is itself "N/A" |
| AirQualityTool.AirQualityIn | weather.py:176-234 | unknown city, demo, request error, processing error for an empty list or an index below -7, else the report with description, readings and advice |
| AirQualityTool.NoComponentsNotAvailable | weather.py:202-227 | without components all six readings are "N/A" |
| Comparison.Errors | weather.py:266-270 | one error per failed city, city 1 first |
| Comparison.ColumnOf | weather.py:275-288 | name, temperature, felt temperature, humidity, wind and the first condition's description of a city, each "N/A" when missing; None (an IndexError) for an empty "weather" list |
| Comparison.CompareIn | weather.py:236-313 | city 1 checked before city 2; demo comparison iff a request failed and either error is demo mode; else the failures listed; with both replies in, a crash iff a weather list is empty or a humidity or description is null (padded with `:<13`/`:<14`), and the report iff both columns can be printed |
| Comparison.NullHumidityCrashes | weather.py:302-304 | a null humidity, which `%{humidity:<13}` cannot pad, crashes the comparison |
| Comparison.FirstCityFirst | weather.py:249-250 | an unknown city 1 is reported whatever city 2 and the replies |
| Comparison.SwappedCities | weather.py:291-293 | swapping the cities swaps the columns and turns each comparison into its opposite |
| Comparison.BothFailed | weather.py:266-272 | two non-demo failures list both errors, city 1 first |
| Activities.Classify | weather.py:347-394 | precipitation (id 200..699) before wind (> 5.5) before hot (> 30) before cold (< 5) before nice; a non-numeric temperature fails only when it is reached |
| Activities.Precedence | weather.py:374-394 | precipitation decides regardless of wind and temperature, and wind regardless of temperature |
| Activities.AvoidOnlyWhenNotNice | weather.py:355-394 | the avoid list is empty only for nice weather; the recommended list is never empty |
| Activities.NoActivityBothWays | weather.py:355-394 | no activity is both recommended and avoided |
| Activities.ActivityLinesShape | weather.py:406-412 | at most 5 recommended lines, the avoid header iff the avoid list is non-empty, then at most 3 avoid lines |
| Activities.ActivityLines | weather.py:406-412 | the two printing loops compute the activity-lines function |
| Activities.FirstLater | weather.py:417-423 | the first item whose date is after today, or none |
| Activities.NextDay | weather.py:417-423 | the loop with `break` finds the first item dated after today |
| Activities.OnlyFirstLater | weather.py:419-423 | the first item dated after today is the one found, and with no such item nothing is found |
| Activities.OutlookOf | weather.py:414-433 | no outlook without a list or a later item; otherwise "warmer" iff the next temperature is higher, with the absolute change; a non-numeric temperature fails |
| Activities.NoChangeIsColder | weather.py:430-431 | a zero change is reported as colder |
| Activities.ActivitiesIn | weather.py:315-435 | unknown city, demo, error; with the reply in, the report iff the weather list is non-empty and the readings and the outlook can be computed, else a crash; the report carries the temperature (default 20), description, wind (default 0), and the reason, lines and outlook of the classification |
| Activities.WindReadingAlwaysCompared | weather.py:352 | a non-numeric wind speed crashes the tool whatever the other readings |

## Left out

- `api.py`, the HTTP requests, timeouts and the mapping of exceptions to error texts are not part of this model. Their results are the `Response` parameters. As shipped, the API key in `config.py` is "your_key", while `api.py` compares the key against a different placeholder. So with the shipped configuration the "Demo mode" error never arises. The model lets any error text carry it.
- The rest of `config.py` is not modelled: the API key and the URLs, which only `api.py` uses.
- MCP tool registration, `async`/`await` and `mcp.run`: framework plumbing with no behaviour to state.
- The `generate_demo_*` functions of `utils.py` are left out. Their output is drawn from `random`, the clock and floating-point `sin`. The model's demo replies carry only the arguments passed to them.
- `hava_alarmlari` is left out. It returns one constant text.
- `datetime.fromtimestamp`, `strftime`, the local time zone and `datetime.now` are left out. They are the `clock` and `today` parameters, so nothing is claimed about real calendars.
- The Turkish report text is left out: the layout strings, the `:<14` padding (only its TypeError on a null value in the comparison is modelled), the `:.1f` formatting, `.upper()` of names in titles, and the message text of a caught exception. Replies are datatypes carrying the values the text is built from.
- Normalization: `str.lower` and NFD are modelled only over ASCII, Latin-1, ğ ş ı İ and the combining marks U+0300..U+036F. Other characters pass through unchanged, which CPython does not always do.
- Normalization.NormalizedUppercase: stated only for `CaseModelled` text. The model's `UpperChar` leaves ß, µ and ÿ (and every character outside the modelled alphabet) unchanged, while CPython maps them to "SS", U+039C and U+0178. For ß the property fails in CPython (`SharpSNotCaseInsensitive`).
- Normalization.CaseInsensitive: stated only for `CaseModelled` text, for the same reason. The city lemmas `CityTable.QueryNormalizesToKey`, `CityTable.FindByName` and `CityTable.CityByNameForwarded` inherit the limit on the query.
- WeatherTool.WeatherAt: the report carries the corrected wind direction `WindDirection`. As written, weather.py:61 raises an uncaught IndexError for a heading with `deg % 360 >= 337.5` (see Findings), which the tool model does not reproduce.
- Python.ToFloat: `float()` on text accepts only optional sign, digits and one decimal point. Surrounding whitespace, underscores, exponents, "inf" and "nan" are not modelled. Booleans are not among the modelled JSON values, which are numbers, strings and null.
- Python.FloorMod: floats are modelled as exact reals, and IEEE double rounding is not modelled. This matters at the edges. In CPython a tiny negative heading such as `-1e-20 % 360` rounds to `360.0` and weather.py:61 then reads "kuzey", while the model's `deg % 360` lies just below 360 and `WindDirectionAsWritten` fails there. Likewise `float(str(n)) == n`, as in `Python.ParseIntegerText`, holds in CPython only up to 2^53.
- Reply shape: "main", "wind", the "weather" list and its "id"s, "components" and "aqi" are either absent or well-formed in the model, never JSON null or of another type. The AttributeError or TypeError such a value raises is not modelled. Examples are `.get` on a null "main" or "wind" (weather.py:49-57, :275-288, :340-343), `[0]` on a null "weather", and `200 <= current_id` on a string "id" (weather.py:347). Nor is the processing error that a null "components" or "aqi" causes in `hava_kalitesi` (weather.py:233-234).
- KeyError and TypeError on forecast items are left out. The items of the forecast list have the fields the loops index (`dt`, `main.temp` and the rest), so a missing one is not modelled. Hourly.HourLines models only a description that is not a string, the one failure the emoji choice adds.
- Hourly.HourLines: the emoji function is a parameter. The tool passes `get_weather_emoji`, which is `Utils.WeatherEmoji`.
- Activities.WeatherOf: `weather[0].main.lower()`, `rain.1h`, `is_thunderstorm`, `is_clear` and `is_cloudy` are read by the source but never used. They are left out, along with the AttributeError of a non-string `main`.
- CityTable.CityListingSpelled is proved for the table of `config.py` only. The insertion sort of `CityLookup.SortByKey` stands in for Python's `sorted`. For distinct keys, output that is sorted and a permutation is unique, so both give the same order. That uniqueness is argued here, not proved.

## Findings

| source | as written | input that shows it | evidently intended | confidence | as-written member | corrected member |
|---|---|---|---|---|---|---|
| weather.py:61 | `directions[round(((wind_direction % 360) / 45) % 8)]`: the `% 8` comes before `round`, so a heading in [337.5, 360) rounds to 8, past the end of the eight directions | a wind heading of 350.0 gives index 8 and an IndexError that ends the tool | `round(...) % 8`, so that such headings read "kuzey" | not executed | WeatherTool.NorthByNorthWestFails | WeatherTool.WindDirectionNearest |
