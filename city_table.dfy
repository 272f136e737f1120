/** Facts about the eleven cities of the table: their keys are already
    normalised, their display names normalise to their keys, and so
    `hava_durumu_sehir` finds each of them by name. */
module CityTable {
  import opened Python
  import opened Normalization
  import opened Config
  import opened Upstream
  import opened WeatherTool
  import opened CityLookup

  // ---------------------------------------------------------------------
  // Keys and names under normalisation

  lemma AsciiKeyFixed(key: string)
    requires forall i | 0 <= i < |key| :: IsAsciiLower(key[i])
    ensures Normalized(key) == key
    ensures CaseModelled(key)
  {
    forall y | y in key
      ensures IsNormal(y)
    {
      AsciiLowerIsNormal(y);
    }
    NormalFixed(key);
  }

  /** Every key of the table is already normalised. */
  lemma KeysAreNormalized(i: nat)
    requires i < |TURKISH_CITIES|
    ensures Normalized(TURKISH_CITIES[i].key) == TURKISH_CITIES[i].key
    ensures CaseModelled(TURKISH_CITIES[i].key)
  {
    AsciiKeyFixed(TURKISH_CITIES[i].key);
  }

  lemma NameFolds(name: string, key: string)
    requires forall i | 0 <= i < |name| :: IsTurkishAlphabet(name[i])
    requires key == seq(|name|, i requires 0 <= i < |name| => AsciiFold(name[i]))
    ensures Normalized(name) == key
  {
    NormalizedTurkishName(name);
  }

  /** A table entry whose display name is spelled in the Turkish alphabet
      and folds letter by letter to its key. */
  predicate NameFoldsToKey(e: Entry) {
    && (forall i | 0 <= i < |e.city.name| :: IsTurkishAlphabet(e.city.name[i]))
    && e.key == seq(|e.city.name|, i requires 0 <= i < |e.city.name| => AsciiFold(e.city.name[i]))
  }

  lemma EntryFolds(i: nat, name: string, key: string)
    requires i < |TURKISH_CITIES| && TURKISH_CITIES[i].city.name == name && TURKISH_CITIES[i].key == key
    requires forall j | 0 <= j < |name| :: IsTurkishAlphabet(name[j])
    requires key == seq(|name|, j requires 0 <= j < |name| => AsciiFold(name[j]))
    ensures NameFoldsToKey(TURKISH_CITIES[i])
  {
  }

  lemma IstanbulSpelled() ensures forall j | 0 <= j < |"İstanbul"| :: IsTurkishAlphabet("İstanbul"[j]) { }
  lemma IstanbulFolded() ensures "istanbul" == seq(|"İstanbul"|, j requires 0 <= j < |"İstanbul"| => AsciiFold("İstanbul"[j])) { }
  lemma IstanbulFolds() ensures NameFoldsToKey(TURKISH_CITIES[0]) { IstanbulSpelled(); IstanbulFolded(); EntryFolds(0, "İstanbul", "istanbul"); }

  lemma AnkaraSpelled() ensures forall j | 0 <= j < |"Ankara"| :: IsTurkishAlphabet("Ankara"[j]) { }
  lemma AnkaraFolded() ensures "ankara" == seq(|"Ankara"|, j requires 0 <= j < |"Ankara"| => AsciiFold("Ankara"[j])) { }
  lemma AnkaraFolds() ensures NameFoldsToKey(TURKISH_CITIES[1]) { AnkaraSpelled(); AnkaraFolded(); EntryFolds(1, "Ankara", "ankara"); }

  lemma IzmirSpelled() ensures forall j | 0 <= j < |"İzmir"| :: IsTurkishAlphabet("İzmir"[j]) { }
  lemma IzmirFolded() ensures "izmir" == seq(|"İzmir"|, j requires 0 <= j < |"İzmir"| => AsciiFold("İzmir"[j])) { }
  lemma IzmirFolds() ensures NameFoldsToKey(TURKISH_CITIES[2]) { IzmirSpelled(); IzmirFolded(); EntryFolds(2, "İzmir", "izmir"); }

  lemma AntalyaSpelled() ensures forall j | 0 <= j < |"Antalya"| :: IsTurkishAlphabet("Antalya"[j]) { }
  lemma AntalyaFolded() ensures "antalya" == seq(|"Antalya"|, j requires 0 <= j < |"Antalya"| => AsciiFold("Antalya"[j])) { }
  lemma AntalyaFolds() ensures NameFoldsToKey(TURKISH_CITIES[3]) { AntalyaSpelled(); AntalyaFolded(); EntryFolds(3, "Antalya", "antalya"); }

  lemma BursaSpelled() ensures forall j | 0 <= j < |"Bursa"| :: IsTurkishAlphabet("Bursa"[j]) { }
  lemma BursaFolded() ensures "bursa" == seq(|"Bursa"|, j requires 0 <= j < |"Bursa"| => AsciiFold("Bursa"[j])) { }
  lemma BursaFolds() ensures NameFoldsToKey(TURKISH_CITIES[4]) { BursaSpelled(); BursaFolded(); EntryFolds(4, "Bursa", "bursa"); }

  lemma AdanaSpelled() ensures forall j | 0 <= j < |"Adana"| :: IsTurkishAlphabet("Adana"[j]) { }
  lemma AdanaFolded() ensures "adana" == seq(|"Adana"|, j requires 0 <= j < |"Adana"| => AsciiFold("Adana"[j])) { }
  lemma AdanaFolds() ensures NameFoldsToKey(TURKISH_CITIES[5]) { AdanaSpelled(); AdanaFolded(); EntryFolds(5, "Adana", "adana"); }

  lemma KonyaSpelled() ensures forall j | 0 <= j < |"Konya"| :: IsTurkishAlphabet("Konya"[j]) { }
  lemma KonyaFolded() ensures "konya" == seq(|"Konya"|, j requires 0 <= j < |"Konya"| => AsciiFold("Konya"[j])) { }
  lemma KonyaFolds() ensures NameFoldsToKey(TURKISH_CITIES[6]) { KonyaSpelled(); KonyaFolded(); EntryFolds(6, "Konya", "konya"); }

  lemma GaziantepSpelled() ensures forall j | 0 <= j < |"Gaziantep"| :: IsTurkishAlphabet("Gaziantep"[j]) { }
  lemma GaziantepFolded() ensures "gaziantep" == seq(|"Gaziantep"|, j requires 0 <= j < |"Gaziantep"| => AsciiFold("Gaziantep"[j])) { }
  lemma GaziantepFolds() ensures NameFoldsToKey(TURKISH_CITIES[7]) { GaziantepSpelled(); GaziantepFolded(); EntryFolds(7, "Gaziantep", "gaziantep"); }

  lemma MersinSpelled() ensures forall j | 0 <= j < |"Mersin"| :: IsTurkishAlphabet("Mersin"[j]) { }
  lemma MersinFolded() ensures "mersin" == seq(|"Mersin"|, j requires 0 <= j < |"Mersin"| => AsciiFold("Mersin"[j])) { }
  lemma MersinFolds() ensures NameFoldsToKey(TURKISH_CITIES[8]) { MersinSpelled(); MersinFolded(); EntryFolds(8, "Mersin", "mersin"); }

  lemma DiyarbakirSpelled() ensures forall j | 0 <= j < |"Diyarbakır"| :: IsTurkishAlphabet("Diyarbakır"[j]) { }
  lemma DiyarbakirFolded() ensures "diyarbakir" == seq(|"Diyarbakır"|, j requires 0 <= j < |"Diyarbakır"| => AsciiFold("Diyarbakır"[j])) { }
  lemma DiyarbakirFolds() ensures NameFoldsToKey(TURKISH_CITIES[9]) { DiyarbakirSpelled(); DiyarbakirFolded(); EntryFolds(9, "Diyarbakır", "diyarbakir"); }

  lemma KayseriSpelled() ensures forall j | 0 <= j < |"Kayseri"| :: IsTurkishAlphabet("Kayseri"[j]) { }
  lemma KayseriFolded() ensures "kayseri" == seq(|"Kayseri"|, j requires 0 <= j < |"Kayseri"| => AsciiFold("Kayseri"[j])) { }
  lemma KayseriFolds() ensures NameFoldsToKey(TURKISH_CITIES[10]) { KayseriSpelled(); KayseriFolded(); EntryFolds(10, "Kayseri", "kayseri"); }

  /** Every display name normalises to its own key ("İstanbul" to
      "istanbul", "Diyarbakır" to "diyarbakir"), so a city can be asked
      for by the name the tool prints. */
  lemma NamesNormalizeToKeys(i: nat)
    requires i < |TURKISH_CITIES|
    ensures Normalized(TURKISH_CITIES[i].city.name) == TURKISH_CITIES[i].key
    ensures CaseModelled(TURKISH_CITIES[i].city.name)
  {
    if i == 0 { IstanbulFolds(); }
    else if i == 1 { AnkaraFolds(); }
    else if i == 2 { IzmirFolds(); }
    else if i == 3 { AntalyaFolds(); }
    else if i == 4 { BursaFolds(); }
    else if i == 5 { AdanaFolds(); }
    else if i == 6 { KonyaFolds(); }
    else if i == 7 { GaziantepFolds(); }
    else if i == 8 { MersinFolds(); }
    else if i == 9 { DiyarbakirFolds(); }
    else { KayseriFolds(); }
    NormalizedTurkishName(TURKISH_CITIES[i].city.name);
    TurkishCaseModelled(TURKISH_CITIES[i].city.name);
  }

  /** The display name and the key of a city, in any case, normalise to
      the key. */
  lemma QueryNormalizesToKey(i: nat, query: string)
    requires i < |TURKISH_CITIES|
    requires CaseModelled(query)
    requires Uppered(query) == Uppered(TURKISH_CITIES[i].city.name) || Uppered(query) == Uppered(TURKISH_CITIES[i].key)
    ensures Normalized(query) == TURKISH_CITIES[i].key
  {
    NamesNormalizeToKeys(i);
    KeysAreNormalized(i);
    if Uppered(query) == Uppered(TURKISH_CITIES[i].city.name) {
      CaseInsensitive(query, TURKISH_CITIES[i].city.name);
    } else {
      CaseInsensitive(query, TURKISH_CITIES[i].key);
    }
  }

  /** Asking by display name, by key, or by either in another case finds
      the city. */
  lemma FindByName(i: nat, query: string)
    requires i < |TURKISH_CITIES|
    requires CaseModelled(query)
    requires Uppered(query) == Uppered(TURKISH_CITIES[i].city.name) || Uppered(query) == Uppered(TURKISH_CITIES[i].key)
    ensures FindCity(Normalized(query)) == Some(TURKISH_CITIES[i].city)
  {
    QueryNormalizesToKey(i, query);
    TableKeysDistinct();
    LookupFindsEntry(TURKISH_CITIES, i);
  }

  /** The cities of the table all have valid coordinates, so a found city
      is never turned away by the coordinate checks. */
  lemma TableCoordinatesValid(i: nat)
    requires i < |TURKISH_CITIES|
    ensures ValidLatitude(TURKISH_CITIES[i].city.lat) && ValidLongitude(TURKISH_CITIES[i].city.lon)
  {
  }

  /** A city asked for by its name, in any case, reaches `hava_durumu`
      with its own coordinates and display name. */
  lemma CityByNameForwarded(i: nat, query: string, current: Response<Current>, forecast: Response<Forecast>, clock: Clock)
    requires i < |TURKISH_CITIES|
    requires CaseModelled(query)
    requires Uppered(query) == Uppered(TURKISH_CITIES[i].city.name) || Uppered(query) == Uppered(TURKISH_CITIES[i].key)
    ensures var c := TURKISH_CITIES[i].city;
      WeatherForCity(query, current, forecast, clock) == Forwarded(WeatherAt(c.lat, c.lon, Some(c.name), current, forecast, clock))
  {
    QueryNormalizesToKey(i, query);
    TableKeysDistinct();
    ForwardedIn(TURKISH_CITIES, i, query, current, forecast, clock);
  }

  /** An empty query is no city and is close to every city. */
  lemma EmptyQuery(query: string, current: Response<Current>, forecast: Response<Forecast>, clock: Clock)
    requires Normalized(query) == ""
    ensures WeatherForCity(query, current, forecast, clock) == DidYouMean(query, Names(TURKISH_CITIES))
  {
    EmptyQueryIn(TURKISH_CITIES, query, current, forecast, clock);
  }
  // ---------------------------------------------------------------------
  // turk_sehirleri_listesi

  /** Inserting after the first k entries, which are all at most e. */
  lemma {:induction false} InsertAt(e: Entry, s: seq<Entry>, k: nat)
    requires k <= |s|
    requires forall j | 0 <= j < k :: !Below(e.key, s[j].key)
    requires k < |s| ==> Below(e.key, s[k].key)
    ensures InsertByKey(e, s) == s[..k] + [e] + s[k..]
    decreases k
  {
    if k > 0 {
      InsertAt(e, s[1..], k - 1);
      assert s[1..][..k - 1] == s[1..k];
      assert s[1..][k - 1..] == s[k..];
      assert s[..k] == [s[0]] + s[1..k];
    }
  }

  /** One insertion step of the sort over the suffix s[k..], given the
      sorted suffix s[k + 1..] split where s[k] belongs. */
  lemma SortStep(s: seq<Entry>, k: nat, a: seq<Entry>, b: seq<Entry>)
    requires k < |s|
    requires SortByKey(s[k + 1..]) == a + b
    requires forall j | 0 <= j < |a| :: !Below(s[k].key, a[j].key)
    requires b != [] ==> Below(s[k].key, b[0].key)
    ensures SortByKey(s[k..]) == a + [s[k]] + b
  {
    assert s[k..][1..] == s[k + 1..];
    InsertAt(s[k], a + b, |a|);
    assert (a + b)[..|a|] == a && (a + b)[|a|..] == b;
  }

  /** A table with the keys of config.py in insertion order. */
  predicate KeysAsInTable(s: seq<Entry>) {
    |s| == 11 && s[0].key == "istanbul" && s[1].key == "ankara" && s[2].key == "izmir" && s[3].key == "antalya" && s[4].key == "bursa" && s[5].key == "adana" && s[6].key == "konya" && s[7].key == "gaziantep" && s[8].key == "mersin" && s[9].key == "diyarbakir" && s[10].key == "kayseri"
  }

  // The sort of the table, one inserted city at a time from the back.

  lemma Sorted10(s: seq<Entry>)
    requires KeysAsInTable(s)
    ensures SortByKey(s[10..]) == [s[10]]
  {
    assert s[11..] == [];
    SortStep(s, 10, [], []);
  }

  lemma Sorted9(s: seq<Entry>)
    requires KeysAsInTable(s)
    ensures SortByKey(s[9..]) == [s[9], s[10]]
  {
    Sorted10(s);
    SortStep(s, 9, [], [s[10]]);
  }

  lemma Sorted8(s: seq<Entry>)
    requires KeysAsInTable(s)
    ensures SortByKey(s[8..]) == [s[9], s[10], s[8]]
  {
    Sorted9(s);
    SortStep(s, 8, [s[9], s[10]], []);
  }

  lemma Sorted7(s: seq<Entry>)
    requires KeysAsInTable(s)
    ensures SortByKey(s[7..]) == [s[9], s[7], s[10], s[8]]
  {
    Sorted8(s);
    SortStep(s, 7, [s[9]], [s[10], s[8]]);
  }

  lemma Sorted6(s: seq<Entry>)
    requires KeysAsInTable(s)
    ensures SortByKey(s[6..]) == [s[9], s[7], s[10], s[6], s[8]]
  {
    Sorted7(s);
    SortStep(s, 6, [s[9], s[7], s[10]], [s[8]]);
  }

  lemma Sorted5(s: seq<Entry>)
    requires KeysAsInTable(s)
    ensures SortByKey(s[5..]) == [s[5], s[9], s[7], s[10], s[6], s[8]]
  {
    Sorted6(s);
    SortStep(s, 5, [], [s[9], s[7], s[10], s[6], s[8]]);
  }

  lemma Sorted4(s: seq<Entry>)
    requires KeysAsInTable(s)
    ensures SortByKey(s[4..]) == [s[5], s[4], s[9], s[7], s[10], s[6], s[8]]
  {
    Sorted5(s);
    SortStep(s, 4, [s[5]], [s[9], s[7], s[10], s[6], s[8]]);
  }

  lemma Sorted3(s: seq<Entry>)
    requires KeysAsInTable(s)
    ensures SortByKey(s[3..]) == [s[5], s[3], s[4], s[9], s[7], s[10], s[6], s[8]]
  {
    Sorted4(s);
    SortStep(s, 3, [s[5]], [s[4], s[9], s[7], s[10], s[6], s[8]]);
  }

  lemma Sorted2(s: seq<Entry>)
    requires KeysAsInTable(s)
    ensures SortByKey(s[2..]) == [s[5], s[3], s[4], s[9], s[7], s[2], s[10], s[6], s[8]]
  {
    Sorted3(s);
    SortStep(s, 2, [s[5], s[3], s[4], s[9], s[7]], [s[10], s[6], s[8]]);
  }

  lemma Sorted1(s: seq<Entry>)
    requires KeysAsInTable(s)
    ensures SortByKey(s[1..]) == [s[5], s[1], s[3], s[4], s[9], s[7], s[2], s[10], s[6], s[8]]
  {
    Sorted2(s);
    SortStep(s, 1, [s[5]], [s[3], s[4], s[9], s[7], s[2], s[10], s[6], s[8]]);
  }

  lemma Sorted0(s: seq<Entry>)
    requires KeysAsInTable(s)
    ensures SortByKey(s[0..]) == [s[5], s[1], s[3], s[4], s[9], s[7], s[0], s[2], s[10], s[6], s[8]]
  {
    Sorted1(s);
    SortStep(s, 0, [s[5], s[1], s[3], s[4], s[9], s[7]], [s[2], s[10], s[6], s[8]]);
  }

  /** `sorted(TURKISH_CITIES.items())`. */
  lemma TableSorted()
    ensures var T := TURKISH_CITIES; SortByKey(T) == [T[5], T[1], T[3], T[4], T[9], T[7], T[0], T[2], T[10], T[6], T[8]]
  {
    Sorted0(TURKISH_CITIES);
    assert TURKISH_CITIES[0..] == TURKISH_CITIES;
  }

  /** The names the tool lists, one per city, in key order. */
  function CityListing(): seq<string> {
    Names(SortByKey(TURKISH_CITIES))
  }

  lemma NamesInOrder(s: seq<Entry>)
    requires |s| == 11
    ensures Names([s[5], s[1], s[3], s[4], s[9], s[7], s[0], s[2], s[10], s[6], s[8]])
      == [s[5].city.name, s[1].city.name, s[3].city.name, s[4].city.name, s[9].city.name, s[7].city.name,
          s[0].city.name, s[2].city.name, s[10].city.name, s[6].city.name, s[8].city.name]
  {
  }

  lemma TableNames()
    ensures var s := TURKISH_CITIES;
      [s[5].city.name, s[1].city.name, s[3].city.name, s[4].city.name, s[9].city.name, s[7].city.name,
       s[0].city.name, s[2].city.name, s[10].city.name, s[6].city.name, s[8].city.name]
      == ["Adana", "Ankara", "Antalya", "Bursa", "Diyarbakır", "Gaziantep",
          "İstanbul", "İzmir", "Kayseri", "Konya", "Mersin"]
  {
  }

  /** The listing names every city once, by key: Adana first and Mersin
      last, İstanbul and İzmir under "i". */
  lemma CityListingSpelled()
    ensures CityListing() == ["Adana", "Ankara", "Antalya", "Bursa", "Diyarbakır", "Gaziantep",
                              "İstanbul", "İzmir", "Kayseri", "Konya", "Mersin"]
  {
    TableSorted();
    NamesInOrder(TURKISH_CITIES);
    TableNames();
  }
}
