/** The classification helpers of utils.py: the weather emoji, the Turkish
    weekday names, the advice for an air-quality index and the three-way
    comparison of two readings. */
module Utils {
  import opened Python
  import Normalization

  // ---------------------------------------------------------------------
  // get_weather_emoji

  const SUN: string := "☀️"
  const SUN_BEHIND_CLOUD: string := "🌤️"
  const PARTLY_CLOUDY: string := "⛅"
  const CLOUD: string := "☁️"
  const RAIN: string := "🌧️"
  const SNOWFLAKE: string := "❄️"
  const FOG: string := "🌫️"
  const THUNDERSTORM: string := "⛈️"
  const THERMOMETER: string := "🌡️"

  /** The substrings get_weather_emoji tests, in the order it tests them,
      each with the emoji it gives; "fırtına" and "gök gürültülü" share one
      test and so one emoji. */
  const EMOJI_RULES: seq<(string, string)> := [
    ("açık", SUN),
    ("az bulutlu", SUN_BEHIND_CLOUD),
    ("parçalı bulutlu", PARTLY_CLOUDY),
    ("çok bulutlu", CLOUD),
    ("yağmur", RAIN),
    ("sağanak", RAIN),
    ("kar", SNOWFLAKE),
    ("sis", FOG),
    ("fırtına", THUNDERSTORM),
    ("gök gürültülü", THUNDERSTORM)
  ]

  /** The emoji of the first rule whose substring occurs in the text, or the
      thermometer when none does. */
  function FirstMatch(text: string, rules: seq<(string, string)>): string
    decreases |rules|
  {
    if rules == [] then THERMOMETER
    else if Contains(text, rules[0].0) then rules[0].1
    else FirstMatch(text, rules[1..])
  }

  /** get_weather_emoji(condition): lower-case the condition and test the
      substrings in a fixed order. */
  function WeatherEmoji(condition: string): string {
    var c := Normalization.Lowered(condition);
    if Contains(c, "açık") then SUN
    else if Contains(c, "az bulutlu") then SUN_BEHIND_CLOUD
    else if Contains(c, "parçalı bulutlu") then PARTLY_CLOUDY
    else if Contains(c, "çok bulutlu") then CLOUD
    else if Contains(c, "yağmur") then RAIN
    else if Contains(c, "sağanak") then RAIN
    else if Contains(c, "kar") then SNOWFLAKE
    else if Contains(c, "sis") then FOG
    else if Contains(c, "fırtına") || Contains(c, "gök gürültülü") then THUNDERSTORM
    else THERMOMETER
  }

  /** The if/elif chain is the rule table read top to bottom. */
  lemma WeatherEmojiIsFirstMatch(condition: string)
    ensures WeatherEmoji(condition) == FirstMatch(Normalization.Lowered(condition), EMOJI_RULES)
  {
    var c := Normalization.Lowered(condition);
    var r := EMOJI_RULES;
    FirstMatchStep(c, r, 9);
    assert r[10..] == [];
    FirstMatchStep(c, r, 8);
    FirstMatchStep(c, r, 7);
    FirstMatchStep(c, r, 6);
    FirstMatchStep(c, r, 5);
    FirstMatchStep(c, r, 4);
    FirstMatchStep(c, r, 3);
    FirstMatchStep(c, r, 2);
    FirstMatchStep(c, r, 1);
    FirstMatchStep(c, r, 0);
    assert r[0..] == r;
  }

  /** FirstMatch from rule k on tries rule k, then the rules after it. */
  lemma FirstMatchStep(text: string, rules: seq<(string, string)>, k: nat)
    requires k < |rules|
    ensures FirstMatch(text, rules[k..])
      == if Contains(text, rules[k].0) then rules[k].1 else FirstMatch(text, rules[k + 1..])
  {
    assert rules[k..][0] == rules[k] && rules[k..][1..] == rules[k + 1..];
  }

  /** The first rule that matches decides: rule i wins exactly when its
      substring occurs and no earlier one does. */
  lemma {:induction false} FirstMatchWins(text: string, rules: seq<(string, string)>, i: nat)
    requires i < |rules| && Contains(text, rules[i].0)
    requires forall j | 0 <= j < i :: !Contains(text, rules[j].0)
    ensures FirstMatch(text, rules) == rules[i].1
    decreases i
  {
    if i > 0 {
      assert !Contains(text, rules[0].0);
      FirstMatchWins(text, rules[1..], i - 1);
    }
  }

  /** Once some substring is present, an emoji of the table comes back:
      that of the present rule or of an earlier one. */
  lemma {:induction false} FirstMatchFromRule(text: string, rules: seq<(string, string)>, j: nat)
    requires j < |rules| && Contains(text, rules[j].0)
    ensures exists i | 0 <= i <= j :: FirstMatch(text, rules) == rules[i].1
    decreases j
  {
    if !Contains(text, rules[0].0) {
      FirstMatchFromRule(text, rules[1..], j - 1);
      var i :| 0 <= i <= j - 1 && FirstMatch(text, rules[1..]) == rules[1..][i].1;
      assert FirstMatch(text, rules) == rules[i + 1].1;
    } else {
      assert FirstMatch(text, rules) == rules[0].1;
    }
  }

  /** With no substring present the result is the rules' default. */
  lemma {:induction false} FirstMatchNone(text: string, rules: seq<(string, string)>)
    requires forall j | 0 <= j < |rules| :: !Contains(text, rules[j].0)
    ensures FirstMatch(text, rules) == THERMOMETER
    decreases |rules|
  {
    if rules != [] {
      assert !Contains(text, rules[0].0);
      FirstMatchNone(text, rules[1..]);
    }
  }

  /** Any condition containing "açık" gets the sun, whatever else it says. */
  lemma ClearSkyWins(condition: string)
    requires Contains(Normalization.Lowered(condition), "açık")
    ensures WeatherEmoji(condition) == SUN
  {
    WeatherEmojiIsFirstMatch(condition);
    FirstMatchWins(Normalization.Lowered(condition), EMOJI_RULES, 0);
  }

  /** The thermometer comes back exactly when none of the substrings occurs. */
  lemma NoMatchThermometer(condition: string)
    ensures WeatherEmoji(condition) == THERMOMETER
      <==> forall j | 0 <= j < |EMOJI_RULES| :: !Contains(Normalization.Lowered(condition), EMOJI_RULES[j].0)
  {
    WeatherEmojiIsFirstMatch(condition);
    var c := Normalization.Lowered(condition);
    if forall j | 0 <= j < |EMOJI_RULES| :: !Contains(c, EMOJI_RULES[j].0) {
      FirstMatchNone(c, EMOJI_RULES);
    } else {
      var j :| 0 <= j < |EMOJI_RULES| && Contains(c, EMOJI_RULES[j].0);
      FirstMatchFromRule(c, EMOJI_RULES, j);
      assert forall i | 0 <= i < |EMOJI_RULES| :: EMOJI_RULES[i].1 != THERMOMETER;
    }
  }

  /** Python lower-cases the capital I to a dotted i, so a capitalised
      "AÇIK" does not contain "açık" and gets no sun. */
  lemma CapitalClearSkyMissed()
    ensures !Contains(Normalization.Lowered("AÇIK"), "açık")
  {
    var s := "AÇIK";
    assert s == ['A'] + (['Ç'] + (['I'] + ['K']));
    Normalization.LoweredConcat(['A'], ['Ç'] + (['I'] + ['K']));
    Normalization.LoweredConcat(['Ç'], ['I'] + ['K']);
    Normalization.LoweredConcat(['I'], ['K']);
    Normalization.LoweredSingle('A');
    Normalization.LoweredSingle('Ç');
    Normalization.LoweredSingle('I');
    Normalization.LoweredSingle('K');
    var l := Normalization.Lowered(s);
    assert l == "açik";
    assert l[..4] != "açık" by { assert l[..4][2] == 'i'; }
    assert !Contains(l[1..], "açık");
  }

  // ---------------------------------------------------------------------
  // get_turkish_day_name

  const DAY_NAMES: seq<string> := ["Pazartesi", "Salı", "Çarşamba", "Perşembe", "Cuma", "Cumartesi", "Pazar"]

  /** get_turkish_day_name(weekday) = days[weekday], with Python's negative
      indexing; None is the IndexError. */
  function TurkishDayName(weekday: int): (r: Option<string>)
    ensures r.Some? <==> -7 <= weekday <= 6
    ensures 0 <= weekday <= 6 ==> r == Some(DAY_NAMES[weekday])
    ensures -7 <= weekday < 0 ==> r == Some(DAY_NAMES[weekday + 7])
  {
    Index(DAY_NAMES, weekday)
  }

  /** Monday (0) is Pazartesi, Sunday (6) is Pazar, and the seven weekdays
      get seven different names. */
  lemma DayNamesOfTheWeek(a: int, b: int)
    requires 0 <= a <= 6 && 0 <= b <= 6 && a != b
    ensures TurkishDayName(0) == Some("Pazartesi") && TurkishDayName(6) == Some("Pazar")
    ensures TurkishDayName(a) != TurkishDayName(b)
  {
  }

  // ---------------------------------------------------------------------
  // get_aqi_recommendations

  const AQI_ADVICE: seq<string> := [
    "Hava kalitesi mükemmel. Açık hava aktivitelerinden güvenle yararlanabilirsiniz.",
    "Hava kalitesi iyi. Çoğu insan için açık hava aktiviteleri güvenlidir.",
    "Hassas gruplar (astım hastaları, yaşlılar, çocuklar) uzun süreli açık hava aktivitelerini sınırlamalıdır.",
    "Herkes açık hava aktivitelerini azaltmalıdır. Hassas gruplar mümkünse içeride kalmalıdır.",
    "Sağlık uyarısı: Herkes açık hava aktivitelerini ciddi şekilde sınırlamalı ve mümkünse içeride kalmalıdır."
  ]

  const AQI_EMERGENCY: string :=
    "Acil durum koşulları: Tüm fiziksel dış mekan aktivitelerinden kaçının ve pencerelerinizi kapalı tutun."

  /** get_aqi_recommendations(aqi). */
  function AqiRecommendation(aqi: int): (r: string)
    ensures 1 <= aqi <= 5 ==> r == AQI_ADVICE[aqi - 1]
    ensures r == AQI_EMERGENCY <==> !(1 <= aqi <= 5)
  {
    if aqi == 1 then AQI_ADVICE[0]
    else if aqi == 2 then AQI_ADVICE[1]
    else if aqi == 3 then AQI_ADVICE[2]
    else if aqi == 4 then AQI_ADVICE[3]
    else if aqi == 5 then AQI_ADVICE[4]
    else AQI_EMERGENCY
  }

  /** Each of the indices 1..5 has advice of its own; every other index,
      0 and the negatives included, shares the emergency text. */
  lemma AqiAdviceDistinct(a: int, b: int)
    ensures AqiRecommendation(a) == AqiRecommendation(b) <==> a == b || (!(1 <= a <= 5) && !(1 <= b <= 5))
  {
  }

  // ---------------------------------------------------------------------
  // compare_values

  const NOT_COMPARABLE: string := "karşılaştırılamıyor"
  const SAME_LEVEL: string := "aynı seviyede"

  /** Both readings present and convertible by float(). */
  predicate Comparable(v1: Value, v2: Value) {
    v1 != Str("N/A") && v2 != Str("N/A") && ToFloat(v1).Some? && ToFloat(v2).Some?
  }

  /** compare_values(val1, val2, higher_text, lower_text). */
  function CompareValues(v1: Value, v2: Value, higherText: string, lowerText: string): (r: string)
    ensures !Comparable(v1, v2) ==> r == NOT_COMPARABLE
    ensures Comparable(v1, v2) && ToFloat(v1).value > ToFloat(v2).value ==> r == higherText
    ensures Comparable(v1, v2) && ToFloat(v1).value < ToFloat(v2).value ==> r == lowerText
    ensures Comparable(v1, v2) && ToFloat(v1).value == ToFloat(v2).value ==> r == SAME_LEVEL
  {
    if v1 == Str("N/A") || v2 == Str("N/A") then NOT_COMPARABLE
    else
      match (ToFloat(v1), ToFloat(v2))
      case (Some(x1), Some(x2)) =>
        if x1 > x2 then higherText
        else if x1 < x2 then lowerText
        else SAME_LEVEL
      case _ => NOT_COMPARABLE
  }

  /** When the four texts differ, each outcome names its case exactly:
      higher_text iff val1 > val2, lower_text iff val1 < val2, "aynı
      seviyede" iff they are equal. */
  lemma CompareValuesExact(v1: Value, v2: Value, higherText: string, lowerText: string)
    requires higherText != lowerText
    requires higherText != SAME_LEVEL && lowerText != SAME_LEVEL
    requires higherText != NOT_COMPARABLE && lowerText != NOT_COMPARABLE
    ensures var r := CompareValues(v1, v2, higherText, lowerText);
      && (r == NOT_COMPARABLE <==> !Comparable(v1, v2))
      && (r == higherText <==> Comparable(v1, v2) && ToFloat(v1).value > ToFloat(v2).value)
      && (r == lowerText <==> Comparable(v1, v2) && ToFloat(v1).value < ToFloat(v2).value)
      && (r == SAME_LEVEL <==> Comparable(v1, v2) && ToFloat(v1).value == ToFloat(v2).value)
  {
  }

  /** Swapping the two readings swaps the higher and lower texts and leaves
      the other outcomes alone. */
  lemma CompareValuesAntisymmetric(v1: Value, v2: Value, higherText: string, lowerText: string)
    ensures CompareValues(v2, v1, higherText, lowerText) == CompareValues(v1, v2, lowerText, higherText)
  {
  }

  /** The explicit "N/A" test changes nothing: float("N/A") fails anyway. */
  lemma NotAvailableDoesNotConvert()
    ensures ToFloat(Str("N/A")) == None
  {
    assert Find("N/A", '.') == None;
  }

  /** Numbers sent as decimal text compare by value. */
  lemma CompareIntegerTexts(a: nat, b: nat, higherText: string, lowerText: string)
    ensures CompareValues(Str(IntegerText(a)), Str(IntegerText(b)), higherText, lowerText)
      == CompareValues(Num(a as real), Num(b as real), higherText, lowerText)
  {
    ParseIntegerText(a);
    ParseIntegerText(b);
    assert IntegerText(a) != "N/A" by { assert IsDigit(IntegerText(a)[0]); }
    assert IntegerText(b) != "N/A" by { assert IsDigit(IntegerText(b)[0]); }
  }
}
