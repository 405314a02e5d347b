/** The weather-code classifier of src/services/weatherService.ts: an ordered
    chain of threshold bands over the forecast service's weather code, and a
    condition-to-emoji table with a default. */
module Weather {

  /** The eight bands the classifier distinguishes, plus the fall-through. */
  datatype WeatherCondition =
    | Clear         // code 0
    | Cloudy        // code <= 3 (and every negative code)
    | Fog           // code <= 48
    | Rain          // code <= 67
    | Snow          // code <= 77
    | Showers       // code <= 82
    | SnowShowers   // code <= 86
    | Thunderstorm  // code <= 99
    | Unknown       // every code above 99

  /** The if-chain of getWeatherCondition: the first test that holds wins. */
  function GetWeatherCondition(code: int): (c: WeatherCondition)
    ensures code == 0 ==> c == Clear
    ensures code < 0 ==> c == Cloudy
    ensures code > 99 ==> c == Unknown
  {
    if code == 0 then Clear
    else if code <= 3 then Cloudy
    else if code <= 48 then Fog
    else if code <= 67 then Rain
    else if code <= 77 then Snow
    else if code <= 82 then Showers
    else if code <= 86 then SnowShowers
    else if code <= 99 then Thunderstorm
    else Unknown
  }

  /** Position of a condition in the chain. */
  function BandIndex(c: WeatherCondition): (n: nat)
    ensures n <= 8
    ensures n == 8 <==> c == Unknown
  {
    match c
    case Clear => 0
    case Cloudy => 1
    case Fog => 2
    case Rain => 3
    case Snow => 4
    case Showers => 5
    case SnowShowers => 6
    case Thunderstorm => 7
    case Unknown => 8
  }

  /** The inclusive upper bound of each band (none for Unknown). */
  function UpperBound(c: WeatherCondition): int
    requires c != Unknown
  {
    match c
    case Clear => 0
    case Cloudy => 3
    case Fog => 48
    case Rain => 67
    case Snow => 77
    case Showers => 82
    case SnowShowers => 86
    case Thunderstorm => 99
  }

  /** An independent description of the bands by ranges: a non-negative code
      lies in a band when it is above the previous band's bound and at most
      its own; negative codes belong to Cloudy. */
  predicate InBand(code: int, c: WeatherCondition)
  {
    if code < 0 then c == Cloudy
    else match c
      case Clear => code == 0
      case Unknown => code > 99
      case _ => UpperBound(Previous(c)) < code <= UpperBound(c)
  }

  /** The band before a given one in the chain. */
  function Previous(c: WeatherCondition): (p: WeatherCondition)
    requires c != Clear && c != Unknown
    ensures p != Unknown && BandIndex(p) + 1 == BandIndex(c)
  {
    match c
    case Cloudy => Clear
    case Fog => Cloudy
    case Rain => Fog
    case Snow => Rain
    case Showers => Snow
    case SnowShowers => Showers
    case Thunderstorm => SnowShowers
  }

  /** The classifier agrees with the range description, in both directions. */
  lemma ConditionMatchesBands(code: int, c: WeatherCondition)
    ensures GetWeatherCondition(code) == c <==> InBand(code, c)
  {
  }

  /** For non-negative codes the band index never decreases as the code grows. */
  lemma ConditionMonotone(a: int, b: int)
    requires 0 <= a <= b
    ensures BandIndex(GetWeatherCondition(a)) <= BandIndex(GetWeatherCondition(b))
  {
  }

  /** The label the service stores in WeatherData.condition for each band. */
  function ConditionText(c: WeatherCondition): string
  {
    match c
    case Clear => "晴朗"
    case Cloudy => "多云"
    case Fog => "雾"
    case Rain => "雨"
    case Snow => "雪"
    case Showers => "阵雨"
    case SnowShowers => "阵雪"
    case Thunderstorm => "雷暴"
    case Unknown => "未知"
  }

  /** Emoji returned for a condition that is not in the table. */
  const DefaultEmoji: string := "\U{1F324}\U{FE0F}"

  /** The table of getWeatherEmoji: one entry per band, none for "unknown". */
  const EmojiTable: map<string, string> := map[
    "晴朗" := "\U{2600}\U{FE0F}",
    "多云" := "\U{26C5}",
    "雾" := "\U{1F32B}\U{FE0F}",
    "雨" := "\U{1F327}\U{FE0F}",
    "雪" := "\U{2744}\U{FE0F}",
    "阵雨" := "\U{1F326}\U{FE0F}",
    "阵雪" := "\U{1F328}\U{FE0F}",
    "雷暴" := "\U{26C8}\U{FE0F}"
  ]

  /** Table lookup with the default for every other string. */
  function GetWeatherEmoji(condition: string): (e: string)
    ensures condition in EmojiTable ==> e == EmojiTable[condition]
    ensures e == DefaultEmoji <==> condition !in EmojiTable
  {
    if condition in EmojiTable then EmojiTable[condition] else DefaultEmoji
  }

  /** Every band the classifier produces has its own table entry, distinct
      from the default; "unknown" gets the default. */
  lemma EmojiForConditions(c: WeatherCondition)
    ensures c != Unknown <==> ConditionText(c) in EmojiTable
    ensures c != Unknown ==> GetWeatherEmoji(ConditionText(c)) != DefaultEmoji
    ensures c == Unknown ==> GetWeatherEmoji(ConditionText(c)) == DefaultEmoji
  {
    assert EmojiTable.Keys == {"晴朗", "多云", "雾", "雨", "雪", "阵雨", "阵雪", "雷暴"};
  }

  /** Any string that is not the label of one of the eight bands, whatever
      it is, gets the default emoji. */
  lemma EmojiDefaultForOtherStrings(condition: string)
    requires forall c: WeatherCondition :: c != Unknown ==> condition != ConditionText(c)
    ensures GetWeatherEmoji(condition) == DefaultEmoji
  {
    assert EmojiTable.Keys == {"晴朗", "多云", "雾", "雨", "雪", "阵雨", "阵雪", "雷暴"};
    assert condition != ConditionText(Clear) && condition != ConditionText(Cloudy);
    assert condition != ConditionText(Fog) && condition != ConditionText(Rain);
    assert condition != ConditionText(Snow) && condition != ConditionText(Showers);
    assert condition != ConditionText(SnowShowers) && condition != ConditionText(Thunderstorm);
  }

  /** Distinct bands carry distinct labels, so the table tells them apart. */
  lemma ConditionTextInjective(c: WeatherCondition, d: WeatherCondition)
    requires ConditionText(c) == ConditionText(d)
    ensures c == d
  {
  }
}
