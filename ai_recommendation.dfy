/**
 * The rule-based storage advice the recommendation card falls back on: a
 * ladder of temperature and humidity thresholds, and the card's defaults.
 */
module AiRecommendation {
  import opened Wrappers

  /** Which advice is shown, with the figures its text quotes. */
  datatype Advice =
    | CriticalHeat(temperature: real, crop: string)
    | HighTemperature(temperature: real, crop: string)
    | HighHumidity(humidity: real)
    | ModerateConditions(temperature: real, humidity: real)
    | GoodConditions(temperature: real)

  /** `cropType || "produce"`: an empty crop name is shown as "produce". */
  function CropName(cropType: string): (r: string)
    ensures r != ""
    ensures cropType != "" ==> r == cropType
  {
    if cropType == "" then "produce" else cropType
  }

  /** `getRuleBasedRecommendation`: the first threshold that holds picks the advice. */
  function RuleBasedRecommendation(temperature: real, humidity: real, cropType: string): Advice {
    if temperature > 35.0 then CriticalHeat(temperature, CropName(cropType))
    else if temperature > 30.0 then HighTemperature(temperature, CropName(cropType))
    else if humidity > 75.0 then HighHumidity(humidity)
    else if temperature > 24.0 then ModerateConditions(temperature, humidity)
    else GoodConditions(temperature)
  }

  // The conditions under which each advice applies, stated independently of the ladder.
  predicate IsCriticalHeat(t: real, h: real) { t > 35.0 }
  predicate IsHighTemperature(t: real, h: real) { 30.0 < t <= 35.0 }
  predicate IsHighHumidity(t: real, h: real) { t <= 30.0 && h > 75.0 }
  predicate IsModerate(t: real, h: real) { 24.0 < t <= 30.0 && h <= 75.0 }
  predicate IsGood(t: real, h: real) { t <= 24.0 && h <= 75.0 }

  /** Each advice is given exactly under its condition, whatever the crop. */
  lemma RecommendationMatchesConditions(t: real, h: real, crop: string)
    ensures RuleBasedRecommendation(t, h, crop).CriticalHeat? <==> IsCriticalHeat(t, h)
    ensures RuleBasedRecommendation(t, h, crop).HighTemperature? <==> IsHighTemperature(t, h)
    ensures RuleBasedRecommendation(t, h, crop).HighHumidity? <==> IsHighHumidity(t, h)
    ensures RuleBasedRecommendation(t, h, crop).ModerateConditions? <==> IsModerate(t, h)
    ensures RuleBasedRecommendation(t, h, crop).GoodConditions? <==> IsGood(t, h)
  {
  }

  /** The five conditions cover every reading and never overlap, so exactly one advice fires. */
  lemma ConditionsPartition(t: real, h: real)
    ensures IsCriticalHeat(t, h) || IsHighTemperature(t, h) || IsHighHumidity(t, h) || IsModerate(t, h) || IsGood(t, h)
    ensures (if IsCriticalHeat(t, h) then 1 else 0) + (if IsHighTemperature(t, h) then 1 else 0)
          + (if IsHighHumidity(t, h) then 1 else 0) + (if IsModerate(t, h) then 1 else 0)
          + (if IsGood(t, h) then 1 else 0) == 1
  {
  }

  /** Critical heat wins regardless of humidity, and quotes the crop (or "produce"). */
  lemma HeatIgnoresHumidity(t: real, h1: real, h2: real, crop: string)
    requires t > 35.0
    ensures RuleBasedRecommendation(t, h1, crop) == RuleBasedRecommendation(t, h2, crop) == CriticalHeat(t, CropName(crop))
  {
  }

  /** The card's optional inputs; `None` is a prop that was not passed. */
  datatype Props = Props(temperature: Option<real>, humidity: Option<real>, cropType: Option<string>)

  const DefaultTemperature: real := 30.0
  const DefaultHumidity: real := 55.0
  const DefaultCropType: string := "produce"

  /** The fallback advice the card shows for its props, with the defaults filled in. */
  function CardFallback(p: Props): Advice {
    RuleBasedRecommendation(p.temperature.GetOr(DefaultTemperature), p.humidity.GetOr(DefaultHumidity),
                            p.cropType.GetOr(DefaultCropType))
  }

  /** With no props at all the card advises moderate conditions at 30°C and 55% humidity. */
  lemma DefaultsGiveModerate()
    ensures CardFallback(Props(None, None, None)) == ModerateConditions(30.0, 55.0)
  {
  }
}
