/**
 * The "Model C" indoor temperature forecaster: a thermostat-aware physics
 * step, an hourly bias learned from past errors and weighted by the
 * profile's confidence, and a clamp around the comfort band. Forecast
 * times are seconds since the epoch in UTC; predictions are exact reals
 * (the source rounds them to two decimals).
 */
module TemperatureForecaster {
  import opened Common
  import opened CustomerProfiles

  /** Heating and cooling rates in degrees per hour. */
  datatype ResponseRates = ResponseRates(heating: real, cooling: real)

  /** The rates for a building's thermal response; an unknown type counts as medium. */
  function ResponseRatesFor(thermalResponse: string): (r: ResponseRates)
    ensures thermalResponse == "slow" ==> r == ResponseRates(0.3, 0.1)
    ensures thermalResponse == "fast" ==> r == ResponseRates(0.8, 0.3)
    ensures thermalResponse != "slow" && thermalResponse != "fast" ==> r == ResponseRates(0.5, 0.2)
    ensures r.heating > 0.0 && r.cooling > 0.0
  {
    if thermalResponse == "slow" then ResponseRates(0.3, 0.1)
    else if thermalResponse == "fast" then ResponseRates(0.8, 0.3)
    else ResponseRates(0.5, 0.2)
  }

  // ---------------------------------------------------------------------
  // One prediction step
  // ---------------------------------------------------------------------

  /**
   * The physics step: well below the band the heating drives the indoor
   * temperature up without passing the target; just below the target it
   * closes at most half the heating rate; inside the upper band the
   * thermostat holds it; above the band it cools, not below the target.
   */
  function PhysicsModel(indoor: real, outdoor: real, target: real, dev: real,
                        rates: ResponseRates): (p: real)
    ensures indoor < target - dev ==> p <= target && (p == target || p >= indoor + 0.1)
    ensures target - dev <= indoor < target ==>
      p <= target && p - indoor <= rates.heating * 0.5 && (rates.heating > 0.0 ==> p > indoor)
    ensures target <= indoor <= target + dev ==>
      p >= target - dev * 0.5 && (indoor >= target - dev * 0.5 ==> indoor - 0.1 <= p <= indoor)
    ensures 0.0 <= dev && indoor > target + dev ==> p >= target
  {
    var pressure := (indoor - outdoor) * 0.02;
    if indoor < target - dev then
      var rise := Max(0.1, rates.heating - pressure);
      Min(indoor + rise, target)
    else if indoor < target then
      indoor + Min(rates.heating * 0.5, target - indoor)
    else if indoor <= target + dev then
      var drift := if outdoor < indoor - 10.0 then -0.1 else 0.0;
      Max(indoor + drift, target - dev * 0.5)
    else
      Max(indoor - (rates.cooling + pressure * 0.5), target)
  }

  /**
   * The weight given to the hourly bias: none while fewer than 24 samples
   * have been seen, half of a confidence below 0.5, else the confidence.
   */
  function EffectiveConfidence(confidence: real, totalSamples: int): (e: real)
    ensures totalSamples < 24 ==> e == 0.0
    ensures totalSamples >= 24 && confidence < 0.5 ==> e == confidence * 0.5
    ensures totalSamples >= 24 && confidence >= 0.5 ==> e == confidence
    ensures 0.0 <= confidence ==> 0.0 <= e <= confidence
  {
    if totalSamples < 24 then 0.0
    else if confidence < 0.5 then confidence * 0.5
    else confidence
  }

  /** `f"{hour:02d}"`: zero-padded to two characters. */
  function HourKey(hour: int): (k: string)
    ensures 0 <= hour < 100 ==> |k| == 2 && AllDigits(k)
  {
    if 0 <= hour < 10 then ['0', DigitChar(hour)]
    else if 10 <= hour < 100 then [DigitChar(hour / 10), DigitChar(hour % 10)]
    else IntToString(hour)
  }

  /** The key reads back as its hour, so distinct hours never share a key. */
  lemma HourKeyParses(hour: int)
    ensures ParseInt(HourKey(hour)) == Some(hour)
  {
    if 0 <= hour < 100 {
      var k := HourKey(hour);
      assert k[..1] == [k[0]];
      assert DigitsValue(k[..1]) == hour / 10;
    } else {
      ParseIntToString(hour);
    }
  }

  lemma HourKeyInjective(a: int, b: int)
    ensures HourKey(a) == HourKey(b) ==> a == b
  {
    HourKeyParses(a);
    HourKeyParses(b);
  }

  /** The learned bias for an hour; a missing key is no bias. */
  function BiasAt(bias: map<string, real>, hour: int): (b: real)
    ensures HourKey(hour) !in bias ==> b == 0.0
    ensures HourKey(hour) in bias ==> b == bias[HourKey(hour)]
  {
    if HourKey(hour) in bias then bias[HourKey(hour)] else 0.0
  }

  /** Everything a prediction reads from the profile. */
  datatype Settings = Settings(comfort: ComfortConfig, learned: LearnedParameters, rates: ResponseRates)

  function LowerClamp(s: Settings): real
  {
    s.comfort.targetIndoorTemp - s.comfort.acceptableDeviation - 1.0
  }

  function UpperClamp(s: Settings): real
  {
    s.comfort.targetIndoorTemp + s.comfort.acceptableDeviation + 0.5
  }

  /** The band is non-empty exactly when the deviation is at least -0.75. */
  predicate ClampNonEmpty(s: Settings)
  {
    LowerClamp(s) <= UpperClamp(s)
  }

  /** The physics step plus the hour's bias weighted by the effective confidence, before clamping. */
  function Adjusted(indoor: real, outdoor: real, hour: int, s: Settings): real
  {
    PhysicsModel(indoor, outdoor, s.comfort.targetIndoorTemp, s.comfort.acceptableDeviation, s.rates)
    + BiasAt(s.learned.hourlyBias, hour)
      * EffectiveConfidence(s.learned.thermalCoefficientConfidence, s.learned.totalSamples)
  }

  /**
   * `_predict_indoor`: physics, plus the hour's bias weighted by the
   * effective confidence, clamped to [target - dev - 1, target + dev + 0.5].
   * With an empty band (a deviation below -0.75) the lower bound wins.
   */
  function PredictIndoor(indoor: real, outdoor: real, hour: int, s: Settings): (v: real)
    ensures v >= LowerClamp(s)
    ensures ClampNonEmpty(s) ==> v <= UpperClamp(s)
    ensures var adjusted := Adjusted(indoor, outdoor, hour, s);
      && (LowerClamp(s) <= adjusted <= UpperClamp(s) ==> v == adjusted)
      && (adjusted < LowerClamp(s) ==> v == LowerClamp(s))
      && (ClampNonEmpty(s) && adjusted > UpperClamp(s) ==> v == UpperClamp(s))
  {
    Max(LowerClamp(s), Min(UpperClamp(s), Adjusted(indoor, outdoor, hour, s)))
  }

  /** Without a bias, or without confidence in it, the prediction is the physics step clamped. */
  lemma PredictWithoutBias(indoor: real, outdoor: real, hour: int, s: Settings)
    requires BiasAt(s.learned.hourlyBias, hour) == 0.0 ||
             EffectiveConfidence(s.learned.thermalCoefficientConfidence, s.learned.totalSamples) == 0.0
    ensures var physics := PhysicsModel(indoor, outdoor, s.comfort.targetIndoorTemp,
                                        s.comfort.acceptableDeviation, s.rates);
      LowerClamp(s) <= physics <= UpperClamp(s) ==> PredictIndoor(indoor, outdoor, hour, s) == physics
  {
  }

  // ---------------------------------------------------------------------
  // The forecast
  // ---------------------------------------------------------------------

  datatype ForecastKind = OutdoorTemp | SupplyTempBaseline | SupplyTempMl | IndoorTemp

  datatype ForecastPoint = ForecastPoint(timestamp: int, kind: ForecastKind, value: real)

  /** One weather forecast entry; a missing or empty time string is None. */
  datatype WeatherEntry = WeatherEntry(time: Option<int>, temp: Option<real>)

  /** The UTC hour of day of an epoch timestamp. */
  function HourOf(t: int): (h: int)
    ensures 0 <= h < 24
  {
    (t % 86400) / 3600
  }

  /**
   * The heat curve's (baseline, learned) supply temperatures for an outdoor
   * temperature, when a heat curve is attached.
   */
  type SupplyLookup = real -> (Option<real>, Option<real>)

  function SupplyPoints(t: int, outdoor: real, heatCurve: Option<SupplyLookup>): (r: seq<ForecastPoint>)
    ensures |r| <= 2
    ensures forall i :: 0 <= i < |r| ==> r[i].timestamp == t && r[i].kind in {SupplyTempBaseline, SupplyTempMl}
  {
    match heatCurve
    case None => []
    case Some(lookup) =>
      var (baseline, learned) := lookup(outdoor);
      (if baseline.Some? then [ForecastPoint(t, SupplyTempBaseline, baseline.value)] else []) +
      (if learned.Some? then [ForecastPoint(t, SupplyTempMl, learned.value)] else [])
  }

  /** An entry with both a time and a temperature; the others are skipped. */
  datatype Reading = Reading(time: int, temp: real)

  function UsableReading(e: WeatherEntry): Option<Reading>
  {
    if e.time.Some? && e.temp.Some? then Some(Reading(e.time.value, e.temp.value)) else None
  }

  /** The points one usable entry contributes, given the indoor value it starts from. */
  function EntryPoints(r: Reading, indoor: real, heatCurve: Option<SupplyLookup>, s: Settings)
    : seq<ForecastPoint>
  {
    [ForecastPoint(r.time, OutdoorTemp, r.temp)] +
    SupplyPoints(r.time, r.temp, heatCurve) +
    [ForecastPoint(r.time, IndoorTemp, PredictIndoor(indoor, r.temp, HourOf(r.time), s))]
  }

  /**
   * The forecast from `indoor` over the entries: unusable entries add
   * nothing, and each usable one's indoor prediction is the starting value
   * of the next.
   */
  function Forecast(entries: seq<WeatherEntry>, indoor: real, heatCurve: Option<SupplyLookup>,
                    s: Settings): seq<ForecastPoint>
  {
    if entries == [] then []
    else match UsableReading(entries[0])
      case None => Forecast(entries[1..], indoor, heatCurve, s)
      case Some(r) =>
        var next := PredictIndoor(indoor, r.temp, HourOf(r.time), s);
        EntryPoints(r, indoor, heatCurve, s) + Forecast(entries[1..], next, heatCurve, s)
  }

  lemma ForecastStep(weather: seq<WeatherEntry>, i: nat, indoor: real, heatCurve: Option<SupplyLookup>, s: Settings)
    requires i < |weather|
    ensures Forecast(weather[i..], indoor, heatCurve, s) ==
      match UsableReading(weather[i])
      case None => Forecast(weather[i + 1..], indoor, heatCurve, s)
      case Some(r) =>
        EntryPoints(r, indoor, heatCurve, s) +
        Forecast(weather[i + 1..], PredictIndoor(indoor, r.temp, HourOf(r.time), s), heatCurve, s)
  {
    assert weather[i..][1..] == weather[i + 1..];
  }

  /** One entry further along: its points join those emitted so far, and its prediction starts the rest. */
  lemma ForecastAdvance(points: seq<ForecastPoint>, weather: seq<WeatherEntry>, i: nat, indoor: real,
                        heatCurve: Option<SupplyLookup>, s: Settings, total: seq<ForecastPoint>)
    requires i < |weather| && points + Forecast(weather[i..], indoor, heatCurve, s) == total
    ensures match UsableReading(weather[i])
      case None => points + Forecast(weather[i + 1..], indoor, heatCurve, s) == total
      case Some(r) =>
        points + EntryPoints(r, indoor, heatCurve, s) +
        Forecast(weather[i + 1..], PredictIndoor(indoor, r.temp, HourOf(r.time), s), heatCurve, s) == total
  {
    ForecastStep(weather, i, indoor, heatCurve, s);
    match UsableReading(weather[i])
    case None =>
    case Some(r) =>
      var e, rest := EntryPoints(r, indoor, heatCurve, s),
        Forecast(weather[i + 1..], PredictIndoor(indoor, r.temp, HourOf(r.time), s), heatCurve, s);
      assert points + e + rest == points + (e + rest);
  }

  /** The usable entries in order. */
  function Readings(entries: seq<WeatherEntry>): (r: seq<Reading>)
    ensures |r| <= |entries|
  {
    if entries == [] then []
    else match UsableReading(entries[0])
      case None => Readings(entries[1..])
      case Some(x) => [x] + Readings(entries[1..])
  }

  /** The chain of indoor predictions: each starts from the one before. */
  function IndoorChain(readings: seq<Reading>, indoor: real, s: Settings): (r: seq<real>)
    ensures |r| == |readings|
  {
    if readings == [] then []
    else
      var next := PredictIndoor(indoor, readings[0].temp, HourOf(readings[0].time), s);
      [next] + IndoorChain(readings[1..], next, s)
  }

  function OutdoorRow(r: Reading): ForecastPoint
  {
    ForecastPoint(r.time, OutdoorTemp, r.temp)
  }

  function IndoorValues(points: seq<ForecastPoint>): seq<real>
  {
    if points == [] then []
    else
      var last := points[|points| - 1];
      IndoorValues(points[..|points| - 1]) + (if last.kind == IndoorTemp then [last.value] else [])
  }

  function OutdoorPoints(points: seq<ForecastPoint>): seq<ForecastPoint>
  {
    if points == [] then []
    else
      var last := points[|points| - 1];
      OutdoorPoints(points[..|points| - 1]) + (if last.kind == OutdoorTemp then [last] else [])
  }

  lemma {:induction false} FilterAppend(a: seq<ForecastPoint>, b: seq<ForecastPoint>)
    ensures IndoorValues(a + b) == IndoorValues(a) + IndoorValues(b)
    ensures OutdoorPoints(a + b) == OutdoorPoints(a) + OutdoorPoints(b)
  {
    if b == [] {
      assert a + b == a;
    } else {
      var c := b[..|b| - 1];
      assert (a + b)[..|a + b| - 1] == a + c;
      assert (a + b)[|a + b| - 1] == b[|b| - 1];
      FilterAppend(a, c);
    }
  }

  lemma SupplyPointsNeither(t: int, outdoor: real, heatCurve: Option<SupplyLookup>)
    ensures IndoorValues(SupplyPoints(t, outdoor, heatCurve)) == []
    ensures OutdoorPoints(SupplyPoints(t, outdoor, heatCurve)) == []
  {
    match heatCurve
    case None =>
    case Some(lookup) =>
      var (baseline, learned) := lookup(outdoor);
      var first := if baseline.Some? then [ForecastPoint(t, SupplyTempBaseline, baseline.value)] else [];
      var second := if learned.Some? then [ForecastPoint(t, SupplyTempMl, learned.value)] else [];
      FilterAppend(first, second);
  }

  /** One usable entry gives one outdoor point and one indoor point, the prediction. */
  lemma EntryPointsFilter(r: Reading, indoor: real, heatCurve: Option<SupplyLookup>, s: Settings)
    ensures IndoorValues(EntryPoints(r, indoor, heatCurve, s)) ==
            [PredictIndoor(indoor, r.temp, HourOf(r.time), s)]
    ensures OutdoorPoints(EntryPoints(r, indoor, heatCurve, s)) == [OutdoorRow(r)]
  {
    var outdoorPoint := [OutdoorRow(r)];
    var supply := SupplyPoints(r.time, r.temp, heatCurve);
    var indoorPoint := [ForecastPoint(r.time, IndoorTemp, PredictIndoor(indoor, r.temp, HourOf(r.time), s))];
    SupplyPointsNeither(r.time, r.temp, heatCurve);
    FilterAppend(outdoorPoint + supply, indoorPoint);
    FilterAppend(outdoorPoint, supply);
  }

  /**
   * Entries lacking a time or a temperature are skipped: the indoor points
   * of a forecast are exactly the prediction chain over the usable entries,
   * and its outdoor points are those entries' times and temperatures.
   */
  lemma {:induction false} ForecastChainsIndoor(entries: seq<WeatherEntry>, indoor: real,
                                                heatCurve: Option<SupplyLookup>, s: Settings)
    ensures IndoorValues(Forecast(entries, indoor, heatCurve, s)) ==
            IndoorChain(Readings(entries), indoor, s)
    ensures OutdoorPoints(Forecast(entries, indoor, heatCurve, s)) ==
            OutdoorRows(Readings(entries))
  {
    if entries != [] {
      match UsableReading(entries[0])
      case None =>
        ForecastChainsIndoor(entries[1..], indoor, heatCurve, s);
      case Some(r) =>
        var next := PredictIndoor(indoor, r.temp, HourOf(r.time), s);
        ForecastChainsIndoor(entries[1..], next, heatCurve, s);
        EntryPointsFilter(r, indoor, heatCurve, s);
        FilterAppend(EntryPoints(r, indoor, heatCurve, s), Forecast(entries[1..], next, heatCurve, s));
        assert ([r] + Readings(entries[1..]))[1..] == Readings(entries[1..]);
    }
  }

  function OutdoorRows(readings: seq<Reading>): (r: seq<ForecastPoint>)
    ensures |r| == |readings|
    ensures forall i :: 0 <= i < |r| ==> r[i] == OutdoorRow(readings[i])
  {
    if readings == [] then [] else [OutdoorRow(readings[0])] + OutdoorRows(readings[1..])
  }

  /** Every chained indoor prediction stays inside the clamp band. */
  lemma {:induction false} IndoorChainBounded(readings: seq<Reading>, indoor: real, s: Settings)
    requires ClampNonEmpty(s)
    ensures forall i :: 0 <= i < |readings| ==>
      LowerClamp(s) <= IndoorChain(readings, indoor, s)[i] <= UpperClamp(s)
  {
    if readings != [] {
      var next := PredictIndoor(indoor, readings[0].temp, HourOf(readings[0].time), s);
      IndoorChainBounded(readings[1..], next, s);
      assert forall i :: 1 <= i < |readings| ==>
        IndoorChain(readings, indoor, s)[i] == IndoorChain(readings[1..], next, s)[i - 1];
    }
  }

  // ---------------------------------------------------------------------
  // Accuracy buffer and hourly-bias learning
  // ---------------------------------------------------------------------

  datatype AccuracyRecord = AccuracyRecord(
    timestamp: int, hour: int, predicted: real, actual: real, error: real, outdoor: real)

  const MaxBuffer := 1000
  const KeptOnTrim := 500

  /** Append one record; past 1000 entries only the newest 500 are kept. */
  function AppendBounded(buffer: seq<AccuracyRecord>, r: AccuracyRecord): (b: seq<AccuracyRecord>)
    ensures |b| > 0 && b[|b| - 1] == r
    ensures |buffer| < MaxBuffer ==> b == buffer + [r]
    ensures |buffer| >= MaxBuffer ==> b == (buffer + [r])[|buffer| + 1 - KeptOnTrim..]
    ensures |buffer| <= MaxBuffer ==> |b| <= MaxBuffer
  {
    var appended := buffer + [r];
    if |appended| > MaxBuffer then appended[|appended| - KeptOnTrim..] else appended
  }

  /** The errors recorded for one hour, in buffer order. */
  function ErrorsAt(buffer: seq<AccuracyRecord>, hour: int): seq<real>
  {
    if buffer == [] then []
    else
      var last := buffer[|buffer| - 1];
      ErrorsAt(buffer[..|buffer| - 1], hour) + (if last.hour == hour then [last.error] else [])
  }

  /** The hours of the buffer in order of first appearance. */
  function HoursOf(buffer: seq<AccuracyRecord>): (hours: seq<int>)
    ensures forall h :: h in hours <==> exists i :: 0 <= i < |buffer| && buffer[i].hour == h
  {
    if buffer == [] then []
    else
      var prefix := buffer[..|buffer| - 1];
      var rest := HoursOf(prefix);
      assert forall i :: 0 <= i < |prefix| ==> buffer[i] == prefix[i];
      if buffer[|buffer| - 1].hour in rest then rest else rest + [buffer[|buffer| - 1].hour]
  }

  /** 80% of the recent mean error, 20% of the stored bias. */
  function Blend(errors: seq<real>, oldBias: real): real
  {
    if errors == [] then 0.2 * oldBias else 0.8 * Mean(errors) + 0.2 * oldBias
  }

  /** An hour whose bias is learned: at least three errors and a blend above 0.05 in size. */
  predicate Significant(buffer: seq<AccuracyRecord>, hour: int, oldBias: map<string, real>)
  {
    var errors := ErrorsAt(buffer, hour);
    |errors| >= 3 && Abs(Blend(errors, BiasAt(oldBias, hour))) > 0.05
  }

  /** The new biases for `hours`, one key per significant hour. */
  function BiasOver(hours: seq<int>, buffer: seq<AccuracyRecord>, oldBias: map<string, real>)
    : map<string, real>
  {
    if hours == [] then map[]
    else
      var m := BiasOver(hours[..|hours| - 1], buffer, oldBias);
      var h := hours[|hours| - 1];
      if Significant(buffer, h, oldBias)
      then m[HourKey(h) := Blend(ErrorsAt(buffer, h), BiasAt(oldBias, h))]
      else m
  }

  /** The biases `update_hourly_bias` computes from a buffer of at least ten records. */
  function NewHourlyBias(buffer: seq<AccuracyRecord>, oldBias: map<string, real>): map<string, real>
  {
    BiasOver(HoursOf(buffer), buffer, oldBias)
  }

  lemma {:induction false} BiasOverMeaning(hours: seq<int>, buffer: seq<AccuracyRecord>,
                                           oldBias: map<string, real>)
    ensures forall k :: k in BiasOver(hours, buffer, oldBias) ==> exists h :: h in hours && k == HourKey(h)
    ensures forall h :: HourKey(h) in BiasOver(hours, buffer, oldBias) <==>
      h in hours && Significant(buffer, h, oldBias)
    ensures forall h :: HourKey(h) in BiasOver(hours, buffer, oldBias) ==>
      BiasOver(hours, buffer, oldBias)[HourKey(h)] == Blend(ErrorsAt(buffer, h), BiasAt(oldBias, h))
  {
    if hours != [] {
      var prefix := hours[..|hours| - 1];
      var last := hours[|hours| - 1];
      BiasOverMeaning(prefix, buffer, oldBias);
      assert hours == prefix + [last];
      forall h
        ensures HourKey(h) in BiasOver(hours, buffer, oldBias) <==> h in hours && Significant(buffer, h, oldBias)
        ensures HourKey(h) in BiasOver(hours, buffer, oldBias) ==>
          BiasOver(hours, buffer, oldBias)[HourKey(h)] == Blend(ErrorsAt(buffer, h), BiasAt(oldBias, h))
      {
        HourKeyInjective(h, last);
      }
    }
  }

  /**
   * The learned biases: a key for exactly the hours of the buffer with at
   * least three errors whose blend exceeds 0.05 in size, holding that blend
   * of the mean error with the previous bias, and no other key.
   */
  lemma NewHourlyBiasMeaning(buffer: seq<AccuracyRecord>, oldBias: map<string, real>)
    ensures forall k :: k in NewHourlyBias(buffer, oldBias) ==>
      exists h :: h in HoursOf(buffer) && k == HourKey(h)
    ensures forall h :: HourKey(h) in NewHourlyBias(buffer, oldBias) <==>
      h in HoursOf(buffer) && Significant(buffer, h, oldBias)
    ensures forall h :: HourKey(h) in NewHourlyBias(buffer, oldBias) ==>
      NewHourlyBias(buffer, oldBias)[HourKey(h)] == Blend(ErrorsAt(buffer, h), BiasAt(oldBias, h))
  {
    BiasOverMeaning(HoursOf(buffer), buffer, oldBias);
  }

  /** An hour with fewer than three recorded errors never gets a bias. */
  lemma FewSamplesNoBias(buffer: seq<AccuracyRecord>, oldBias: map<string, real>, h: int)
    requires |ErrorsAt(buffer, h)| < 3
    ensures HourKey(h) !in NewHourlyBias(buffer, oldBias)
  {
    NewHourlyBiasMeaning(buffer, oldBias);
  }

  class Forecaster {
    const profile: CustomerProfile
    const rates: ResponseRates
    var accuracyBuffer: seq<AccuracyRecord>

    constructor (profile: CustomerProfile)
      ensures this.profile == profile
      ensures rates == ResponseRatesFor(profile.building.thermalResponse)
      ensures accuracyBuffer == []
    {
      this.profile := profile;
      this.rates := ResponseRatesFor(profile.building.thermalResponse);
      this.accuracyBuffer := [];
    }

    /** `generate_forecast` from the current indoor temperature. */
    method GenerateForecast(currentIndoor: real, weather: seq<WeatherEntry>,
                            heatCurve: Option<SupplyLookup>)
      returns (points: seq<ForecastPoint>)
      ensures points == Forecast(weather, currentIndoor, heatCurve,
                                 Settings(profile.comfort, profile.learned, rates))
    {
      var s := Settings(profile.comfort, profile.learned, rates);
      points := [];
      var predicted := currentIndoor;
      var i := 0;
      while i < |weather|
        invariant 0 <= i <= |weather|
        invariant points + Forecast(weather[i..], predicted, heatCurve, s) ==
                  Forecast(weather, currentIndoor, heatCurve, s)
      {
        var entry := weather[i];
        ForecastAdvance(points, weather, i, predicted, heatCurve, s, Forecast(weather, currentIndoor, heatCurve, s));
        if entry.time.Some? && entry.temp.Some? {
          var r := Reading(entry.time.value, entry.temp.value);
          var entryPoints := EmitEntry(r, predicted, heatCurve, s);
          points := points + entryPoints;
          predicted := PredictIndoor(predicted, r.temp, HourOf(r.time), s);
        }
        i := i + 1;
      }
    }

    /** `record_accuracy`: append the error `actual - predicted` and keep the buffer bounded. */
    method RecordAccuracy(predicted: real, actual: real, hour: int, outdoor: real, now: int)
      modifies this
      ensures accuracyBuffer ==
        AppendBounded(old(accuracyBuffer), AccuracyRecord(now, hour, predicted, actual, actual - predicted, outdoor))
    {
      accuracyBuffer := accuracyBuffer + [AccuracyRecord(now, hour, predicted, actual, actual - predicted, outdoor)];
      if |accuracyBuffer| > MaxBuffer {
        accuracyBuffer := accuracyBuffer[|accuracyBuffer| - KeptOnTrim..];
      }
    }

    /**
     * `update_hourly_bias` at time `now`: with fewer than ten records
     * nothing changes; otherwise the new biases are merged into the
     * profile, its update time is set and the buffer is emptied.
     */
    method UpdateHourlyBias(now: int) returns (newBias: map<string, real>)
      modifies this, profile
      ensures |old(accuracyBuffer)| < 10 ==>
        newBias == map[] && accuracyBuffer == old(accuracyBuffer) && profile.learned == old(profile.learned)
      ensures |old(accuracyBuffer)| >= 10 ==>
        && newBias == NewHourlyBias(old(accuracyBuffer), old(profile.learned.hourlyBias))
        && profile.learned == old(profile.learned).(
             hourlyBias := old(profile.learned.hourlyBias) + newBias, updatedAt := Some(now))
        && accuracyBuffer == []
      ensures profile.comfort == old(profile.comfort) && profile.building == old(profile.building)
    {
      if |accuracyBuffer| < 10 {
        newBias := map[];
      } else {
        var buffer := accuracyBuffer;
        var groups := GroupByHour(buffer);
        var hours := HoursOf(buffer);
        var oldBias := profile.learned.hourlyBias;
        newBias := map[];
        for j := 0 to |hours|
          invariant newBias == BiasOver(hours[..j], buffer, oldBias)
        {
          var h := hours[j];
          var errors := groups[h];
          assert hours[..j + 1][..j] == hours[..j];
          if |errors| >= 3 {
            var blended := 0.8 * (Sum(errors) / (|errors| as real)) + 0.2 * BiasAt(oldBias, h);
            if Abs(blended) > 0.05 {
              newBias := newBias[HourKey(h) := blended];
            }
          }
        }
        assert hours[..|hours|] == hours;
        profile.learned := profile.learned.(hourlyBias := profile.learned.hourlyBias + newBias,
                                            updatedAt := Some(now));
        accuracyBuffer := [];
      }
    }
  }

  /** The points `generate_forecast` appends for one usable entry, in order. */
  method EmitEntry(r: Reading, indoor: real, heatCurve: Option<SupplyLookup>, s: Settings)
    returns (points: seq<ForecastPoint>)
    ensures points == EntryPoints(r, indoor, heatCurve, s)
  {
    points := [ForecastPoint(r.time, OutdoorTemp, r.temp)];
    if heatCurve.Some? {
      var (baseline, learned) := heatCurve.value(r.temp);
      if baseline.Some? {
        points := points + [ForecastPoint(r.time, SupplyTempBaseline, baseline.value)];
      }
      if learned.Some? {
        points := points + [ForecastPoint(r.time, SupplyTempMl, learned.value)];
      }
    }
    var indoorNext := PredictIndoor(indoor, r.temp, HourOf(r.time), s);
    points := points + [ForecastPoint(r.time, IndoorTemp, indoorNext)];
  }

  /** The grouping loop of `update_hourly_bias`: each hour's errors in buffer order. */
  method GroupByHour(buffer: seq<AccuracyRecord>) returns (groups: map<int, seq<real>>)
    ensures forall h :: h in groups <==> h in HoursOf(buffer)
    ensures forall h :: h in groups ==> groups[h] == ErrorsAt(buffer, h)
  {
    groups := map[];
    for i := 0 to |buffer|
      invariant forall h :: h in groups <==> h in HoursOf(buffer[..i])
      invariant forall h :: h in groups ==> groups[h] == ErrorsAt(buffer[..i], h)
      invariant forall h :: h !in groups ==> ErrorsAt(buffer[..i], h) == []
    {
      var r := buffer[i];
      assert buffer[..i + 1][..i] == buffer[..i];
      if r.hour !in groups {
        groups := groups[r.hour := []];
      }
      groups := groups[r.hour := groups[r.hour] + [r.error]];
    }
    assert buffer[..|buffer|] == buffer;
  }
}
