/**
 * Forecast trend classification and the heating-reduction decision of the
 * SMHI weather client. The forecast itself (an HTTP download) and the
 * sunrise/sunset computation are inputs: a list of forecast points and a
 * flag saying whether it is night.
 */
module SmhiWeather {
  import opened Common

  datatype Trend = Rising | Falling | Stable

  datatype CloudCondition = Clear | PartlyCloudy | Cloudy | Overcast | UnknownCloud

  datatype SolarFactor = NoSolar | LowSolar | MediumSolar | HighSolar | UnknownSolar

  /** One forecast hour: the 2 m temperature and, when reported, the cloud cover in octas. */
  datatype ForecastPoint = ForecastPoint(temp: real, cloudCover: Option<real>)

  /** The analysis dictionary returned by `get_temp_trend`. */
  datatype TempTrend = TempTrend(
    currentTemp: real,
    avgTemp: real,
    maxTemp: real,
    minTemp: real,
    trend: Trend,
    change: real,
    forecastHours: int,
    avgCloudCover: Option<real>,
    cloudCondition: CloudCondition)

  /** The recommendation dictionary returned by `should_reduce_heating`. */
  datatype Decision = Decision(reduceHeating: bool, confidence: real, solarFactor: SolarFactor)

  /** A change of more than one degree either way is a trend; otherwise stable. */
  function ClassifyTrend(change: real): (t: Trend)
    ensures t == Rising <==> change > 1.0
    ensures t == Falling <==> change < -1.0
    ensures t == Stable <==> -1.0 <= change <= 1.0
  {
    if change > 1.0 then Rising
    else if change < -1.0 then Falling
    else Stable
  }

  /** Cloud classes at 2, 5 and 7 octas; no cloud data at all is unknown. */
  function ClassifyCloud(avgCloud: Option<real>): (c: CloudCondition)
    ensures c == UnknownCloud <==> avgCloud == None
    ensures c == Clear <==> avgCloud.Some? && avgCloud.value < 2.0
    ensures c == Overcast <==> avgCloud.Some? && avgCloud.value >= 7.0
  {
    match avgCloud
    case None => UnknownCloud
    case Some(a) =>
      if a < 2.0 then Clear
      else if a < 5.0 then PartlyCloudy
      else if a < 7.0 then Cloudy
      else Overcast
  }

  function Temps(forecasts: seq<ForecastPoint>): (r: seq<real>)
    ensures |r| == |forecasts|
    ensures forall i :: 0 <= i < |r| ==> r[i] == forecasts[i].temp
  {
    if forecasts == [] then [] else [forecasts[0].temp] + Temps(forecasts[1..])
  }

  /** The cloud covers of the points that report one, in order. */
  function CloudCovers(forecasts: seq<ForecastPoint>): (r: seq<real>)
    ensures |r| <= |forecasts|
    ensures forall c :: c in r <==> exists i :: 0 <= i < |forecasts| && forecasts[i].cloudCover == Some(c)
  {
    if forecasts == [] then []
    else
      var rest := CloudCovers(forecasts[1..]);
      assert forall i :: 0 < i < |forecasts| ==> forecasts[i] == forecasts[1..][i - 1];
      match forecasts[0].cloudCover
      case None => rest
      case Some(c) => [c] + rest
  }

  /**
   * `get_temp_trend` over an already fetched forecast: None without forecast
   * points, otherwise the first/last change, its trend class, the mean,
   * minimum and maximum temperature and the mean cloud cover.
   */
  function GetTempTrend(forecasts: seq<ForecastPoint>, hoursAhead: int): (r: Option<TempTrend>)
    ensures r.None? <==> forecasts == []
    ensures r.Some? ==>
      && r.value.currentTemp == forecasts[0].temp
      && r.value.change == forecasts[|forecasts| - 1].temp - forecasts[0].temp
      && r.value.trend == ClassifyTrend(r.value.change)
      && r.value.minTemp <= r.value.avgTemp <= r.value.maxTemp
      && r.value.minTemp <= r.value.currentTemp <= r.value.maxTemp
      && (r.value.avgCloudCover.None? <==> forall i :: 0 <= i < |forecasts| ==> forecasts[i].cloudCover.None?)
  {
    if forecasts == [] then None
    else
      var temps := Temps(forecasts);
      var clouds := CloudCovers(forecasts);
      var avgCloud := if clouds == [] then None else Some(Sum(clouds) / (|clouds| as real));
      var change := temps[|temps| - 1] - temps[0];
      MeanBetweenMinMax(temps);
      CloudCoversEmpty(forecasts);
      Some(TempTrend(
        currentTemp := temps[0],
        avgTemp := Mean(temps),
        maxTemp := MaxOf(temps),
        minTemp := MinOf(temps),
        trend := ClassifyTrend(change),
        change := change,
        forecastHours := hoursAhead,
        avgCloudCover := avgCloud,
        cloudCondition := ClassifyCloud(avgCloud)))
  }

  /**
   * The values of the trend: the mean, the smallest and the largest
   * forecast temperature, the mean cloud cover over the points that report
   * one, and its cloud class.
   */
  lemma TempTrendValues(forecasts: seq<ForecastPoint>, hoursAhead: int)
    requires forecasts != []
    ensures var t := GetTempTrend(forecasts, hoursAhead).value;
      && t.avgTemp == Mean(Temps(forecasts))
      && (exists i :: 0 <= i < |forecasts| && t.minTemp == forecasts[i].temp)
      && (exists i :: 0 <= i < |forecasts| && t.maxTemp == forecasts[i].temp)
      && (forall i :: 0 <= i < |forecasts| ==> t.minTemp <= forecasts[i].temp <= t.maxTemp)
      && t.forecastHours == hoursAhead
      && t.avgCloudCover == (if CloudCovers(forecasts) == [] then None else Some(Mean(CloudCovers(forecasts))))
      && t.cloudCondition == ClassifyCloud(t.avgCloudCover)
  {
    var temps := Temps(forecasts);
    var t := GetTempTrend(forecasts, hoursAhead).value;
    assert t.minTemp == MinOf(temps) && t.maxTemp == MaxOf(temps);
    var lo :| 0 <= lo < |temps| && temps[lo] == MinOf(temps);
    var hi :| 0 <= hi < |temps| && temps[hi] == MaxOf(temps);
    assert forecasts[lo].temp == t.minTemp && forecasts[hi].temp == t.maxTemp;
  }

  lemma {:induction false} CloudCoversEmpty(forecasts: seq<ForecastPoint>)
    ensures CloudCovers(forecasts) == [] <==> forall i :: 0 <= i < |forecasts| ==> forecasts[i].cloudCover.None?
  {
    if forecasts != [] {
      CloudCoversEmpty(forecasts[1..]);
      assert forall i :: 0 < i < |forecasts| ==> forecasts[i] == forecasts[1..][i - 1];
    }
  }

  /** A trend whose class agrees with its change, as `get_temp_trend` builds it. */
  predicate Consistent(t: TempTrend)
  {
    t.trend == ClassifyTrend(t.change)
  }

  /** Solar influence on the outdoor sensor: none at night, else by cloud cover. */
  function SolarInfluence(isNight: bool, cloudCover: real): (r: (SolarFactor, real))
    ensures r.1 >= 0.0
    ensures isNight ==> r == (NoSolar, 0.0)
  {
    if isNight then (NoSolar, 0.0)
    else if cloudCover < 2.0 then (HighSolar, 2.0)
    else if cloudCover < 5.0 then (MediumSolar, 1.0)
    else (LowSolar, 0.0)
  }

  /** The decision once the solar adjustment is known. */
  function Decide(t: TempTrend, indoor: real, target: real, margin: real,
                  solar: (SolarFactor, real)): (d: Decision)
    ensures d.reduceHeating <==> indoor >= target - margin && (t.trend == Rising || t.change - solar.1 > 2.0)
    ensures d.reduceHeating && t.trend == Rising ==> d.confidence == Min(1.0, Abs(t.change - solar.1) / 5.0)
    ensures d.reduceHeating && t.trend != Rising ==> d.confidence == 0.8
    ensures !d.reduceHeating ==> d.confidence == 0.5
    ensures 0.0 <= d.confidence <= 1.0 && d.solarFactor == solar.0
  {
    var indoorAboveTarget := indoor >= target - margin;
    var actualChange := t.change - solar.1;
    if indoorAboveTarget && t.trend == Rising then
      Decision(true, Min(1.0, Abs(actualChange) / 5.0), solar.0)
    else if indoorAboveTarget && actualChange > 2.0 then
      Decision(true, 0.8, solar.0)
    else
      Decision(false, 0.5, solar.0)
  }

  const NoForecastDecision := Decision(false, 0.0, UnknownSolar)

  /**
   * `should_reduce_heating` as written: in daytime it compares the average
   * cloud cover with 2 and 5, and when no forecast point carried a cloud
   * cover that value is None (the key exists, so the default 8 of
   * `dict.get` never applies) and the comparison raises a TypeError.
   */
  function ShouldReduceHeatingAsWritten(trend: Option<TempTrend>, indoor: real, target: real,
                                        margin: real, isNight: bool): (r: Result<Decision>)
    ensures trend.None? ==> r == Ok(NoForecastDecision)
    ensures r.Err? <==> trend.Some? && !isNight && trend.value.avgCloudCover.None?
  {
    match trend
    case None => Ok(NoForecastDecision)
    case Some(t) =>
      if isNight then Ok(Decide(t, indoor, target, margin, SolarInfluence(true, 0.0)))
      else match t.avgCloudCover
        case None => Err("TypeError: '<' not supported between 'NoneType' and 'int'")
        case Some(c) => Ok(Decide(t, indoor, target, margin, SolarInfluence(false, c)))
  }

  /** A daytime forecast without cloud data makes the decision raise. */
  lemma ShouldReduceHeatingAsWrittenRaises()
    ensures ShouldReduceHeatingAsWritten(
      GetTempTrend([ForecastPoint(5.0, None), ForecastPoint(8.0, None)], 12),
      21.0, 21.0, 0.5, false).Err?
  {
  }

  /**
   * `should_reduce_heating` with the evidently intended default: a missing
   * cloud cover counts as 8 octas (overcast, no solar adjustment).
   */
  function ShouldReduceHeating(trend: Option<TempTrend>, indoor: real, target: real,
                               margin: real, isNight: bool): (r: Decision)
    ensures trend.None? ==> r == NoForecastDecision
    ensures trend.Some? && trend.value.avgCloudCover.Some? ==>
      ShouldReduceHeatingAsWritten(trend, indoor, target, margin, isNight) == Ok(r)
    ensures trend.Some? && isNight ==>
      ShouldReduceHeatingAsWritten(trend, indoor, target, margin, isNight) == Ok(r)
  {
    match trend
    case None => NoForecastDecision
    case Some(t) =>
      var cloud := if t.avgCloudCover.Some? then t.avgCloudCover.value else 8.0;
      Decide(t, indoor, target, margin, SolarInfluence(isNight, cloud))
  }

  /**
   * For a trend built by `get_temp_trend`, the heating is reduced exactly
   * when the indoor temperature is within the margin of the target and the
   * outdoor trend is rising: the "significant warming" branch can never be
   * the one that fires, because a solar-adjusted change above 2 is a raw
   * change above 1. On the rising branch the confidence is min(1, |adjusted|/5).
   */
  lemma {:induction false} ReduceIffRising(t: TempTrend, indoor: real, target: real,
                                           margin: real, isNight: bool)
    requires Consistent(t)
    ensures var d := ShouldReduceHeating(Some(t), indoor, target, margin, isNight);
      && (d.reduceHeating <==> indoor >= target - margin && t.trend == Rising)
      && 0.0 <= d.confidence <= 1.0
      && (d.reduceHeating ==>
            (d.confidence == Min(1.0, Abs(t.change - SolarInfluence(isNight,
              if t.avgCloudCover.Some? then t.avgCloudCover.value else 8.0).1) / 5.0)))
  {
    var cloud := if t.avgCloudCover.Some? then t.avgCloudCover.value else 8.0;
    var solar := SolarInfluence(isNight, cloud);
    if t.change - solar.1 > 2.0 {
      assert t.change > 1.0;
      assert t.trend == Rising;
    }
  }
}
