/**
 * The thermal analyzer: a bounded window of indoor/outdoor samples and the
 * building's heat-loss coefficient learned from consecutive samples taken
 * while no electric heater ran. Timestamps are seconds; the standard
 * deviation of the per-interval coefficients is supplied by the caller.
 */
module ThermalAnalysis {
  import opened Common

  /** A stored sample. */
  datatype DataPoint = DataPoint(timestamp: int, room: real, outdoor: real, electricHeater: bool)

  /** An incoming sample; a missing key is None. */
  datatype RawData = RawData(timestamp: Option<int>, room: Option<real>, outdoor: Option<real>,
                             electricHeater: Option<bool>)

  const MaxPoints := 672

  /** The stored form of a sample with all required fields; a missing heater flag is off. */
  function ToDataPoint(d: RawData): Option<DataPoint>
  {
    if d.timestamp.Some? && d.room.Some? && d.outdoor.Some? then
      Some(DataPoint(d.timestamp.value, d.room.value, d.outdoor.value,
                     d.electricHeater.Some? && d.electricHeater.value))
    else None
  }

  /** The window after `add_data_point`: incomplete samples are ignored, at most 672 kept. */
  function AddPoint(history: seq<DataPoint>, d: RawData): (h: seq<DataPoint>)
    ensures ToDataPoint(d).None? ==> h == history
    ensures ToDataPoint(d).Some? ==> |h| > 0 && h[|h| - 1] == ToDataPoint(d).value
    ensures ToDataPoint(d).Some? && |history| < MaxPoints ==> h == history + [ToDataPoint(d).value]
    ensures ToDataPoint(d).Some? && |history| >= MaxPoints ==>
      |h| == MaxPoints && h == (history + [ToDataPoint(d).value])[|history| + 1 - MaxPoints..]
    ensures |history| <= MaxPoints ==> |h| <= MaxPoints
  {
    match ToDataPoint(d)
    case None => history
    case Some(p) =>
      var appended := history + [p];
      if |appended| > MaxPoints then appended[|appended| - MaxPoints..] else appended
  }

  /**
   * The coefficient one pair of consecutive samples yields: only for a gap
   * strictly between 0 and 2 hours, with no heater on either side, a mean
   * outdoor temperature more than 2 degrees from the average indoor one,
   * and a result below 0.5 in size.
   */
  function IntervalCoefficient(prev: DataPoint, curr: DataPoint, avgIndoor: real): (c: Option<real>)
    ensures c.Some? ==> -0.5 < c.value < 0.5
    ensures c.Some? ==> (0 < curr.timestamp - prev.timestamp < 7200 &&
                         !prev.electricHeater && !curr.electricHeater &&
                         Abs((curr.outdoor + prev.outdoor) / 2.0 - avgIndoor) > 2.0)
  {
    var hours := (curr.timestamp - prev.timestamp) as real / 3600.0;
    if 0.0 < hours < 2.0 then
      var indoorDelta := curr.room - prev.room;
      var outdoorDiff := (curr.outdoor + prev.outdoor) / 2.0 - avgIndoor;
      var heating := curr.electricHeater || prev.electricHeater;
      if !heating && Abs(outdoorDiff) > 2.0 then
        var coefficient := indoorDelta / (hours * outdoorDiff);
        if Abs(coefficient) < 0.5 then Some(coefficient) else None
      else None
    else None
  }

  /** The coefficients of all valid consecutive pairs, in order. */
  function Coefficients(data: seq<DataPoint>, avgIndoor: real): (r: seq<real>)
    ensures |data| <= 1 ==> r == []
    ensures forall i :: 0 <= i < |r| ==> -0.5 < r[i] < 0.5
    ensures |r| <= |data|
  {
    if |data| <= 1 then []
    else
      var n := |data|;
      var rest := Coefficients(data[..n - 1], avgIndoor);
      match IntervalCoefficient(data[n - 2], data[n - 1], avgIndoor)
      case None => rest
      case Some(c) => rest + [c]
  }

  datatype ThermalResult = ThermalResult(
    coefficient: real, confidence: real, samples: nat,
    avgIndoor: real, avgOutdoor: real, dataPoints: nat)

  function Rooms(data: seq<DataPoint>): (r: seq<real>)
    ensures |r| == |data|
  {
    if data == [] then [] else Rooms(data[..|data| - 1]) + [data[|data| - 1].room]
  }

  function Outdoors(data: seq<DataPoint>): (r: seq<real>)
    ensures |r| == |data|
  {
    if data == [] then [] else Outdoors(data[..|data| - 1]) + [data[|data| - 1].outdoor]
  }

  /** The confidence from the spread of the coefficients: 1 - stdev/0.1, kept in [0, 1]. */
  function SpreadConfidence(stdev: real): (c: real)
    ensures 0.0 <= c <= 1.0
    ensures stdev <= 0.0 ==> c == 1.0
    ensures stdev >= 0.1 ==> c == 0.0
  {
    Max(0.0, Min(1.0, 1.0 - stdev / 0.1))
  }

  /**
   * `calculate_thermal_coefficient`: None with fewer samples than
   * `minSamples`, with no samples at all (the mean raises and the error is
   * caught) or with fewer than five valid intervals; otherwise the size of
   * the mean interval coefficient.
   */
  function ThermalCoefficient(data: seq<DataPoint>, minSamples: int, stdev: real): (r: Option<ThermalResult>)
    ensures r.Some? ==> |data| >= minSamples && |data| > 0
    ensures r.Some? ==> 0.0 <= r.value.coefficient < 0.5 && 0.0 <= r.value.confidence <= 1.0
    ensures r.Some? ==> r.value.samples >= 5 && r.value.dataPoints == |data|
  {
    if |data| < minSamples || |data| == 0 then None
    else
      var avgIndoor := Mean(Rooms(data));
      var changes := Coefficients(data, avgIndoor);
      if |changes| < 5 then None
      else
        MeanBetweenMinMax(changes);
        var mean := Mean(changes);
        Some(ThermalResult(Abs(mean), SpreadConfidence(stdev), |changes|, avgIndoor,
                           Mean(Outdoors(data)), |data|))
  }

  /** Whether the coefficient is available at all: enough samples and five valid intervals. */
  lemma ThermalCoefficientAvailable(data: seq<DataPoint>, minSamples: int, stdev: real)
    ensures ThermalCoefficient(data, minSamples, stdev).Some? <==>
      |data| >= minSamples && |data| > 0 && |Coefficients(data, Mean(Rooms(data)))| >= 5
    ensures ThermalCoefficient(data, minSamples, stdev).Some? ==>
      ThermalCoefficient(data, minSamples, stdev).value.samples == |Coefficients(data, Mean(Rooms(data)))|
  {
  }

  /**
   * The result's values: the size of the mean interval coefficient, the
   * confidence from the spread, the number of valid intervals and the mean
   * indoor and outdoor temperatures of the window.
   */
  lemma ThermalCoefficientValues(data: seq<DataPoint>, minSamples: int, stdev: real)
    requires ThermalCoefficient(data, minSamples, stdev).Some?
    ensures var r := ThermalCoefficient(data, minSamples, stdev).value;
      var changes := Coefficients(data, Mean(Rooms(data)));
      && |changes| >= 5
      && r.coefficient == Abs(Mean(changes))
      && r.confidence == SpreadConfidence(stdev)
      && r.samples == |changes|
      && r.avgIndoor == Mean(Rooms(data))
      && r.avgOutdoor == Mean(Outdoors(data))
      && r.dataPoints == |data|
  {
  }

  /** At most one coefficient per consecutive pair: fewer than six samples never suffice. */
  lemma {:induction false} FewSamplesNoCoefficient(data: seq<DataPoint>, avgIndoor: real)
    ensures |Coefficients(data, avgIndoor)| <= (if |data| == 0 then 0 else |data| - 1)
  {
    if |data| > 1 {
      FewSamplesNoCoefficient(data[..|data| - 1], avgIndoor);
    }
  }

  /**
   * `predict_temperature_change`: drift toward the outdoor temperature at
   * the learned rate, plus 1.5 degrees per six hours when heating.
   */
  function PredictFrom(coefficient: real, currentIndoor: real, forecastOutdoor: real,
                       hoursAhead: real, heatingActive: bool): real
  {
    var natural := coefficient * (forecastOutdoor - currentIndoor) * hoursAhead;
    if heatingActive then currentIndoor + natural + 1.5 * hoursAhead / 6.0
    else currentIndoor + natural
  }

  /**
   * Without heating, a non-negative coefficient over a horizon short enough
   * (coefficient times hours at most 1) moves the indoor temperature toward
   * the outdoor one without passing it.
   */
  lemma DriftTowardOutdoor(coefficient: real, currentIndoor: real, forecastOutdoor: real,
                           hoursAhead: real)
    requires 0.0 <= coefficient && 0.0 <= hoursAhead && coefficient * hoursAhead <= 1.0
    ensures var p := PredictFrom(coefficient, currentIndoor, forecastOutdoor, hoursAhead, false);
      Min(currentIndoor, forecastOutdoor) <= p <= Max(currentIndoor, forecastOutdoor)
  {
    var k := coefficient * hoursAhead;
    var d := forecastOutdoor - currentIndoor;
    assert coefficient * d * hoursAhead == k * d;
    if d >= 0.0 {
      ProductNonNegative(k, d);
      ProductNonNegative(1.0 - k, d);
      assert (1.0 - k) * d == d - k * d;
    } else {
      ProductNonNegative(k, -d);
      ProductNonNegative(1.0 - k, -d);
      assert (1.0 - k) * (-d) == k * d - d;
    }
  }

  class ThermalAnalyzer {
    const minSamples: int
    var historicalData: seq<DataPoint>

    constructor (minSamples: int)
      ensures this.minSamples == minSamples && historicalData == []
    {
      this.minSamples := minSamples;
      historicalData := [];
    }

    /** `add_data_point`. */
    method AddDataPoint(d: RawData)
      modifies this
      ensures historicalData == AddPoint(old(historicalData), d)
    {
      if d.timestamp.Some? && d.room.Some? && d.outdoor.Some? {
        var heater := d.electricHeater.Some? && d.electricHeater.value;
        historicalData := historicalData + [DataPoint(d.timestamp.value, d.room.value, d.outdoor.value, heater)];
        if |historicalData| > MaxPoints {
          historicalData := historicalData[|historicalData| - MaxPoints..];
        }
      }
    }

    /** `calculate_thermal_lag`: a fixed 6 hours once four times `minSamples` are stored. */
    function ThermalLag(): (lag: Option<real>)
      reads this
      ensures lag.None? <==> |historicalData| < minSamples * 4
      ensures lag.Some? ==> lag.value == 6.0
    {
      if |historicalData| < minSamples * 4 then None else Some(6.0)
    }

    /** `calculate_thermal_coefficient`, given the standard deviation of the coefficients. */
    method CalculateThermalCoefficient(stdev: real) returns (r: Option<ThermalResult>)
      ensures r == ThermalCoefficient(historicalData, minSamples, stdev)
    {
      r := CoefficientOf(historicalData, minSamples, stdev);
    }

    /** `predict_temperature_change`: None while no coefficient is available. */
    method PredictTemperatureChange(currentIndoor: real, forecastOutdoor: real, hoursAhead: real,
                                    heatingActive: bool, stdev: real)
      returns (predicted: Option<real>)
      ensures var t := ThermalCoefficient(historicalData, minSamples, stdev);
        && (predicted.None? <==> t.None?)
        && (t.Some? ==>
              predicted.value ==
              PredictFrom(t.value.coefficient, currentIndoor, forecastOutdoor, hoursAhead, heatingActive))
    {
      var thermal := CalculateThermalCoefficient(stdev);
      if thermal.None? {
        predicted := None;
      } else {
        var coefficient := thermal.value.coefficient;
        var natural := coefficient * (forecastOutdoor - currentIndoor) * hoursAhead;
        if heatingActive {
          predicted := Some(currentIndoor + natural + 1.5 * hoursAhead / 6.0);
        } else {
          predicted := Some(currentIndoor + natural);
        }
      }
    }
  }

  /** The coefficient loop of `calculate_thermal_coefficient` over a window. */
  method CoefficientOf(data: seq<DataPoint>, minSamples: int, stdev: real) returns (r: Option<ThermalResult>)
    ensures r == ThermalCoefficient(data, minSamples, stdev)
  {
    if |data| < minSamples || |data| == 0 {
      return None;
    }
    var avgIndoor := Mean(Rooms(data));
    var changes: seq<real> := [];
    for i := 1 to |data|
      invariant changes == Coefficients(data[..i], avgIndoor)
    {
      var prev := data[i - 1];
      var curr := data[i];
      assert data[..i + 1][..i] == data[..i];
      var coefficient := IntervalCoefficient(prev, curr, avgIndoor);
      if coefficient.Some? {
        changes := changes + [coefficient.value];
      }
    }
    assert data[..|data|] == data;
    if |changes| < 5 {
      return None;
    }
    r := Some(ThermalResult(Abs(Mean(changes)), SpreadConfidence(stdev), |changes|, avgIndoor,
                            Mean(Outdoors(data)), |data|));
  }
}
