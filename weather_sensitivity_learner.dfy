/**
 * The weather-sensitivity learner: it watches 15-minute observations for
 * solar events (heating almost off although it is cold outside and the sun
 * is up), turns each sustained event into an implied solar coefficient,
 * blends those into the learned coefficient on a 3 -> 6 -> 12 event
 * schedule, and raises an early warning when the outdoor sensor heats up.
 *
 * Timestamps are seconds. The sun elevation of an observation and the
 * implied coefficient of an event (trigonometry on the sun angle) are
 * supplied by the caller.
 */
module WeatherSensitivity {
  import opened Common

  datatype Observation = Observation(
    timestamp: int, supplyTemp: real, returnTemp: real, roomTemp: real,
    outdoorTemp: real, cloudCover: real, windSpeed: real, sunElevation: real)

  function SupplyReturnDelta(o: Observation): real { o.supplyTemp - o.returnTemp }
  function OutdoorOf(o: Observation): real { o.outdoorTemp }
  function SunOf(o: Observation): real { o.sunElevation }
  function RoomOf(o: Observation): real { o.roomTemp }
  function CloudOf(o: Observation): real { o.cloudCover }
  function WindOf(o: Observation): real { o.windSpeed }

  datatype SolarEvent = SolarEvent(
    timestamp: int, endTimestamp: int, durationMinutes: real,
    avgSupplyReturnDelta: real, avgOutdoorTemp: real, avgIndoorTemp: real,
    avgCloudCover: real, avgSunElevation: real, avgWindSpeed: real,
    impliedSolarCoefficient: real, observationsCount: nat, peakSunElevation: real)

  datatype LearnedWeatherCoefficients = LearnedWeatherCoefficients(
    solarCoefficient: real, windCoefficient: real, solarConfidence: real,
    totalSolarEvents: int, eventsSinceLastUpdate: int, nextUpdateAtEvents: int,
    updatedAt: Option<int>)

  const DefaultCoefficients := LearnedWeatherCoefficients(6.0, 0.15, 0.0, 0, 0, 3, None)

  const SupplyReturnDeltaThreshold := 0.5
  const OutdoorIndoorDiffThreshold := 5.0
  const CloudCoverThreshold := 3.0
  const SunElevationThreshold := 10.0
  const MinEventDurationMinutes := 30.0
  const OutdoorTempRiseThreshold := 3.0
  const OutdoorTempAnomalyThreshold := 4.0
  const BaselineSunElevation := 5.0
  const BaselineWindow := 8

  /**
   * The implied solar coefficient of an event from its average indoor and
   * outdoor temperature, effective cloud cover, sun elevation and wind.
   */
  type ImpliedCoefficient = (real, real, real, real, real) -> real

  // ---------------------------------------------------------------------
  // Bounded buffers
  // ---------------------------------------------------------------------

  /** `deque(maxlen=n).append(x)`: append and keep the newest `n`. */
  function AppendBounded<T>(buffer: seq<T>, x: T, maxLen: nat): (r: seq<T>)
    ensures |r| == if |buffer| + 1 > maxLen then maxLen else |buffer| + 1
    ensures r == (buffer + [x])[|buffer| + 1 - |r|..]
  {
    var appended := buffer + [x];
    if |appended| > maxLen then appended[|appended| - maxLen..] else appended
  }

  // ---------------------------------------------------------------------
  // Outdoor baseline
  // ---------------------------------------------------------------------

  /**
   * `_update_outdoor_baseline`: while the sun is below 5 degrees the outdoor
   * reading joins the last eight samples, and from two samples on the
   * baseline is their upper median.
   */
  function BaselineStep(samples: seq<real>, baseline: Option<real>, o: Observation)
    : (r: (seq<real>, Option<real>))
    ensures o.sunElevation >= BaselineSunElevation ==> r == (samples, baseline)
    ensures o.sunElevation < BaselineSunElevation ==>
      && r.0 == AppendBounded(samples, o.outdoorTemp, BaselineWindow)
      && (|r.0| >= 2 ==> r.1 == Some(UpperMedian(r.0)))
      && (|r.0| < 2 ==> r.1 == baseline)
  {
    if o.sunElevation < BaselineSunElevation then
      var kept := AppendBounded(samples, o.outdoorTemp, BaselineWindow);
      if |kept| >= 2 then (kept, Some(UpperMedian(kept))) else (kept, baseline)
    else (samples, baseline)
  }

  /**
   * The baseline window never exceeds eight samples, and a baseline set
   * from them is one of them, between their minimum and maximum.
   */
  lemma BaselineStepBounded(samples: seq<real>, baseline: Option<real>, o: Observation)
    requires |samples| <= BaselineWindow
    ensures |BaselineStep(samples, baseline, o).0| <= BaselineWindow
    ensures var (kept, b) := BaselineStep(samples, baseline, o);
      o.sunElevation < BaselineSunElevation && |kept| >= 2 ==>
        b.Some? && b.value in kept && MinOf(kept) <= b.value <= MaxOf(kept)
  {
  }

  // ---------------------------------------------------------------------
  // Solar conditions
  // ---------------------------------------------------------------------

  function OutdoorTemps(os: seq<Observation>): (r: seq<real>)
    ensures |r| == |os|
    ensures forall i :: 0 <= i < |os| ==> r[i] == os[i].outdoorTemp
  {
    seq(|os|, i requires 0 <= i < |os| => os[i].outdoorTemp)
  }

  /**
   * `_detect_sensor_solar_exposure` with `buffer` already holding the
   * observation: the reading is at least 4 degrees above the baseline, or
   * at least 3 degrees above the lowest of the (up to two) readings before it.
   */
  function SensorExposed(o: Observation, baseline: Option<real>, buffer: seq<Observation>): (e: bool)
    ensures baseline.Some? && o.outdoorTemp - baseline.value >= OutdoorTempAnomalyThreshold ==> e
    ensures |buffer| < 2 ==>
      (e <==> baseline.Some? && o.outdoorTemp - baseline.value >= OutdoorTempAnomalyThreshold)
  {
    if baseline.Some? && o.outdoorTemp - baseline.value >= OutdoorTempAnomalyThreshold then true
    else if |buffer| >= 2 then
      var recent := OutdoorTemps(buffer[|buffer| - Min3(|buffer|)..]);
      o.outdoorTemp - MinOf(recent[..|recent| - 1]) >= OutdoorTempRiseThreshold
    else false
  }

  function Min3(n: nat): (m: nat)
    ensures m <= n && m <= 3 && (n >= 3 ==> m == 3) && (n < 3 ==> m == n)
  {
    if n < 3 then n else 3
  }

  /**
   * `_is_solar_condition`: minimal heating (supply-return delta below 0.5),
   * indoor at least 5 degrees above the baseline (or the reading when no
   * baseline exists), sun above 10 degrees, and a clear sky (below 3
   * octas) or a sun-exposed sensor.
   */
  function IsSolarCondition(o: Observation, baseline: Option<real>, buffer: seq<Observation>): (c: bool)
    ensures c <==>
      && SupplyReturnDelta(o) < SupplyReturnDeltaThreshold
      && o.roomTemp - (if baseline.Some? then baseline.value else o.outdoorTemp) >= OutdoorIndoorDiffThreshold
      && o.sunElevation > SunElevationThreshold
      && (o.cloudCover < CloudCoverThreshold || SensorExposed(o, baseline, buffer))
  {
    if SupplyReturnDelta(o) >= SupplyReturnDeltaThreshold then false
    else
      var reference := if baseline.Some? then baseline.value else o.outdoorTemp;
      if o.roomTemp - reference < OutdoorIndoorDiffThreshold then false
      else if o.sunElevation <= SunElevationThreshold then false
      else o.cloudCover < CloudCoverThreshold || SensorExposed(o, baseline, buffer)
  }

  // ---------------------------------------------------------------------
  // Events
  // ---------------------------------------------------------------------

  function Field(os: seq<Observation>, f: Observation -> real): (r: seq<real>)
    ensures |r| == |os|
    ensures forall i :: 0 <= i < |os| ==> r[i] == f(os[i])
  {
    seq(|os|, i requires 0 <= i < |os| => f(os[i]))
  }

  function EventDuration(os: seq<Observation>): real
    requires |os| > 0
  {
    (os[|os| - 1].timestamp - os[0].timestamp) as real / 60.0
  }

  /**
   * The event `_finalize_event` builds from the current observations: none
   * without an event or when it lasted under 30 minutes; otherwise the
   * averages, the peak sun elevation and the implied coefficient computed
   * against the baseline outdoor temperature (the sensor average when there
   * is none). When the sensor average is at least 4 degrees above the
   * baseline, a cloud cover of 3 octas or more counts as 1.5.
   */
  function EventFrom(start: Option<int>, os: seq<Observation>, baseline: Option<real>,
                     implied: ImpliedCoefficient): (r: Option<SolarEvent>)
    ensures r.Some? ==> start.Some? && |os| > 0
    ensures r.Some? ==>
      && r.value.durationMinutes == EventDuration(os) >= MinEventDurationMinutes
      && r.value.observationsCount == |os|
      && r.value.timestamp == os[0].timestamp && r.value.endTimestamp == os[|os| - 1].timestamp
      && r.value.avgSunElevation <= r.value.peakSunElevation
      && r.value.avgOutdoorTemp == (if baseline.Some? then baseline.value else Mean(Field(os, OutdoorOf)))
  {
    if start.None? || os == [] then None
    else if EventDuration(os) < MinEventDurationMinutes then None
    else
      var n := |os| as real;
      var sun := Field(os, SunOf);
      var avgSensor := Mean(Field(os, OutdoorOf));
      var avgIndoor := Mean(Field(os, RoomOf));
      var avgCloud := Mean(Field(os, CloudOf));
      var avgSun := Mean(sun);
      var avgWind := Mean(Field(os, WindOf));
      var avgOutdoor := if baseline.Some? then baseline.value else avgSensor;
      var sensorDetected := baseline.Some? && avgSensor - baseline.value >= OutdoorTempAnomalyThreshold;
      var effectiveCloud := if sensorDetected && avgCloud >= CloudCoverThreshold then 1.5 else avgCloud;
      MeanBetweenMinMax(sun);
      Some(SolarEvent(
        os[0].timestamp, os[|os| - 1].timestamp, EventDuration(os),
        Mean(Field(os, SupplyReturnDelta)), avgOutdoor, avgIndoor, avgCloud, avgSun, avgWind,
        implied(avgIndoor, avgOutdoor, effectiveCloud, avgSun, avgWind), |os|, MaxOf(sun)))
  }

  /** Everything the solar-event detector keeps between observations. */
  datatype DetectorState = DetectorState(
    coefficients: LearnedWeatherCoefficients,
    buffer: seq<Observation>,
    eventStart: Option<int>,
    eventObservations: seq<Observation>,
    detectedEvents: seq<SolarEvent>,
    baseline: Option<real>,
    baselineSamples: seq<real>)

  /**
   * `add_observation`: buffer the observation, update the baseline, then
   * either extend (or start) the current event, or finalize it and record
   * a completed event.
   */
  function AddObservationStep(s: DetectorState, o: Observation, bufferSize: nat,
                              implied: ImpliedCoefficient): (r: (DetectorState, Option<SolarEvent>))
    ensures r.0.buffer == AppendBounded(s.buffer, o, bufferSize)
    ensures (r.0.baselineSamples, r.0.baseline) == BaselineStep(s.baselineSamples, s.baseline, o)
  {
    ClassifyStep(Buffered(s, o, bufferSize), o, implied)
  }

  /** The state once the observation is buffered and the baseline updated. */
  function Buffered(s: DetectorState, o: Observation, bufferSize: nat): (r: DetectorState)
    ensures r.buffer == AppendBounded(s.buffer, o, bufferSize)
    ensures (r.baselineSamples, r.baseline) == BaselineStep(s.baselineSamples, s.baseline, o)
    ensures r.coefficients == s.coefficients && r.detectedEvents == s.detectedEvents
    ensures r.eventStart == s.eventStart && r.eventObservations == s.eventObservations
  {
    var (samples, baseline) := BaselineStep(s.baselineSamples, s.baseline, o);
    s.(buffer := AppendBounded(s.buffer, o, bufferSize), baselineSamples := samples, baseline := baseline)
  }

  /** Extend the current event with a solar observation, or finalize it. */
  function ClassifyStep(s: DetectorState, o: Observation, implied: ImpliedCoefficient)
    : (r: (DetectorState, Option<SolarEvent>))
    ensures r.0.buffer == s.buffer && r.0.baseline == s.baseline && r.0.baselineSamples == s.baselineSamples
  {
    if IsSolarCondition(o, s.baseline, s.buffer) then
      if s.eventStart.None? then (s.(eventStart := Some(o.timestamp), eventObservations := [o]), None)
      else (s.(eventObservations := s.eventObservations + [o]), None)
    else
      var cleared := s.(eventStart := None, eventObservations := []);
      var completed := EventFrom(s.eventStart, s.eventObservations, s.baseline, implied);
      (Recorded(cleared, completed), completed)
  }

  /** A completed event is appended to the detected events and counted. */
  function Recorded(s: DetectorState, completed: Option<SolarEvent>): (r: DetectorState)
    ensures r.buffer == s.buffer && r.baseline == s.baseline && r.baselineSamples == s.baselineSamples
    ensures r.eventStart == s.eventStart && r.eventObservations == s.eventObservations
  {
    match completed
    case None => s
    case Some(e) =>
      var c := s.coefficients;
      s.(detectedEvents := s.detectedEvents + [e],
         coefficients := c.(eventsSinceLastUpdate := c.eventsSinceLastUpdate + 1,
                            totalSolarEvents := c.totalSolarEvents + 1))
  }

  /**
   * The event in progress: present exactly when it has observations, it
   * started at its first observation, and each of them met the solar
   * condition's heating and sun thresholds.
   */
  ghost predicate EventInvariant(s: DetectorState)
  {
    && (s.eventStart.Some? <==> s.eventObservations != [])
    && (s.eventStart.Some? ==> s.eventStart.value == s.eventObservations[0].timestamp)
    && (forall i :: 0 <= i < |s.eventObservations| ==>
          SupplyReturnDelta(s.eventObservations[i]) < SupplyReturnDeltaThreshold &&
          s.eventObservations[i].sunElevation > SunElevationThreshold)
  }

  /**
   * Each observation keeps the event invariant. A completed event is
   * returned exactly when one is recorded: it is appended to the detected
   * events and both event counters grow by one; otherwise neither changes.
   * A returned event lasted at least 30 minutes with an average
   * supply-return delta below 0.5 and an average sun elevation above 10.
   */
  lemma AddObservationMeaning(s: DetectorState, o: Observation, bufferSize: nat, implied: ImpliedCoefficient)
    requires EventInvariant(s)
    ensures var (t, e) := AddObservationStep(s, o, bufferSize, implied);
      && EventInvariant(t)
      && (e.Some? ==>
            && t.detectedEvents == s.detectedEvents + [e.value]
            && t.coefficients == s.coefficients.(
                 eventsSinceLastUpdate := s.coefficients.eventsSinceLastUpdate + 1,
                 totalSolarEvents := s.coefficients.totalSolarEvents + 1)
            && t.eventStart.None?
            && e.value.durationMinutes >= MinEventDurationMinutes
            && e.value.avgSupplyReturnDelta < SupplyReturnDeltaThreshold
            && e.value.avgSunElevation > SunElevationThreshold)
      && (e.None? ==> t.detectedEvents == s.detectedEvents && t.coefficients == s.coefficients)
  {
    var buffer := AppendBounded(s.buffer, o, bufferSize);
    var (samples, baseline) := BaselineStep(s.baselineSamples, s.baseline, o);
    if IsSolarCondition(o, baseline, buffer) {
      ExtendKeepsInvariant(s, o);
    } else {
      CompletedEventIsSolar(s.eventStart, s.eventObservations, baseline, implied);
    }
  }

  /** Extending (or starting) the event with a solar observation keeps the invariant. */
  lemma ExtendKeepsInvariant(s: DetectorState, o: Observation)
    requires EventInvariant(s)
    requires SupplyReturnDelta(o) < SupplyReturnDeltaThreshold && o.sunElevation > SunElevationThreshold
    ensures s.eventStart.None? ==> EventInvariant(s.(eventStart := Some(o.timestamp), eventObservations := [o]))
    ensures s.eventStart.Some? ==> EventInvariant(s.(eventObservations := s.eventObservations + [o]))
  {
    if s.eventStart.Some? {
      var os := s.eventObservations + [o];
      assert os[0] == s.eventObservations[0];
      forall i | 0 <= i < |os|
        ensures SupplyReturnDelta(os[i]) < SupplyReturnDeltaThreshold && os[i].sunElevation > SunElevationThreshold
      {
        if i < |s.eventObservations| { assert os[i] == s.eventObservations[i]; }
      }
    }
  }

  /** A finalized event of solar observations has solar averages. */
  lemma CompletedEventIsSolar(start: Option<int>, os: seq<Observation>, baseline: Option<real>,
                              implied: ImpliedCoefficient)
    requires forall i :: 0 <= i < |os| ==>
      SupplyReturnDelta(os[i]) < SupplyReturnDeltaThreshold && os[i].sunElevation > SunElevationThreshold
    ensures var e := EventFrom(start, os, baseline, implied);
      e.Some? ==>
        && e.value.avgSupplyReturnDelta < SupplyReturnDeltaThreshold
        && e.value.avgSunElevation > SunElevationThreshold
  {
    var e := EventFrom(start, os, baseline, implied);
    if e.Some? {
      var deltas := Field(os, SupplyReturnDelta);
      var sun := Field(os, SunOf);
      MeanBetweenMinMax(deltas);
      MeanBetweenMinMax(sun);
      assert MaxOf(deltas) < SupplyReturnDeltaThreshold;
      assert MinOf(sun) > SunElevationThreshold;
    }
  }

  // ---------------------------------------------------------------------
  // Coefficient updates
  // ---------------------------------------------------------------------

  /** The update is due once the events since the last one reach the schedule. */
  function ShouldUpdateCoefficients(c: LearnedWeatherCoefficients): (due: bool)
    ensures due <==> c.eventsSinceLastUpdate >= c.nextUpdateAtEvents
  {
    c.eventsSinceLastUpdate >= c.nextUpdateAtEvents
  }

  /**
   * Python's `s[-k:]`: the last `k` elements for a positive `k` (all of
   * them when `k` exceeds the length), and for `k == 0` the whole list.
   */
  function LastK<T>(s: seq<T>, k: int): (r: seq<T>)
    ensures 0 < k <= |s| ==> r == s[|s| - k..]
    ensures k == 0 || k >= |s| ==> r == s
    ensures |r| <= |s|
  {
    if k > 0 then (if k >= |s| then s else s[|s| - k..])
    else if -k <= |s| then s[-k..]
    else []
  }

  function Implied(events: seq<SolarEvent>): (r: seq<real>)
    ensures |r| == |events|
    ensures forall i :: 0 <= i < |r| ==> r[i] == events[i].impliedSolarCoefficient
  {
    seq(|events|, i requires 0 <= i < |events| => events[i].impliedSolarCoefficient)
  }

  /** The median of three or more implied coefficients, else their mean. */
  function NewCoefficient(implied: seq<real>): (c: real)
    requires |implied| > 0
    ensures |implied| >= 3 ==> c == SortReals(implied)[|implied| / 2]
    ensures |implied| < 3 ==> c == Mean(implied)
    ensures MinOf(implied) <= c <= MaxOf(implied)
  {
    if |implied| >= 3 then UpperMedian(implied)
    else
      MeanBetweenMinMax(implied);
      Mean(implied)
  }

  /** The next event threshold: 3 -> 6 -> 12, then 12 for good. */
  function NextEventThreshold(current: int): (n: int)
    ensures current == 3 ==> n == 6
    ensures current == 6 ==> n == 12
    ensures current != 3 && current != 6 ==> n == current
  {
    if current == 3 then 6 else if current == 6 then 12 else current
  }

  /**
   * `update_coefficients` at time `now`: unchanged without events;
   * otherwise 70% of the new coefficient and 30% of the old, a confidence
   * from stability and event count, the counter reset and the schedule
   * advanced.
   */
  function UpdateCoefficients(c: LearnedWeatherCoefficients, detected: seq<SolarEvent>, now: int)
    : (r: LearnedWeatherCoefficients)
    ensures LastK(detected, c.eventsSinceLastUpdate) == [] ==> r == c
    ensures LastK(detected, c.eventsSinceLastUpdate) != [] ==>
      var implied := Implied(LastK(detected, c.eventsSinceLastUpdate));
      && r.solarCoefficient == 0.7 * NewCoefficient(implied) + 0.3 * c.solarCoefficient
      && r.eventsSinceLastUpdate == 0
      && r.nextUpdateAtEvents == NextEventThreshold(c.nextUpdateAtEvents)
      && r.updatedAt == Some(now)
      && r.totalSolarEvents == c.totalSolarEvents
      && r.windCoefficient == c.windCoefficient
  {
    var recent := LastK(detected, c.eventsSinceLastUpdate);
    if recent == [] then c
    else
      var newCoeff := NewCoefficient(Implied(recent));
      var oldCoeff := c.solarCoefficient;
      var stability := 1.0 - Min(1.0, Abs(newCoeff - oldCoeff) / 20.0);
      var eventConfidence := Min(1.0, c.totalSolarEvents as real / 20.0);
      c.(solarCoefficient := 0.7 * newCoeff + 0.3 * oldCoeff,
         solarConfidence := 0.5 * stability + 0.5 * eventConfidence,
         eventsSinceLastUpdate := 0,
         updatedAt := Some(now),
         nextUpdateAtEvents := NextEventThreshold(c.nextUpdateAtEvents))
  }

  /**
   * The blended coefficient lies between the old coefficient and the
   * smallest/largest implied one, and the confidence lies in [0, 1] when
   * the event total is not negative.
   */
  lemma UpdateCoefficientsBounds(c: LearnedWeatherCoefficients, detected: seq<SolarEvent>, now: int)
    requires c.totalSolarEvents >= 0
    requires LastK(detected, c.eventsSinceLastUpdate) != []
    ensures var implied := Implied(LastK(detected, c.eventsSinceLastUpdate));
      var r := UpdateCoefficients(c, detected, now);
      && Min(c.solarCoefficient, MinOf(implied)) <= r.solarCoefficient <= Max(c.solarCoefficient, MaxOf(implied))
      && 0.0 <= r.solarConfidence <= 1.0
  {
  }

  /** With no detected events at all, an update changes nothing. */
  lemma NoEventsNoUpdate(c: LearnedWeatherCoefficients, now: int)
    ensures UpdateCoefficients(c, [], now) == c
  {
  }

  // ---------------------------------------------------------------------
  // Early warning and timing
  // ---------------------------------------------------------------------

  datatype EarlyWarning = EarlyWarning(startTime: int, outdoorRise: real, leadTimeMinutes: real,
                                       confidence: real)

  datatype WarningState = WarningState(active: bool, start: Option<int>)

  /**
   * `detect_solar_event_early` for the newest buffered observation: with
   * the sun below 5 degrees the warning is cleared; without a baseline
   * nothing happens; a reading 3 degrees above the baseline, or 2 above
   * the previous reading, raises a warning that is reported only when it
   * starts; an active warning clears once the anomaly falls below 2.
   */
  function EarlyWarningStep(w: WarningState, baseline: Option<real>, buffer: seq<Observation>,
                            o: Observation, leadTime: real): (r: (WarningState, Option<EarlyWarning>))
    ensures o.sunElevation < 5.0 ==> r == (WarningState(false, None), None)
    ensures o.sunElevation >= 5.0 && baseline.None? ==> r == (w, None)
    ensures r.1.Some? ==> !w.active && r.0 == WarningState(true, Some(o.timestamp))
    ensures r.1.Some? ==> r.1.value.startTime == o.timestamp && r.1.value.confidence <= 1.0
    ensures r.0.active ==> (w.active || r.1.Some?)
  {
    if o.sunElevation < 5.0 then (WarningState(false, None), None)
    else if baseline.None? then (w, None)
    else
      var anomaly := o.outdoorTemp - baseline.value;
      var rapidRise := |buffer| >= 2 && o.outdoorTemp - buffer[|buffer| - 2].outdoorTemp >= 2.0;
      if anomaly >= 3.0 || rapidRise then
        if !w.active then
          (WarningState(true, Some(o.timestamp)),
           Some(EarlyWarning(o.timestamp, anomaly, leadTime, Min(1.0, anomaly / 5.0))))
        else (w, None)
      else if w.active && anomaly < 2.0 then (WarningState(false, None), None)
      else (w, None)
  }

  /** Once raised, a warning is not reported again while it stays active. */
  lemma EarlyWarningReportedOnce(w: WarningState, baseline: Option<real>, buffer: seq<Observation>,
                                 o1: Observation, o2: Observation, leadTime: real)
    ensures var (w1, e1) := EarlyWarningStep(w, baseline, buffer, o1, leadTime);
      e1.Some? ==> EarlyWarningStep(w1, baseline, buffer + [o1], o2, leadTime).1.None?
  {
  }

  datatype ThermalResponseTiming = ThermalResponseTiming(
    heatUpLagMinutes: real, coolDownLagMinutes: real, confidence: real,
    totalTransitions: int, updatedAt: Option<int>)

  /**
   * `_update_thermal_timing`: the lag of the transition's direction moves
   * toward the measured lag with weight 0.3 times the measurement's
   * confidence; the timing confidence is min(1, transitions / 10).
   */
  function UpdateThermalTiming(t: ThermalResponseTiming, rising: bool, lagMinutes: real,
                               confidence: real, now: int): (r: ThermalResponseTiming)
    ensures r.confidence == Min(1.0, t.totalTransitions as real / 10.0)
    ensures rising ==> r.coolDownLagMinutes == t.coolDownLagMinutes
    ensures !rising ==> r.heatUpLagMinutes == t.heatUpLagMinutes
    ensures r.updatedAt == Some(now) && r.totalTransitions == t.totalTransitions
  {
    var weight := 0.3 * confidence;
    var t1 := if rising
      then t.(heatUpLagMinutes := (1.0 - weight) * t.heatUpLagMinutes + weight * lagMinutes)
      else t.(coolDownLagMinutes := (1.0 - weight) * t.coolDownLagMinutes + weight * lagMinutes);
    t1.(confidence := Min(1.0, t.totalTransitions as real / 10.0), updatedAt := Some(now))
  }

  /** With a confidence in [0, 1] the updated lag lies between the old lag and the measurement. */
  lemma TimingLagBetween(t: ThermalResponseTiming, rising: bool, lagMinutes: real,
                         confidence: real, now: int)
    requires 0.0 <= confidence <= 1.0
    ensures var r := UpdateThermalTiming(t, rising, lagMinutes, confidence, now);
      var previous := if rising then t.heatUpLagMinutes else t.coolDownLagMinutes;
      var updated := if rising then r.heatUpLagMinutes else r.coolDownLagMinutes;
      Min(previous, lagMinutes) <= updated <= Max(previous, lagMinutes)
  {
    var w := 0.3 * confidence;
    var previous := if rising then t.heatUpLagMinutes else t.coolDownLagMinutes;
    assert (1.0 - w) * previous + w * lagMinutes == previous + w * (lagMinutes - previous);
    if lagMinutes >= previous {
      ProductNonNegative(w, lagMinutes - previous);
      ProductNonNegative(1.0 - w, lagMinutes - previous);
      assert (1.0 - w) * (lagMinutes - previous) == (lagMinutes - previous) - w * (lagMinutes - previous);
    } else {
      ProductNonNegative(w, previous - lagMinutes);
      ProductNonNegative(1.0 - w, previous - lagMinutes);
      assert w * (lagMinutes - previous) == -(w * (previous - lagMinutes));
      assert (1.0 - w) * (previous - lagMinutes) == (previous - lagMinutes) - w * (previous - lagMinutes);
    }
  }

  // ---------------------------------------------------------------------
  // The learner object
  // ---------------------------------------------------------------------

  class WeatherSensitivityLearner {
    const bufferSize: nat
    var coefficients: LearnedWeatherCoefficients
    var timing: ThermalResponseTiming
    var observationBuffer: seq<Observation>
    var currentEventStart: Option<int>
    var currentEventObservations: seq<Observation>
    var detectedEvents: seq<SolarEvent>
    var outdoorTempBaseline: Option<real>
    var baselineSamples: seq<real>
    var earlyWarningActive: bool
    var earlyWarningStart: Option<int>

    /** A learner keeping `bufferHours` hours of 15-minute observations. */
    constructor (bufferHours: nat, coefficients: LearnedWeatherCoefficients, timing: ThermalResponseTiming)
      ensures bufferSize == bufferHours * 4
      ensures this.coefficients == coefficients && this.timing == timing
      ensures State() == DetectorState(coefficients, [], None, [], [], None, [])
      ensures !earlyWarningActive && earlyWarningStart.None?
    {
      bufferSize := bufferHours * 4;
      this.coefficients := coefficients;
      this.timing := timing;
      observationBuffer := [];
      currentEventStart := None;
      currentEventObservations := [];
      detectedEvents := [];
      outdoorTempBaseline := None;
      baselineSamples := [];
      earlyWarningActive := false;
      earlyWarningStart := None;
    }

    function State(): DetectorState
      reads this
    {
      DetectorState(coefficients, observationBuffer, currentEventStart, currentEventObservations,
                    detectedEvents, outdoorTempBaseline, baselineSamples)
    }

    /** `_update_outdoor_baseline`. */
    method UpdateOutdoorBaseline(o: Observation)
      modifies this
      ensures (baselineSamples, outdoorTempBaseline) == BaselineStep(old(baselineSamples), old(outdoorTempBaseline), o)
      ensures coefficients == old(coefficients) && observationBuffer == old(observationBuffer)
      ensures currentEventStart == old(currentEventStart)
      ensures currentEventObservations == old(currentEventObservations)
      ensures detectedEvents == old(detectedEvents)
      ensures timing == old(timing) && earlyWarningActive == old(earlyWarningActive)
    {
      if o.sunElevation < BaselineSunElevation {
        baselineSamples := AppendBounded(baselineSamples, o.outdoorTemp, BaselineWindow);
        if |baselineSamples| >= 2 {
          outdoorTempBaseline := Some(UpperMedian(baselineSamples));
        }
      }
    }

    /** `_finalize_event`: always clears the current event. */
    method FinalizeEvent(implied: ImpliedCoefficient) returns (event: Option<SolarEvent>)
      modifies this
      ensures event == EventFrom(old(currentEventStart), old(currentEventObservations), outdoorTempBaseline, implied)
      ensures currentEventStart.None? && currentEventObservations == []
      ensures coefficients == old(coefficients) && observationBuffer == old(observationBuffer)
      ensures detectedEvents == old(detectedEvents) && outdoorTempBaseline == old(outdoorTempBaseline)
      ensures baselineSamples == old(baselineSamples)
      ensures timing == old(timing) && earlyWarningActive == old(earlyWarningActive)
    {
      event := EventFrom(currentEventStart, currentEventObservations, outdoorTempBaseline, implied);
      currentEventStart := None;
      currentEventObservations := [];
    }

    /** `add_observation` with the observation's sun elevation already computed. */
    method AddObservation(o: Observation, implied: ImpliedCoefficient) returns (completed: Option<SolarEvent>)
      modifies this
      ensures (State(), completed) == AddObservationStep(old(State()), o, bufferSize, implied)
      ensures timing == old(timing) && earlyWarningActive == old(earlyWarningActive)
    {
      observationBuffer := AppendBounded(observationBuffer, o, bufferSize);
      UpdateOutdoorBaseline(o);
      completed := ClassifyObservation(o, implied);
    }

    /** The solar-condition branch of `add_observation`, on the buffered state. */
    method ClassifyObservation(o: Observation, implied: ImpliedCoefficient) returns (completed: Option<SolarEvent>)
      modifies this
      ensures (State(), completed) == ClassifyStep(old(State()), o, implied)
      ensures timing == old(timing) && earlyWarningActive == old(earlyWarningActive)
    {
      if IsSolarCondition(o, outdoorTempBaseline, observationBuffer) {
        if currentEventStart.None? {
          currentEventStart := Some(o.timestamp);
          currentEventObservations := [o];
        } else {
          currentEventObservations := currentEventObservations + [o];
        }
        completed := None;
      } else {
        completed := FinalizeEvent(implied);
        if completed.Some? {
          detectedEvents := detectedEvents + [completed.value];
          coefficients := coefficients.(eventsSinceLastUpdate := coefficients.eventsSinceLastUpdate + 1,
                                        totalSolarEvents := coefficients.totalSolarEvents + 1);
        }
      }
    }

    /** `update_coefficients` at time `now`. */
    method UpdateCoefficientsNow(now: int) returns (updated: LearnedWeatherCoefficients)
      modifies this
      ensures coefficients == UpdateCoefficients(old(coefficients), detectedEvents, now)
      ensures updated == coefficients && detectedEvents == old(detectedEvents)
    {
      coefficients := UpdateCoefficients(coefficients, detectedEvents, now);
      updated := coefficients;
    }

    /** `detect_solar_event_early` for the newest observation, with the learned heat-up lag as lead time. */
    method DetectSolarEventEarly(o: Observation) returns (warning: Option<EarlyWarning>)
      modifies this
      ensures (WarningState(earlyWarningActive, earlyWarningStart), warning) ==
        EarlyWarningStep(WarningState(old(earlyWarningActive), old(earlyWarningStart)),
                         outdoorTempBaseline, observationBuffer, o, timing.heatUpLagMinutes)
      ensures State() == old(State())
    {
      var (w, e) := EarlyWarningStep(WarningState(earlyWarningActive, earlyWarningStart),
                                     outdoorTempBaseline, observationBuffer, o, timing.heatUpLagMinutes);
      earlyWarningActive := w.active;
      earlyWarningStart := w.start;
      warning := e;
    }
  }
}
