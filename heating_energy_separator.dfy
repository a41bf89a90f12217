/**
 * Separation of district-heating energy into space heating and domestic
 * hot water (DHW) for on-demand HomeSide installations: DHW events are
 * detected as peaks of the hot-water temperature, each is given an energy
 * estimate from its duration, and per period the DHW share is capped and
 * the rest counted as heating.
 *
 * Timestamps are UTC seconds. The start of the first Swedish calendar day
 * and the sample standard deviation are supplied by the caller.
 */
module HeatingEnergySeparation {
  import opened Common

  datatype DhwEvent = DhwEvent(
    startTime: int, endTime: int, peakTemp: real, tempRise: real,
    durationMinutes: real, estimatedEnergyKwh: real)

  datatype SeparatorConfig = SeparatorConfig(
    dhwTempThreshold: real, dhwTempRiseThreshold: real, dhwBaselineTemp: real,
    avgDhwPowerKw: real, minEventDurationSec: real, maxEventGapSec: int,
    coldWaterTemp: real, hotWaterTargetTemp: real)

  const DefaultConfig := SeparatorConfig(45.0, 2.0, 25.0, 25.0, 30.0, 120, 8.0, 55.0)

  /** A hot-water temperature reading; its value may be missing. */
  datatype TempReading = TempReading(timestamp: int, value: Option<real>)

  /** An hourly energy reading; a missing consumption counts as zero. */
  datatype EnergyReading = EnergyReading(timestamp: int, consumption: Option<real>)

  /** A reading inside a DHW event. */
  datatype Sample = Sample(timestamp: int, temp: real)

  datatype SeparationResult = SeparationResult(
    timestamp: int, totalEnergyKwh: real, heatingEnergyKwh: real, dhwEnergyKwh: real,
    dhwEvents: seq<DhwEvent>, confidence: real)

  /** The sample standard deviation of a list of at least two values. */
  type StandardDeviation = seq<real> -> real

  function TempKey(r: TempReading): real { r.timestamp as real }

  function EnergyKey(r: EnergyReading): real { r.timestamp as real }

  // ---------------------------------------------------------------------
  // Event detection
  // ---------------------------------------------------------------------

  /** The values that are present, in order. */
  function PresentValues(rs: seq<TempReading>): (v: seq<real>)
    ensures |v| <= |rs|
    ensures forall x :: x in v <==> exists i :: 0 <= i < |rs| && rs[i].value == Some(x)
  {
    if rs == [] then []
    else
      var last := rs[|rs| - 1];
      var front := PresentValues(rs[..|rs| - 1]);
      assert forall i :: 0 <= i < |rs| - 1 ==> rs[..|rs| - 1][i] == rs[i];
      if last.value.Some? then front + [last.value.value] else front
  }

  /**
   * The temperature of the tap water at rest: the lower quartile of the
   * readings, never below the configured baseline temperature.
   */
  function Baseline(values: seq<real>, cfg: SeparatorConfig): (b: real)
    requires |values| > 0
    ensures b >= cfg.dhwBaselineTemp
    ensures b == cfg.dhwBaselineTemp || b in values
    ensures b <= Max(MaxOf(values), cfg.dhwBaselineTemp)
  {
    SortedElementBetweenMinMax(values, |values| / 4);
    Max(SortReals(values)[|values| / 4], cfg.dhwBaselineTemp)
  }

  /** DHW is flowing: hot enough, and risen enough above the baseline. */
  predicate IsDhwActive(temp: real, baseline: real, cfg: SeparatorConfig)
  {
    temp >= cfg.dhwTempThreshold && temp - baseline >= cfg.dhwTempRiseThreshold
  }

  function Temps(samples: seq<Sample>): (t: seq<real>)
    ensures |t| == |samples|
    ensures forall i :: 0 <= i < |t| ==> t[i] == samples[i].temp
  {
    seq(|samples|, i requires 0 <= i < |samples| => samples[i].temp)
  }

  /**
   * The energy scale of an event: its temperature rise over the rise from
   * cold to target water, at most 1.5; 1 when that rise is not positive.
   */
  function RiseFactor(tempRise: real, cfg: SeparatorConfig): (f: real)
    ensures f <= 1.5
    ensures cfg.hotWaterTargetTemp - cfg.coldWaterTemp <= 0.0 ==> f == 1.0
    ensures cfg.hotWaterTargetTemp - cfg.coldWaterTemp > 0.0 && tempRise >= 0.0 ==> f >= 0.0
  {
    var expectedRise := cfg.hotWaterTargetTemp - cfg.coldWaterTemp;
    if expectedRise > 0.0 then Min(tempRise / expectedRise, 1.5) else 1.0
  }

  /**
   * `_create_event`: none without samples; otherwise the peak and its rise
   * above the baseline, the duration in minutes, and the energy of the
   * configured DHW power over that duration scaled by the rise factor.
   */
  function CreateEvent(start: int, end: int, samples: seq<Sample>, baseline: real, cfg: SeparatorConfig)
    : (e: Option<DhwEvent>)
    ensures e.None? <==> samples == []
    ensures e.Some? ==>
      && e.value.startTime == start && e.value.endTime == end
      && e.value.peakTemp in Temps(samples)
      && (forall i :: 0 <= i < |samples| ==> samples[i].temp <= e.value.peakTemp)
      && e.value.tempRise == e.value.peakTemp - baseline
      && e.value.durationMinutes == (end - start) as real / 60.0
    ensures e.Some? ==>
      e.value.estimatedEnergyKwh
        == cfg.avgDhwPowerKw * (e.value.durationMinutes / 60.0) * RiseFactor(e.value.tempRise, cfg)
  {
    if samples == [] then None
    else
      var peak := MaxOf(Temps(samples));
      var duration := (end - start) as real / 60.0;
      Some(DhwEvent(start, end, peak, peak - baseline, duration,
                    cfg.avgDhwPowerKw * (duration / 60.0) * RiseFactor(peak - baseline, cfg)))
  }

  /**
   * With a non-negative power and duration, an event's energy is at most
   * 1.5 times the configured power over its duration, whatever its rise.
   */
  lemma EventEnergyCapped(start: int, end: int, samples: seq<Sample>, baseline: real, cfg: SeparatorConfig)
    requires samples != [] && cfg.avgDhwPowerKw >= 0.0 && end >= start
    ensures var e := CreateEvent(start, end, samples, baseline, cfg).value;
      e.estimatedEnergyKwh <= cfg.avgDhwPowerKw * (e.durationMinutes / 60.0) * 1.5
  {
    var e := CreateEvent(start, end, samples, baseline, cfg).value;
    var base := cfg.avgDhwPowerKw * (e.durationMinutes / 60.0);
    var factor := RiseFactor(e.tempRise, cfg);
    ProductNonNegative(cfg.avgDhwPowerKw, e.durationMinutes / 60.0);
    ProductNonNegative(base, 1.5 - factor);
    assert base * (1.5 - factor) == base * 1.5 - base * factor;
  }

  /** The detector between readings. */
  datatype ScanState = ScanState(inEvent: bool, eventStart: int, eventSamples: seq<Sample>,
                                 events: seq<DhwEvent>)

  const InitialScan := ScanState(false, 0, [], [])

  /** One reading of the detection loop of `detect_dhw_events`. */
  function ScanStep(st: ScanState, r: TempReading, baseline: real, cfg: SeparatorConfig): ScanState
  {
    match r.value
    case None => st
    case Some(temp) =>
      var active := IsDhwActive(temp, baseline, cfg);
      if active && !st.inEvent then ScanState(true, r.timestamp, [Sample(r.timestamp, temp)], st.events)
      else if active then st.(eventSamples := st.eventSamples + [Sample(r.timestamp, temp)])
      else if st.inEvent then
        var e := CreateEvent(st.eventStart, r.timestamp, st.eventSamples, baseline, cfg);
        var keep := e.Some? && e.value.durationMinutes >= cfg.minEventDurationSec / 60.0;
        ScanState(false, st.eventStart, [], if keep then st.events + [e.value] else st.events)
      else st
  }

  function ScanFrom(rs: seq<TempReading>, st: ScanState, baseline: real, cfg: SeparatorConfig): ScanState
    decreases |rs|
  {
    if rs == [] then st else ScanFrom(rs[1..], ScanStep(st, rs[0], baseline, cfg), baseline, cfg)
  }

  /** An event still open after the last reading ends there, whatever its duration. */
  function FinishScan(st: ScanState, lastTimestamp: int, baseline: real, cfg: SeparatorConfig): seq<DhwEvent>
  {
    if st.inEvent && st.eventSamples != [] then
      match CreateEvent(st.eventStart, lastTimestamp, st.eventSamples, baseline, cfg)
      case Some(e) => st.events + [e]
      case None => st.events
    else st.events
  }

  /** Two events combined: the span of both, the higher peak and rise, the summed energy. */
  function Combine(current: DhwEvent, next: DhwEvent): DhwEvent
  {
    DhwEvent(current.startTime, next.endTime, Max(current.peakTemp, next.peakTemp),
             Max(current.tempRise, next.tempRise),
             (next.endTime - current.startTime) as real / 60.0,
             current.estimatedEnergyKwh + next.estimatedEnergyKwh)
  }

  /** The merge loop of `_merge_close_events` from `current` on. */
  function MergeFrom(rest: seq<DhwEvent>, current: DhwEvent, merged: seq<DhwEvent>, maxGap: int)
    : seq<DhwEvent>
    decreases |rest|
  {
    if rest == [] then merged + [current]
    else if rest[0].startTime - current.endTime <= maxGap then
      MergeFrom(rest[1..], Combine(current, rest[0]), merged, maxGap)
    else MergeFrom(rest[1..], rest[0], merged + [current], maxGap)
  }

  /** `_merge_close_events`: events at most `max_event_gap_sec` apart become one. */
  function MergeCloseEvents(events: seq<DhwEvent>, cfg: SeparatorConfig): seq<DhwEvent>
  {
    if |events| <= 1 then events else MergeFrom(events[1..], events[0], [], cfg.maxEventGapSec)
  }

  /** `detect_dhw_events` on readings in any order. */
  function DetectDhwEvents(hotWaterTemps: seq<TempReading>, minSamples: int, cfg: SeparatorConfig)
    : (events: seq<DhwEvent>)
    ensures |hotWaterTemps| < minSamples ==> events == []
    ensures PresentValues(hotWaterTemps) == [] ==> events == []
  {
    if |hotWaterTemps| < minSamples then []
    else
      var temps := SortBy(hotWaterTemps, TempKey);
      PresentValuesPermutation(hotWaterTemps, temps);
      DetectSorted(temps, cfg)
  }

  /** Detection over readings already sorted by time. */
  function DetectSorted(temps: seq<TempReading>, cfg: SeparatorConfig): seq<DhwEvent>
  {
    var values := PresentValues(temps);
    if values == [] then []
    else
      var baseline := Baseline(values, cfg);
      var st := ScanFrom(temps, InitialScan, baseline, cfg);
      MergeCloseEvents(FinishScan(st, temps[|temps| - 1].timestamp, baseline, cfg), cfg)
  }

  /** Reordering the readings does not change which values are present. */
  lemma PresentValuesPermutation(a: seq<TempReading>, b: seq<TempReading>)
    requires multiset(a) == multiset(b)
    ensures PresentValues(a) == [] <==> PresentValues(b) == []
  {
    if PresentValues(a) != [] {
      var x := PresentValues(a)[0];
      assert x in PresentValues(a);
      var i :| 0 <= i < |a| && a[i].value == Some(x);
      assert a[i] in multiset(b);
      var j :| 0 <= j < |b| && b[j] == a[i];
      assert x in PresentValues(b);
    }
    if PresentValues(b) != [] {
      var x := PresentValues(b)[0];
      assert x in PresentValues(b);
      var i :| 0 <= i < |b| && b[i].value == Some(x);
      assert b[i] in multiset(a);
      var j :| 0 <= j < |a| && a[j] == b[i];
      assert x in PresentValues(a);
    }
  }

  // ---------------------------------------------------------------------
  // Properties of detection
  // ---------------------------------------------------------------------

  /** An event reached the DHW threshold and the rise threshold. */
  predicate Hot(e: DhwEvent, cfg: SeparatorConfig)
  {
    e.peakTemp >= cfg.dhwTempThreshold && e.tempRise >= cfg.dhwTempRiseThreshold
  }

  ghost predicate ScanInvariant(st: ScanState, baseline: real, cfg: SeparatorConfig)
  {
    && (forall i :: 0 <= i < |st.eventSamples| ==> IsDhwActive(st.eventSamples[i].temp, baseline, cfg))
    && (forall i :: 0 <= i < |st.events| ==> Hot(st.events[i], cfg))
    && (st.inEvent ==> st.eventSamples != [])
  }

  lemma CreateEventHot(start: int, end: int, samples: seq<Sample>, baseline: real, cfg: SeparatorConfig)
    requires samples != []
    requires forall i :: 0 <= i < |samples| ==> IsDhwActive(samples[i].temp, baseline, cfg)
    ensures Hot(CreateEvent(start, end, samples, baseline, cfg).value, cfg)
  {
    var e := CreateEvent(start, end, samples, baseline, cfg).value;
    assert samples[0].temp <= e.peakTemp;
  }

  lemma ScanStepKeepsInvariant(st: ScanState, r: TempReading, baseline: real, cfg: SeparatorConfig)
    requires ScanInvariant(st, baseline, cfg)
    ensures ScanInvariant(ScanStep(st, r, baseline, cfg), baseline, cfg)
  {
    if r.value.Some? && !IsDhwActive(r.value.value, baseline, cfg) && st.inEvent {
      CreateEventHot(st.eventStart, r.timestamp, st.eventSamples, baseline, cfg);
    }
  }

  lemma {:induction false} ScanFromKeepsInvariant(rs: seq<TempReading>, st: ScanState, baseline: real,
                                                  cfg: SeparatorConfig)
    requires ScanInvariant(st, baseline, cfg)
    ensures ScanInvariant(ScanFrom(rs, st, baseline, cfg), baseline, cfg)
    decreases |rs|
  {
    if rs != [] {
      ScanStepKeepsInvariant(st, rs[0], baseline, cfg);
      ScanFromKeepsInvariant(rs[1..], ScanStep(st, rs[0], baseline, cfg), baseline, cfg);
    }
  }

  function Energies(events: seq<DhwEvent>): (e: seq<real>)
    ensures |e| == |events|
    ensures forall i :: 0 <= i < |e| ==> e[i] == events[i].estimatedEnergyKwh
  {
    seq(|events|, i requires 0 <= i < |events| => events[i].estimatedEnergyKwh)
  }

  /** The energy of one event followed by others. */
  lemma EnergyCons(e: DhwEvent, rest: seq<DhwEvent>)
    ensures Sum(Energies([e] + rest)) == e.estimatedEnergyKwh + Sum(Energies(rest))
  {
    assert Energies([e] + rest) == [e.estimatedEnergyKwh] + Energies(rest);
    SumConcat([e.estimatedEnergyKwh], Energies(rest));
    assert [e.estimatedEnergyKwh] == [] + [e.estimatedEnergyKwh];
    SumAppend([], e.estimatedEnergyKwh);
  }

  /** The energy of events followed by one more. */
  lemma EnergySnoc(events: seq<DhwEvent>, e: DhwEvent)
    ensures Sum(Energies(events + [e])) == Sum(Energies(events)) + e.estimatedEnergyKwh
  {
    assert Energies(events + [e]) == Energies(events) + [e.estimatedEnergyKwh];
    SumAppend(Energies(events), e.estimatedEnergyKwh);
  }

  /** Merging from `current` on keeps the energy of everything it was given. */
  lemma {:induction false} MergeFromEnergy(rest: seq<DhwEvent>, current: DhwEvent, merged: seq<DhwEvent>, maxGap: int)
    ensures Sum(Energies(MergeFrom(rest, current, merged, maxGap)))
      == Sum(Energies(merged)) + current.estimatedEnergyKwh + Sum(Energies(rest))
    decreases |rest|
  {
    if rest == [] {
      EnergySnoc(merged, current);
    } else {
      var next := rest[0];
      assert rest == [next] + rest[1..];
      EnergyCons(next, rest[1..]);
      if next.startTime - current.endTime <= maxGap {
        MergeFromEnergy(rest[1..], Combine(current, next), merged, maxGap);
      } else {
        EnergySnoc(merged, current);
        MergeFromEnergy(rest[1..], next, merged + [current], maxGap);
      }
    }
  }

  /** Merging from `current` on adds one event at most per event it is given. */
  lemma {:induction false} MergeFromLength(rest: seq<DhwEvent>, current: DhwEvent, merged: seq<DhwEvent>, maxGap: int)
    ensures |merged| + 1 <= |MergeFrom(rest, current, merged, maxGap)| <= |merged| + 1 + |rest|
    decreases |rest|
  {
    if rest != [] {
      if rest[0].startTime - current.endTime <= maxGap {
        MergeFromLength(rest[1..], Combine(current, rest[0]), merged, maxGap);
      } else {
        MergeFromLength(rest[1..], rest[0], merged + [current], maxGap);
      }
    }
  }

  ghost predicate AllHot(events: seq<DhwEvent>, cfg: SeparatorConfig)
  {
    forall i :: 0 <= i < |events| ==> Hot(events[i], cfg)
  }

  /** Merging hot events gives hot events. */
  lemma {:induction false} MergeFromHot(rest: seq<DhwEvent>, current: DhwEvent, merged: seq<DhwEvent>,
                                        maxGap: int, cfg: SeparatorConfig)
    requires Hot(current, cfg) && AllHot(rest, cfg) && AllHot(merged, cfg)
    ensures AllHot(MergeFrom(rest, current, merged, maxGap), cfg)
    decreases |rest|
  {
    if rest != [] {
      assert AllHot(rest[1..], cfg) by {
        assert forall i :: 0 <= i < |rest[1..]| ==> rest[1..][i] == rest[i + 1];
      }
      if rest[0].startTime - current.endTime <= maxGap {
        MergeFromHot(rest[1..], Combine(current, rest[0]), merged, maxGap, cfg);
      } else {
        MergeFromHot(rest[1..], rest[0], merged + [current], maxGap, cfg);
      }
    }
  }

  /**
   * `_merge_close_events` returns at most as many events as it is given,
   * at least one when given any, with the same total energy, and hot
   * events stay hot.
   */
  lemma MergeCloseEventsMeaning(events: seq<DhwEvent>, cfg: SeparatorConfig)
    requires forall i :: 0 <= i < |events| ==> Hot(events[i], cfg)
    ensures var r := MergeCloseEvents(events, cfg);
      && |r| <= |events| && (events != [] ==> r != [])
      && Sum(Energies(r)) == Sum(Energies(events))
      && (forall i :: 0 <= i < |r| ==> Hot(r[i], cfg))
  {
    if |events| > 1 {
      MergeFromLength(events[1..], events[0], [], cfg.maxEventGapSec);
      MergeFromEnergy(events[1..], events[0], [], cfg.maxEventGapSec);
      MergeFromHot(events[1..], events[0], [], cfg.maxEventGapSec, cfg);
      assert events == [events[0]] + events[1..];
      EnergyCons(events[0], events[1..]);
    }
  }

  /**
   * Every detected DHW event peaked at or above the DHW threshold and rose
   * at least the rise threshold above the baseline.
   */
  lemma DetectedEventsAreHot(hotWaterTemps: seq<TempReading>, minSamples: int, cfg: SeparatorConfig)
    ensures var events := DetectDhwEvents(hotWaterTemps, minSamples, cfg);
      forall i :: 0 <= i < |events| ==> Hot(events[i], cfg)
  {
    if |hotWaterTemps| >= minSamples {
      DetectSortedHot(SortBy(hotWaterTemps, TempKey), cfg);
    }
  }

  /** Detection over sorted readings yields hot events only. */
  lemma DetectSortedHot(temps: seq<TempReading>, cfg: SeparatorConfig)
    ensures AllHot(DetectSorted(temps, cfg), cfg)
  {
    var values := PresentValues(temps);
    if values != [] {
      var baseline := Baseline(values, cfg);
      ScanFromKeepsInvariant(temps, InitialScan, baseline, cfg);
      var st := ScanFrom(temps, InitialScan, baseline, cfg);
      var finished := FinishScan(st, temps[|temps| - 1].timestamp, baseline, cfg);
      FinishScanHot(st, temps[|temps| - 1].timestamp, baseline, cfg);
      MergeCloseEventsMeaning(finished, cfg);
    }
  }

  /** Closing a well-formed scan yields hot events only. */
  lemma FinishScanHot(st: ScanState, lastTimestamp: int, baseline: real, cfg: SeparatorConfig)
    requires ScanInvariant(st, baseline, cfg)
    ensures AllHot(FinishScan(st, lastTimestamp, baseline, cfg), cfg)
  {
    if st.inEvent && st.eventSamples != [] {
      CreateEventHot(st.eventStart, lastTimestamp, st.eventSamples, baseline, cfg);
      var e := CreateEvent(st.eventStart, lastTimestamp, st.eventSamples, baseline, cfg).value;
      assert forall i :: 0 <= i < |st.events + [e]| ==> (st.events + [e])[i] == if i < |st.events| then st.events[i] else e;
    }
  }

  // ---------------------------------------------------------------------
  // Separation per period
  // ---------------------------------------------------------------------

  function ConsumptionOf(r: EnergyReading): real
  {
    match r.consumption
    case Some(c) => c
    case None => 0.0
  }

  const MaxHourlyDhwFraction := 0.8
  const MaxPeriodDhwFraction := 0.6

  /**
   * The events starting within the hour from `hourStart`, each capped by
   * what is left of the hour's DHW budget after `used`; events that find
   * no budget left are dropped.
   */
  function CapFrom(events: seq<DhwEvent>, hourStart: int, budget: real, used: real): seq<DhwEvent>
    decreases |events|
  {
    if events == [] then []
    else
      var e := events[0];
      var remaining := budget - used;
      if hourStart <= e.startTime < hourStart + 3600 && remaining > 0.0 then
        var capped := Min(e.estimatedEnergyKwh, remaining);
        [e.(estimatedEnergyKwh := capped)] + CapFrom(events[1..], hourStart, budget, used + capped)
      else CapFrom(events[1..], hourStart, budget, used)
  }

  /**
   * Within one hour the capped DHW energy never exceeds what was left of
   * the budget.
   */
  lemma {:induction false} CapFromEnergy(events: seq<DhwEvent>, hourStart: int, budget: real, used: real)
    ensures Sum(Energies(CapFrom(events, hourStart, budget, used))) <= Max(0.0, budget - used)
    decreases |events|
  {
    if events != [] {
      var e := events[0];
      var remaining := budget - used;
      if hourStart <= e.startTime < hourStart + 3600 && remaining > 0.0 {
        var capped := Min(e.estimatedEnergyKwh, remaining);
        CapFromEnergy(events[1..], hourStart, budget, used + capped);
        EnergyCons(e.(estimatedEnergyKwh := capped), CapFrom(events[1..], hourStart, budget, used + capped));
      } else {
        CapFromEnergy(events[1..], hourStart, budget, used);
      }
    }
  }

  ghost predicate WithinHour(events: seq<DhwEvent>, hourStart: int)
  {
    forall i :: 0 <= i < |events| ==> hourStart <= events[i].startTime < hourStart + 3600
  }

  /** Every capped event starts within the hour. */
  lemma {:induction false} CapFromWithinHour(events: seq<DhwEvent>, hourStart: int, budget: real, used: real)
    ensures WithinHour(CapFrom(events, hourStart, budget, used), hourStart)
    decreases |events|
  {
    if events != [] {
      var e := events[0];
      var remaining := budget - used;
      if hourStart <= e.startTime < hourStart + 3600 && remaining > 0.0 {
        var capped := Min(e.estimatedEnergyKwh, remaining);
        var rest := CapFrom(events[1..], hourStart, budget, used + capped);
        CapFromWithinHour(events[1..], hourStart, budget, used + capped);
        var c := [e.(estimatedEnergyKwh := capped)] + rest;
        assert forall i :: 1 <= i < |c| ==> c[i] == rest[i - 1];
        assert CapFrom(events, hourStart, budget, used) == c;
      } else {
        CapFromWithinHour(events[1..], hourStart, budget, used);
      }
    }
  }

  /**
   * Summed over one hour, the capped DHW energy is at most 80% of that
   * hour's consumption (nothing when the consumption is not positive).
   */
  lemma HourlyDhwCapped(events: seq<DhwEvent>, hourStart: int, consumption: real)
    ensures var c := CapFrom(events, hourStart, consumption * MaxHourlyDhwFraction, 0.0);
      Sum(Energies(c)) <= Max(0.0, consumption * MaxHourlyDhwFraction)
  {
    CapFromEnergy(events, hourStart, consumption * MaxHourlyDhwFraction, 0.0);
  }

  /**
   * `_calculate_period_result`: the estimated DHW energy, capped at 60%
   * of the period total and zero without events; the rest is heating.
   * Confidence starts at 0.5, gains up to 0.3 from the number of events
   * and up to 0.2 from consistent durations, and is capped at 1.
   */
  function PeriodResult(periodStart: int, totalEnergy: real, events: seq<DhwEvent>, stdev: StandardDeviation)
    : (r: SeparationResult)
    ensures r.timestamp == periodStart && r.totalEnergyKwh == totalEnergy && r.dhwEvents == events
    ensures r.heatingEnergyKwh + r.dhwEnergyKwh == totalEnergy
    ensures events == [] ==> r.dhwEnergyKwh == 0.0 && r.confidence == 0.5
    ensures events != [] ==>
      r.dhwEnergyKwh == Min(Sum(Energies(events)), totalEnergy * MaxPeriodDhwFraction)
    ensures events != [] ==> r.dhwEnergyKwh <= totalEnergy * MaxPeriodDhwFraction
    ensures 0.5 <= r.confidence <= 1.0
  {
    var estimated := Sum(Energies(events));
    var capped := if estimated > totalEnergy * MaxPeriodDhwFraction then totalEnergy * MaxPeriodDhwFraction
                  else estimated;
    var dhw := if events == [] then 0.0 else capped;
    var eventFactor := if events == [] then 0.0 else Min(|events| as real / 10.0, 0.3);
    var consistencyFactor :=
      if |events| >= 3 then
        var durations := seq(|events|, i requires 0 <= i < |events| => events[i].durationMinutes);
        var mean := Mean(durations);
        var cv := if mean > 0.0 then stdev(durations) / mean else 1.0;
        Max(0.0, 0.2 - cv * 0.1)
      else 0.0;
    SeparationResult(periodStart, totalEnergy, totalEnergy - dhw, dhw, events,
                     Min(0.5 + eventFactor + consistencyFactor, 1.0))
  }

  datatype PeriodState = PeriodState(periodStart: int, energy: real, events: seq<DhwEvent>,
                                     results: seq<SeparationResult>)

  /** A period with energy becomes a result; an empty one is skipped. */
  function Flush(st: PeriodState, stdev: StandardDeviation): seq<SeparationResult>
  {
    if st.energy > 0.0 then st.results + [PeriodResult(st.periodStart, st.energy, st.events, stdev)]
    else st.results
  }

  /** Close every period that ends at or before `ts`. */
  function ClosePeriods(st: PeriodState, ts: int, delta: int, stdev: StandardDeviation): (r: PeriodState)
    requires delta > 0
    ensures ts < r.periodStart + delta
    decreases ts - st.periodStart
  {
    if ts >= st.periodStart + delta then
      ClosePeriods(PeriodState(st.periodStart + delta, 0.0, [], Flush(st, stdev)), ts, delta, stdev)
    else st
  }

  /** One energy reading: close finished periods, add its energy and its capped DHW events. */
  function AddReading(st: PeriodState, r: EnergyReading, dhw: seq<DhwEvent>, delta: int,
                      stdev: StandardDeviation): PeriodState
    requires delta > 0
  {
    var consumption := ConsumptionOf(r);
    var s1 := ClosePeriods(st, r.timestamp, delta, stdev);
    s1.(energy := s1.energy + consumption,
        events := s1.events + CapFrom(dhw, r.timestamp, consumption * MaxHourlyDhwFraction, 0.0))
  }

  function SeparateFrom(rs: seq<EnergyReading>, st: PeriodState, dhw: seq<DhwEvent>, delta: int,
                        stdev: StandardDeviation): PeriodState
    requires delta > 0
    decreases |rs|
  {
    if rs == [] then st else SeparateFrom(rs[1..], AddReading(st, rs[0], dhw, delta, stdev), dhw, delta, stdev)
  }

  /**
   * `separate_energy`: nothing without energy or temperature data;
   * otherwise the energy readings in time order, grouped into periods of
   * `periodHours` from the start of the first reading's Swedish day.
   */
  function SeparateEnergy(energyData: seq<EnergyReading>, hotWaterTemps: seq<TempReading>, periodHours: int,
                          swedishMidnight: int -> int, cfg: SeparatorConfig, stdev: StandardDeviation)
    : (results: seq<SeparationResult>)
    requires periodHours > 0
    ensures energyData == [] || hotWaterTemps == [] ==> results == []
  {
    if energyData == [] || hotWaterTemps == [] then []
    else
      var dhw := DetectDhwEvents(hotWaterTemps, 3, cfg);
      var energy := SortBy(energyData, EnergyKey);
      var start := PeriodState(swedishMidnight(energy[0].timestamp), 0.0, [], []);
      Flush(SeparateFrom(energy, start, dhw, periodHours * 3600, stdev), stdev)
  }

  /** Each result has positive energy, splits it exactly, and keeps DHW within 60%. */
  ghost predicate WellFormed(r: SeparationResult)
  {
    && r.totalEnergyKwh > 0.0
    && r.heatingEnergyKwh + r.dhwEnergyKwh == r.totalEnergyKwh
    && r.dhwEnergyKwh <= r.totalEnergyKwh * MaxPeriodDhwFraction
    && (r.dhwEvents == [] ==> r.dhwEnergyKwh == 0.0)
    && 0.5 <= r.confidence <= 1.0
  }

  ghost predicate AllWellFormed(results: seq<SeparationResult>)
  {
    forall i :: 0 <= i < |results| ==> WellFormed(results[i])
  }

  lemma FlushWellFormed(st: PeriodState, stdev: StandardDeviation)
    requires AllWellFormed(st.results)
    ensures AllWellFormed(Flush(st, stdev))
  {
  }

  lemma {:induction false} ClosePeriodsWellFormed(st: PeriodState, ts: int, delta: int, stdev: StandardDeviation)
    requires delta > 0
    requires AllWellFormed(st.results)
    ensures AllWellFormed(ClosePeriods(st, ts, delta, stdev).results)
    decreases ts - st.periodStart
  {
    if ts >= st.periodStart + delta {
      FlushWellFormed(st, stdev);
      ClosePeriodsWellFormed(PeriodState(st.periodStart + delta, 0.0, [], Flush(st, stdev)), ts, delta, stdev);
    }
  }

  lemma {:induction false} SeparateFromWellFormed(rs: seq<EnergyReading>, st: PeriodState, dhw: seq<DhwEvent>,
                                                  delta: int, stdev: StandardDeviation)
    requires delta > 0
    requires AllWellFormed(st.results)
    ensures AllWellFormed(SeparateFrom(rs, st, dhw, delta, stdev).results)
    decreases |rs|
  {
    if rs != [] {
      ClosePeriodsWellFormed(st, rs[0].timestamp, delta, stdev);
      SeparateFromWellFormed(rs[1..], AddReading(st, rs[0], dhw, delta, stdev), dhw, delta, stdev);
    }
  }

  /**
   * No period without positive energy is reported; every reported period
   * splits its total exactly into heating and DHW, with DHW at most 60% of
   * the total and zero without events, and a confidence in [0.5, 1].
   */
  lemma SeparatedPeriodsWellFormed(energyData: seq<EnergyReading>, hotWaterTemps: seq<TempReading>,
                                   periodHours: int, swedishMidnight: int -> int, cfg: SeparatorConfig,
                                   stdev: StandardDeviation)
    requires periodHours > 0
    ensures AllWellFormed(SeparateEnergy(energyData, hotWaterTemps, periodHours, swedishMidnight, cfg, stdev))
  {
    if energyData != [] && hotWaterTemps != [] {
      var dhw := DetectDhwEvents(hotWaterTemps, 3, cfg);
      var energy := SortBy(energyData, EnergyKey);
      var start := PeriodState(swedishMidnight(energy[0].timestamp), 0.0, [], []);
      SeparateFromWellFormed(energy, start, dhw, periodHours * 3600, stdev);
      FlushWellFormed(SeparateFrom(energy, start, dhw, periodHours * 3600, stdev), stdev);
    }
  }

  // ---------------------------------------------------------------------
  // The loops
  // ---------------------------------------------------------------------

  /** `detect_dhw_events`. */
  method DetectDhwEventsLoop(hotWaterTemps: seq<TempReading>, minSamples: int, cfg: SeparatorConfig)
    returns (events: seq<DhwEvent>)
    ensures events == DetectDhwEvents(hotWaterTemps, minSamples, cfg)
  {
    if |hotWaterTemps| < minSamples {
      return [];
    }
    var temps := SortBy(hotWaterTemps, TempKey);
    events := DetectSortedLoop(temps, cfg);
  }

  /** The body of `detect_dhw_events` once the readings are sorted. */
  method DetectSortedLoop(temps: seq<TempReading>, cfg: SeparatorConfig) returns (events: seq<DhwEvent>)
    ensures events == DetectSorted(temps, cfg)
  {
    var values := PresentValues(temps);
    if values == [] {
      return [];
    }
    var baseline := Baseline(values, cfg);
    var st := ScanLoop(temps, baseline, cfg);
    events := FinishScan(st, temps[|temps| - 1].timestamp, baseline, cfg);
    events := MergeCloseEventsLoop(events, cfg);
  }

  /** The detection loop of `detect_dhw_events` over the sorted readings. */
  method ScanLoop(temps: seq<TempReading>, baseline: real, cfg: SeparatorConfig) returns (st: ScanState)
    ensures st == ScanFrom(temps, InitialScan, baseline, cfg)
  {
    var inEvent := false;
    var eventStart := 0;
    var eventSamples: seq<Sample> := [];
    var found: seq<DhwEvent> := [];
    for i := 0 to |temps|
      invariant ScanFrom(temps[i..], ScanState(inEvent, eventStart, eventSamples, found), baseline, cfg)
                == ScanFrom(temps, InitialScan, baseline, cfg)
    {
      assert temps[i..][1..] == temps[i + 1..];
      var reading := temps[i];
      if reading.value.Some? {
        var temp := reading.value.value;
        var active := IsDhwActive(temp, baseline, cfg);
        if active && !inEvent {
          inEvent := true;
          eventStart := reading.timestamp;
          eventSamples := [Sample(reading.timestamp, temp)];
        } else if active {
          eventSamples := eventSamples + [Sample(reading.timestamp, temp)];
        } else if inEvent {
          inEvent := false;
          var e := CreateEvent(eventStart, reading.timestamp, eventSamples, baseline, cfg);
          if e.Some? && e.value.durationMinutes >= cfg.minEventDurationSec / 60.0 {
            found := found + [e.value];
          }
          eventSamples := [];
        }
      }
    }
    st := ScanState(inEvent, eventStart, eventSamples, found);
  }

  /** `_merge_close_events`. */
  method MergeCloseEventsLoop(events: seq<DhwEvent>, cfg: SeparatorConfig) returns (merged: seq<DhwEvent>)
    ensures merged == MergeCloseEvents(events, cfg)
  {
    if |events| <= 1 {
      return events;
    }
    merged := [];
    var current := events[0];
    for k := 1 to |events|
      invariant MergeFrom(events[k..], current, merged, cfg.maxEventGapSec) == MergeCloseEvents(events, cfg)
    {
      assert events[k..][1..] == events[k + 1..];
      var next := events[k];
      if next.startTime - current.endTime <= cfg.maxEventGapSec {
        current := Combine(current, next);
      } else {
        merged := merged + [current];
        current := next;
      }
    }
    merged := merged + [current];
  }

  /** The capping loop of `separate_energy` for the hour starting at `hourStart`. */
  method CapHourLoop(events: seq<DhwEvent>, hourStart: int, budget: real) returns (capped: seq<DhwEvent>)
    ensures capped == CapFrom(events, hourStart, budget, 0.0)
  {
    capped := [];
    var used := 0.0;
    for k := 0 to |events|
      invariant capped + CapFrom(events[k..], hourStart, budget, used) == CapFrom(events, hourStart, budget, 0.0)
    {
      assert events[k..][1..] == events[k + 1..];
      var e := events[k];
      if hourStart <= e.startTime < hourStart + 3600 {
        var remaining := budget - used;
        if remaining > 0.0 {
          var energy := Min(e.estimatedEnergyKwh, remaining);
          capped := capped + [e.(estimatedEnergyKwh := energy)];
          used := used + energy;
        }
      }
    }
  }

  /** `separate_energy`. */
  method SeparateEnergyLoop(energyData: seq<EnergyReading>, hotWaterTemps: seq<TempReading>, periodHours: int,
                            swedishMidnight: int -> int, cfg: SeparatorConfig, stdev: StandardDeviation)
    returns (results: seq<SeparationResult>)
    requires periodHours > 0
    ensures results == SeparateEnergy(energyData, hotWaterTemps, periodHours, swedishMidnight, cfg, stdev)
  {
    if energyData == [] || hotWaterTemps == [] {
      return [];
    }
    var dhw := DetectDhwEventsLoop(hotWaterTemps, 3, cfg);
    var energy := SortBy(energyData, EnergyKey);
    var delta := periodHours * 3600;
    var st := PeriodState(swedishMidnight(energy[0].timestamp), 0.0, [], []);
    ghost var initial := st;
    for i := 0 to |energy|
      invariant SeparateFrom(energy[i..], st, dhw, delta, stdev) == SeparateFrom(energy, initial, dhw, delta, stdev)
    {
      assert energy[i..][1..] == energy[i + 1..];
      st := AddReadingLoop(st, energy[i], dhw, delta, stdev);
    }
    results := Flush(st, stdev);
  }

  /** One energy reading of `separate_energy`: close finished periods, then add the reading. */
  method AddReadingLoop(st: PeriodState, reading: EnergyReading, dhw: seq<DhwEvent>, delta: int,
                        stdev: StandardDeviation) returns (next: PeriodState)
    requires delta > 0
    ensures next == AddReading(st, reading, dhw, delta, stdev)
  {
    var periodStart := st.periodStart;
    var periodEnergy := st.energy;
    var periodEvents := st.events;
    var results := st.results;
    var consumption := ConsumptionOf(reading);
    while reading.timestamp >= periodStart + delta
      invariant ClosePeriods(PeriodState(periodStart, periodEnergy, periodEvents, results), reading.timestamp, delta, stdev)
                == ClosePeriods(st, reading.timestamp, delta, stdev)
      decreases reading.timestamp - periodStart
    {
      if periodEnergy > 0.0 {
        results := results + [PeriodResult(periodStart, periodEnergy, periodEvents, stdev)];
      }
      periodStart := periodStart + delta;
      periodEnergy := 0.0;
      periodEvents := [];
    }
    periodEnergy := periodEnergy + consumption;
    var capped := CapHourLoop(dhw, reading.timestamp, consumption * MaxHourlyDhwFraction);
    next := PeriodState(periodStart, periodEnergy, periodEvents + capped, results);
  }
}
