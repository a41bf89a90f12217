/**
 * The k-value recalibrator: derives the building's heat-loss coefficient k
 * (kW per degree) from days of separated heating energy.  Each usable day
 * implies k = heating energy / (indoor - outdoor) / 24 h; the calibrated
 * value is the 15th percentile of those daily values, the days least
 * contaminated by hot water.
 */
module KRecalibration {
  import opened Common

  const MinDaysForCalibration := 3
  const KPercentile := 15
  const FullConfidenceDays := 14.0
  const DefaultDayConfidence := 0.5

  /** One day of separated energy; an absent `heating_kwh` reads as 0. */
  datatype EnergyDay = EnergyDay(date: string, heatingKwh: Option<real>, confidence: Option<real>)

  /** The day's mean indoor and outdoor temperature, either possibly missing. */
  datatype DayTemps = DayTemps(indoor: Option<real>, outdoor: Option<real>)

  /** A day that passed every filter, with the k it implies. */
  datatype DailyK = DailyK(date: string, k: real, heatingKwh: real, deltaT: real, outdoor: real, confidence: real)

  function HeatingOf(day: EnergyDay): real
  {
    match day.heatingKwh
    case Some(h) => h
    case None => 0.0
  }

  /**
   * The k one day implies, or nothing when the day has no temperatures,
   * no heating energy, no heating need, or an implausible k.
   */
  function DayK(day: EnergyDay, temps: map<string, DayTemps>): (r: Option<DailyK>)
    ensures r.Some? <==>
      && day.date in temps
      && temps[day.date].indoor.Some? && temps[day.date].outdoor.Some?
      && HeatingOf(day) > 0.0
      && temps[day.date].indoor.value - temps[day.date].outdoor.value > 0.0
      && 0.0 < HeatingOf(day) / ((temps[day.date].indoor.value - temps[day.date].outdoor.value) * 24.0) < 1.0
    ensures r.Some? ==>
      && 0.0 < r.value.k < 1.0 && r.value.deltaT > 0.0 && r.value.date == day.date
      && r.value.k * (r.value.deltaT * 24.0) == r.value.heatingKwh == HeatingOf(day)
      && r.value.outdoor == temps[day.date].outdoor.value
  {
    if day.date !in temps then None
    else
      var t := temps[day.date];
      if t.indoor.None? || t.outdoor.None? || HeatingOf(day) <= 0.0 then None
      else
        var deltaT := t.indoor.value - t.outdoor.value;
        if deltaT <= 0.0 then None
        else
          var k := HeatingOf(day) / (deltaT * 24.0);
          if 0.0 < k < 1.0 then
            var confidence := match day.confidence case Some(c) => c case None => DefaultDayConfidence;
            Some(DailyK(day.date, k, HeatingOf(day), deltaT, t.outdoor.value, confidence))
          else None
  }

  /** The usable days, in the order of the energy data. */
  function DailyKs(energy: seq<EnergyDay>, temps: map<string, DayTemps>): seq<DailyK>
  {
    if energy == [] then []
    else
      var n := |energy| - 1;
      var earlier := DailyKs(energy[..n], temps);
      match DayK(energy[n], temps)
      case Some(d) => earlier + [d]
      case None => earlier
  }

  /**
   * Every kept day is one of the input days with a plausible k, every
   * input day that yields a k is kept, and no more days are kept than given.
   */
  lemma {:induction false} DailyKsMeaning(energy: seq<EnergyDay>, temps: map<string, DayTemps>)
    ensures |DailyKs(energy, temps)| <= |energy|
    ensures forall d :: d in DailyKs(energy, temps) ==>
      && 0.0 < d.k < 1.0 && d.deltaT > 0.0
      && exists i :: 0 <= i < |energy| && DayK(energy[i], temps) == Some(d)
    ensures forall i :: 0 <= i < |energy| && DayK(energy[i], temps).Some? ==>
      DayK(energy[i], temps).value in DailyKs(energy, temps)
  {
    if energy != [] {
      var n := |energy| - 1;
      DailyKsMeaning(energy[..n], temps);
      forall i | 0 <= i < n && DayK(energy[i], temps).Some?
        ensures DayK(energy[i], temps).value in DailyKs(energy, temps)
      {
        assert energy[..n][i] == energy[i];
      }
      forall d | d in DailyKs(energy, temps)
        ensures exists i :: 0 <= i < |energy| && DayK(energy[i], temps) == Some(d)
      {
        if d in DailyKs(energy[..n], temps) {
          var i :| 0 <= i < n && DayK(energy[..n][i], temps) == Some(d);
          assert energy[..n][i] == energy[i];
        } else {
          assert DayK(energy[n], temps) == Some(d);
        }
      }
    }
  }

  /** The loop of `calculate_k` that collects the usable days. */
  method CollectDailyKs(energy: seq<EnergyDay>, temps: map<string, DayTemps>) returns (days: seq<DailyK>)
    ensures days == DailyKs(energy, temps)
  {
    days := [];
    for i := 0 to |energy|
      invariant days == DailyKs(energy[..i], temps)
    {
      assert energy[..i + 1][..i] == energy[..i];
      var d := DayK(energy[i], temps);
      if d.Some? {
        days := days + [d.value];
      }
    }
    assert energy[..|energy|] == energy;
  }

  function Ks(days: seq<DailyK>): (ks: seq<real>)
    ensures |ks| == |days|
    ensures forall i :: 0 <= i < |days| ==> ks[i] == days[i].k
  {
    if days == [] then [] else Ks(days[..|days| - 1]) + [days[|days| - 1].k]
  }

  function Outdoors(days: seq<DailyK>): (temps: seq<real>)
    ensures |temps| == |days|
    ensures forall i :: 0 <= i < |days| ==> temps[i] == days[i].outdoor
  {
    if days == [] then [] else Outdoors(days[..|days| - 1]) + [days[|days| - 1].outdoor]
  }

  /** `int(n * 15 / 100)`: the position of the 15th percentile in the sorted values. */
  function PercentileIndex(n: nat): nat
  {
    n * KPercentile / 100
  }

  /** The 15th-percentile value: it is one of the values and lies between the smallest and the largest. */
  function PercentileK(ks: seq<real>): (k: real)
    requires |ks| > 0
    ensures k in ks
    ensures MinOf(ks) <= k <= MaxOf(ks)
  {
    SortedElementBetweenMinMax(ks, PercentileIndex(|ks|));
    SortReals(ks)[PercentileIndex(|ks|)]
  }

  /** Python's `statistics.median`: the middle value, or the mean of the two middle values. */
  function Median(s: seq<real>): (m: real)
    requires |s| > 0
    ensures MinOf(s) <= m <= MaxOf(s)
  {
    var r := SortReals(s);
    var n := |s|;
    SortedElementBetweenMinMax(s, n / 2);
    if n % 2 == 1 then r[n / 2]
    else
      SortedElementBetweenMinMax(s, n / 2 - 1);
      (r[n / 2 - 1] + r[n / 2]) / 2.0
  }

  /** With at least three days the 15th-percentile k never exceeds the median. */
  lemma PercentileAtMostMedian(ks: seq<real>)
    requires |ks| >= MinDaysForCalibration
    ensures PercentileK(ks) <= Median(ks)
  {
    var r := SortReals(ks);
    var n := |ks|;
    var p := PercentileIndex(n);
    assert p <= n / 2 - 1;
    assert r[p] <= r[n / 2 - 1] <= r[n / 2];
  }

  lemma KsPlausible(energy: seq<EnergyDay>, temps: map<string, DayTemps>)
    ensures forall k :: k in Ks(DailyKs(energy, temps)) ==> 0.0 < k < 1.0
  {
    var days := DailyKs(energy, temps);
    var ks := Ks(days);
    DailyKsMeaning(energy, temps);
    forall k | k in ks ensures 0.0 < k < 1.0 {
      var i :| 0 <= i < |ks| && ks[i] == k;
      assert days[i] in days;
    }
  }

  /** The outcome of a calibration. */
  datatype Calibration = Calibration(
    kValue: real, kMedian: real, kStddev: real, daysUsed: nat, totalDays: nat,
    avgOutdoorTemp: real, confidence: real)

  /**
   * The confidence: the share of two weeks of usable days (at most 1),
   * lowered by the coefficient of variation (but at most halved) when the
   * values spread.
   */
  function Confidence(daysUsed: nat, stddev: real, median: real): (c: real)
    requires median > 0.0 && stddev >= 0.0
    ensures 0.0 <= c <= 1.0
    ensures c <= (daysUsed as real) / FullConfidenceDays
    ensures stddev == 0.0 ==> c == Min(1.0, (daysUsed as real) / FullConfidenceDays)
    ensures stddev > 0.0 ==> c >= Min(1.0, (daysUsed as real) / FullConfidenceDays) * 0.5
  {
    var base := Min(1.0, (daysUsed as real) / FullConfidenceDays);
    if stddev > 0.0 then
      var cv := stddev / median;
      var factor := Max(0.5, 1.0 - cv);
      assert 0.5 <= factor <= 1.0;
      ProductNonNegative(base, factor);
      ProductNonNegative(base, 1.0 - factor);
      ProductNonNegative(base, factor - 0.5);
      base * factor
    else base
  }

  /**
   * `calculate_k` on the fetched data.  The sample standard deviation of
   * the daily values is supplied by the caller; it is never negative.
   */
  function CalculateK(energy: seq<EnergyDay>, temps: map<string, DayTemps>, stddev: real): (r: Option<Calibration>)
    requires stddev >= 0.0
    ensures energy == [] || |temps| == 0 ==> r.None?
    ensures r.Some? <==> energy != [] && |temps| > 0 && |DailyKs(energy, temps)| >= MinDaysForCalibration
    ensures r.Some? ==>
      var ks := Ks(DailyKs(energy, temps));
      && r.value.kValue in ks
      && 0.0 < r.value.kValue < 1.0
      && r.value.kValue <= r.value.kMedian
      && r.value.daysUsed == |ks| && r.value.totalDays == |energy|
      && 0.0 <= r.value.confidence <= 1.0
  {
    if energy == [] || |temps| == 0 then None
    else
      var days := DailyKs(energy, temps);
      if |days| < MinDaysForCalibration then None
      else
        var ks := Ks(days);
        KsPlausible(energy, temps);
        var k := PercentileK(ks);
        var median := Median(ks);
        PercentileAtMostMedian(ks);
        var avgOutdoor := Mean(Outdoors(days));
        Some(Calibration(k, median, stddev, |days|, |energy|, avgOutdoor, Confidence(|days|, stddev, median)))
  }
}
