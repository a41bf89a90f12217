/**
 * Forecast-driven heat-curve reduction. The HomeSide heat curve has ten
 * writable Y points (supply temperatures, indices 64..73), one per outdoor
 * temperature -30, -25, ..., 15 C. When the outdoor temperature is forecast
 * to rise, the controller lowers the supply temperature of the curve points
 * in the forecast range for a while and later writes the stored baseline
 * back.
 *
 * The HomeSide API and InfluxDB are collaborators: a write to the API is the
 * function `writeOk` (true when the write is accepted), the curve values the
 * API holds are the field `deviceCurve`, and the baseline kept in InfluxDB is
 * the field `storedBaseline` (an empty map stands for "nothing stored").
 */
module HeatCurveControl {
  import opened Common
  import SmhiWeather

  /** CURVE_Y_INDICES: writable curve index -> outdoor temperature of its point. */
  const CurveYIndices: map<int, int> := map[
    64 := -30, 65 := -25, 66 := -20, 67 := -15, 68 := -10,
    69 := -5, 70 := 0, 71 := 5, 72 := 10, 73 := 15]

  /** OUTDOOR_TO_Y_INDEX: the reverse mapping. */
  const OutdoorToYIndex: map<int, int> := map[
    -30 := 64, -25 := 65, -20 := 66, -15 := 67, -10 := 68,
    -5 := 69, 0 := 70, 5 := 71, 10 := 72, 15 := 73]

  const MinForecastChange: real := 2.0
  const MaxAdjustment: real := 3.0
  const AdjustmentRatio: real := 0.5
  const MinSupplyTemp: real := 20.0
  /** Half the 5 C spacing between curve points. */
  const RangeMargin: real := 2.5
  const DefaultForecastHours: real := 12.0

  lemma CurveYIndicesLayout()
    ensures forall i :: i in CurveYIndices <==> 64 <= i <= 73
    ensures forall i :: i in CurveYIndices ==> CurveYIndices[i] == -30 + 5 * (i - 64)
  {
  }

  lemma OutdoorToYIndexIsInverse()
    ensures forall i :: i in CurveYIndices ==>
      CurveYIndices[i] in OutdoorToYIndex && OutdoorToYIndex[CurveYIndices[i]] == i
    ensures forall t :: t in OutdoorToYIndex ==>
      OutdoorToYIndex[t] in CurveYIndices && CurveYIndices[OutdoorToYIndex[t]] == t
  {
  }

  // -----------------------------------------------------------------------
  // Pure decisions
  // -----------------------------------------------------------------------

  const CurveIndexOrder: seq<int> := [64, 65, 66, 67, 68, 69, 70, 71, 72, 73]

  predicate InRange(index: int, lo: real, hi: real)
    requires index in CurveYIndices
  {
    lo <= CurveYIndices[index] as real <= hi
  }

  predicate Increasing(s: seq<int>)
  {
    forall a, b :: 0 <= a < b < |s| ==> s[a] < s[b]
  }

  /** The curve indices of `order` whose outdoor temperature lies in [lo, hi], in order. */
  function IndicesInRange(order: seq<int>, lo: real, hi: real): (r: seq<int>)
    requires forall k :: 0 <= k < |order| ==> order[k] in CurveYIndices
    ensures forall i :: i in r <==> i in order && InRange(i, lo, hi)
    ensures Increasing(order) ==> Increasing(r)
  {
    if order == [] then []
    else
      var rest := IndicesInRange(order[1..], lo, hi);
      if InRange(order[0], lo, hi) then
        if Increasing(order) then
          forall b | 0 <= b < |rest| ensures order[0] < rest[b] {
            assert rest[b] in rest;
            assert rest[b] in order[1..];
          }
          [order[0]] + rest
        else [order[0]] + rest
      else rest
  }

  /**
   * `get_affected_indices`: the curve indices whose outdoor temperature lies
   * within the current-to-forecast range widened by 2.5 C on both sides,
   * sorted ascending.
   */
  function GetAffectedIndices(currentOutdoor: real, forecastOutdoor: real): (r: seq<int>)
    ensures forall i :: i in r <==>
      i in CurveYIndices &&
      Min(currentOutdoor, forecastOutdoor) - RangeMargin <= CurveYIndices[i] as real
                                                         <= Max(currentOutdoor, forecastOutdoor) + RangeMargin
    ensures forall a, b :: 0 <= a < b < |r| ==> r[a] < r[b]
  {
    var lo := Min(currentOutdoor, forecastOutdoor) - RangeMargin;
    var hi := Max(currentOutdoor, forecastOutdoor) + RangeMargin;
    CurveYIndicesLayout();
    assert Increasing(CurveIndexOrder);
    IndicesInRange(CurveIndexOrder, lo, hi)
  }

  /**
   * `calculate_adjustment` (the reason text is not modelled): no change when
   * the forecast rise is below 2 C or the house is already more than 0.5 C
   * below target; otherwise a reduction of half the rise, at most 3 C.
   */
  function CalculateAdjustment(forecastChange: real, currentIndoor: real, targetIndoor: real): (delta: real)
    ensures delta == 0.0 <==> forecastChange < MinForecastChange || currentIndoor < targetIndoor - 0.5
    ensures delta != 0.0 ==> -MaxAdjustment <= delta <= -1.0
    ensures delta != 0.0 ==> delta == -Min(forecastChange * AdjustmentRatio, MaxAdjustment)
  {
    if forecastChange < MinForecastChange then 0.0
    else if currentIndoor < targetIndoor - 0.5 then 0.0
    else -Min(forecastChange * AdjustmentRatio, MaxAdjustment)
  }

  datatype Recommendation = Recommendation(
    reduce: bool,
    delta: real,
    durationHours: real,
    affectedIndices: seq<int>,
    confidence: real)

  const NoReduction := Recommendation(false, 0.0, 0.0, [], 0.0)

  /**
   * `should_reduce` (reason text not modelled). The forecast trend is the
   * analysis of the weather module; `None` stands for a missing or empty one.
   */
  function ShouldReduce(trend: Option<SmhiWeather.TempTrend>, currentIndoor: real, targetIndoor: real): (r: Recommendation)
    ensures !r.reduce ==> r == NoReduction
    ensures r.reduce <==>
      && trend.Some?
      && trend.value.trend == SmhiWeather.Rising
      && CalculateAdjustment(trend.value.change, currentIndoor, targetIndoor) < 0.0
      && GetAffectedIndices(trend.value.currentTemp, trend.value.currentTemp + trend.value.change) != []
    ensures r.reduce ==>
      && r.delta == CalculateAdjustment(trend.value.change, currentIndoor, targetIndoor)
      && -MaxAdjustment <= r.delta <= -1.0
      && r.affectedIndices == GetAffectedIndices(trend.value.currentTemp, trend.value.currentTemp + trend.value.change)
      && r.durationHours == trend.value.forecastHours as real
      && r.confidence == Min(1.0, Abs(trend.value.change) / 5.0)
      && 0.0 <= r.confidence <= 1.0
  {
    match trend
    case None => NoReduction
    case Some(t) =>
      if t.trend != SmhiWeather.Rising then NoReduction
      else
        var delta := CalculateAdjustment(t.change, currentIndoor, targetIndoor);
        if delta >= 0.0 then NoReduction
        else
          var affected := GetAffectedIndices(t.currentTemp, t.currentTemp + t.change);
          if affected == [] then NoReduction
          else Recommendation(true, delta, t.forecastHours as real, affected, Min(1.0, Abs(t.change) / 5.0))
  }

  // -----------------------------------------------------------------------
  // Curve writes
  // -----------------------------------------------------------------------

  /** The reduced value of one curve point: never below the minimum supply temperature. */
  function ReducedValue(current: real, delta: real): (v: real)
    ensures v >= MinSupplyTemp
    ensures v >= current + delta
    ensures v == current + delta || v == MinSupplyTemp
  {
    Max(MinSupplyTemp, current + delta)
  }

  /** The `adjusted_values` dictionary: reduced values of the affected indices present in the curve. */
  function AdjustedValues(curve: map<int, real>, indices: seq<int>, delta: real): (m: map<int, real>)
    ensures forall i :: i in m <==> i in curve && i in indices
    ensures forall i :: i in m ==> m[i] == ReducedValue(curve[i], delta)
  {
    map i | i in curve && i in indices :: ReducedValue(curve[i], delta)
  }

  /** The keys of `adjusted_values` in insertion order: first occurrences of affected indices present in the curve. */
  function PointsToAdjust(curve: map<int, real>, indices: seq<int>): (r: seq<int>)
    ensures |r| <= |indices|
  {
    if indices == [] then []
    else
      var p := PointsToAdjust(curve, indices[..|indices| - 1]);
      var x := indices[|indices| - 1];
      if x in curve && x !in p then p + [x] else p
  }

  /** The points written are exactly the affected indices present in the curve, each once. */
  lemma {:induction false} PointsToAdjustMembers(curve: map<int, real>, indices: seq<int>)
    ensures var r := PointsToAdjust(curve, indices);
      && (forall i :: i in r <==> i in curve && i in indices)
      && (forall a, b :: 0 <= a < b < |r| ==> r[a] != r[b])
  {
    if indices != [] {
      var prefix, x := indices[..|indices| - 1], indices[|indices| - 1];
      PointsToAdjustMembers(curve, prefix);
      assert indices == prefix + [x];
    }
  }

  /**
   * The API curve after writing `values[i]` for each `i` of `points` in turn;
   * only the writes `writeOk` accepts take effect.
   */
  function ApplyWrites(device: map<int, real>, points: seq<int>, values: map<int, real>,
                       writeOk: (int, real) -> bool): map<int, real>
  {
    if points == [] then device
    else
      var i := points[|points| - 1];
      var before := ApplyWrites(device, points[..|points| - 1], values, writeOk);
      if Accepted(i, values, writeOk) then before[i := values[i]] else before
  }

  /** The write of point `i` (with its value from `values`) is accepted. */
  predicate Accepted(i: int, values: map<int, real>, writeOk: (int, real) -> bool)
  {
    i in values && writeOk(i, values[i])
  }

  /** The number of accepted writes. */
  function CountWritten(points: seq<int>, values: map<int, real>, writeOk: (int, real) -> bool): nat
  {
    if points == [] then 0
    else
      var i := points[|points| - 1];
      CountWritten(points[..|points| - 1], values, writeOk) + (if Accepted(i, values, writeOk) then 1 else 0)
  }

  /** Exactly the accepted writes change the API curve, each to its written value. */
  lemma {:induction false} ApplyWritesAt(device: map<int, real>, points: seq<int>, values: map<int, real>,
                                         writeOk: (int, real) -> bool, k: int)
    ensures var d := ApplyWrites(device, points, values, writeOk);
      if k in points && Accepted(k, values, writeOk) then k in d && d[k] == values[k]
      else (k in d <==> k in device) && (k in device ==> d[k] == device[k])
  {
    if points != [] {
      ApplyWritesAt(device, points[..|points| - 1], values, writeOk, k);
      assert points == points[..|points| - 1] + [points[|points| - 1]];
    }
  }

  /** Some write was accepted exactly when the count is positive. */
  lemma {:induction false} CountWrittenPositive(points: seq<int>, values: map<int, real>, writeOk: (int, real) -> bool)
    ensures CountWritten(points, values, writeOk) > 0 <==>
      exists j :: 0 <= j < |points| && Accepted(points[j], values, writeOk)
  {
    if points != [] {
      var n := |points| - 1;
      CountWrittenPositive(points[..n], values, writeOk);
      if !Accepted(points[n], values, writeOk) {
        assert (exists j :: 0 <= j < |points| && Accepted(points[j], values, writeOk)) ==>
               (exists j :: 0 <= j < n && Accepted(points[..n][j], values, writeOk));
      }
    }
  }

  /**
   * Round trip of a reduction: when every write is accepted, reducing the
   * affected points and then writing back a baseline equal to the curve read
   * at entry leaves every affected point at its original value and every
   * other point as it was.
   */
  lemma RestoreUndoesReduction(curve: map<int, real>, device: map<int, real>, affected: seq<int>,
                               delta: real, writeOk: (int, real) -> bool, k: int)
    requires forall i, v :: writeOk(i, v)
    ensures var values := AdjustedValues(curve, affected, delta);
      var points := PointsToAdjust(curve, affected);
      var reduced := ApplyWrites(device, points, values, writeOk);
      var restored := ApplyWrites(reduced, RestorePoints(affected, curve), curve, writeOk);
      (k in curve && k in affected ==> k in restored && restored[k] == curve[k]) &&
      (k !in affected ==> (k in restored <==> k in device) && (k in device ==> restored[k] == device[k]))
  {
    var values := AdjustedValues(curve, affected, delta);
    var points := PointsToAdjust(curve, affected);
    var reduced := ApplyWrites(device, points, values, writeOk);
    ApplyWritesAt(device, points, values, writeOk, k);
    ApplyWritesAt(reduced, RestorePoints(affected, curve), curve, writeOk, k);
  }

  /** The indices `exit_reduction_mode` writes back: the adjusted ones present in the baseline, in order. */
  function RestorePoints(adjusted: seq<int>, baseline: map<int, real>): (r: seq<int>)
    ensures forall k :: 0 <= k < |r| ==> r[k] in baseline
    ensures forall i :: i in r <==> i in adjusted && i in baseline
  {
    if adjusted == [] then []
    else
      var rest := RestorePoints(adjusted[1..], baseline);
      if adjusted[0] in baseline then [adjusted[0]] + rest else rest
  }

  /** The first loop of `enter_reduction_mode`: builds `adjusted_values` over the affected indices. */
  method BuildAdjustedValues(currentCurve: map<int, real>, affectedIndices: seq<int>, delta: real)
    returns (adjusted: map<int, real>, order: seq<int>)
    ensures adjusted == AdjustedValues(currentCurve, affectedIndices, delta)
    ensures order == PointsToAdjust(currentCurve, affectedIndices)
  {
    adjusted, order := map[], [];
    var j := 0;
    while j < |affectedIndices|
      invariant 0 <= j <= |affectedIndices|
      invariant adjusted == AdjustedValues(currentCurve, affectedIndices[..j], delta)
      invariant order == PointsToAdjust(currentCurve, affectedIndices[..j])
    {
      var index := affectedIndices[j];
      assert affectedIndices[..j + 1][..j] == affectedIndices[..j];
      if index in currentCurve {
        if index !in order {
          order := order + [index];
        }
        adjusted := adjusted[index := ReducedValue(currentCurve[index], delta)];
      }
      j := j + 1;
    }
    assert affectedIndices[..j] == affectedIndices;
  }

  /** A write loop over curve points: each accepted write updates the API curve and is counted. */
  method WriteCurvePoints(device: map<int, real>, points: seq<int>, values: map<int, real>,
                          writeOk: (int, real) -> bool) returns (newDevice: map<int, real>, successCount: nat)
    ensures newDevice == ApplyWrites(device, points, values, writeOk)
    ensures successCount == CountWritten(points, values, writeOk)
  {
    newDevice, successCount := device, 0;
    var k := 0;
    while k < |points|
      invariant 0 <= k <= |points|
      invariant successCount == CountWritten(points[..k], values, writeOk)
      invariant newDevice == ApplyWrites(device, points[..k], values, writeOk)
    {
      var index := points[k];
      assert points[..k + 1][..k] == points[..k];
      if Accepted(index, values, writeOk) {
        newDevice := newDevice[index := values[index]];
        successCount := successCount + 1;
      }
      k := k + 1;
    }
    assert points[..k] == points;
  }

  // -----------------------------------------------------------------------
  // The controller
  // -----------------------------------------------------------------------

  class HeatCurveController {
    var adjustmentActive: bool
    var adjustmentStartedAt: Option<int>
    var adjustmentExpiresAt: Option<real>
    var adjustedIndices: seq<int>
    var adjustmentDelta: real
    /** The most recent baseline stored in InfluxDB; empty when none is stored. */
    var storedBaseline: map<int, real>
    /** The Y values the HomeSide API currently holds. */
    var deviceCurve: map<int, real>

    /** While a reduction is active the start and expiry times are known; otherwise the state is clear. */
    ghost predicate Valid()
      reads this
    {
      adjustmentActive == (adjustmentStartedAt.Some? && adjustmentExpiresAt.Some?) &&
      (!adjustmentActive ==> adjustmentStartedAt.None? && adjustmentExpiresAt.None? &&
                             adjustedIndices == [] && adjustmentDelta == 0.0)
    }

    constructor (baseline: map<int, real>, device: map<int, real>)
      ensures Valid() && !adjustmentActive
      ensures storedBaseline == baseline && deviceCurve == device
    {
      adjustmentActive := false;
      adjustmentStartedAt := None;
      adjustmentExpiresAt := None;
      adjustedIndices := [];
      adjustmentDelta := 0.0;
      storedBaseline := baseline;
      deviceCurve := device;
    }

    /**
     * `enter_reduction_mode`. Refuses when a reduction is already active.
     * Otherwise stores `currentCurve` as the baseline when it differs from the
     * stored one (the store needs a non-empty curve and a write InfluxDB
     * accepts), writes the reduced value of every affected point present in
     * the curve, and enters the reduction state only when at least one write
     * was accepted.
     */
    method EnterReductionMode(currentCurve: map<int, real>, affectedIndices: seq<int>, delta: real,
                              durationHours: real, now: int, baselineWriteOk: bool,
                              writeOk: (int, real) -> bool) returns (success: bool)
      requires Valid()
      modifies this
      ensures Valid()
      ensures old(adjustmentActive) ==> !success && unchanged(this)
      ensures !old(adjustmentActive) ==>
        && storedBaseline == (if currentCurve != map[] && baselineWriteOk then currentCurve else old(storedBaseline))
        && deviceCurve == ApplyWrites(old(deviceCurve), PointsToAdjust(currentCurve, affectedIndices),
                                      AdjustedValues(currentCurve, affectedIndices, delta), writeOk)
        && (success <==> CountWritten(PointsToAdjust(currentCurve, affectedIndices),
                                      AdjustedValues(currentCurve, affectedIndices, delta), writeOk) > 0)
      ensures !old(adjustmentActive) && success ==>
        && adjustmentActive
        && adjustmentStartedAt == Some(now)
        && adjustmentExpiresAt == Some(now as real + durationHours * 3600.0)
        && adjustedIndices == affectedIndices
        && adjustmentDelta == delta
      ensures !success ==>
        && adjustmentActive == old(adjustmentActive)
        && adjustmentStartedAt == old(adjustmentStartedAt)
        && adjustmentExpiresAt == old(adjustmentExpiresAt)
        && adjustedIndices == old(adjustedIndices)
        && adjustmentDelta == old(adjustmentDelta)
    {
      if adjustmentActive {
        success := false;
      } else {
        // A baseline equal to the stored one is not rewritten; either way the
        // stored baseline ends up equal to the curve once a write goes through.
        if currentCurve != map[] && baselineWriteOk {
          storedBaseline := currentCurve;
        }
        var adjusted, order := BuildAdjustedValues(currentCurve, affectedIndices, delta);
        var newDevice, successCount := WriteCurvePoints(deviceCurve, order, adjusted, writeOk);
        deviceCurve := newDevice;
        success := successCount > 0;
        if success {
          adjustmentActive, adjustmentStartedAt := true, Some(now);
          adjustmentExpiresAt := Some(now as real + durationHours * 3600.0);
          adjustedIndices, adjustmentDelta := affectedIndices, delta;
        }
      }
    }

    /**
     * `exit_reduction_mode`. Nothing to do when no reduction is active; fails
     * without a stored baseline; otherwise writes the baseline value of every
     * adjusted index the baseline holds and clears the reduction state, even
     * when some of those writes were refused.
     */
    method ExitReductionMode(writeOk: (int, real) -> bool) returns (success: bool)
      requires Valid()
      modifies this
      ensures Valid()
      ensures !old(adjustmentActive) ==> success && unchanged(this)
      ensures old(adjustmentActive) && old(storedBaseline) == map[] ==> !success && unchanged(this)
      ensures old(adjustmentActive) && old(storedBaseline) != map[] ==>
        && success
        && !adjustmentActive
        && deviceCurve == ApplyWrites(old(deviceCurve), RestorePoints(old(adjustedIndices), storedBaseline),
                                      storedBaseline, writeOk)
      ensures storedBaseline == old(storedBaseline)
    {
      if !adjustmentActive {
        return true;
      }
      if storedBaseline == map[] {
        return false;
      }
      var points := RestorePoints(adjustedIndices, storedBaseline);
      var restored;
      deviceCurve, restored := WriteCurvePoints(deviceCurve, points, storedBaseline, writeOk);
      adjustmentActive := false;
      adjustmentStartedAt := None;
      adjustmentExpiresAt := None;
      adjustedIndices := [];
      adjustmentDelta := 0.0;
      success := true;
    }

    /**
     * `check_expiration`: restores the curve (and reports the outcome of the
     * restore) only when a reduction is active and its expiry time is reached.
     */
    method CheckExpiration(now: int, writeOk: (int, real) -> bool) returns (expired: bool)
      requires Valid()
      modifies this
      ensures Valid()
      ensures !old(adjustmentActive) ==> !expired && unchanged(this)
      ensures old(adjustmentActive) && (now as real) < old(adjustmentExpiresAt).value ==> !expired && unchanged(this)
      ensures old(adjustmentActive) && (now as real) >= old(adjustmentExpiresAt).value ==>
        && (expired <==> old(storedBaseline) != map[])
        && (expired ==> !adjustmentActive && storedBaseline == old(storedBaseline)
                        && deviceCurve == ApplyWrites(old(deviceCurve), RestorePoints(old(adjustedIndices), old(storedBaseline)),
                                                      old(storedBaseline), writeOk))
        && (!expired ==> unchanged(this))
    {
      if !adjustmentActive {
        return false;
      }
      if now as real >= adjustmentExpiresAt.value {
        expired := ExitReductionMode(writeOk);
        return;
      }
      return false;
    }
  }
}
