/**
 * Finding and filling holes in the stored history of a house: the gaps
 * between stored timestamps that exceed twice the expected interval, the
 * filling of a time range from the points fetched from Arrigo (skipping
 * timestamps that already hold real data or lack the core fields), and the
 * quality status given to each discovered signal after a bootstrap.
 *
 * Times are whole seconds since the epoch.  The results of InfluxDB
 * queries and of the Arrigo fetch are parameters; the points handed to
 * InfluxDB are results.
 */
module GapFilling {
  import opened Common

  // ---------------------------------------------------------------------
  // Sorted distinct timestamps
  // ---------------------------------------------------------------------

  predicate StrictlyIncreasing(s: seq<int>)
  {
    forall i, j :: 0 <= i < j < |s| ==> s[i] < s[j]
  }

  /** `x` put in its place in a strictly increasing sequence, unless already there. */
  function InsertDistinct(x: int, s: seq<int>): (r: seq<int>)
    requires StrictlyIncreasing(s)
    ensures StrictlyIncreasing(r)
    ensures forall y :: y in r <==> y == x || y in s
  {
    if s == [] then [x]
    else if x < s[0] then [x] + s
    else if x == s[0] then s
    else
      var rest := InsertDistinct(x, s[1..]);
      assert forall y :: y in s[1..] ==> s[0] < y by {
        forall y | y in s[1..] ensures s[0] < y {
          var k :| 0 <= k < |s[1..]| && s[1..][k] == y;
          assert s[k + 1] == y;
        }
      }
      assert forall k :: 0 <= k < |rest| ==> s[0] < rest[k] by {
        forall k | 0 <= k < |rest| ensures s[0] < rest[k] {
          assert rest[k] in rest;
        }
      }
      [s[0]] + rest
  }

  /** `sorted(set(timestamps))`. */
  function SortedDistinct(raw: seq<int>): (ts: seq<int>)
    ensures StrictlyIncreasing(ts)
    ensures forall t :: t in ts <==> t in raw
  {
    if raw == [] then []
    else
      var n := |raw| - 1;
      assert raw == raw[..n] + [raw[n]];
      InsertDistinct(raw[n], SortedDistinct(raw[..n]))
  }

  // ---------------------------------------------------------------------
  // Gaps
  // ---------------------------------------------------------------------

  datatype Gap = Gap(start: int, stop: int)

  /** Gaps are spans longer than twice the expected interval, in seconds. */
  function GapThreshold(intervalMinutes: int): int
  {
    intervalMinutes * 2 * 60
  }

  /** The gaps between consecutive timestamps, in order. */
  function PairGaps(ts: seq<int>, threshold: int): (gaps: seq<Gap>)
    ensures forall g :: g in gaps <==>
      exists i :: 0 < i < |ts| && g == Gap(ts[i - 1], ts[i]) && ts[i] - ts[i - 1] > threshold
  {
    if |ts| < 2 then []
    else
      var n := |ts| - 1;
      var before := PairGaps(ts[..n], threshold);
      assert forall i :: 0 <= i < n ==> ts[..n][i] == ts[i];
      before + (if ts[n] - ts[n - 1] > threshold then [Gap(ts[n - 1], ts[n])] else [])
  }

  /** Extending the prefix by one timestamp adds at most the gap before it. */
  lemma PairGapsStep(ts: seq<int>, i: nat, threshold: int)
    requires 1 <= i < |ts|
    ensures PairGaps(ts[..i + 1], threshold) ==
      PairGaps(ts[..i], threshold) + (if ts[i] - ts[i - 1] > threshold then [Gap(ts[i - 1], ts[i])] else [])
  {
    assert ts[..i + 1][..i] == ts[..i];
    assert ts[..i + 1][i] == ts[i] && ts[..i + 1][i - 1] == ts[i - 1];
  }

  function StartGap(ts: seq<int>, startTime: int, threshold: int): seq<Gap>
    requires ts != []
  {
    if ts[0] - startTime > threshold then [Gap(startTime, ts[0])] else []
  }

  function EndGap(ts: seq<int>, endTime: int, threshold: int): seq<Gap>
    requires ts != []
  {
    if endTime - ts[|ts| - 1] > threshold then [Gap(ts[|ts| - 1], endTime)] else []
  }

  /** The gaps of a range given its sorted distinct timestamps. */
  function Gaps(ts: seq<int>, startTime: int, endTime: int, threshold: int): seq<Gap>
  {
    if ts == [] then [Gap(startTime, endTime)]
    else StartGap(ts, startTime, threshold) + PairGaps(ts, threshold) + EndGap(ts, endTime, threshold)
  }

  /** Each gap ends no later than the next one starts. */
  predicate Ordered(gaps: seq<Gap>)
  {
    forall a, b :: 0 <= a < b < |gaps| ==> gaps[a].stop <= gaps[b].start
  }

  /** The gaps between timestamps lie between the first and the last timestamp and run forward. */
  lemma PairGapsBounds(ts: seq<int>, threshold: int)
    requires StrictlyIncreasing(ts)
    ensures forall g :: g in PairGaps(ts, threshold) ==> ts[0] <= g.start < g.stop <= ts[|ts| - 1]
  {
    forall g | g in PairGaps(ts, threshold) ensures ts[0] <= g.start < g.stop <= ts[|ts| - 1] {
      var i :| 0 < i < |ts| && g == Gap(ts[i - 1], ts[i]) && ts[i] - ts[i - 1] > threshold;
      assert ts[0] <= ts[i - 1] && ts[i] <= ts[|ts| - 1];
    }
  }

  /** The gaps between timestamps come in order and do not overlap. */
  lemma {:induction false} PairGapsOrdered(ts: seq<int>, threshold: int)
    requires StrictlyIncreasing(ts)
    ensures Ordered(PairGaps(ts, threshold))
  {
    if |ts| >= 2 {
      var n := |ts| - 1;
      var prefix := ts[..n];
      PairGapsOrdered(prefix, threshold);
      PairGapsBounds(prefix, threshold);
      var before := PairGaps(prefix, threshold);
      assert prefix[n - 1] == ts[n - 1];
      var gaps := PairGaps(ts, threshold);
      forall a, b | 0 <= a < b < |gaps| ensures gaps[a].stop <= gaps[b].start {
        if b >= |before| {
          assert gaps[a] in before;
        } else {
          assert gaps[a] == before[a] && gaps[b] == before[b];
        }
      }
    }
  }

  lemma ConcatOrdered(a: seq<Gap>, b: seq<Gap>)
    requires Ordered(a) && Ordered(b)
    requires forall x, y :: x in a && y in b ==> x.stop <= y.start
    ensures Ordered(a + b)
  {
    var c := a + b;
    forall i, j | 0 <= i < j < |c| ensures c[i].stop <= c[j].start {
      if i < |a| && j >= |a| {
        assert c[i] in a && c[j] == b[j - |a|] && b[j - |a|] in b;
      } else if i >= |a| {
        assert c[i] == b[i - |a|] && c[j] == b[j - |a|];
      }
    }
  }

  /** The gaps of a range come in order and do not overlap. */
  lemma GapsOrdered(ts: seq<int>, startTime: int, endTime: int, threshold: int)
    requires StrictlyIncreasing(ts)
    ensures Ordered(Gaps(ts, startTime, endTime, threshold))
  {
    if ts != [] {
      PairGapsOrdered(ts, threshold);
      PairGapsBounds(ts, threshold);
      var s, p, e := StartGap(ts, startTime, threshold), PairGaps(ts, threshold), EndGap(ts, endTime, threshold);
      assert forall x :: x in s ==> x.stop == ts[0];
      ConcatOrdered(s, p);
      assert ts[0] <= ts[|ts| - 1];
      assert forall y :: y in e ==> y.start == ts[|ts| - 1];
      ConcatOrdered(s + p, e);
    }
  }

  /**
   * With timestamps inside the range, every gap lies within it; once there
   * is data, every gap spans more than the threshold.
   */
  lemma GapsInRange(ts: seq<int>, startTime: int, endTime: int, threshold: int)
    requires StrictlyIncreasing(ts) && startTime <= endTime
    requires forall t :: t in ts ==> startTime <= t <= endTime
    ensures forall g :: g in Gaps(ts, startTime, endTime, threshold) ==> startTime <= g.start <= g.stop <= endTime
    ensures ts != [] ==> forall g :: g in Gaps(ts, startTime, endTime, threshold) ==> g.stop - g.start > threshold
  {
    if ts != [] {
      PairGapsBounds(ts, threshold);
      assert ts[0] in ts && ts[|ts| - 1] in ts;
      forall g | g in PairGaps(ts, threshold) ensures g.stop - g.start > threshold {
        var i :| 0 < i < |ts| && g == Gap(ts[i - 1], ts[i]) && ts[i] - ts[i - 1] > threshold;
      }
    }
  }

  /** Once there is data, the gaps are exactly the long edges and the long spans between neighbours. */
  lemma GapsMeaning(ts: seq<int>, startTime: int, endTime: int, threshold: int, g: Gap)
    requires ts != []
    ensures g in Gaps(ts, startTime, endTime, threshold) <==>
      || (g == Gap(startTime, ts[0]) && ts[0] - startTime > threshold)
      || (exists i :: 0 < i < |ts| && g == Gap(ts[i - 1], ts[i]) && ts[i] - ts[i - 1] > threshold)
      || (g == Gap(ts[|ts| - 1], endTime) && endTime - ts[|ts| - 1] > threshold)
  {
  }

  /**
   * `find_gaps`: the timestamps the query returned, sorted without
   * duplicates, then the gap at the start, the gaps between neighbours and
   * the gap at the end.  A failed query (None) reports no gaps.
   */
  method FindGaps(queried: Option<seq<int>>, startTime: int, endTime: int, intervalMinutes: int)
    returns (gaps: seq<Gap>)
    ensures queried.None? ==> gaps == []
    ensures queried.Some? ==>
      gaps == Gaps(SortedDistinct(queried.value), startTime, endTime, GapThreshold(intervalMinutes))
  {
    if queried.None? {
      return [];
    }
    var ts := SortedDistinct(queried.value);
    if ts == [] {
      return [Gap(startTime, endTime)];
    }
    var threshold := GapThreshold(intervalMinutes);
    gaps := StartGap(ts, startTime, threshold);
    for i := 1 to |ts|
      invariant gaps == StartGap(ts, startTime, threshold) + PairGaps(ts[..i], threshold)
    {
      PairGapsStep(ts, i, threshold);
      if ts[i] - ts[i - 1] > threshold {
        gaps := gaps + [Gap(ts[i - 1], ts[i])];
      }
    }
    assert ts[..|ts|] == ts;
    if endTime - ts[|ts| - 1] > threshold {
      gaps := gaps + [Gap(ts[|ts| - 1], endTime)];
    }
  }

  /** `detect_weather_gaps`: the same gaps over the weather observations, its loop indexing from the left neighbour. */
  method DetectWeatherGaps(queried: Option<seq<int>>, startTime: int, endTime: int, intervalMinutes: int)
    returns (gaps: seq<Gap>)
    ensures queried.None? ==> gaps == []
    ensures queried.Some? ==>
      gaps == Gaps(SortedDistinct(queried.value), startTime, endTime, GapThreshold(intervalMinutes))
  {
    if queried.None? {
      return [];
    }
    var ts := SortedDistinct(queried.value);
    if ts == [] {
      return [Gap(startTime, endTime)];
    }
    var threshold := GapThreshold(intervalMinutes);
    gaps := StartGap(ts, startTime, threshold);
    for i := 0 to |ts| - 1
      invariant gaps == StartGap(ts, startTime, threshold) + PairGaps(ts[..i + 1], threshold)
    {
      PairGapsStep(ts, i + 1, threshold);
      if ts[i + 1] - ts[i] > threshold {
        gaps := gaps + [Gap(ts[i], ts[i + 1])];
      }
    }
    assert ts[..|ts|] == ts;
    if endTime - ts[|ts| - 1] > threshold {
      gaps := gaps + [Gap(ts[|ts| - 1], endTime)];
    }
  }

  // ---------------------------------------------------------------------
  // Filling a time range
  // ---------------------------------------------------------------------

  /** One historical value fetched from Arrigo. */
  datatype SignalPoint = SignalPoint(timestamp: int, field: string, value: real)

  type Fields = map<string, real>

  /** The fetched points by timestamp; a later point for the same field replaces an earlier one. */
  function GroupByTime(raw: seq<SignalPoint>): (m: map<int, Fields>)
    ensures forall p :: p in raw ==> p.timestamp in m && p.field in m[p.timestamp]
    ensures raw != [] ==> m[raw[|raw| - 1].timestamp][raw[|raw| - 1].field] == raw[|raw| - 1].value
  {
    if raw == [] then map[]
    else
      var n := |raw| - 1;
      var m := GroupByTime(raw[..n]);
      assert raw == raw[..n] + [raw[n]];
      var p := raw[n];
      var fields := if p.timestamp in m then m[p.timestamp] else map[];
      m[p.timestamp := fields[p.field := p.value]]
  }

  /** No timestamp is grouped that no point carries. */
  lemma {:induction false} GroupByTimeKeys(raw: seq<SignalPoint>)
    ensures forall t :: t in GroupByTime(raw) <==> exists p :: p in raw && p.timestamp == t
  {
    if raw != [] {
      var n := |raw| - 1;
      GroupByTimeKeys(raw[..n]);
      assert raw == raw[..n] + [raw[n]];
    }
  }

  /** The loop of `fill_time_range` grouping the fetched points by timestamp. */
  method GroupPoints(raw: seq<SignalPoint>) returns (data: map<int, Fields>)
    ensures data == GroupByTime(raw)
  {
    data := map[];
    for i := 0 to |raw|
      invariant data == GroupByTime(raw[..i])
    {
      assert raw[..i + 1][..i] == raw[..i];
      var p := raw[i];
      var fields := if p.timestamp in data then data[p.timestamp] else map[];
      data := data[p.timestamp := fields[p.field := p.value]];
    }
    assert raw[..|raw|] == raw;
  }

  /** The timestamps of the fetched points that lie in the target range, repeats included. */
  function TimesInRange(raw: seq<SignalPoint>, startTime: int, endTime: int): (ts: seq<int>)
    ensures forall t :: t in ts <==> (exists p :: p in raw && p.timestamp == t) && startTime <= t <= endTime
  {
    if raw == [] then []
    else
      var n := |raw| - 1;
      assert raw == raw[..n] + [raw[n]];
      var t := raw[n].timestamp;
      TimesInRange(raw[..n], startTime, endTime) + (if startTime <= t <= endTime then [t] else [])
  }

  /** The fields whose non-zero existing value marks a timestamp as already filled. */
  const FilledFields: seq<string> := ["room_temperature", "outdoor_temperature", "supply_temp"]

  /** Existing data is real when one of those fields is present and non-zero. */
  predicate HasRealData(existing: Fields)
  {
    exists f :: f in FilledFields && f in existing && existing[f] != 0.0
  }

  /** A point can be written only with both the room and the outdoor temperature. */
  predicate Complete(fields: Fields)
  {
    "room_temperature" in fields && "outdoor_temperature" in fields
  }

  datatype FillAction = SkipExisting | SkipIncomplete | WriteFailed | Write

  /** What happens to one timestamp; `writeOk` says whether InfluxDB accepts its points. */
  function Action(t: int, fields: Fields, existing: map<int, Fields>, skipExisting: bool, dryRun: bool,
                  writeOk: int -> bool): FillAction
  {
    if skipExisting && t in existing && HasRealData(existing[t]) then SkipExisting
    else if !Complete(fields) then SkipIncomplete
    else if !dryRun && !writeOk(t) then WriteFailed
    else Write
  }

  function Get(fields: Fields, f: string): Option<real>
  {
    if f in fields then Some(fields[f]) else None
  }

  /** The points written for one timestamp. */
  datatype OutPoint =
    | Thermal(time: int, room: real, outdoor: real, supply: Option<real>, returnTemp: Option<real>)
    | Heating(time: int, fields: Fields)

  function PointsAt(t: int, fields: Fields): (ps: seq<OutPoint>)
    requires Complete(fields)
    ensures forall p :: p in ps ==> p.time == t
  {
    [Thermal(t, fields["room_temperature"], fields["outdoor_temperature"], Get(fields, "supply_temp"),
             Get(fields, "return_temp")),
     Heating(t, fields)]
  }

  datatype FillResult = FillResult(written: nat, skipped: nat, errors: nat, points: seq<OutPoint>)

  /** The counts and points of filling the given timestamps, in order. */
  function FillAll(times: seq<int>, data: map<int, Fields>, existing: map<int, Fields>, skipExisting: bool,
                   dryRun: bool, writeOk: int -> bool): FillResult
    requires forall t :: t in times ==> t in data
  {
    if times == [] then FillResult(0, 0, 0, [])
    else
      var n := |times| - 1;
      assert forall t :: t in times[..n] ==> t in times;
      var r := FillAll(times[..n], data, existing, skipExisting, dryRun, writeOk);
      var t := times[n];
      match Action(t, data[t], existing, skipExisting, dryRun, writeOk)
      case SkipExisting => r.(skipped := r.skipped + 1)
      case SkipIncomplete => r.(skipped := r.skipped + 1)
      case WriteFailed => r.(errors := r.errors + 1)
      case Write => r.(written := r.written + 1, points := r.points + (if dryRun then [] else PointsAt(t, data[t])))
  }

  /** Every timestamp is written, skipped or counted as an error; a dry run writes no point and has no error. */
  lemma {:induction false} FillCounts(times: seq<int>, data: map<int, Fields>, existing: map<int, Fields>,
                                      skipExisting: bool, dryRun: bool, writeOk: int -> bool)
    requires forall t :: t in times ==> t in data
    ensures var r := FillAll(times, data, existing, skipExisting, dryRun, writeOk);
      && r.written + r.skipped + r.errors == |times|
      && (dryRun ==> r.errors == 0 && r.points == [])
      && (!dryRun ==> |r.points| == 2 * r.written)
  {
    if times != [] {
      var n := |times| - 1;
      assert forall t :: t in times[..n] ==> t in times;
      FillCounts(times[..n], data, existing, skipExisting, dryRun, writeOk);
    }
  }

  /**
   * A point is written only for a timestamp that has the room and the
   * outdoor temperature and, when existing data is respected, holds no
   * real data yet.
   */
  lemma {:induction false} FillRespectsExisting(times: seq<int>, data: map<int, Fields>, existing: map<int, Fields>,
                                                skipExisting: bool, dryRun: bool, writeOk: int -> bool)
    requires forall t :: t in times ==> t in data
    ensures forall p :: p in FillAll(times, data, existing, skipExisting, dryRun, writeOk).points ==>
      && p.time in times && Complete(data[p.time])
      && !(skipExisting && p.time in existing && HasRealData(existing[p.time]))
  {
    if times != [] {
      var n := |times| - 1;
      assert forall t :: t in times[..n] ==> t in times;
      FillRespectsExisting(times[..n], data, existing, skipExisting, dryRun, writeOk);
    }
  }

  /**
   * `fill_time_range`: without an Arrigo connection one error; otherwise
   * the fetched points grouped by timestamp, kept inside the range, and
   * each timestamp in ascending order skipped, written or counted as an
   * error.
   */
  method FillTimeRange(startTime: int, endTime: int, arrigoReady: bool, raw: seq<SignalPoint>,
                       existing: map<int, Fields>, dryRun: bool, skipExisting: bool, writeOk: int -> bool)
    returns (result: FillResult)
    ensures !arrigoReady ==> result == FillResult(0, 0, 1, [])
    ensures arrigoReady ==>
      && (forall t :: t in SortedDistinct(TimesInRange(raw, startTime, endTime)) ==> t in GroupByTime(raw))
      && result == FillAll(SortedDistinct(TimesInRange(raw, startTime, endTime)), GroupByTime(raw), existing,
                           skipExisting, dryRun, writeOk)
  {
    if !arrigoReady {
      return FillResult(0, 0, 1, []);
    }
    if raw == [] {
      return FillResult(0, 0, 0, []);
    }
    var data := GroupPoints(raw);
    var times := SortedDistinct(TimesInRange(raw, startTime, endTime));
    result := FillTimes(times, data, existing, skipExisting, dryRun, writeOk);
  }

  /** The loop of `fill_time_range` over the sorted timestamps. */
  method FillTimes(times: seq<int>, data: map<int, Fields>, existing: map<int, Fields>, skipExisting: bool,
                   dryRun: bool, writeOk: int -> bool) returns (result: FillResult)
    requires forall t :: t in times ==> t in data
    ensures result == FillAll(times, data, existing, skipExisting, dryRun, writeOk)
  {
    result := FillResult(0, 0, 0, []);
    for i := 0 to |times|
      invariant result == FillAll(times[..i], data, existing, skipExisting, dryRun, writeOk)
    {
      assert times[..i + 1][..i] == times[..i];
      var t := times[i];
      var fields := data[t];
      if skipExisting && t in existing && HasRealData(existing[t]) {
        result := result.(skipped := result.skipped + 1);
      } else if !Complete(fields) {
        result := result.(skipped := result.skipped + 1);
      } else if !dryRun && !writeOk(t) {
        result := result.(errors := result.errors + 1);
      } else {
        if !dryRun {
          result := result.(points := result.points + PointsAt(t, fields));
        }
        result := result.(written := result.written + 1);
      }
    }
    assert times[..|times|] == times;
  }

  // ---------------------------------------------------------------------
  // Signal quality after a bootstrap
  // ---------------------------------------------------------------------

  datatype Status = NoData | AlwaysZero | ConstantSetpoint | Stale | LowCoverage | Healthy

  /** Signals expected not to vary. */
  const NonVaryingSignals: set<string> := {"target_temp_setpoint", "supply_setpoint", "outdoor_temp_24h_avg"}

  /** The core signals of a house. */
  const HouseCoreSignals: set<string> := {"outdoor_temperature", "room_temperature", "supply_temp", "return_temp"}

  const FlatStddev: real := 0.01

  const LowCoveragePct: real := 20.0

  /** A setpoint: listed as non-varying, or named so in any case. */
  predicate IsSetpoint(fieldName: string)
  {
    fieldName in NonVaryingSignals || Contains(Lower(fieldName), "setpoint")
  }

  /** Rounded spread of a signal's values; all None without values. */
  datatype Stats = Stats(stddev: Option<real>, mean: Option<real>, min: Option<real>, max: Option<real>)

  /** Python's `round(x, digits)`. */
  type Round = (real, nat) -> real

  /** `statistics.stdev` (defined for two values or more). */
  type Stdev = seq<real> -> real

  function StatsOf(values: seq<real>, stdev: Stdev, round: Round): (s: Stats)
    ensures s.stddev.None? <==> values == []
    ensures s.stddev.None? ==> s == Stats(None, None, None, None)
    ensures |values| == 1 ==> s == Stats(Some(0.0), Some(round(values[0], 2)), Some(round(values[0], 2)), Some(round(values[0], 2)))
  {
    if |values| > 1 then
      Stats(Some(round(stdev(values), 4)), Some(round(Mean(values), 2)), Some(round(MinOf(values), 2)),
            Some(round(MaxOf(values), 2)))
    else if |values| == 1 then
      var m := round(values[0], 2);
      Stats(Some(0.0), Some(m), Some(m), Some(m))
    else Stats(None, None, None, None)
  }

  /** The signal barely varies. */
  predicate Flat(stats: Stats)
  {
    stats.stddev.Some? && stats.stddev.value < FlatStddev
  }

  /** The status rules, first match wins: no data, always zero, constant setpoint or stale, low coverage, ok. */
  function SignalStatus(count: nat, stats: Stats, coveragePct: real, fieldName: string): (r: Status)
    ensures r == NoData <==> count == 0
    ensures r == AlwaysZero <==> count > 0 && Flat(stats) && stats.mean == Some(0.0)
    ensures r == ConstantSetpoint <==> count > 0 && Flat(stats) && stats.mean != Some(0.0) && IsSetpoint(fieldName)
    ensures r == Stale <==> count > 0 && Flat(stats) && stats.mean != Some(0.0) && !IsSetpoint(fieldName)
    ensures r == LowCoverage <==> count > 0 && !Flat(stats) && coveragePct < LowCoveragePct
    ensures r == Healthy <==> count > 0 && !Flat(stats) && coveragePct >= LowCoveragePct
  {
    if count == 0 then NoData
    else if Flat(stats) && stats.mean == Some(0.0) then AlwaysZero
    else if Flat(stats) then (if IsSetpoint(fieldName) then ConstantSetpoint else Stale)
    else if coveragePct < LowCoveragePct then LowCoverage
    else Healthy
  }

  /** Whether a signal with this status is fetched from now on. */
  predicate Fetched(status: Status)
  {
    status == ConstantSetpoint || status == LowCoverage || status == Healthy
  }

  /** A signal is dropped exactly when it had no points, or barely varied while zero or while no setpoint. */
  lemma DroppedSignals(count: nat, stats: Stats, coveragePct: real, fieldName: string)
    ensures !Fetched(SignalStatus(count, stats, coveragePct, fieldName)) <==>
      count == 0 || (Flat(stats) && (stats.mean == Some(0.0) || !IsSetpoint(fieldName)))
  {
  }

  /** A signal seen in one value only counts as flat: always zero, a constant setpoint, or stale. */
  lemma SingleValueIsFlat(value: real, count: nat, coveragePct: real, fieldName: string, stdev: Stdev, round: Round)
    requires count > 0
    ensures SignalStatus(count, StatsOf([value], stdev, round), coveragePct, fieldName) in {AlwaysZero, ConstantSetpoint, Stale}
  {
  }

  /** A signal with points counted but no values fetched is judged by its coverage alone, and fetched. */
  lemma NoValuesJudgedByCoverage(count: nat, coveragePct: real, fieldName: string, stdev: Stdev, round: Round)
    requires count > 0
    ensures var status := SignalStatus(count, StatsOf([], stdev, round), coveragePct, fieldName);
      && (status == LowCoverage <==> coveragePct < LowCoveragePct)
      && Fetched(status)
  {
  }

  /** The number of expected points: days times hours times points per hour. */
  function ExpectedSlots(days: nat, resolutionMinutes: nat): nat
    requires resolutionMinutes > 0
  {
    days * 24 * (60 / resolutionMinutes)
  }

  /** Percentage of the expected points present, rounded to one decimal; zero when none are expected. */
  function Coverage(count: nat, expectedSlots: nat, round: Round): real
  {
    if expectedSlots > 0 then round(count as real / expectedSlots as real * 100.0, 1) else 0.0
  }

  /** A signal found during the bootstrap. */
  datatype SignalInfo = SignalInfo(signalId: string, fieldName: string, arrigoName: string, unit: string,
                                   currentValue: Option<real>)

  datatype SignalMeta = SignalMeta(signalId: string, fieldName: string, unit: string, isCore: bool, fetch: bool,
                                   status: Status, discoveredValue: Option<real>, points: nat, coveragePct: real,
                                   stats: Stats)

  /** The values of one field over the fetched rows, in row order. */
  function FieldValues(rows: seq<Fields>, field: string): (vs: seq<real>)
    ensures |vs| <= |rows|
    ensures forall v :: v in vs ==> exists row :: row in rows && field in row && row[field] == v
  {
    if rows == [] then []
    else
      var n := |rows| - 1;
      assert rows == rows[..n] + [rows[n]];
      FieldValues(rows[..n], field) + (if field in rows[n] then [rows[n][field]] else [])
  }

  function CountOf(signalStats: map<string, nat>, field: string): nat
  {
    if field in signalStats then signalStats[field] else 0
  }

  /** The metadata entry of one signal. */
  function MetaOf(info: SignalInfo, rows: seq<Fields>, signalStats: map<string, nat>, expectedSlots: nat,
                  coreSignals: set<string>, stdev: Stdev, round: Round): (m: SignalMeta)
    ensures m.fetch == Fetched(m.status)
    ensures m.status == NoData <==> m.points == 0
    ensures m.stats.stddev.None? <==> FieldValues(rows, info.fieldName) == []
  {
    var count := CountOf(signalStats, info.fieldName);
    var stats := StatsOf(FieldValues(rows, info.fieldName), stdev, round);
    var coverage := Coverage(count, expectedSlots, round);
    var status := SignalStatus(count, stats, coverage, info.fieldName);
    SignalMeta(info.signalId, info.fieldName, info.unit, info.fieldName in coreSignals, Fetched(status), status,
               info.currentValue, count, coverage, stats)
  }

  function CoreSignals(isBuilding: bool): set<string>
  {
    if isBuilding then {"outdoor_temperature"} else HouseCoreSignals
  }

  /** The metadata of the signals, by Arrigo name; a later signal of the same name replaces an earlier one. */
  function Metadata(signals: seq<SignalInfo>, rows: seq<Fields>, signalStats: map<string, nat>, expectedSlots: nat,
                    coreSignals: set<string>, stdev: Stdev, round: Round): (meta: map<string, SignalMeta>)
    ensures forall name :: name in meta <==> exists s :: s in signals && s.arrigoName == name
    ensures forall name :: name in meta ==> meta[name].fetch == Fetched(meta[name].status)
    ensures signals != [] ==>
      var last := signals[|signals| - 1];
      meta[last.arrigoName] == MetaOf(last, rows, signalStats, expectedSlots, coreSignals, stdev, round)
  {
    if signals == [] then map[]
    else
      var n := |signals| - 1;
      assert signals == signals[..n] + [signals[n]];
      var info := signals[n];
      Metadata(signals[..n], rows, signalStats, expectedSlots, coreSignals, stdev, round)[
        info.arrigoName := MetaOf(info, rows, signalStats, expectedSlots, coreSignals, stdev, round)]
  }

  lemma MetadataStep(signals: seq<SignalInfo>, i: nat, rows: seq<Fields>, signalStats: map<string, nat>,
                     expectedSlots: nat, coreSignals: set<string>, stdev: Stdev, round: Round)
    requires i < |signals|
    ensures Metadata(signals[..i + 1], rows, signalStats, expectedSlots, coreSignals, stdev, round) ==
      Metadata(signals[..i], rows, signalStats, expectedSlots, coreSignals, stdev, round)[
        signals[i].arrigoName := MetaOf(signals[i], rows, signalStats, expectedSlots, coreSignals, stdev, round)]
  {
    assert signals[..i + 1][..i] == signals[..i];
  }

  /** `_save_signal_metadata`: the loop over the discovered signals building their entries. */
  method SaveSignalMetadata(signals: seq<SignalInfo>, rows: seq<Fields>, signalStats: map<string, nat>,
                            days: nat, resolutionMinutes: nat, isBuilding: bool, stdev: Stdev, round: Round)
    returns (meta: map<string, SignalMeta>)
    requires resolutionMinutes > 0
    ensures meta == Metadata(signals, rows, signalStats, ExpectedSlots(days, resolutionMinutes),
                             CoreSignals(isBuilding), stdev, round)
  {
    var coreSignals := CoreSignals(isBuilding);
    var expectedSlots := ExpectedSlots(days, resolutionMinutes);
    meta := map[];
    for i := 0 to |signals|
      invariant meta == Metadata(signals[..i], rows, signalStats, expectedSlots, coreSignals, stdev, round)
    {
      MetadataStep(signals, i, rows, signalStats, expectedSlots, coreSignals, stdev, round);
      var info := signals[i];
      meta := meta[info.arrigoName := MetaOf(info, rows, signalStats, expectedSlots, coreSignals, stdev, round)];
    }
    assert signals[..|signals|] == signals;
  }
}
