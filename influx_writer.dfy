/**
 * The InfluxDB writer's decision logic: the circuit breaker that stops
 * writes after repeated failures and retries after a cooldown, the field
 * encoding of the stored heat-curve baseline, and the value-aware
 * deduplication of energy records.
 *
 * Times are seconds of a monotonic clock supplied by the caller; the
 * health check of a reconnect and the dedup query are inputs.
 */
module InfluxWriting {
  import opened Common

  // ---------------------------------------------------------------------
  // Circuit breaker
  // ---------------------------------------------------------------------

  /** The breaker's state: writing enabled, consecutive failures, circuit-open time. */
  datatype Breaker = Breaker(enabled: bool, failures: int, openTime: Option<int>)

  const DefaultThreshold := 3
  const DefaultCooldownSeconds := 60

  /**
   * `_log_influx_error`: one more consecutive failure; the circuit opens
   * (at `now`) exactly when the count reaches the threshold and it is not
   * open already.
   */
  function ErrorStep(b: Breaker, threshold: int, now: int): (r: Breaker)
    ensures r.failures == b.failures + 1 && r.enabled == b.enabled
    ensures r.openTime != b.openTime <==> (r.failures == threshold && b.openTime.None?)
    ensures r.openTime != b.openTime ==> r.openTime == Some(now)
  {
    var failures := b.failures + 1;
    if failures == threshold && b.openTime.None? then Breaker(b.enabled, failures, Some(now))
    else b.(failures := failures)
  }

  /** `_log_influx_success`: any failure streak ends and the circuit closes. */
  function SuccessStep(b: Breaker): (r: Breaker)
    ensures b.failures > 0 ==> r == Breaker(b.enabled, 0, None)
    ensures b.failures <= 0 ==> r == b
  {
    if b.failures > 0 then Breaker(b.enabled, 0, None) else b
  }

  /**
   * `_should_write` at time `now`; `reconnectHealthy` is the outcome of
   * the reconnect attempted once the cooldown has passed.
   */
  function ShouldWriteStep(b: Breaker, threshold: int, cooldown: int, now: int, reconnectHealthy: bool)
    : (r: (Breaker, bool))
    ensures !b.enabled ==> r == (b, false)
    ensures b.enabled && b.failures < threshold ==> r == (b, true)
    ensures b.enabled && b.failures >= threshold && b.openTime.Some? && now - b.openTime.value < cooldown ==>
      r == (b, false)
    ensures b.enabled && b.failures >= threshold && b.openTime.None? && cooldown > 0 ==>
      r == (b.(openTime := Some(now)), false)
    ensures r.1 && b.enabled && b.failures >= threshold ==> r.0 == Breaker(true, 0, None)
    ensures !r.1 && b.enabled && b.failures >= threshold ==> r.0.openTime.Some?
  {
    if !b.enabled then (b, false)
    else if b.failures < threshold then (b, true)
    else
      var openAt := if b.openTime.None? then Some(now) else b.openTime;
      if now - openAt.value < cooldown then (b.(openTime := openAt), false)
      else if reconnectHealthy then (Breaker(true, 0, None), true)
      else (b.(openTime := Some(now)), false)
  }

  /** A reconnect that fails after the cooldown restarts the cooldown at `now`. */
  lemma FailedReconnectRestartsCooldown(b: Breaker, threshold: int, cooldown: int, now: int)
    requires b.enabled && b.failures >= threshold && b.openTime.Some? && now - b.openTime.value >= cooldown
    ensures ShouldWriteStep(b, threshold, cooldown, now, false) == (b.(openTime := Some(now)), false)
    ensures cooldown > 0 ==>
      ShouldWriteStep(b.(openTime := Some(now)), threshold, cooldown, now, true).1 == false
  {
  }

  /** `n` consecutive failures, all logged at `now`. */
  function Errors(b: Breaker, threshold: int, now: int, n: nat): Breaker
  {
    if n == 0 then b else ErrorStep(Errors(b, threshold, now, n - 1), threshold, now)
  }

  lemma {:induction false} ErrorsBelowThreshold(b: Breaker, threshold: int, now: int, n: nat)
    requires b.failures == 0 && b.openTime.None?
    requires n < threshold
    ensures Errors(b, threshold, now, n) == b.(failures := n)
  {
    if n > 0 {
      ErrorsBelowThreshold(b, threshold, now, n - 1);
    }
  }

  /**
   * From a closed breaker, `threshold` failures open the circuit at the
   * time of the last one, and until the cooldown has passed no write is
   * allowed, whatever a reconnect would report.
   */
  lemma ThresholdFailuresBlockWrites(b: Breaker, threshold: int, cooldown: int, now: int, later: int,
                                     reconnectHealthy: bool)
    requires b.enabled && b.failures == 0 && b.openTime.None?
    requires threshold >= 1 && now <= later < now + cooldown
    ensures Errors(b, threshold, now, threshold) == Breaker(true, threshold, Some(now))
    ensures ShouldWriteStep(Errors(b, threshold, now, threshold), threshold, cooldown, later, reconnectHealthy)
      == (Breaker(true, threshold, Some(now)), false)
  {
    ErrorsBelowThreshold(b, threshold, now, threshold - 1);
  }

  // ---------------------------------------------------------------------
  // Heat-curve baseline fields
  // ---------------------------------------------------------------------

  /** The field name of curve point `index`: `y_<index>`. */
  function CurveFieldName(index: int): (name: string)
    ensures |name| >= 3 && name[..2] == "y_"
  {
    "y_" + IntToString(index)
  }

  /** Python's `s.replace('y_', '')`: every occurrence removed, left to right. */
  function RemoveYPrefix(s: string): string
  {
    if |s| < 2 then s
    else if s[..2] == "y_" then RemoveYPrefix(s[2..])
    else [s[0]] + RemoveYPrefix(s[1..])
  }

  lemma {:induction false} RemoveYPrefixNoY(s: string)
    requires forall i :: 0 <= i < |s| ==> s[i] != 'y'
    ensures RemoveYPrefix(s) == s
  {
    if |s| >= 2 {
      assert s[..2] != "y_" by { assert s[0] != 'y'; }
      RemoveYPrefixNoY(s[1..]);
      assert s == [s[0]] + s[1..];
    }
  }

  lemma IntToStringHasNoY(i: int)
    ensures forall k :: 0 <= k < |IntToString(i)| ==> IntToString(i)[k] != 'y'
  {
    var digits := NatToString(if i < 0 then -i else i);
    assert forall k :: 0 <= k < |digits| ==> IsDigit(digits[k]);
    if i < 0 {
      assert IntToString(i) == "-" + digits;
      assert forall k :: 1 <= k < |IntToString(i)| ==> IntToString(i)[k] == digits[k - 1];
    }
  }

  /**
   * The curve index a stored field names: its text with every `y_`
   * removed, read as an integer; `None` where `int()` fails.
   */
  function CurveFieldIndex(key: string): Option<int>
  {
    ParseInt(RemoveYPrefix(key))
  }

  /** Encoding and decoding a curve index round-trips. */
  lemma CurveFieldRoundTrip(index: int)
    ensures CurveFieldIndex(CurveFieldName(index)) == Some(index)
  {
    var name := CurveFieldName(index);
    assert name[..2] == "y_" && name[2..] == IntToString(index);
    IntToStringHasNoY(index);
    RemoveYPrefixNoY(IntToString(index));
    ParseIntToString(index);
  }

  /** Distinct indices get distinct field names. */
  lemma CurveFieldNameInjective(i: int, j: int)
    requires CurveFieldName(i) == CurveFieldName(j)
    ensures i == j
  {
    CurveFieldRoundTrip(i);
    CurveFieldRoundTrip(j);
  }

  function StartsWithY(key: string): bool { |key| >= 2 && key[..2] == "y_" }

  /** The fields `write_heat_curve_baseline` stores, one per curve point in order. */
  function BaselineFields(curve: seq<(int, real)>): (fields: seq<(string, Option<real>)>)
    ensures |fields| == |curve|
    ensures forall k :: 0 <= k < |curve| ==> fields[k] == (CurveFieldName(curve[k].0), Some(curve[k].1))
  {
    seq(|curve|, k requires 0 <= k < |curve| => (CurveFieldName(curve[k].0), Some(curve[k].1)))
  }

  /** The dictionary built from pairs in order, later pairs winning. */
  function PairsToMap(curve: seq<(int, real)>): (m: map<int, real>)
    ensures forall k :: 0 <= k < |curve| ==> curve[k].0 in m
    ensures forall i :: i in m ==> exists k :: 0 <= k < |curve| && curve[k].0 == i
  {
    if curve == [] then map[]
    else
      var front := PairsToMap(curve[..|curve| - 1]);
      assert forall k :: 0 <= k < |curve| - 1 ==> curve[..|curve| - 1][k] == curve[k];
      front[curve[|curve| - 1].0 := curve[|curve| - 1].1]
  }

  /**
   * The loop of `read_heat_curve_baseline` over one record's fields:
   * each present `y_` field sets its index, later ones winning; `None`
   * when a field name is not an integer (the raised error is caught).
   */
  function ReadFields(fields: seq<(string, Option<real>)>): Option<map<int, real>>
  {
    if fields == [] then Some(map[])
    else
      match ReadFields(fields[..|fields| - 1])
      case None => None
      case Some(acc) =>
        var (key, value) := fields[|fields| - 1];
        if StartsWithY(key) && value.Some? then
          match CurveFieldIndex(key)
          case None => None
          case Some(index) => Some(acc[index := value.value])
        else Some(acc)
  }

  /** `read_heat_curve_baseline` on the latest record: no curve when it holds no `y_` value. */
  function ReadHeatCurveBaseline(fields: seq<(string, Option<real>)>): (r: Option<map<int, real>>)
    ensures r.Some? ==> |r.value| > 0
  {
    match ReadFields(fields)
    case Some(m) => if |m| > 0 then Some(m) else None
    case None => None
  }

  lemma {:induction false} ReadBaselineFields(curve: seq<(int, real)>)
    ensures ReadFields(BaselineFields(curve)) == Some(PairsToMap(curve))
  {
    if curve != [] {
      var n := |curve|;
      assert BaselineFields(curve)[..n - 1] == BaselineFields(curve[..n - 1]);
      ReadBaselineFields(curve[..n - 1]);
      CurveFieldRoundTrip(curve[n - 1].0);
    }
  }

  /**
   * Reading back what `write_heat_curve_baseline` stored gives the same
   * index-to-value curve (values are stored unrounded here).
   */
  lemma BaselineRoundTrip(curve: seq<(int, real)>)
    requires curve != []
    ensures ReadHeatCurveBaseline(BaselineFields(curve)) == Some(PairsToMap(curve))
  {
    ReadBaselineFields(curve);
    assert curve[0].0 in PairsToMap(curve);
  }

  // ---------------------------------------------------------------------
  // The writer object
  // ---------------------------------------------------------------------

  class InfluxWriter {
    const threshold: int
    const cooldown: int
    var enabled: bool
    var consecutiveFailures: int
    var circuitOpenTime: Option<int>

    constructor (enabled: bool, threshold: int, cooldown: int)
      ensures this.threshold == threshold && this.cooldown == cooldown
      ensures State() == Breaker(enabled, 0, None)
    {
      this.threshold := threshold;
      this.cooldown := cooldown;
      this.enabled := enabled;
      consecutiveFailures := 0;
      circuitOpenTime := None;
    }

    function State(): Breaker
      reads this
    {
      Breaker(enabled, consecutiveFailures, circuitOpenTime)
    }

    /** `_log_influx_error` at time `now`. */
    method LogInfluxError(now: int)
      modifies this
      ensures State() == ErrorStep(old(State()), threshold, now)
    {
      consecutiveFailures := consecutiveFailures + 1;
      if consecutiveFailures == threshold && circuitOpenTime.None? {
        circuitOpenTime := Some(now);
      }
    }

    /** `_log_influx_success`. */
    method LogInfluxSuccess()
      modifies this
      ensures State() == SuccessStep(old(State()))
    {
      if consecutiveFailures > 0 {
        consecutiveFailures := 0;
        circuitOpenTime := None;
      }
    }

    /** `_should_write` at time `now`, with the health of a reconnect if one is attempted. */
    method ShouldWrite(now: int, reconnectHealthy: bool) returns (allowed: bool)
      modifies this
      ensures (State(), allowed) == ShouldWriteStep(old(State()), threshold, cooldown, now, reconnectHealthy)
    {
      if !enabled {
        return false;
      }
      if consecutiveFailures < threshold {
        return true;
      }
      if circuitOpenTime.None? {
        circuitOpenTime := Some(now);
      }
      var elapsed := now - circuitOpenTime.value;
      if elapsed < cooldown {
        return false;
      }
      if reconnectHealthy {
        consecutiveFailures := 0;
        circuitOpenTime := None;
        return true;
      }
      circuitOpenTime := Some(now);
      return false;
    }

    /**
     * `write_heat_curve_baseline`: nothing is written when the breaker
     * says no or the curve is empty; otherwise the `y_` fields are sent
     * and `writeOk` is whether the write went through.
     */
    method WriteHeatCurveBaseline(curve: seq<(int, real)>, now: int, reconnectHealthy: bool, writeOk: bool)
      returns (written: bool, fields: seq<(string, Option<real>)>)
      modifies this
      ensures (State(), true) == ShouldWriteStep(old(State()), threshold, cooldown, now, reconnectHealthy)
              || (State(), false) == ShouldWriteStep(old(State()), threshold, cooldown, now, reconnectHealthy)
      ensures written <==> ShouldWriteStep(old(State()), threshold, cooldown, now, reconnectHealthy).1
                           && curve != [] && writeOk
      ensures written ==> fields == BaselineFields(curve)
    {
      var allowed := ShouldWrite(now, reconnectHealthy);
      if !allowed || curve == [] {
        return false, [];
      }
      fields := BaselineFields(curve);
      written := writeOk;
    }
  }

  // ---------------------------------------------------------------------
  // Energy-record deduplication
  // ---------------------------------------------------------------------

  /** A field value as it arrives from JSON-like records. */
  datatype FieldValue = IntValue(i: int) | FloatValue(f: real) | BoolValue(b: bool) | TextValue(s: string) | NoValue

  predicate IsNumeric(v: FieldValue) { v.IntValue? || v.FloatValue? }

  function NumericValue(v: FieldValue): real
    requires IsNumeric(v)
  {
    if v.IntValue? then v.i as real else v.f
  }

  const Tolerance := 0.001

  /** One field of a new record agrees with the stored values. */
  predicate FieldMatches(name: string, value: FieldValue, existing: map<string, real>, tolerance: real)
  {
    name == "timestamp" || !IsNumeric(value) ||
    (name in existing && Abs(NumericValue(value) - existing[name]) <= tolerance)
  }

  /**
   * `records_match`: every numeric, non-boolean field other than the
   * timestamp is stored and within the tolerance of the stored value.
   */
  predicate RecordsMatch(record: seq<(string, FieldValue)>, existing: map<string, real>, tolerance: real)
  {
    forall k :: 0 <= k < |record| ==> FieldMatches(record[k].0, record[k].1, existing, tolerance)
  }

  /** The loop of `records_match`, returning at the first field that does not match. */
  method RecordsMatchLoop(record: seq<(string, FieldValue)>, existing: map<string, real>, tolerance: real)
    returns (matches: bool)
    ensures matches <==> RecordsMatch(record, existing, tolerance)
  {
    for k := 0 to |record|
      invariant forall j :: 0 <= j < k ==> FieldMatches(record[j].0, record[j].1, existing, tolerance)
    {
      var (name, value) := record[k];
      if name == "timestamp" {
        continue;
      }
      if !IsNumeric(value) {
        continue;
      }
      if name !in existing {
        return false;
      }
      if Abs(NumericValue(value) - existing[name]) > tolerance {
        return false;
      }
    }
    return true;
  }

  /** Equal numeric fields always match; a numeric field missing from storage never does. */
  lemma RecordsMatchMeaning(record: seq<(string, FieldValue)>, existing: map<string, real>, tolerance: real,
                            k: nat)
    requires k < |record| && record[k].0 != "timestamp" && IsNumeric(record[k].1)
    ensures record[k].0 !in existing ==> !RecordsMatch(record, existing, tolerance)
    ensures tolerance >= 0.0 &&
      (forall j :: 0 <= j < |record| && IsNumeric(record[j].1) ==>
         record[j].0 in existing && existing[record[j].0] == NumericValue(record[j].1))
      ==> RecordsMatch(record, existing, tolerance)
  {
    if tolerance >= 0.0 &&
      (forall j :: 0 <= j < |record| && IsNumeric(record[j].1) ==>
         record[j].0 in existing && existing[record[j].0] == NumericValue(record[j].1)) {
      forall j | 0 <= j < |record|
        ensures FieldMatches(record[j].0, record[j].1, existing, tolerance)
      {
        if IsNumeric(record[j].1) {
          assert Abs(NumericValue(record[j].1) - existing[record[j].0]) == 0.0;
        }
      }
    }
  }

  datatype EnergyRecord = EnergyRecord(timestamp: int, fields: seq<(string, FieldValue)>)

  /** What `write_energy_records` does with one record given the stored data. */
  datatype Disposition = New | Skipped | Updated

  function Dispose(r: EnergyRecord, existing: map<int, map<string, real>>): Disposition
  {
    if r.timestamp in existing then
      if RecordsMatch(r.fields, existing[r.timestamp], Tolerance) then Skipped else Updated
    else New
  }

  function CountOf(records: seq<EnergyRecord>, existing: map<int, map<string, real>>, d: Disposition): (n: nat)
    ensures n <= |records|
  {
    if records == [] then 0
    else CountOf(records[..|records| - 1], existing, d)
         + (if Dispose(records[|records| - 1], existing) == d then 1 else 0)
  }

  /** The records that are sent: everything not skipped, in order. */
  function ToWrite(records: seq<EnergyRecord>, existing: map<int, map<string, real>>): seq<EnergyRecord>
  {
    if records == [] then []
    else
      var last := records[|records| - 1];
      ToWrite(records[..|records| - 1], existing) + (if Dispose(last, existing) != Skipped then [last] else [])
  }

  /**
   * Each record is exactly one of new, skipped or updated, and the records
   * written are the new and updated ones.
   */
  lemma {:induction false} CountsPartition(records: seq<EnergyRecord>, existing: map<int, map<string, real>>)
    ensures CountOf(records, existing, New) + CountOf(records, existing, Skipped)
            + CountOf(records, existing, Updated) == |records|
    ensures |ToWrite(records, existing)| == CountOf(records, existing, New) + CountOf(records, existing, Updated)
  {
    if records != [] {
      CountsPartition(records[..|records| - 1], existing);
    }
  }

  /**
   * The classification loop of `write_energy_records` against the stored
   * data `existing` (timestamp to numeric fields): returns the records to
   * write and the (new, skipped, updated) counts.
   */
  method WriteEnergyRecords(records: seq<EnergyRecord>, existing: map<int, map<string, real>>)
    returns (toWrite: seq<EnergyRecord>, newCount: nat, skipped: nat, updated: nat)
    ensures records == [] ==> newCount == 0 && skipped == 0 && updated == 0
    ensures newCount + skipped + updated == |records|
    ensures skipped == CountOf(records, existing, Skipped) && updated == CountOf(records, existing, Updated)
    ensures toWrite == ToWrite(records, existing)
  {
    toWrite := [];
    skipped := 0;
    updated := 0;
    for k := 0 to |records|
      invariant toWrite == ToWrite(records[..k], existing)
      invariant skipped == CountOf(records[..k], existing, Skipped)
      invariant updated == CountOf(records[..k], existing, Updated)
    {
      assert records[..k + 1][..k] == records[..k];
      var r := records[k];
      if r.timestamp in existing {
        var matches := RecordsMatchLoop(r.fields, existing[r.timestamp], Tolerance);
        if matches {
          skipped := skipped + 1;
        } else {
          toWrite := toWrite + [r];
          updated := updated + 1;
        }
      } else {
        toWrite := toWrite + [r];
      }
    }
    assert records[..|records|] == records;
    CountsPartition(records, existing);
    newCount := |toWrite| - updated;
  }
}
