/**
 * HomeSide heat-curve control: taking over a house's heat curve by saving
 * the current override curve (the writable `Cwl.Advise.A[64..73]` layer)
 * as a baseline and writing a desired curve, and handing control back by
 * writing the baseline again.
 *
 * The HomeSide API is an input: the variables it returned (`None` when the
 * read failed) and `accepts`, whether it accepts a write of a value to an
 * advise index. The profile's heat-curve control record is an object both
 * this controller and the profile share.
 */
module HomeSide {
  import opened Common

  const CurvePointCount := 10

  /** The outdoor temperature of curve point 1..10: -30 to +15 in steps of 5. */
  function CurveOutdoorTemp(point: int): int
    requires 1 <= point <= CurvePointCount
  {
    -35 + 5 * point
  }

  /** `POINT_TO_ADVISE_INDEX`: point `p` is written at `Cwl.Advise.A[63 + p]`. */
  function PointToAdviseIndex(point: int): Option<int>
  {
    if 1 <= point <= CurvePointCount then Some(63 + point) else None
  }

  /** `ADVISE_INDEX_TO_POINT`, the inverted dictionary. */
  function AdviseIndexToPoint(index: int): Option<int>
  {
    if 64 <= index <= 73 then Some(index - 63) else None
  }

  /** The two tables are inverse bijections between points 1..10 and indices 64..73. */
  lemma AdviseIndexBijection(point: int, index: int)
    ensures PointToAdviseIndex(point) == Some(index) <==> AdviseIndexToPoint(index) == Some(point)
    ensures PointToAdviseIndex(point).Some? <==> 1 <= point <= 10
    ensures AdviseIndexToPoint(index).Some? <==> 64 <= index <= 73
  {
  }

  function AdvisePath(index: int): string
  {
    "Cwl.Advise.A[" + IntToString(index) + "]"
  }

  function YrefName(point: int): string
  {
    "KU_VS1_GT_TILL_1_Yref" + IntToString(point)
  }

  /** The path a curve point's override value is read from. */
  function PointPath(point: int): string
  {
    AdvisePath(63 + point)
  }

  // ---------------------------------------------------------------------
  // Reading the baseline
  // ---------------------------------------------------------------------

  /** One variable of a heating-data response. */
  datatype Variable = Variable(name: string, path: string, value: Option<real>)

  /** The text after the last dot, or all of it when there is none. */
  function LastSegment(s: string): (r: string)
    ensures |r| <= |s| && r == s[|s| - |r|..]
    ensures forall k :: 0 <= k < |r| ==> r[k] != '.'
  {
    if s == [] then []
    else if s[|s| - 1] == '.' then []
    else
      var front := LastSegment(s[..|s| - 1]);
      assert s[..|s| - 1][|s| - 1 - |front|..] == s[|s| - 1 - |front|..|s| - 1];
      front + [s[|s| - 1]]
  }

  /**
   * `_parse_variables`: values by short name and by path, later variables
   * winning; variables without a value are left out, and so are empty
   * paths.
   */
  function ParseVariables(vars: seq<Variable>): (r: (map<string, real>, map<string, real>))
    ensures forall p :: p in r.1 ==> p != []
    ensures forall k :: 0 <= k < |vars| && vars[k].value.Some? ==> LastSegment(vars[k].name) in r.0
    ensures forall k :: 0 <= k < |vars| && vars[k].value.Some? && vars[k].path != [] ==> vars[k].path in r.1
  {
    if vars == [] then (map[], map[])
    else
      var (short, byPath) := ParseVariables(vars[..|vars| - 1]);
      assert forall k :: 0 <= k < |vars| - 1 ==> vars[..|vars| - 1][k] == vars[k];
      var v := vars[|vars| - 1];
      if v.value.None? then (short, byPath)
      else
        (short[LastSegment(v.name) := v.value.value],
         if v.path != [] then byPath[v.path := v.value.value] else byPath)
  }

  /** A stored curve: (point index as text, supply temperature), in dictionary order. */
  type Curve = seq<(string, real)>

  /**
   * The points 1..n whose name (`nameOf`) has a value in `lookup`, keyed by
   * the point's text, in point order.
   */
  function PointsUpTo(lookup: map<string, real>, nameOf: int -> string, n: nat): (c: Curve)
    ensures |c| <= n
  {
    if n == 0 then []
    else
      var c := PointsUpTo(lookup, nameOf, n - 1);
      if nameOf(n) in lookup then c + [(IntToString(n), lookup[nameOf(n)])] else c
  }

  /**
   * Every entry names a point 1..10 by its text, and its value is what
   * `lookup` holds under that point's name.
   */
  ghost predicate ReadFrom(c: Curve, lookup: map<string, real>, nameOf: int -> string)
  {
    forall k :: 0 <= k < |c| ==>
      && ParseInt(c[k].0).Some? && 1 <= ParseInt(c[k].0).value <= CurvePointCount
      && nameOf(ParseInt(c[k].0).value) in lookup && lookup[nameOf(ParseInt(c[k].0).value)] == c[k].1
  }

  lemma {:induction false} PointsUpToReadFrom(lookup: map<string, real>, nameOf: int -> string, n: nat)
    requires n <= CurvePointCount
    ensures ReadFrom(PointsUpTo(lookup, nameOf, n), lookup, nameOf)
    ensures forall i :: 1 <= i <= n && nameOf(i) in lookup ==>
      (IntToString(i), lookup[nameOf(i)]) in PointsUpTo(lookup, nameOf, n)
  {
    if n > 0 {
      PointsUpToReadFrom(lookup, nameOf, n - 1);
      ParseIntToString(n);
    }
  }

  /** What `read_baseline` stores. */
  datatype Baseline = Baseline(curve: Curve, yref: Curve, adaption: Option<bool>, adaptTime: Option<real>,
                               adaptDelay: Option<real>)

  /**
   * `read_baseline`: the override curve, the underlying Yref curve and the
   * adaption settings; `None` when the read failed or no override point
   * was present.
   */
  function ReadBaseline(response: Option<seq<Variable>>): (b: Option<Baseline>)
    ensures b.Some? ==> b.value.curve != [] && |b.value.curve| <= CurvePointCount
  {
    match response
    case None => None
    case Some(vars) =>
      var (short, byPath) := ParseVariables(vars);
      var curve := PointsUpTo(byPath, PointPath, CurvePointCount);
      if curve == [] then None
      else
        var adaptionName := "KU_VS1_GT_TILL_1_Adaption";
        Some(Baseline(curve, PointsUpTo(short, YrefName, CurvePointCount),
                      if adaptionName in short then Some(short[adaptionName] != 0.0) else None,
                      if "KU_VS1_GT_TILL_1_AdaptTime" in short then Some(short["KU_VS1_GT_TILL_1_AdaptTime"]) else None,
                      if "KU_VS1_GT_TILL_1_AdaptDelay" in short then Some(short["KU_VS1_GT_TILL_1_AdaptDelay"]) else None))
  }

  /**
   * A baseline's override curve holds exactly the points whose advise
   * path had a value, each with the value read there.
   */
  lemma ReadBaselineMeaning(vars: seq<Variable>)
    requires ReadBaseline(Some(vars)).Some?
    ensures var byPath := ParseVariables(vars).1;
      && ReadFrom(ReadBaseline(Some(vars)).value.curve, byPath, PointPath)
      && (forall i :: 1 <= i <= CurvePointCount && PointPath(i) in byPath ==>
            (IntToString(i), byPath[PointPath(i)]) in ReadBaseline(Some(vars)).value.curve)
  {
    PointsUpToReadFrom(ParseVariables(vars).1, PointPath, CurvePointCount);
  }

  // ---------------------------------------------------------------------
  // Curve writes
  // ---------------------------------------------------------------------

  /**
   * The writes `enter_control` sends for a desired curve: each valid
   * point, in order, to its advise index; other points are skipped.
   */
  function DesiredWrites(desired: seq<(int, real)>): (w: seq<(int, real)>)
    ensures |w| <= |desired|
    ensures forall k :: 0 <= k < |w| ==> 64 <= w[k].0 <= 73
  {
    if desired == [] then []
    else
      var (point, temp) := desired[|desired| - 1];
      DesiredWrites(desired[..|desired| - 1]) +
        (match PointToAdviseIndex(point) case Some(index) => [(index, temp)] case None => [])
  }

  /** The number of writes the API accepts. */
  function Accepted(writes: seq<(int, real)>, accepts: (int, real) -> bool): (n: nat)
    ensures n <= |writes|
  {
    if writes == [] then 0
    else Accepted(writes[..|writes| - 1], accepts) + (if accepts(writes[|writes| - 1].0, writes[|writes| - 1].1) then 1 else 0)
  }

  lemma DesiredWritesStep(desired: seq<(int, real)>, k: nat)
    requires k < |desired|
    ensures DesiredWrites(desired[..k + 1]) ==
      DesiredWrites(desired[..k]) + (match PointToAdviseIndex(desired[k].0) case Some(index) => [(index, desired[k].1)] case None => [])
  {
    assert desired[..k + 1][..k] == desired[..k];
  }

  lemma AcceptedSnoc(writes: seq<(int, real)>, w: (int, real), accepts: (int, real) -> bool)
    ensures Accepted(writes + [w], accepts) == Accepted(writes, accepts) + (if accepts(w.0, w.1) then 1 else 0)
  {
    assert (writes + [w])[..|writes|] == writes;
  }

  /**
   * The writes `exit_control` sends for a stored curve, and whether it
   * raised: a key that is not an integer raises and stops the loop, an
   * integer outside 1..10 is skipped.
   */
  function RestoreWrites(curve: Curve): (r: (seq<(int, real)>, bool))
    ensures |r.0| <= |curve|
  {
    if curve == [] then ([], false)
    else
      var (writes, raised) := RestoreWrites(curve[..|curve| - 1]);
      if raised then (writes, true)
      else
        var (key, temp) := curve[|curve| - 1];
        match ParseInt(key)
        case None => (writes, true)
        case Some(point) =>
          if 1 <= point <= CurvePointCount then (writes + [(63 + point, temp)], false) else (writes, false)
  }

  /**
   * Restoring a curve that was read from the advise layer raises nothing
   * and writes each point back to the address it was read from, with the
   * value read there.
   */
  lemma {:induction false} RestoreWritesReadValues(curve: Curve, byPath: map<string, real>)
    requires ReadFrom(curve, byPath, PointPath)
    ensures !RestoreWrites(curve).1 && |RestoreWrites(curve).0| == |curve|
    ensures forall k :: 0 <= k < |curve| ==> RestoreWrites(curve).0[k].1 == curve[k].1
    ensures forall k :: 0 <= k < |curve| ==>
      AdvisePath(RestoreWrites(curve).0[k].0) in byPath
      && byPath[AdvisePath(RestoreWrites(curve).0[k].0)] == RestoreWrites(curve).0[k].1
  {
    RestoreWritesPoints(curve);
    forall k | 0 <= k < |curve|
      ensures AdvisePath(RestoreWrites(curve).0[k].0) in byPath
              && byPath[AdvisePath(RestoreWrites(curve).0[k].0)] == RestoreWrites(curve).0[k].1
    {
      RestoreWriteReadAt(curve, byPath, k, RestoreWrites(curve).0);
    }
  }

  lemma RestoreWriteReadAt(curve: Curve, byPath: map<string, real>, k: nat, writes: seq<(int, real)>)
    requires ReadFrom(curve, byPath, PointPath) && k < |curve| && |writes| == |curve|
    requires writes[k] == (63 + ParseInt(curve[k].0).value, curve[k].1)
    ensures AdvisePath(writes[k].0) in byPath && byPath[AdvisePath(writes[k].0)] == writes[k].1
  {
    var point := ParseInt(curve[k].0).value;
    assert AdvisePath(writes[k].0) == PointPath(point);
  }

  /** A curve whose every key names a point 1..10 is written back point by point, in order. */
  lemma {:induction false} RestoreWritesPoints(curve: Curve)
    requires forall k :: 0 <= k < |curve| ==> ParseInt(curve[k].0).Some? && 1 <= ParseInt(curve[k].0).value <= CurvePointCount
    ensures !RestoreWrites(curve).1 && |RestoreWrites(curve).0| == |curve|
    ensures forall k :: 0 <= k < |curve| ==> RestoreWrites(curve).0[k] == (63 + ParseInt(curve[k].0).value, curve[k].1)
  {
    if curve != [] {
      var n := |curve| - 1;
      var front := curve[..n];
      forall k | 0 <= k < n ensures front[k] == curve[k] { }
      RestoreWritesPoints(front);
      var before := RestoreWrites(front).0;
      assert RestoreWrites(curve).0 == before + [(63 + ParseInt(curve[n].0).value, curve[n].1)];
      forall k | 0 <= k < |curve| ensures RestoreWrites(curve).0[k] == (63 + ParseInt(curve[k].0).value, curve[k].1) {
        if k < n {
          assert front[k] == curve[k];
        }
      }
    }
  }

  /** The baseline a successful read produced restores exactly what was read. */
  lemma BaselineRestoresWhatWasRead(vars: seq<Variable>)
    requires ReadBaseline(Some(vars)).Some?
    ensures var curve := ReadBaseline(Some(vars)).value.curve;
      && !RestoreWrites(curve).1 && |RestoreWrites(curve).0| == |curve|
      && forall k :: 0 <= k < |curve| ==>
           var (index, temp) := RestoreWrites(curve).0[k];
           AdvisePath(index) in ParseVariables(vars).1 && ParseVariables(vars).1[AdvisePath(index)] == temp
  {
    ReadBaselineMeaning(vars);
    RestoreWritesReadValues(ReadBaseline(Some(vars)).value.curve, ParseVariables(vars).1);
  }

  /** `format_curve`: (outdoor temperature, supply temperature) per present point, coldest first. */
  function FormatCurve(curve: map<string, real>): (lines: seq<(int, real)>)
    ensures |lines| <= CurvePointCount
    ensures forall k :: 0 <= k < |lines| - 1 ==> lines[k].0 < lines[k + 1].0
    ensures forall point :: 1 <= point <= CurvePointCount && IntToString(point) in curve ==>
      (CurveOutdoorTemp(point), curve[IntToString(point)]) in lines
    ensures forall k :: 0 <= k < |lines| ==> PresentLine(curve, CurvePointCount, lines[k])
  {
    FormatOnlyPresent(curve, CurvePointCount);
    FormatFrom(curve, CurvePointCount)
  }

  function FormatFrom(curve: map<string, real>, n: nat): (lines: seq<(int, real)>)
    requires n <= CurvePointCount
    ensures |lines| <= n
    ensures forall k :: 0 <= k < |lines| ==> -30 <= lines[k].0 <= CurveOutdoorTemp(if n == 0 then 1 else n)
    ensures forall k :: 0 <= k < |lines| - 1 ==> lines[k].0 < lines[k + 1].0
    ensures forall point :: 1 <= point <= n && IntToString(point) in curve ==>
      (CurveOutdoorTemp(point), curve[IntToString(point)]) in lines
  {
    if n == 0 then []
    else
      var lines := FormatFrom(curve, n - 1);
      if IntToString(n) in curve then lines + [(CurveOutdoorTemp(n), curve[IntToString(n)])] else lines
  }

  /** `line` is the line of one of the first `n` points present in the curve. */
  predicate PresentLine(curve: map<string, real>, n: nat, line: (int, real))
    requires n <= CurvePointCount
  {
    exists point :: 1 <= point <= n && IntToString(point) in curve &&
                    line == (CurveOutdoorTemp(point), curve[IntToString(point)])
  }

  /** Every formatted line is a present point of the first `n` with its stored value. */
  lemma {:induction false} FormatOnlyPresent(curve: map<string, real>, n: nat)
    requires n <= CurvePointCount
    ensures forall k :: 0 <= k < |FormatFrom(curve, n)| ==> PresentLine(curve, n, FormatFrom(curve, n)[k])
  {
    if n > 0 {
      FormatOnlyPresent(curve, n - 1);
      var lines := FormatFrom(curve, n - 1);
      forall k | 0 <= k < |FormatFrom(curve, n)|
        ensures PresentLine(curve, n, FormatFrom(curve, n)[k])
      {
        if k < |lines| {
          assert PresentLine(curve, n - 1, lines[k]);
          var point :| 1 <= point <= n - 1 && IntToString(point) in curve &&
                       lines[k] == (CurveOutdoorTemp(point), curve[IntToString(point)]);
          assert FormatFrom(curve, n)[k] == lines[k];
        } else {
          assert FormatFrom(curve, n)[k] == (CurveOutdoorTemp(n), curve[IntToString(n)]);
        }
      }
    }
  }

  // ---------------------------------------------------------------------
  // Entering and leaving control
  // ---------------------------------------------------------------------

  /** The profile's heat-curve control record. */
  class ControlRecord {
    var inControl: bool
    var enteredAt: Option<int>
    var reason: Option<string>
    var baseline: Option<Baseline>

    constructor ()
      ensures !inControl && enteredAt.None? && reason.None? && baseline.None?
    {
      inControl := false;
      enteredAt := None;
      reason := None;
      baseline := None;
    }
  }

  /** What `exit_control` ends with: a returned success flag, or the error a bad key raised. */
  datatype ExitOutcome = Returned(ok: bool) | Raised

  /** `get_status`. */
  datatype Status = Status(inControl: bool, enteredAt: Option<int>, reason: Option<string>, hasBaseline: bool,
                           baselineAdaption: Option<Option<bool>>, baselinePoints: Option<nat>)

  class HomeSideControl {
    const ctrl: ControlRecord

    constructor (ctrl: ControlRecord)
      ensures this.ctrl == ctrl
    {
      this.ctrl := ctrl;
    }

    /** The write loop of `enter_control`: returns the writes sent and how many were accepted. */
    method WriteDesiredCurve(desired: seq<(int, real)>, accepts: (int, real) -> bool)
      returns (writes: seq<(int, real)>, successCount: nat, failCount: nat)
      ensures writes == DesiredWrites(desired)
      ensures successCount == Accepted(writes, accepts) && successCount + failCount == |writes|
    {
      writes := [];
      successCount := 0;
      failCount := 0;
      for k := 0 to |desired|
        invariant writes == DesiredWrites(desired[..k])
        invariant successCount == Accepted(writes, accepts) && successCount + failCount == |writes|
      {
        DesiredWritesStep(desired, k);
        var (point, temp) := desired[k];
        if point !in {1, 2, 3, 4, 5, 6, 7, 8, 9, 10} {
          continue;
        }
        var index := 63 + point;
        AcceptedSnoc(writes, (index, temp), accepts);
        writes := writes + [(index, temp)];
        if accepts(index, temp) {
          successCount := successCount + 1;
        } else {
          failCount := failCount + 1;
        }
      }
      assert desired[..|desired|] == desired;
    }

    /**
     * `enter_control`: refused when already in control or when the
     * baseline cannot be read; otherwise the baseline is saved and the
     * desired curve written, and control is taken only if at least one
     * point was accepted.
     */
    method EnterControl(desired: seq<(int, real)>, reason: string, response: Option<seq<Variable>>,
                        accepts: (int, real) -> bool, now: int)
      returns (entered: bool, writes: seq<(int, real)>)
      modifies ctrl
      ensures old(ctrl.inControl) ==> !entered && writes == [] && unchanged(ctrl)
      ensures !old(ctrl.inControl) && ReadBaseline(response).None? ==> !entered && writes == [] && unchanged(ctrl)
      ensures !old(ctrl.inControl) && ReadBaseline(response).Some? ==>
        && ctrl.baseline == ReadBaseline(response)
        && writes == DesiredWrites(desired)
        && (entered <==> Accepted(writes, accepts) > 0)
        && (entered ==> ctrl.inControl && ctrl.enteredAt == Some(now) && ctrl.reason == Some(reason))
        && (!entered ==> !ctrl.inControl && ctrl.enteredAt == old(ctrl.enteredAt) && ctrl.reason == old(ctrl.reason))
    {
      if ctrl.inControl {
        return false, [];
      }
      var baseline := ReadBaseline(response);
      if baseline.None? {
        return false, [];
      }
      ctrl.baseline := baseline;
      var successCount, failCount;
      writes, successCount, failCount := WriteDesiredCurve(desired, accepts);
      if successCount == 0 {
        return false, writes;
      }
      ctrl.inControl := true;
      ctrl.enteredAt := Some(now);
      ctrl.reason := Some(reason);
      entered := true;
    }

    /** The restore loop of `exit_control`. */
    method RestoreCurve(curve: Curve, accepts: (int, real) -> bool)
      returns (writes: seq<(int, real)>, raised: bool, failCount: nat)
      ensures (writes, raised) == RestoreWrites(curve)
      ensures !raised ==> failCount == |writes| - Accepted(writes, accepts)
    {
      writes := [];
      failCount := 0;
      var successCount := 0;
      for k := 0 to |curve|
        invariant (writes, false) == RestoreWrites(curve[..k])
        invariant successCount == Accepted(writes, accepts) && successCount + failCount == |writes|
      {
        assert curve[..k + 1][..k] == curve[..k];
        var (key, temp) := curve[k];
        var point := ParseInt(key);
        if point.None? {
          RaisedStaysRaised(curve, k + 1);
          assert curve[..|curve|] == curve;
          return writes, true, failCount;
        }
        if !(1 <= point.value <= CurvePointCount) {
          continue;
        }
        var index := 63 + point.value;
        AcceptedSnoc(writes, (index, temp), accepts);
        writes := writes + [(index, temp)];
        if accepts(index, temp) {
          successCount := successCount + 1;
        } else {
          failCount := failCount + 1;
        }
      }
      assert curve[..|curve|] == curve;
      raised := false;
    }

    /**
     * `exit_control`: nothing to do when not in control; a failure without
     * a stored baseline curve; otherwise the baseline curve is written
     * back, control is released, and it succeeds when no write failed.
     */
    method ExitControl(accepts: (int, real) -> bool) returns (outcome: ExitOutcome, writes: seq<(int, real)>)
      modifies ctrl
      ensures !old(ctrl.inControl) ==> outcome == Returned(true) && writes == [] && unchanged(ctrl)
      ensures old(ctrl.inControl) && (old(ctrl.baseline).None? || old(ctrl.baseline).value.curve == []) ==>
        outcome == Returned(false) && writes == [] && unchanged(ctrl)
      ensures old(ctrl.inControl) && old(ctrl.baseline).Some? && old(ctrl.baseline).value.curve != [] ==>
        var (restored, raised) := RestoreWrites(old(ctrl.baseline).value.curve);
        && writes == restored
        && (raised ==> outcome == Raised && unchanged(ctrl))
        && (!raised ==> outcome == Returned(Accepted(writes, accepts) == |writes|)
                        && !ctrl.inControl && ctrl.enteredAt.None? && ctrl.reason.None?
                        && ctrl.baseline == old(ctrl.baseline))
    {
      if !ctrl.inControl {
        return Returned(true), [];
      }
      if ctrl.baseline.None? || ctrl.baseline.value.curve == [] {
        return Returned(false), [];
      }
      var raised, failCount;
      writes, raised, failCount := RestoreCurve(ctrl.baseline.value.curve, accepts);
      if raised {
        return Raised, writes;
      }
      ctrl.inControl := false;
      ctrl.enteredAt := None;
      ctrl.reason := None;
      outcome := Returned(failCount == 0);
    }

    function GetStatus(): (s: Status)
      reads ctrl
      ensures s.hasBaseline ==> ctrl.baseline.Some? && ctrl.baseline.value.yref != []
      ensures s.baselinePoints.Some? <==> ctrl.baseline.Some?
    {
      Status(ctrl.inControl, ctrl.enteredAt, ctrl.reason,
             ctrl.baseline.Some? && ctrl.baseline.value.yref != [],
             if ctrl.baseline.Some? then Some(ctrl.baseline.value.adaption) else None,
             if ctrl.baseline.Some? then Some(|ctrl.baseline.value.curve|) else None)
    }
  }

  /** Once a key has raised, later entries change nothing. */
  lemma {:induction false} RaisedStaysRaised(curve: Curve, k: nat)
    requires 0 < k <= |curve| && RestoreWrites(curve[..k]).1
    ensures RestoreWrites(curve) == RestoreWrites(curve[..k])
    decreases |curve| - k
  {
    if k < |curve| {
      assert curve[..k + 1][..k] == curve[..k];
      RaisedStaysRaised(curve, k + 1);
    } else {
      assert curve[..k] == curve;
    }
  }
}
